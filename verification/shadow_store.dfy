/**
 The shadow store (a map from post instance to its delta), the read that
 `usePostShadow` performs on it, and `updatePostShadow`, which overlays a
 new delta on every cached instance of a URI and announces that URI.
 */
module ShadowStore {
  import opened Wrappers
  import opened Posts
  import opened ShadowDelta
  import opened Merge
  import opened CacheScan

  /** `shadows`: keyed by post-view object, not by URI. */
  type Store = map<InstanceId, Delta>

  /** `{...shadows.get(post)}`: the stored delta, or `{}` when there is none. */
  function Lookup(store: Store, id: InstanceId): Delta {
    if id in store then store[id] else NoChange
  }

  /** The value `usePostShadow` returns for `inst` once its state has caught
      up with the store: the post itself when it has no delta, otherwise the
      merge of the post with its delta. */
  function ReadPost(store: Store, inst: Instance): (r: ShadowResult)
    ensures inst.id !in store ==> r == View(inst.post)
    ensures r.Tombstone? <==> inst.id in store && IsDeleted(store[inst.id])
    ensures inst.id in store ==> r == MergeShadow(inst.post, store[inst.id])
  {
    if inst.id in store then MergeShadow(inst.post, store[inst.id]) else View(inst.post)
  }

  /** The ids of a sequence of instances. */
  function IdsOf(insts: seq<Instance>): set<InstanceId> {
    set i | i in insts :: i.id
  }

  /** The `for` loop of `updatePostShadow`: each yielded instance's delta
      becomes its old delta overlaid by `v`, in yield order. An instance
      yielded more than once ends as if yielded once. */
  function OverlayEach(store: Store, insts: seq<Instance>, v: Delta): (r: Store)
    ensures r.Keys == store.Keys + IdsOf(insts)
    ensures forall id :: id in IdsOf(insts) ==> r[id] == Overlay(Lookup(store, id), v)
    ensures forall id :: id in store && id !in IdsOf(insts) ==> r[id] == store[id]
    decreases |insts|
  {
    if |insts| == 0 then store
    else
      var id := insts[0].id;
      var next := store[id := Overlay(Lookup(store, id), v)];
      assert IdsOf(insts) == {id} + IdsOf(insts[1..]) by {
        assert insts == [insts[0]] + insts[1..];
      }
      OverlayIdempotent(Lookup(store, id), v);
      OverlayEach(next, insts[1..], v)
  }

  /** What an update leaves behind: the new store and the URI it announces. */
  datatype Update = Update(store: Store, announced: Uri)

  /** `updatePostShadow(queryClient, uri, v)`. Every instance with that URI
      in any read cache gets its delta overlaid by `v`; every other stored
      delta is left as it was; the URI is announced whether or not an
      instance was found. */
  function UpdatePostShadow(store: Store, caches: QueryCaches, uri: Uri, v: Delta): (r: Update)
    ensures r.announced == uri
    ensures r.store.Keys == store.Keys + IdsOf(CachedPosts(caches, uri))
    ensures forall i :: Holds(caches, i) && i.post.uri == uri ==>
      i.id in r.store && r.store[i.id] == Overlay(Lookup(store, i.id), v)
    ensures forall id :: id in store && id !in IdsOf(CachedPosts(caches, uri)) ==> r.store[id] == store[id]
  {
    var found := CachedPosts(caches, uri);
    assert forall i :: Holds(caches, i) && i.post.uri == uri ==> i.id in IdsOf(found) by {
      forall i | Holds(caches, i) && i.post.uri == uri
        ensures i.id in IdsOf(found)
      {
        assert i in found;
      }
    }
    Update(OverlayEach(store, found, v), uri)
  }

  /** Distinct cached instances with the same id are the same object. */
  ghost predicate ConsistentIds(caches: QueryCaches) {
    forall a, b :: Holds(caches, a) && Holds(caches, b) && a.id == b.id ==> a == b
  }

  /** Posts with another URI are untouched: an update for `uri` does not
      change what any cached instance of another URI shows. */
  lemma OtherUrisUntouched(store: Store, caches: QueryCaches, uri: Uri, v: Delta, inst: Instance)
    requires ConsistentIds(caches)
    requires Holds(caches, inst) && inst.post.uri != uri
    ensures Lookup(UpdatePostShadow(store, caches, uri, v).store, inst.id) == Lookup(store, inst.id)
    ensures ReadPost(UpdatePostShadow(store, caches, uri, v).store, inst) == ReadPost(store, inst)
  {
    var found := CachedPosts(caches, uri);
    assert inst.id !in IdsOf(found);
  }

  /** Last writer wins, field by field: two updates of the same URI leave the
      store the single update with their overlay would. */
  lemma UpdatesCompose(store: Store, caches: QueryCaches, uri: Uri, v1: Delta, v2: Delta)
    ensures UpdatePostShadow(UpdatePostShadow(store, caches, uri, v1).store, caches, uri, v2).store
         == UpdatePostShadow(store, caches, uri, Overlay(v1, v2)).store
  {
    var ids := IdsOf(CachedPosts(caches, uri));
    var s1 := UpdatePostShadow(store, caches, uri, v1).store;
    var s2 := UpdatePostShadow(s1, caches, uri, v2).store;
    var s3 := UpdatePostShadow(store, caches, uri, Overlay(v1, v2)).store;
    assert s2.Keys == s3.Keys;
    forall id | id in s2
      ensures s2[id] == s3[id]
    {
      if id in ids {
        OverlayAssociative(Lookup(store, id), v1, v2);
      }
    }
  }

  /** `isDeleted: true` is sticky: once an instance's delta is deleted, an
      update that does not carry the `isDeleted` key keeps it a tombstone,
      whatever else it sets. */
  lemma DeletionIsSticky(store: Store, caches: QueryCaches, uri: Uri, v: Delta, inst: Instance)
    requires inst.id in store && IsDeleted(store[inst.id])
    requires v.isDeleted.Absent?
    ensures ReadPost(UpdatePostShadow(store, caches, uri, v).store, inst) == Tombstone
  {
    var ids := IdsOf(CachedPosts(caches, uri));
    if inst.id in ids {
      assert Lookup(store, inst.id) == store[inst.id];
    }
  }

  /** Deleting a post turns every cached copy of it into the tombstone. */
  lemma DeleteReachesEveryCopy(store: Store, caches: QueryCaches, uri: Uri, v: Delta, inst: Instance)
    requires IsDeleted(v)
    requires Holds(caches, inst) && inst.post.uri == uri
    ensures ReadPost(UpdatePostShadow(store, caches, uri, v).store, inst) == Tombstone
  {
  }

  /** The delta `{likeUri: x}` or `{repostUri: x}`. */
  function SetRelation(rel: Relation, x: Option<Uri>): Delta {
    if rel == Like then NoChange.(likeUri := Present(x)) else NoChange.(repostUri := Present(x))
  }

  /** Toggle round trip: setting a relation to any URI and then back to the
      canonical viewer state shows the server's count and URI again, however
      many times it was toggled before, as long as the server's count is not
      negative and the post is not deleted. */
  lemma ToggleRoundTrip(store: Store, caches: QueryCaches, inst: Instance, rel: Relation, x: Option<Uri>)
    requires Holds(caches, inst)
    requires !IsDeleted(Lookup(store, inst.id))
    requires CountOrZero(RelationCount(inst.post, rel)) >= 0
    ensures
      var uri := inst.post.uri;
      var s1 := UpdatePostShadow(store, caches, uri, SetRelation(rel, x)).store;
      var s2 := UpdatePostShadow(s1, caches, uri, SetRelation(rel, ViewerUri(inst.post, rel))).store;
      && ReadPost(s2, inst).View?
      && RelationCount(ReadPost(s2, inst).post, rel) == Some(CountOrZero(RelationCount(inst.post, rel)))
      && ViewerUri(ReadPost(s2, inst).post, rel) == ViewerUri(inst.post, rel)
  {
    var uri := inst.post.uri;
    var s1 := UpdatePostShadow(store, caches, uri, SetRelation(rel, x)).store;
    var s2 := UpdatePostShadow(s1, caches, uri, SetRelation(rel, ViewerUri(inst.post, rel))).store;
    var d := s2[inst.id];
    assert d == Overlay(Overlay(Lookup(store, inst.id), SetRelation(rel, x)), SetRelation(rel, ViewerUri(inst.post, rel)));
    assert !IsDeleted(d);
    assert RelationField(d, rel) == Present(ViewerUri(inst.post, rel));
    BackToCanonical(inst.post, d, rel);
  }

  /** One unliked post with five likes, held once in the feed. */
  function ScenarioPost(): Instance {
    Instance(1, Post("at://alice/post/1", "cid", None, Some(5), Some(0), None, map[]))
  }

  /** Liking then unliking a post with five likes shows six, then five. */
  lemma LikeThenUnlikeScenario()
    ensures
      var p := ScenarioPost();
      var caches := QueryCaches([p], [], [], []);
      var s1 := UpdatePostShadow(map[], caches, p.post.uri, SetRelation(Like, Some("at://x/like/1"))).store;
      var s2 := UpdatePostShadow(s1, caches, p.post.uri, SetRelation(Like, None)).store;
      && ReadPost(s1, p) == View(p.post.(likeCount := Some(6), repostCount := Some(0),
                                         viewer := Some(Viewer(Some("at://x/like/1"), None, map[]))))
      && ReadPost(s2, p) == View(p.post.(likeCount := Some(5), repostCount := Some(0),
                                         viewer := Some(Viewer(None, None, map[]))))
  {
    var p := ScenarioPost();
    var caches := QueryCaches([p], [], [], []);
    assert Holds(caches, p);
  }

  /** Unliking an already-liked post whose count is zero shows zero, not -1. */
  lemma UnlikeClampsAtZeroScenario()
    ensures
      var p := Instance(2, Post("at://alice/post/2", "cid", None, Some(0), None,
                                Some(Viewer(Some("at://x/like/1"), None, map[])), map[]));
      var caches := QueryCaches([], [p], [], []);
      var s1 := UpdatePostShadow(map[], caches, p.post.uri, SetRelation(Like, None)).store;
      ReadPost(s1, p).View? && ReadPost(s1, p).post.likeCount == Some(0)
  {
    var p := Instance(2, Post("at://alice/post/2", "cid", None, Some(0), None,
                              Some(Viewer(Some("at://x/like/1"), None, map[])), map[]));
    var caches := QueryCaches([], [p], [], []);
    assert Holds(caches, p);
  }
}
