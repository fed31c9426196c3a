/**
 `mergeShadow`: combines a server-fetched post with its local delta into
 either the tombstone or the view the UI displays.
 */
module Merge {
  import opened Wrappers
  import opened Posts
  import opened ShadowDelta

  /** `POST_TOMBSTONE`, or a merged view of the post. */
  datatype ShadowResult = Tombstone | View(post: Post)

  function Indicator(b: bool): int {
    if b then 1 else 0
  }

  /** The count shown for a relation whose canonical viewer URI is
      `canonical`: moved by one when the delta flips the relation relative to
      the canonical viewer state, then clamped at zero; untouched (and not
      clamped) when the delta does not carry the key. */
  function ToggledCount(base: Option<int>, canonical: Option<Uri>, field: Field<Uri>): (count: int)
    ensures field.Absent? ==> count == CountOrZero(base)
    ensures field.Present? ==> count >= 0
    ensures field.Present? ==>
      count == Max(0, CountOrZero(base) + Indicator(Truthy(field.value)) - Indicator(Truthy(canonical)))
  {
    var n := CountOrZero(base);
    if field.Absent? then n
    else
      var wasOn := Truthy(canonical);
      var isOn := Truthy(field.value);
      var adjusted :=
        if wasOn && !isOn then n - 1
        else if !wasOn && isOn then n + 1
        else n;
      Max(0, adjusted)
  }

  /** The viewer URI shown for a relation, from its delta key and the
      canonical viewer URI. */
  function OverriddenUri(field: Field<Uri>, canonical: Option<Uri>): Option<Uri> {
    match field
    case Present(v) => v
    case Absent => canonical
  }

  /** `AppBskyEmbedRecord.isView` / `AppBskyEmbedRecordWithMedia.isView` on a
      possibly undefined embed. */
  predicate IsView(e: Option<Embed>, kind: EmbedKind) {
    e.Some? && e.value.kind == kind
  }

  /** Both embeds are defined and are record views of the same kind. */
  predicate SameRecordKind(a: Option<Embed>, b: Option<Embed>) {
    a.Some? && b.Some? && a.value.kind == b.value.kind && a.value.kind != OtherView
  }

  /** The embed shown: the delta's embed replaces the canonical one only when
      both are record views or both are record-with-media views; any other
      pairing is a stale delta and keeps the canonical embed. */
  function MergedEmbed(canonical: Option<Embed>, field: Field<Embed>): (r: Option<Embed>)
    ensures field.Present? && SameRecordKind(canonical, field.value) ==> r == field.value
    ensures !(field.Present? && SameRecordKind(canonical, field.value)) ==> r == canonical
  {
    if field.Present?
       && ((IsView(canonical, RecordView) && IsView(field.value, RecordView))
           || (IsView(canonical, RecordWithMediaView) && IsView(field.value, RecordWithMediaView)))
    then field.value
    else canonical
  }

  /** The merge. Deletion is decided first and wins over every other key;
      otherwise each relation's count and viewer URI depend only on the
      canonical post and that relation's own delta key, and every field the
      cache does not override is copied. */
  function MergeShadow(post: Post, shadow: Delta): (r: ShadowResult)
    ensures r.Tombstone? <==> IsDeleted(shadow)
    ensures r.View? ==>
      r.post.uri == post.uri && r.post.cid == post.cid && r.post.other == post.other
    ensures r.View? ==>
      r.post.viewer.Some? && r.post.viewer.value.other == ViewerOther(post)
    ensures r.View? ==> forall rel :: RelationKey(rel) in AsObject(shadow) ==>
      ViewerUri(r.post, rel) == AsObject(shadow)[RelationKey(rel)].uri
    ensures r.View? ==> forall rel :: RelationKey(rel) !in AsObject(shadow) ==>
      ViewerUri(r.post, rel) == ViewerUri(post, rel)
    ensures r.View? ==> forall rel ::
      RelationCount(r.post, rel)
        == Some(ToggledCount(RelationCount(post, rel), ViewerUri(post, rel), RelationField(shadow, rel)))
    ensures r.View? ==> r.post.embed == MergedEmbed(post.embed, shadow.embed)
  {
    if IsDeleted(shadow) then Tombstone
    else
      var likeCount := ToggledCount(post.likeCount, ViewerUri(post, Like), shadow.likeUri);
      var repostCount := ToggledCount(post.repostCount, ViewerUri(post, Repost), shadow.repostUri);
      var viewer := Viewer(
        OverriddenUri(shadow.likeUri, ViewerUri(post, Like)),
        OverriddenUri(shadow.repostUri, ViewerUri(post, Repost)),
        ViewerOther(post));
      View(post.(
        embed := MergedEmbed(post.embed, shadow.embed),
        likeCount := Some(likeCount),
        repostCount := Some(repostCount),
        viewer := Some(viewer)))
  }

  /** A shown count is never negative when the delta carries the relation's
      key, or when the server's count is itself non-negative. */
  lemma MergedCountNonNegative(post: Post, shadow: Delta, rel: Relation)
    requires !IsDeleted(shadow)
    requires RelationField(shadow, rel).Present? || CountOrZero(RelationCount(post, rel)) >= 0
    ensures RelationCount(MergeShadow(post, shadow).post, rel).value >= 0
  {
  }

  /** Counts are measured against the canonical viewer state, never against
      an earlier merged view: whatever else two deltas hold, they show the
      same count and URI for a relation whose key they agree on. */
  lemma NoDoubleCounting(post: Post, d1: Delta, d2: Delta, rel: Relation)
    requires !IsDeleted(d1) && !IsDeleted(d2)
    requires RelationField(d1, rel) == RelationField(d2, rel)
    ensures RelationCount(MergeShadow(post, d1).post, rel) == RelationCount(MergeShadow(post, d2).post, rel)
    ensures ViewerUri(MergeShadow(post, d1).post, rel) == ViewerUri(MergeShadow(post, d2).post, rel)
  {
  }

  /** A delta that sets a relation back to its canonical viewer URI shows the
      server's own count and URI for it. */
  lemma BackToCanonical(post: Post, shadow: Delta, rel: Relation)
    requires !IsDeleted(shadow)
    requires RelationField(shadow, rel) == Present(ViewerUri(post, rel))
    requires CountOrZero(RelationCount(post, rel)) >= 0
    ensures RelationCount(MergeShadow(post, shadow).post, rel) == Some(CountOrZero(RelationCount(post, rel)))
    ensures ViewerUri(MergeShadow(post, shadow).post, rel) == ViewerUri(post, rel)
  {
  }
}
