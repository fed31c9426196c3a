/**
 Server-issued post views as the post shadow cache sees them, and the
 in-memory instances that the read caches hold.
 */
module Posts {
  import opened Wrappers

  /** An AT-URI; the model only compares URIs and tests them for emptiness. */
  type Uri = string

  /** The structural kind of an embed view, as its `$type` tag tells them apart:
      a quoted record, a quoted record with media, or anything else
      (images, external links, video). */
  datatype EmbedKind = RecordView | RecordWithMediaView | OtherView

  /** An embed view: its kind and the rest of its content, carried opaquely. */
  datatype Embed = Embed(kind: EmbedKind, content: string)

  /** The signed-in viewer's relationships with a post. `like` and `repost`
      are the URIs of the viewer's own like and repost records; `other`
      holds the remaining viewer-state fields, which the cache never reads. */
  datatype Viewer = Viewer(like: Option<Uri>, repost: Option<Uri>, other: map<string, string>)

  /** A post view as fetched from the server. `other` holds the fields the
      cache never reads (author, record, reply count, labels, ...). */
  datatype Post = Post(
    uri: Uri,
    cid: string,
    embed: Option<Embed>,
    likeCount: Option<int>,
    repostCount: Option<int>,
    viewer: Option<Viewer>,
    other: map<string, string>)

  /** Object identity of a post view in memory. Several instances may hold
      structurally equal posts with the same URI. */
  type InstanceId = nat

  /** One post-view object held by some read cache. */
  datatype Instance = Instance(id: InstanceId, post: Post)

  /** The two counted viewer relationships the cache overrides. */
  datatype Relation = Like | Repost

  /** `post.viewer?.like` or `post.viewer?.repost`. */
  function ViewerUri(p: Post, rel: Relation): Option<Uri> {
    match p.viewer
    case None => None
    case Some(v) => if rel == Like then v.like else v.repost
  }

  /** `post.likeCount` or `post.repostCount`. */
  function RelationCount(p: Post, rel: Relation): Option<int> {
    if rel == Like then p.likeCount else p.repostCount
  }

  /** The viewer-state fields other than like and repost (empty when the post
      has no viewer state at all). */
  function ViewerOther(p: Post): map<string, string> {
    match p.viewer
    case None => map[]
    case Some(v) => v.other
  }

  /** `count ?? 0`. */
  function CountOrZero(c: Option<int>): int {
    c.GetOr(0)
  }

  /** JavaScript truthiness of an optional string: defined and non-empty. */
  predicate Truthy(s: Option<Uri>) {
    s.Some? && s.value != ""
  }

  /** `Math.max` on integers. */
  function Max(a: int, b: int): int {
    if a < b then b else a
  }
}
