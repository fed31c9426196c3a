/**
 `findPostsInCache`: the scan that yields every post instance with a given
 URI held by the four read caches, in the order feed, notifications,
 thread, search.
 */
module CacheScan {
  import opened Posts

  /** A node of a cached post thread; only `PostNode` carries a post view. */
  datatype ThreadNode = PostNode(instance: Instance) | NotFoundNode(uri: Uri) | BlockedNode(uri: Uri)

  function NodeUri(n: ThreadNode): Uri {
    match n
    case PostNode(i) => i.post.uri
    case NotFoundNode(u) => u
    case BlockedNode(u) => u
  }

  /** The post instances each read cache holds, in cache order. */
  datatype QueryCaches = QueryCaches(
    feed: seq<Instance>,
    notifications: seq<Instance>,
    thread: seq<ThreadNode>,
    search: seq<Instance>)

  /** The feed, notification or search adapter: the instances of `cache`
      whose URI is `uri`, in cache order. */
  function PostsWithUri(cache: seq<Instance>, uri: Uri): (r: seq<Instance>)
    ensures forall i :: i in r <==> i in cache && i.post.uri == uri
    ensures |r| <= |cache|
  {
    if |cache| == 0 then []
    else
      var init := cache[..|cache| - 1];
      var last := cache[|cache| - 1];
      assert cache == init + [last];
      if last.post.uri == uri then PostsWithUri(init, uri) + [last] else PostsWithUri(init, uri)
  }

  /** The thread adapter followed by the scan's `node.type === 'post'` test:
      the post instances of the nodes whose URI is `uri`, in node order. */
  function ThreadPostsWithUri(nodes: seq<ThreadNode>, uri: Uri): (r: seq<Instance>)
    ensures forall i :: i in r <==> PostNode(i) in nodes && i.post.uri == uri
    ensures |r| <= |nodes|
  {
    if |nodes| == 0 then []
    else
      var init := nodes[..|nodes| - 1];
      var last := nodes[|nodes| - 1];
      assert nodes == init + [last];
      if NodeUri(last) == uri && last.PostNode?
      then ThreadPostsWithUri(init, uri) + [last.instance]
      else ThreadPostsWithUri(init, uri)
  }

  /** Some read cache holds instance `i`. */
  predicate Holds(caches: QueryCaches, i: Instance) {
    i in caches.feed || i in caches.notifications || PostNode(i) in caches.thread || i in caches.search
  }

  /** Everything the scan yields, in yield order. */
  function CachedPosts(caches: QueryCaches, uri: Uri): (r: seq<Instance>)
    ensures forall i :: i in r <==> Holds(caches, i) && i.post.uri == uri
  {
    PostsWithUri(caches.feed, uri)
    + PostsWithUri(caches.notifications, uri)
    + ThreadPostsWithUri(caches.thread, uri)
    + PostsWithUri(caches.search, uri)
  }

  /** One `for ... yield` loop over a feed, notification or search cache. */
  method YieldPosts(yielded: seq<Instance>, cache: seq<Instance>, uri: Uri) returns (r: seq<Instance>)
    ensures r == yielded + PostsWithUri(cache, uri)
  {
    r := yielded;
    var k := 0;
    while k < |cache|
      invariant 0 <= k <= |cache|
      invariant r == yielded + PostsWithUri(cache[..k], uri)
    {
      assert cache[..k + 1][..k] == cache[..k];
      if cache[k].post.uri == uri {
        r := r + [cache[k]];
      }
      k := k + 1;
    }
    assert cache[..|cache|] == cache;
  }

  /** The loop over the thread cache, yielding only the post nodes. */
  method YieldThreadPosts(yielded: seq<Instance>, nodes: seq<ThreadNode>, uri: Uri) returns (r: seq<Instance>)
    ensures r == yielded + ThreadPostsWithUri(nodes, uri)
  {
    r := yielded;
    var k := 0;
    while k < |nodes|
      invariant 0 <= k <= |nodes|
      invariant r == yielded + ThreadPostsWithUri(nodes[..k], uri)
    {
      assert nodes[..k + 1][..k] == nodes[..k];
      var node := nodes[k];
      if NodeUri(node) == uri && node.PostNode? {
        r := r + [node.instance];
      }
      k := k + 1;
    }
    assert nodes[..|nodes|] == nodes;
  }

  /** The generator, run to completion: every held instance with URI `uri`,
      the feed's first, then the notifications', the thread's and the
      search results'. */
  method FindPostsInCache(caches: QueryCaches, uri: Uri) returns (found: seq<Instance>)
    ensures found == CachedPosts(caches, uri)
  {
    found := YieldPosts([], caches.feed, uri);
    assert found == PostsWithUri(caches.feed, uri);
    found := YieldPosts(found, caches.notifications, uri);
    found := YieldThreadPosts(found, caches.thread, uri);
    found := YieldPosts(found, caches.search, uri);
  }
}
