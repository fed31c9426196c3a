# Post shadow cache

A model of the post shadow cache of the Bluesky social-app client
(`src/state/cache/post-shadow.ts`). The client keeps server-fetched post
views in several read caches (feed, notifications, post thread, search). When
the user likes, reposts or deletes a post, or an embed is swapped, recording
the change does not edit those cached views. Only `mergeShadow` later writes a
substituted embed into the cached post (line 101). The change is recorded as a
sparse *shadow* delta for every cached copy of the post, and the post's URI is
announced. Each component that
displays a post then merges the canonical view with its delta. The result is
either the `POST_TOMBSTONE` sentinel or an adjusted view.

Modules, one per concept of that file:

- `Wrappers` (`wrappers.dfy`): `Option`, standing for `T | undefined`.
- `Posts` (`posts.dfy`): post views, viewer state, embeds by kind, and post instances. An instance is one object in memory, so its `id` stands for object identity.
- `ShadowDelta` (`shadow_delta.dfy`): the sparse `Partial<PostShadow>` delta and its overlay `{...prev, ...next}`. Every key is `Absent` or `Present(value)`, and the value may itself be undefined. This keeps "key present as `undefined`" (unliked) apart from "key absent" (defer to the server).
- `Merge` (`merge.dfy`): `mergeShadow` and its count, viewer and embed rules.
- `CacheScan` (`cache_scan.dfy`): the generator `findPostsInCache` over the four read caches.
- `ShadowStore` (`shadow_store.dfy`): the store keyed by instance, the read that `usePostShadow` performs, and `updatePostShadow`. The update returns the new store and the URI it announces.

Behaviours of the code that the model keeps:

- The store is keyed by post-view object (line 28). An update reaches only the instances the scan finds.
- Counts are clamped at zero only when the delta carries the relation's key (lines 79 and 91). A negative server count with the key absent is shown as is.
- Whenever a delta exists, the merged view has defined counts (`?? 0`) and a viewer object, even for the empty delta `{}`. Only the no-delta branch (lines 53-58) returns the post unchanged.
- The code also writes a substituted embed into the cached post (line 101). The model captures only the returned view; see "## Left out".

## Model

| member | source | states |
|---|---|---|
| ShadowDelta.Overlay | src/state/cache/post-shadow.ts:124 | the overlaid delta is deleted iff the new value sets `isDeleted` truthy, or the old one was deleted and the new value lacks the key; its keys are the union of both deltas' keys |
| ShadowDelta.AsObjectInjective | src/state/cache/post-shadow.ts:18-23 | the presence-tracked delta loses nothing: two deltas modelling the same JavaScript object are equal |
| ShadowDelta.OverlayIsSpread | src/state/cache/post-shadow.ts:124 | the overlay is object spread: the right-biased union of the two objects' own keys |
| ShadowDelta.OverlayAtKey | src/state/cache/post-shadow.ts:124 | per key, the overlay carries the key iff either side does, and takes the new value's entry whenever the new value carries the key |
| ShadowDelta.OverlayNoChange | src/state/cache/post-shadow.ts:124 | `{}` (also what spreading a missing shadow gives) is a unit of the overlay on both sides |
| ShadowDelta.OverlayIdempotent | src/state/cache/post-shadow.ts:123-124 | overlaying the same value twice equals overlaying it once |
| ShadowDelta.OverlayAssociative | src/state/cache/post-shadow.ts:124 | two successive overlays equal one overlay of the combined value |
| Merge.ToggledCount | src/state/cache/post-shadow.ts:70-80 | with the key absent the count is `count ?? 0`, unclamped; with it present the count is never negative and equals max(0, base + [delta URI truthy] - [canonical URI truthy]) |
| Merge.MergedEmbed | src/state/cache/post-shadow.ts:94-103 | the delta's embed is shown exactly when it is present and both embeds are record views, or both are record-with-media views; otherwise the canonical embed is kept |
| Merge.MergeShadow | src/state/cache/post-shadow.ts:62-115 | the result is the tombstone iff `isDeleted` is truthy, whatever else the delta holds; otherwise URI, cid, other post fields and other viewer fields are copied; each relation's count follows the count rule from that relation's own key only; its viewer URI is the value the delta object holds under `likeUri` / `repostUri` whenever that key is present, even when the value is undefined, and the canonical viewer URI when the key is absent; the embed follows the embed rule |
| Merge.MergedCountNonNegative | src/state/cache/post-shadow.ts:70-92 | a shown like or repost count is non-negative when the delta carries its key, or when the server's count is non-negative |
| Merge.NoDoubleCounting | src/state/cache/post-shadow.ts:72-78 | counts are measured against the canonical viewer state: two deltas that agree on a relation's key show the same count and URI for it |
| Merge.BackToCanonical | src/state/cache/post-shadow.ts:70-80 | a delta setting a relation back to the canonical viewer URI shows the server's count (for a non-negative count) and URI |
| CacheScan.PostsWithUri | src/state/cache/post-shadow.ts:135-137 | a feed, notification or search adapter yields exactly the held instances with the URI, never more than the cache holds |
| CacheScan.ThreadPostsWithUri | src/state/cache/post-shadow.ts:141-145 | from the thread cache only post nodes with the URI are yielded; not-found and blocked nodes never are |
| CacheScan.CachedPosts | src/state/cache/post-shadow.ts:131-149 | an instance is yielded iff some read cache holds it and its URI is the one asked for |
| CacheScan.YieldPosts | src/state/cache/post-shadow.ts:135-140 | each of the feed, notification (lines 135-140) and search (lines 146-148) loops appends that cache's matching instances, in cache order, after those already yielded |
| CacheScan.YieldThreadPosts | src/state/cache/post-shadow.ts:141-145 | the thread loop appends the post nodes' instances, in node order, after those already yielded |
| CacheScan.FindPostsInCache | src/state/cache/post-shadow.ts:131-149 | the generator run to completion yields the feed's matches, then the notifications', the thread's and the search results', which is the sequence `CachedPosts` characterises |
| ShadowStore.ReadPost | src/state/cache/post-shadow.ts:53-58 | with no delta the post is shown unchanged; it is shown as the tombstone iff its delta is deleted |
| ShadowStore.OverlayEach | src/state/cache/post-shadow.ts:123-125 | every yielded instance ends with its old delta (or `{}`) overlaid by the value, even when yielded twice; other stored deltas are unchanged; no other key is added |
| ShadowStore.UpdatePostShadow | src/state/cache/post-shadow.ts:117-129 | every cached instance with the URI, in any of the four caches, gets its old delta overlaid by the value; deltas of instances not found are unchanged; the URI is announced even when nothing was found |
| ShadowStore.OtherUrisUntouched | src/state/cache/post-shadow.ts:122-125 | an update for one URI changes neither the delta nor the shown value of a cached instance with another URI |
| ShadowStore.UpdatesCompose | src/state/cache/post-shadow.ts:122-125 | last writer wins field by field: two updates of a URI leave the store that one update with their overlay leaves |
| ShadowStore.DeletionIsSticky | src/state/cache/post-shadow.ts:66-68 | a deleted instance stays a tombstone after any update that does not carry the `isDeleted` key |
| ShadowStore.DeleteReachesEveryCopy | src/state/cache/post-shadow.ts:117-125 | an update with `isDeleted: true` turns every cached copy of the post into the tombstone |
| ShadowStore.ToggleRoundTrip | src/state/cache/post-shadow.ts:70-80 | setting a like or repost to any URI and then back to the canonical viewer state shows the server's count and URI again, from any earlier non-deleted delta |
| ShadowStore.LikeThenUnlikeScenario | src/state/cache/post-shadow.ts:70-80 | an unliked post with five likes shows six likes and the like URI after a like, and five and no like after the unlike |
| ShadowStore.UnlikeClampsAtZeroScenario | src/state/cache/post-shadow.ts:79 | unliking a liked post whose count is zero shows zero, not -1 |

## Left out

- The React hook lifecycle of `usePostShadow` (lines 36-51) is not modelled: `useState`, `useEffect`, `useMemo`, re-subscription when the post object changes, and listener removal. `ReadPost` models only the value the hook settles on.
- The `EventEmitter` delivery and `batchedUpdates` scheduling (lines 126-128) are not modelled. The announcement is the `announced` field of the update's result.
- The `WeakMap` garbage collection of line 28 is not modelled. The store is an ordinary map from instance id to delta, and instance ids stand for object identity.
- The internals of the four `findAllPostsInQueryData` adapters and of `QueryClient` are not part of this model. Each cache is the finite sequence of post instances it holds, and each adapter yields the instances whose URI matches, in cache order.
- Merge.MergeShadow: the in-place write `post.embed = shadow.embed` (line 101) is captured only through the returned view. The code writes the substituted embed into the cached post, so later merges of that object treat it as canonical. For example, say a record view S has replaced a record view R, and a later delta sets a record-with-media view. The code still shows S; the model, comparing against the unmodified post, shows R.
- The `AppBskyEmbedRecord.isView` and `AppBskyEmbedRecordWithMedia.isView` predicates are reduced to a kind tag on the embed (record, record with media, other).
- JavaScript numbers are modelled as unbounded integers. Counts are whole numbers far below 2^53, so float rounding plays no part.
- Post and viewer fields that the cache never reads are carried as opaque maps and only copied.
