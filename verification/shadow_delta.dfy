/**
 The sparse local delta of one post instance (`Partial<PostShadow>`) and the
 field-wise overlay `{...prev, ...next}` that later updates apply to it.
 */
module ShadowDelta {
  import opened Wrappers
  import opened Posts

  /** A key of a sparse record: absent, or present with a value that may
      itself be `undefined`. A present-but-undefined `likeUri` means "unliked",
      which is not the same as an absent one. */
  datatype Field<T> = Absent | Present(value: Option<T>)

  /** `Partial<PostShadow>`: every field may be missing. */
  datatype Delta = Delta(
    likeUri: Field<Uri>,
    repostUri: Field<Uri>,
    isDeleted: Field<bool>,
    embed: Field<Embed>)

  /** The empty record `{}`, which is also what spreading `undefined` yields. */
  const NoChange: Delta := Delta(Absent, Absent, Absent, Absent)

  /** The delta key that overrides relation `rel`. */
  function RelationField(d: Delta, rel: Relation): Field<Uri> {
    if rel == Like then d.likeUri else d.repostUri
  }

  /** `shadow.isDeleted` is truthy. */
  predicate IsDeleted(d: Delta) {
    d.isDeleted == Present(Some(true))
  }

  function OverlayField<T>(prev: Field<T>, next: Field<T>): Field<T> {
    if next.Present? then next else prev
  }

  /** The record `{...prev, ...next}`: keys present in `next` win, the others
      keep their value from `prev`. */
  function Overlay(prev: Delta, next: Delta): (r: Delta)
    ensures IsDeleted(r) <==> IsDeleted(next) || (IsDeleted(prev) && next.isDeleted.Absent?)
    ensures forall k :: k in AsObject(r) <==> k in AsObject(prev) || k in AsObject(next)
  {
    Delta(
      OverlayField(prev.likeUri, next.likeUri),
      OverlayField(prev.repostUri, next.repostUri),
      OverlayField(prev.isDeleted, next.isDeleted),
      OverlayField(prev.embed, next.embed))
  }

  /** The own keys of a `PostShadow` object. */
  datatype Key = LikeUriKey | RepostUriKey | IsDeletedKey | EmbedKey

  /** The values those keys may hold. */
  datatype Value = UriValue(uri: Option<Uri>) | FlagValue(flag: Option<bool>) | EmbedValue(embed: Option<Embed>)

  /** The object key that overrides relation `rel`. */
  function RelationKey(rel: Relation): Key {
    if rel == Like then LikeUriKey else RepostUriKey
  }

  /** The delta carries key `k`. */
  predicate HasKey(d: Delta, k: Key) {
    match k
    case LikeUriKey => d.likeUri.Present?
    case RepostUriKey => d.repostUri.Present?
    case IsDeletedKey => d.isDeleted.Present?
    case EmbedKey => d.embed.Present?
  }

  /** The value the delta holds under a key it carries. */
  function ValueAt(d: Delta, k: Key): Value
    requires HasKey(d, k)
  {
    match k
    case LikeUriKey => UriValue(d.likeUri.value)
    case RepostUriKey => UriValue(d.repostUri.value)
    case IsDeletedKey => FlagValue(d.isDeleted.value)
    case EmbedKey => EmbedValue(d.embed.value)
  }

  /** The delta as the JavaScript object it models: a finite map holding
      exactly the present keys. */
  function AsObject(d: Delta): map<Key, Value> {
    map k | k in {LikeUriKey, RepostUriKey, IsDeletedKey, EmbedKey} && HasKey(d, k) :: ValueAt(d, k)
  }

  /** Two deltas are equal exactly when the objects they model are. */
  lemma AsObjectInjective(a: Delta, b: Delta)
    requires AsObject(a) == AsObject(b)
    ensures a == b
  {
    forall k: Key
      ensures HasKey(a, k) == HasKey(b, k)
      ensures HasKey(a, k) ==> ValueAt(a, k) == ValueAt(b, k)
    {
      assert k in AsObject(a) <==> HasKey(a, k);
      assert k in AsObject(b) <==> HasKey(b, k);
      if HasKey(a, k) {
        assert AsObject(a)[k] == AsObject(b)[k];
      }
    }
    assert HasKey(a, LikeUriKey) ==> ValueAt(a, LikeUriKey) == ValueAt(b, LikeUriKey);
    assert HasKey(a, RepostUriKey) ==> ValueAt(a, RepostUriKey) == ValueAt(b, RepostUriKey);
    assert HasKey(a, IsDeletedKey) ==> ValueAt(a, IsDeletedKey) == ValueAt(b, IsDeletedKey);
    assert HasKey(a, EmbedKey) ==> ValueAt(a, EmbedKey) == ValueAt(b, EmbedKey);
  }

  /** Per key, the overlay keeps the key of either side and takes the value
      from `next` when `next` carries it. */
  lemma OverlayAtKey(prev: Delta, next: Delta, k: Key)
    ensures HasKey(Overlay(prev, next), k) <==> HasKey(prev, k) || HasKey(next, k)
    ensures HasKey(next, k) ==> ValueAt(Overlay(prev, next), k) == ValueAt(next, k)
    ensures !HasKey(next, k) && HasKey(prev, k) ==> ValueAt(Overlay(prev, next), k) == ValueAt(prev, k)
  {
  }

  /** Overlay is object spread: the right-biased union of the own keys. */
  lemma OverlayIsSpread(prev: Delta, next: Delta)
    ensures AsObject(Overlay(prev, next)) == AsObject(prev) + AsObject(next)
  {
    var r := AsObject(Overlay(prev, next));
    var u := AsObject(prev) + AsObject(next);
    forall k: Key
      ensures k in r <==> k in u
      ensures k in r ==> r[k] == u[k]
    {
      OverlayAtKey(prev, next, k);
    }
  }

  /** `{}` is a unit on both sides of the overlay. */
  lemma OverlayNoChange(d: Delta)
    ensures Overlay(NoChange, d) == d
    ensures Overlay(d, NoChange) == d
  {
  }

  /** Overlaying the same value twice is overlaying it once, so an instance
      the scan yields twice ends with the same delta as if yielded once. */
  lemma OverlayIdempotent(prev: Delta, next: Delta)
    ensures Overlay(Overlay(prev, next), next) == Overlay(prev, next)
  {
  }

  /** Two successive overlays are one overlay of the combined update. */
  lemma OverlayAssociative(a: Delta, b: Delta, c: Delta)
    ensures Overlay(Overlay(a, b), c) == Overlay(a, Overlay(b, c))
  {
  }
}
