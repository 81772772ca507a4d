/**
 * Moving legacy media from the public to the private bucket: copy, verify,
 * optionally delete the source, rewrite the stored reference later. Every
 * external call may throw or kill the process, before or after it took effect,
 * so the class keeps the trace of all worlds a restart could find.
 */
module PrivateMedia {
  import opened Prelude

  const SCHEME := "r2-private://"
  const PRIVATE_CATEGORIES := ["connect-inbox-media", "connect-job-resume", "connect-job-voice"]

  type Content = string

  datatype Decision = SkipEmpty | SkipPrivate | SkipForeign | Migrate(key: string, newRef: string)

  // ------------------------------------------------------------ one reference

  /** The part of `s` before the first '?'. */
  function BeforeQuery(s: string): string {
    if |s| == 0 || s[0] == '?' then "" else [s[0]] + BeforeQuery(s[1..])
  }

  function StripSlash(base: string): string {
    if |base| > 0 && base[|base| - 1] == '/' then base[..|base| - 1] else base
  }

  function Decide(value: Option<string>, publicBase: string): Decision {
    if value.None? || value.value == "" then SkipEmpty
    else if SCHEME <= value.value then SkipPrivate
    else
      var base := StripSlash(publicBase);
      if base == "" || !(base + "/" <= value.value) then SkipForeign
      else
        var key := BeforeQuery(value.value[|base| + 1..]);
        if key == "" then SkipForeign else Migrate(key, SCHEME + key)
  }

  datatype Doc =
    | Message(media: seq<Option<string>>, audio: Option<string>)
    | Application(voice: Option<string>, resume: Option<string>)
    | UploadEvent(category: string, fileUrl: Option<string>)

  /** The reference slots of a document, in the order they are visited. */
  function Slots(d: Doc): seq<Option<string>> {
    match d
    case Message(media, audio) => media + [audio]
    case Application(voice, resume) => [voice, resume]
    case UploadEvent(_, fileUrl) => [fileUrl]
  }

  function WithSlots(d: Doc, slots: seq<Option<string>>): (r: Doc)
    requires |slots| == |Slots(d)|
    ensures Slots(r) == slots
  {
    match d
    case Message(media, _) => Message(slots[..|media|], slots[|media|])
    case Application(_, _) => Application(slots[0], slots[1])
    case UploadEvent(category, _) => UploadEvent(category, slots[0])
  }

  /** Does the collection's query select the document? */
  predicate InQuery(d: Doc) {
    match d
    case Message(media, audio) => |media| > 0 || audio.Some?
    case Application(voice, resume) => voice.Some? || resume.Some?
    case UploadEvent(category, _) => category in PRIVATE_CATEGORIES
  }

  /** `docs` lists the three collections in the order their cursors deliver them. */
  datatype World = World(pub: map<string, Content>, priv: map<string, Content>, docs: seq<Doc>)

  /** What a reader gets for a stored reference. */
  function Resolve(value: Option<string>, base: string, w: World): Option<Content> {
    match Decide(value, base)
    case Migrate(key, _) => if key in w.pub then Some(w.pub[key]) else None
    case SkipPrivate =>
      var key := value.value[|SCHEME|..];
      if key in w.priv then Some(w.priv[key]) else None
    case _ => None
  }

  // -------------------------------------------------------- the step relation

  /** The object is in the private bucket, and is what the public one holds if that is still there. */
  predicate Landed(w: World, key: string) {
    key in w.priv && (key in w.pub ==> w.pub[key] == w.priv[key])
  }

  predicate Moved(w: World, base: string, before: Option<string>, after: Option<string>) {
    var d := Decide(before, base);
    d.Migrate? && after == Some(d.newRef) && Landed(w, d.key)
  }

  /** Only keys that a document in scope still refers to are touched. */
  predicate Copies(w: World, w': World, base: string, key: string) {
    key in DocKeys(w.docs, base) && key in w.pub && w' == w.(priv := w.priv[key := w.pub[key]])
  }

  predicate Deletes(w: World, w': World, base: string, key: string) {
    key in DocKeys(w.docs, base) && key in w.pub && Landed(w, key) && w' == w.(pub := w.pub - {key})
  }

  ghost predicate Rewrites(w: World, w': World, base: string) {
    && w' == w.(docs := w'.docs)
    && |w'.docs| == |w.docs|
    && forall i :: 0 <= i < |w.docs| ==> DocRewrites(w, base, w.docs[i], w'.docs[i])
  }

  ghost predicate DocRewrites(w: World, base: string, d: Doc, d': Doc) {
    && |Slots(d')| == |Slots(d)|
    && InQuery(d') == InQuery(d)
    && forall j :: 0 <= j < |Slots(d)| ==> Slots(d')[j] == Slots(d)[j] || Moved(w, base, Slots(d)[j], Slots(d')[j])
  }

  ghost predicate Step(w: World, w': World, base: string) {
    || (exists key :: Copies(w, w', base, key))
    || (exists key :: Deletes(w, w', base, key))
    || Rewrites(w, w', base)
  }

  /** The worlds left behind by any number of runs, stopped anywhere, one call after another. */
  ghost predicate Path(ws: seq<World>, base: string) {
    |ws| > 0 && forall i :: 0 <= i < |ws| - 1 ==> Step(ws[i], ws[i + 1], base)
  }

  // ------------------------------------------------------------------ safety

  /** The two buckets hold different objects under the key, and a document in scope refers to the public one. */
  predicate Replaceable(w: World, base: string, key: string) {
    key in DocKeys(w.docs, base) && key in w.pub && key in w.priv && w.pub[key] != w.priv[key]
  }

  function KeyContent(w: World, key: string): Option<Content> {
    if key in w.pub then Some(w.pub[key]) else if key in w.priv then Some(w.priv[key]) else None
  }

  /** The key a reference stands for, whichever bucket it points at. */
  function KeyOf(value: Option<string>, base: string): Option<string> {
    match Decide(value, base)
    case Migrate(key, _) => Some(key)
    case SkipPrivate => Some(value.value[|SCHEME|..])
    case _ => None
  }

  /** A public reference whose object is now only in the private bucket. */
  predicate Stranded(value: Option<string>, base: string, w: World) {
    Decide(value, base).Migrate? && Decide(value, base).key !in w.pub && Decide(value, base).key in w.priv
  }

  lemma NewRefIsPrivate(value: Option<string>, base: string)
    requires Decide(value, base).Migrate?
    ensures var d := Decide(value, base);
            Decide(Some(d.newRef), base) == SkipPrivate && KeyOf(Some(d.newRef), base) == Some(d.key)
  {
  }

  ghost predicate SameShape(w: World, w': World) {
    |w.docs| == |w'.docs| && forall i :: 0 <= i < |w.docs| ==> |Slots(w.docs[i])| == |Slots(w'.docs[i])|
  }

  /** The fate of one reference: it stands for the same key, and was at most turned from public to private. */
  ghost predicate SameKey(w: World, w': World, base: string, i: nat, j: nat)
    requires SameShape(w, w') && i < |w.docs| && j < |Slots(w.docs[i])|
  {
    var v, v' := Slots(w.docs[i])[j], Slots(w'.docs[i])[j];
    && KeyOf(v', base) == KeyOf(v, base)
    && (v' == v || (Decide(v, base).Migrate? && v' == Some(Decide(v, base).newRef)))
  }

  /** A public object is gone or as it was, and a private one is as it was or the public one that a copy put there. */
  ghost predicate KeepsBuckets(w: World, w': World, base: string) {
    && (forall key :: KeyContent(w', key) == KeyContent(w, key))
    && (forall key :: key in w'.pub ==> key in w.pub && w'.pub[key] == w.pub[key])
    && (forall key :: key in w.priv ==>
          key in w'.priv && (w'.priv[key] == w.priv[key] || (Replaceable(w, base, key) && w'.priv[key] == w.pub[key])))
    && (forall key :: key in w.pub && key !in w'.pub ==> key in DocKeys(w.docs, base))
  }

  ghost predicate KeepsRefs(w: World, w': World, base: string) {
    && SameShape(w, w')
    && (forall i, j :: 0 <= i < |w.docs| && 0 <= j < |Slots(w.docs[i])| ==> SameKey(w, w', base, i, j))
    && (forall key :: key in DocKeys(w'.docs, base) ==> key in DocKeys(w.docs, base))
  }

  /** Every reference already rewritten to private has its object there. */
  ghost predicate Backed(w0: World, w: World, base: string)
    requires SameShape(w0, w)
  {
    forall i, j :: 0 <= i < |w.docs| && 0 <= j < |Slots(w.docs[i])| && Slots(w.docs[i])[j] != Slots(w0.docs[i])[j] ==>
      KeyOf(Slots(w.docs[i])[j], base).Some? && Landed(w, KeyOf(Slots(w.docs[i])[j], base).value)
  }

  ghost predicate Keeps(w: World, w': World, base: string) {
    KeepsBuckets(w, w', base) && KeepsRefs(w, w', base) && Backed(w, w', base)
  }

  lemma RewriteKeepsSlot(w0: World, w: World, w': World, base: string, i: nat, j: nat)
    requires KeepsRefs(w0, w, base) && Backed(w0, w, base) && Rewrites(w, w', base)
    requires i < |w0.docs| && j < |Slots(w0.docs[i])|
    ensures |w'.docs| == |w.docs| && |Slots(w'.docs[i])| == |Slots(w0.docs[i])|
    ensures var v0, v' := Slots(w0.docs[i])[j], Slots(w'.docs[i])[j];
            && KeyOf(v', base) == KeyOf(v0, base)
            && (v' == v0 || (Decide(v0, base).Migrate? && v' == Some(Decide(v0, base).newRef)))
            && (v' != v0 ==> KeyOf(v', base).Some? && Landed(w', KeyOf(v', base).value))
  {
    assert DocRewrites(w, base, w.docs[i], w'.docs[i]);
    assert SameKey(w0, w, base, i, j);
    var v := Slots(w.docs[i])[j];
    if Decide(v, base).Migrate? { NewRefIsPrivate(v, base); }
  }

  lemma BucketsStep(w0: World, w: World, w': World, base: string, key: string)
    requires KeepsBuckets(w0, w, base) && (forall k :: k in DocKeys(w.docs, base) ==> k in DocKeys(w0.docs, base))
    requires Copies(w, w', base, key) || Deletes(w, w', base, key)
    ensures KeepsBuckets(w0, w', base)
  {
    assert key in DocKeys(w0.docs, base) && w.pub[key] == w0.pub[key];
    forall k ensures KeyContent(w', k) == KeyContent(w0, k) {
      assert KeyContent(w, k) == KeyContent(w0, k);
    }
  }

  lemma BucketStepKeeps(w0: World, w: World, w': World, base: string, key: string)
    requires Keeps(w0, w, base) && (Copies(w, w', base, key) || Deletes(w, w', base, key))
    ensures Keeps(w0, w', base)
  {
    assert w'.docs == w.docs;
    assert forall k :: Landed(w, k) ==> Landed(w', k);
    BucketsStep(w0, w, w', base, key);
    forall i, j | 0 <= i < |w0.docs| && 0 <= j < |Slots(w0.docs[i])|
      ensures SameKey(w0, w', base, i, j)
    {
      assert SameKey(w0, w, base, i, j);
    }
  }

  lemma RewritesKeep(w0: World, w: World, w': World, base: string)
    requires Keeps(w0, w, base) && Rewrites(w, w', base)
    ensures Keeps(w0, w', base)
  {
    forall i, j | 0 <= i < |w0.docs| && 0 <= j < |Slots(w0.docs[i])|
      ensures |w'.docs| == |w.docs| && |Slots(w'.docs[i])| == |Slots(w0.docs[i])|
      ensures var v0, v' := Slots(w0.docs[i])[j], Slots(w'.docs[i])[j];
              && KeyOf(v', base) == KeyOf(v0, base)
              && (v' == v0 || (Decide(v0, base).Migrate? && v' == Some(Decide(v0, base).newRef)))
              && (v' != v0 ==> KeyOf(v', base).Some? && Landed(w', KeyOf(v', base).value))
    {
      RewriteKeepsSlot(w0, w, w', base, i, j);
    }
    forall key | key in DocKeys(w'.docs, base) ensures key in DocKeys(w.docs, base) {
      var i, j := KeyPlace(w'.docs, base, key);
      assert DocRewrites(w, base, w.docs[i], w'.docs[i]);
      if Decide(Slots(w.docs[i])[j], base).Migrate? { NewRefIsPrivate(Slots(w.docs[i])[j], base); }
      KeyListed(w.docs, base, i, j);
    }
  }

  /**
   * Safety over all runs, crashes and restarts, with or without source deletion,
   * from any world: no object is ever absent from both buckets, what a key stands
   * for stays the same, every reference keeps its key, and a rewritten one has
   * its object in the private bucket.
   */
  lemma {:induction false} MoveIsSafe(ws: seq<World>, base: string)
    requires Path(ws, base)
    ensures Keeps(ws[0], ws[|ws| - 1], base)
  {
    if |ws| == 1 {
    } else {
      var w, w' := ws[|ws| - 2], ws[|ws| - 1];
      var init := ws[..|ws| - 1];
      MoveIsSafe(init, base);
      assert Step(ws[|ws| - 2], ws[|ws| - 2 + 1], base);
      if Rewrites(w, w', base) {
        RewritesKeep(ws[0], w, w', base);
      } else {
        var key :| Copies(w, w', base, key) || Deletes(w, w', base, key);
        BucketStepKeeps(ws[0], w, w', base, key);
      }
    }
  }

  /** The reference still resolves to what it did, or waits for its object under its key in the private bucket. */
  ghost predicate StillFinds(w0: World, w: World, base: string, i: nat, j: nat)
    requires i < |w0.docs| && j < |Slots(w0.docs[i])|
  {
    && SameShape(w0, w)
    && var v0, v := Slots(w0.docs[i])[j], Slots(w.docs[i])[j];
       || Resolve(v, base, w) == Resolve(v0, base, w0)
       || (Stranded(v, base, w) && Some(w.priv[Decide(v, base).key]) == Resolve(v0, base, w0))
  }

  /** What becomes of a reference that resolved: only a private one under a replaceable key can come to another object. */
  lemma ReferenceFate(w0: World, w: World, base: string, i: nat, j: nat)
    requires Keeps(w0, w, base) && i < |w0.docs| && j < |Slots(w0.docs[i])| && Resolve(Slots(w0.docs[i])[j], base, w0).Some?
    ensures var v0 := Slots(w0.docs[i])[j];
            || StillFinds(w0, w, base, i, j)
            || (Decide(v0, base).SkipPrivate? && Replaceable(w0, base, KeyOf(v0, base).value))
    ensures w.pub == w0.pub && StillFinds(w0, w, base, i, j) ==>
              Resolve(Slots(w.docs[i])[j], base, w) == Resolve(Slots(w0.docs[i])[j], base, w0)
    ensures Stranded(Slots(w.docs[i])[j], base, w) ==>
              var v0 := Slots(w0.docs[i])[j];
              Decide(v0, base).Migrate? && Decide(v0, base).key in DocKeys(w0.docs, base)
  {
    var v0, v := Slots(w0.docs[i])[j], Slots(w.docs[i])[j];
    assert SameKey(w0, w, base, i, j);
    var key := KeyOf(v0, base).value;
    assert KeyContent(w, key) == KeyContent(w0, key);
    if Decide(v0, base).Migrate? { NewRefIsPrivate(v0, base); }
  }

  function CopiedTo(w: World, key: string): World {
    if key in w.pub then w.(priv := w.priv[key := w.pub[key]]) else w
  }

  function DeletedFrom(w: World, key: string): World {
    w.(pub := w.pub - {key})
  }

  /** Some run, stopped somewhere, brings the world from `w0` to `w`. */
  ghost predicate Reaches(w0: World, w: World, base: string) {
    exists ws :: Path(ws, base) && ws[0] == w0 && ws[|ws| - 1] == w
  }

  lemma ReachesKeeps(w0: World, w: World, base: string)
    requires Reaches(w0, w, base)
    ensures Keeps(w0, w, base)
  {
    var ws :| Path(ws, base) && ws[0] == w0 && ws[|ws| - 1] == w;
    MoveIsSafe(ws, base);
  }

  lemma CopyReached(w: World, base: string, key: string) returns (copied: World)
    requires key in DocKeys(w.docs, base) && key in w.pub
    ensures copied == CopiedTo(w, key) && Reaches(w, copied, base)
  {
    copied := CopiedTo(w, key);
    assert Copies(w, copied, base, key);
    var ws := [w, copied];
    assert Step(ws[0], ws[1], base);
    assert Path(ws, base);
  }

  lemma DeleteReached(w: World, base: string, key: string) returns (deleted: World)
    requires key in DocKeys(w.docs, base) && key in w.pub
    ensures deleted == DeletedFrom(CopiedTo(w, key), key) && Reaches(w, deleted, base)
  {
    var copied := CopiedTo(w, key);
    deleted := DeletedFrom(copied, key);
    assert Copies(w, copied, base, key) && Deletes(copied, deleted, base, key);
    var ws := [w, copied, deleted];
    assert Step(ws[0], ws[1], base) && Step(ws[1], ws[2], base);
    assert Path(ws, base);
  }

  /**
   * Exactly which references keep what they resolve to over all runs and crashes:
   * all public ones, and the private ones whose key is not replaceable.
   */
  lemma {:induction false} ReferenceSafeIff(w0: World, base: string, i: nat, j: nat)
    requires i < |w0.docs| && j < |Slots(w0.docs[i])| && Resolve(Slots(w0.docs[i])[j], base, w0).Some?
    ensures var v0 := Slots(w0.docs[i])[j];
            (forall w :: Reaches(w0, w, base) ==> StillFinds(w0, w, base, i, j)) <==>
              !(Decide(v0, base).SkipPrivate? && Replaceable(w0, base, KeyOf(v0, base).value))
  {
    var v0 := Slots(w0.docs[i])[j];
    var key := KeyOf(v0, base).value;
    forall w | Reaches(w0, w, base)
      ensures StillFinds(w0, w, base, i, j) || (Decide(v0, base).SkipPrivate? && Replaceable(w0, base, key))
    {
      ReachesKeeps(w0, w, base);
      ReferenceFate(w0, w, base, i, j);
    }
    if Decide(v0, base).SkipPrivate? && Replaceable(w0, base, key) {
      var copied := CopyReached(w0, base, key);
      assert !StillFinds(w0, copied, base, i, j);
    }
  }

  /** Without source deletion, hence with the public bucket as it was, the same condition decides that it resolves to the same. */
  lemma {:induction false} SafeWithoutDeletionIff(w0: World, base: string, i: nat, j: nat)
    requires i < |w0.docs| && j < |Slots(w0.docs[i])| && Resolve(Slots(w0.docs[i])[j], base, w0).Some?
    ensures var v0 := Slots(w0.docs[i])[j];
            (forall w :: Reaches(w0, w, base) && w.pub == w0.pub ==>
               SameShape(w0, w) && Resolve(Slots(w.docs[i])[j], base, w) == Resolve(v0, base, w0)) <==>
              !(Decide(v0, base).SkipPrivate? && Replaceable(w0, base, KeyOf(v0, base).value))
  {
    var v0 := Slots(w0.docs[i])[j];
    var key := KeyOf(v0, base).value;
    forall w | Reaches(w0, w, base) && w.pub == w0.pub
      ensures || (SameShape(w0, w) && Resolve(Slots(w.docs[i])[j], base, w) == Resolve(v0, base, w0))
              || (Decide(v0, base).SkipPrivate? && Replaceable(w0, base, key))
    {
      ReachesKeeps(w0, w, base);
      ReferenceFate(w0, w, base, i, j);
    }
    if Decide(v0, base).SkipPrivate? && Replaceable(w0, base, key) {
      var copied := CopyReached(w0, base, key);
    }
  }

  /** Exactly which references some stop of a deleting run strands: the public ones whose key a document in scope refers to. */
  lemma {:induction false} StrandableIff(w0: World, base: string, i: nat, j: nat)
    requires i < |w0.docs| && j < |Slots(w0.docs[i])| && Resolve(Slots(w0.docs[i])[j], base, w0).Some?
    ensures var v0 := Slots(w0.docs[i])[j];
            (exists w :: Reaches(w0, w, base) && SameShape(w0, w) && Stranded(Slots(w.docs[i])[j], base, w)) <==>
              Decide(v0, base).Migrate? && Decide(v0, base).key in DocKeys(w0.docs, base)
  {
    var v0 := Slots(w0.docs[i])[j];
    if w :| Reaches(w0, w, base) && SameShape(w0, w) && Stranded(Slots(w.docs[i])[j], base, w) {
      ReachesKeeps(w0, w, base);
      ReferenceFate(w0, w, base, i, j);
    }
    if Decide(v0, base).Migrate? && Decide(v0, base).key in DocKeys(w0.docs, base) {
      var deleted := DeleteReached(w0, base, Decide(v0, base).key);
      assert Stranded(Slots(deleted.docs[i])[j], base, deleted);
    }
  }

  // -------------------------------------------------------------- completion

  function ValueKeys(value: Option<string>, base: string): seq<string> {
    var d := Decide(value, base);
    if d.Migrate? then [d.key] else []
  }

  function SlotKeys(slots: seq<Option<string>>, base: string): seq<string> {
    if |slots| == 0 then [] else ValueKeys(slots[0], base) + SlotKeys(slots[1..], base)
  }

  function KeysIn(d: Doc, base: string): seq<string> {
    if InQuery(d) then SlotKeys(Slots(d), base) else []
  }

  /** The keys a run will move, in order. */
  function DocKeys(docs: seq<Doc>, base: string): seq<string> {
    if |docs| == 0 then []
    else KeysIn(docs[0], base) + DocKeys(docs[1..], base)
  }

  function Left(pub: map<string, Content>, keys: seq<string>, deletes: bool): map<string, Content> {
    if deletes then pub - (set k | k in keys) else pub
  }

  function Without(pub: map<string, Content>, key: string, deletes: bool): map<string, Content> {
    if deletes then pub - {key} else pub
  }

  /** The private bucket with the objects of `keys` copied into it. */
  function Filled(priv: map<string, Content>, keys: seq<string>, pub: map<string, Content>): map<string, Content> {
    priv + map k | k in keys && k in pub :: pub[k]
  }

  /** Can the keys be moved one after the other, each finding its source? */
  predicate CanMove(keys: seq<string>, pub: map<string, Content>, deletes: bool)
    decreases |keys|
  {
    |keys| == 0 || (keys[0] in pub && CanMove(keys[1..], Without(pub, keys[0], deletes), deletes))
  }

  /** Exactly: every key has its source, and, when sources are deleted, no key is referenced twice. */
  lemma {:induction false} CanMoveIff(keys: seq<string>, pub: map<string, Content>, deletes: bool)
    ensures CanMove(keys, pub, deletes) <==> (forall k :: k in keys ==> k in pub) && (deletes ==> Distinct(keys))
    decreases |keys|
  {
    if |keys| == 0 {
    } else {
      var rest := keys[1..];
      CanMoveIff(rest, Without(pub, keys[0], deletes), deletes);
      assert keys == [keys[0]] + rest;
      if CanMove(keys, pub, deletes) && deletes {
        forall i, j | 0 <= i < j < |keys| ensures keys[i] != keys[j] {
          assert keys[j] == rest[j - 1] && rest[j - 1] in rest;
          if i > 0 { assert keys[i] == rest[i - 1]; }
        }
      }
      if deletes && Distinct(keys) {
        assert forall i :: 0 <= i < |rest| ==> rest[i] == keys[i + 1];
        assert keys[0] !in rest;
      }
    }
  }

  lemma {:induction false} CanMoveConcat(xs: seq<string>, ys: seq<string>, pub: map<string, Content>, deletes: bool)
    ensures CanMove(xs + ys, pub, deletes) <==> CanMove(xs, pub, deletes) && CanMove(ys, Left(pub, xs, deletes), deletes)
    decreases |xs|
  {
    if |xs| == 0 {
      assert xs + ys == ys;
      assert Left(pub, xs, deletes) == pub;
    } else {
      var pub' := Without(pub, xs[0], deletes);
      assert (xs + ys)[1..] == xs[1..] + ys;
      CanMoveConcat(xs[1..], ys, pub', deletes);
      assert xs == [xs[0]] + xs[1..];
      assert Left(pub', xs[1..], deletes) == Left(pub, xs, deletes);
    }
  }

  function Rewritten(value: Option<string>, base: string): Option<string> {
    var d := Decide(value, base);
    if d.Migrate? then Some(d.newRef) else value
  }

  function RewrittenSlots(slots: seq<Option<string>>, base: string): seq<Option<string>> {
    seq(|slots|, j requires 0 <= j < |slots| => Rewritten(slots[j], base))
  }

  function RewrittenDoc(d: Doc, base: string): Doc {
    if InQuery(d) then WithSlots(d, RewrittenSlots(Slots(d), base)) else d
  }

  function RewrittenDocs(docs: seq<Doc>, base: string): seq<Doc> {
    seq(|docs|, i requires 0 <= i < |docs| => RewrittenDoc(docs[i], base))
  }

  lemma {:induction false} NoSlotKeys(slots: seq<Option<string>>, base: string)
    ensures SlotKeys(slots, base) == [] <==> forall j :: 0 <= j < |slots| ==> !Decide(slots[j], base).Migrate?
  {
    if |slots| == 0 {
    } else {
      NoSlotKeys(slots[1..], base);
      assert forall j :: 0 < j < |slots| ==> slots[j] == slots[1..][j - 1];
    }
  }

  /** Once everything in scope is rewritten there is nothing left to move. */
  lemma {:induction false} RewrittenIsDone(docs: seq<Doc>, base: string)
    ensures DocKeys(RewrittenDocs(docs, base), base) == []
  {
    if |docs| == 0 {
    } else {
      RewrittenIsDone(docs[1..], base);
      assert RewrittenDocs(docs, base)[1..] == RewrittenDocs(docs[1..], base);
      var d := docs[0];
      if InQuery(d) {
        forall j | 0 <= j < |Slots(d)| ensures !Decide(Rewritten(Slots(d)[j], base), base).Migrate? {
          if Decide(Slots(d)[j], base).Migrate? { NewRefIsPrivate(Slots(d)[j], base); }
        }
        NoSlotKeys(RewrittenSlots(Slots(d), base), base);
      }
    }
  }

  /** A crash right after the source of a key was deleted: the reference is stranded and no rerun can finish. */
  lemma CrashAfterDeleteStrands(w: World, base: string, i: nat, j: nat)
    requires i < |w.docs| && j < |Slots(w.docs[i])| && InQuery(w.docs[i])
    requires Decide(Slots(w.docs[i])[j], base).Migrate? && Decide(Slots(w.docs[i])[j], base).key in w.pub
    ensures var v := Slots(w.docs[i])[j];
            var key := Decide(v, base).key;
            var copied := w.(priv := w.priv[key := w.pub[key]]);
            var deleted := copied.(pub := w.pub - {key});
            && Path([w, copied, deleted], base)
            && Resolve(v, base, w).Some? && Resolve(v, base, deleted).None? && Stranded(v, base, deleted)
            && forall deletes :: !CanMove(DocKeys(deleted.docs, base), deleted.pub, deletes)
  {
    var v := Slots(w.docs[i])[j];
    var key := Decide(v, base).key;
    var copied := w.(priv := w.priv[key := w.pub[key]]);
    var deleted := copied.(pub := w.pub - {key});
    KeyListed(w.docs, base, i, j);
    assert Copies(w, copied, base, key) && Deletes(copied, deleted, base, key);
    var ws := [w, copied, deleted];
    assert Step(ws[0], ws[1], base) && Step(ws[1], ws[2], base);
    forall deletes ensures !CanMove(DocKeys(deleted.docs, base), deleted.pub, deletes) {
      CanMoveIff(DocKeys(deleted.docs, base), deleted.pub, deletes);
    }
  }

  lemma {:induction false} SlotKeyListed(slots: seq<Option<string>>, base: string, j: nat)
    requires j < |slots| && Decide(slots[j], base).Migrate?
    ensures Decide(slots[j], base).key in SlotKeys(slots, base)
  {
    if j == 0 {
    } else {
      SlotKeyListed(slots[1..], base, j - 1);
    }
  }

  lemma {:induction false} SlotKeyPlace(slots: seq<Option<string>>, base: string, key: string) returns (j: nat)
    requires key in SlotKeys(slots, base)
    ensures j < |slots| && Decide(slots[j], base).Migrate? && Decide(slots[j], base).key == key
  {
    if key in ValueKeys(slots[0], base) {
      j := 0;
    } else {
      j := SlotKeyPlace(slots[1..], base, key);
      j := j + 1;
    }
  }

  /** A key to be moved is that of a reference in scope. */
  lemma {:induction false} KeyPlace(docs: seq<Doc>, base: string, key: string) returns (i: nat, j: nat)
    requires key in DocKeys(docs, base)
    ensures i < |docs| && j < |Slots(docs[i])| && InQuery(docs[i])
    ensures Decide(Slots(docs[i])[j], base).Migrate? && Decide(Slots(docs[i])[j], base).key == key
  {
    if key in KeysIn(docs[0], base) {
      i := 0;
      j := SlotKeyPlace(Slots(docs[0]), base, key);
    } else {
      i, j := KeyPlace(docs[1..], base, key);
      i := i + 1;
    }
  }

  lemma {:induction false} DocKeysListed(docs: seq<Doc>, base: string, i: nat)
    requires i < |docs|
    ensures forall key :: key in KeysIn(docs[i], base) ==> key in DocKeys(docs, base)
  {
    if i == 0 {
    } else {
      DocKeysListed(docs[1..], base, i - 1);
    }
  }

  lemma {:induction false} KeyListed(docs: seq<Doc>, base: string, i: nat, j: nat)
    requires i < |docs| && j < |Slots(docs[i])| && InQuery(docs[i]) && Decide(Slots(docs[i])[j], base).Migrate?
    ensures Decide(Slots(docs[i])[j], base).key in DocKeys(docs, base)
  {
    if i == 0 {
      SlotKeyListed(Slots(docs[0]), base, j);
    } else {
      KeyListed(docs[1..], base, i - 1, j);
    }
  }

  /** Moving the keys one after the other took `w0` to `w`. */
  ghost predicate Took(keys: seq<string>, w0: World, w: World, deletes: bool) {
    && CanMove(keys, w0.pub, deletes)
    && w.pub == Left(w0.pub, keys, deletes)
    && w.priv == Filled(w0.priv, keys, w0.pub)
  }

  lemma TookMore(done: seq<string>, keys: seq<string>, w0: World, w1: World, w2: World, deletes: bool)
    requires Took(done, w0, w1, deletes) && Took(keys, w1, w2, deletes)
    ensures Took(done + keys, w0, w2, deletes)
  {
    CanMoveConcat(done, keys, w0.pub, deletes);
    CanMoveIff(keys, w1.pub, deletes);
    FilledTwice(w0.priv, done, keys, w0.pub, w1.pub);
  }

  /** One more group of keys: if it could be moved it was, and if not, all of them cannot be. */
  lemma TookOn(done: seq<string>, keys: seq<string>, rest: seq<string>, w0: World, w1: World, w2: World, deletes: bool, ok: bool)
    requires Took(done, w0, w1, deletes) && (if ok then Took(keys, w1, w2, deletes) else !CanMove(keys, w1.pub, deletes))
    ensures if ok then Took(done + keys, w0, w2, deletes) else !CanMove(done + (keys + rest), w0.pub, deletes)
  {
    if ok {
      TookMore(done, keys, w0, w1, w2, deletes);
    } else {
      CanMoveConcat(done, keys + rest, w0.pub, deletes);
      CanMoveConcat(keys, rest, w1.pub, deletes);
    }
  }

  lemma FilledTwice(priv: map<string, Content>, done: seq<string>, keys: seq<string>, pub: map<string, Content>, pub': map<string, Content>)
    requires forall k :: k in keys ==> k in pub' && k in pub && pub'[k] == pub[k]
    ensures Filled(Filled(priv, done, pub), keys, pub') == Filled(priv, done + keys, pub)
  {
  }

  lemma TookNone(w: World, deletes: bool)
    ensures Took([], w, w, deletes)
  {
  }

  lemma TookOne(key: string, w: World, w': World, deletes: bool)
    requires key in w.pub && w'.pub == Without(w.pub, key, deletes) && w'.priv == w.priv[key := w.pub[key]]
    ensures Took([key], w, w', deletes)
  {
  }

  // -------------------------------------------------------------- the script

  /** What one external call does. A `Throws` or `Dies` may still have taken effect. */
  datatype Reply = Ok | Throws(landed: bool) | Dies(landed: bool)

  datatype Move = Done | Unverified | Cut

  datatype Outcome = Unchanged | NewRef(ref: string) | Aborted

  datatype Stats = Stats(scanned: nat, migrated: nat, skippedPrivate: nat, skippedEmpty: nat, skippedForeign: nat,
                         verifyFailures: nat, deletedSource: nat)

  /** Every scanned reference is accounted for by exactly one counter. */
  predicate Balanced(s: Stats) {
    s.scanned == s.migrated + s.skippedPrivate + s.skippedEmpty + s.skippedForeign + s.verifyFailures
  }

  datatype Kind = Empty | Private | Foreign | Public

  function KindOf(value: Option<string>, base: string): Kind {
    match Decide(value, base)
    case SkipEmpty => Empty
    case SkipPrivate => Private
    case SkipForeign => Foreign
    case Migrate(_, _) => Public
  }

  /** How many references are of the kind. */
  function Num(slots: seq<Option<string>>, base: string, kind: Kind): nat {
    if |slots| == 0 then 0
    else Num(slots[..|slots| - 1], base, kind) + (if KindOf(slots[|slots| - 1], base) == kind then 1 else 0)
  }

  /** The references a run looks at, in order. */
  function ScopeSlots(docs: seq<Doc>): seq<Option<string>> {
    if |docs| == 0 then [] else LookedAt(docs[0]) + ScopeSlots(docs[1..])
  }

  function LookedAt(d: Doc): seq<Option<string>> {
    if InQuery(d) then Slots(d) else []
  }

  /** Every one of the references was counted once, under its kind. */
  predicate Counts(s: Stats, slots: seq<Option<string>>, base: string) {
    && s.scanned == |slots|
    && s.skippedEmpty == Num(slots, base, Empty)
    && s.skippedPrivate == Num(slots, base, Private)
    && s.skippedForeign == Num(slots, base, Foreign)
    && s.migrated + s.verifyFailures == Num(slots, base, Public)
  }

  lemma CountsOne(s: Stats, t: Stats, slots: seq<Option<string>>, value: Option<string>, base: string)
    requires Counts(s, slots, base) && t.scanned == s.scanned + 1
    requires t.skippedEmpty == s.skippedEmpty + (if KindOf(value, base).Empty? then 1 else 0)
    requires t.skippedPrivate == s.skippedPrivate + (if KindOf(value, base).Private? then 1 else 0)
    requires t.skippedForeign == s.skippedForeign + (if KindOf(value, base).Foreign? then 1 else 0)
    requires t.migrated + t.verifyFailures == s.migrated + s.verifyFailures + (if KindOf(value, base).Public? then 1 else 0)
    ensures Counts(t, slots + [value], base)
  {
    InitOfConcat(slots, [value]);
  }

  lemma DeleteSteps(w: World, base: string, key: string)
    requires key in DocKeys(w.docs, base) && key in w.pub && Landed(w, key)
    ensures Step(w, DeletedFrom(w, key), base)
  {
    assert Deletes(w, DeletedFrom(w, key), base, key);
  }

  lemma CopySteps(w: World, base: string, key: string)
    requires key in DocKeys(w.docs, base) && key in w.pub
    ensures Step(w, CopiedTo(w, key), base)
  {
    assert Copies(w, CopiedTo(w, key), base, key);
  }

  lemma CopyLands(w: World, key: string)
    ensures var copied, deleted := CopiedTo(w, key), DeletedFrom(CopiedTo(w, key), key);
            && (key in w.pub ==> Landed(copied, key) && Landed(deleted, key) && |copied.priv[key]| == |copied.pub[key]|)
            && forall k :: Landed(w, k) ==> Landed(copied, k) && Landed(deleted, k)
  {
  }

  lemma ExtendPath(ws: seq<World>, w: World, base: string)
    requires Path(ws, base) && Step(ws[|ws| - 1], w, base)
    ensures Path(ws + [w], base)
  {
    var more := ws + [w];
    forall i | 0 <= i < |more| - 1 ensures Step(more[i], more[i + 1], base) {
      if i < |ws| - 1 { assert Step(ws[i], ws[i + 1], base); }
    }
  }

  class Mover {
    const base: string
    const dryRun: bool
    const deletes: bool
    const env: nat -> Reply
    var calls: nat
    var world: World
    var stats: Stats
    ghost var trace: seq<World>
    /** Every reference looked at so far. */
    ghost var seen: seq<Option<string>>

    constructor (base: string, dryRun: bool, deletes: bool, env: nat -> Reply, world: World)
      ensures Valid() && this.world == world && trace == [world] && Balanced(stats) && stats.scanned == 0
      ensures seen == [] && Accounted()
      ensures this.base == base && this.dryRun == dryRun && this.deletes == deletes && this.env == env && calls == 0
    {
      this.base, this.dryRun, this.deletes, this.env := base, dryRun, deletes, env;
      this.calls, this.world, this.stats := 0, world, Stats(0, 0, 0, 0, 0, 0, 0);
      this.trace, this.seen := [world], [];
    }

    ghost predicate Accounted()
      reads this
    {
      Counts(stats, seen, base)
    }

    /** The trace records every world so far; a crash leaves the last one. */
    ghost predicate Valid()
      reads this
    {
      Path(trace, base) && trace[|trace| - 1] == world
    }

    ghost predicate Calm() {
      forall n :: env(n).Ok?
    }

    method Call() returns (r: Reply)
      modifies this`calls
      ensures r == env(old(calls)) && calls == old(calls) + 1
      ensures Calm() ==> r.Ok?
    {
      r := env(calls);
      calls := calls + 1;
    }

    method Become(w: World)
      requires Valid() && Step(world, w, base)
      modifies this`world, this`trace
      ensures Valid() && world == w && old(trace) <= trace
    {
      ExtendPath(trace, w, base);
      world := w;
      trace := trace + [w];
    }

    /** HEAD: the size, or nothing on any error. */
    method ObjectSize(objects: map<string, Content>, key: string) returns (size: Option<nat>, dead: bool)
      modifies this`calls
      ensures calls == old(calls) + 1 && dead == env(old(calls)).Dies?
      ensures size == if env(old(calls)).Ok? && key in objects then Some(|objects[key]|) else None
      ensures Calm() ==> !dead && (key in objects ==> size.Some?)
    {
      var r := Call();
      size := if r.Ok? && key in objects then Some(|objects[key]|) else None;
      dead := r.Dies?;
    }

    /** The copy: it throws without a source. */
    method Copy(key: string) returns (ok: bool)
      requires Valid() && key in DocKeys(world.docs, base)
      modifies this`calls, this`world, this`trace
      ensures Valid() && old(trace) <= trace && calls == old(calls) + 1
      ensures ok == (env(old(calls)).Ok? && key in old(world.pub))
      ensures world == old(world) || (key in old(world.pub) && world == CopiedTo(old(world), key))
      ensures ok ==> world == CopiedTo(old(world), key)
      ensures Calm() ==> ok == (key in old(world.pub))
    {
      var reply := Call();
      if key !in world.pub {
        return false;
      }
      if reply.Ok? || reply.landed {
        CopySteps(world, base, key);
        Become(CopiedTo(world, key));
      }
      ok := reply.Ok?;
    }

    /** The sizes of source and copy; `Done` when they agree. */
    method Verify(key: string) returns (r: Move)
      modifies this`calls
      ensures calls == old(calls) + 2
      ensures r == if env(old(calls)).Dies? || env(old(calls) + 1).Dies? then Cut
                   else if env(old(calls)).Ok? && env(old(calls) + 1).Ok? && key in world.pub && key in world.priv &&
                           |world.pub[key]| == |world.priv[key]| then Done
                   else Unverified
    {
      var srcSize, srcDead := ObjectSize(world.pub, key);
      var dstSize, dstDead := ObjectSize(world.priv, key);
      r := if srcDead || dstDead then Cut
           else if srcSize.None? || dstSize.None? || srcSize != dstSize then Unverified
           else Done;
    }

    method Delete(key: string) returns (r: Move)
      requires Valid() && key in DocKeys(world.docs, base) && key in world.pub && Landed(world, key)
      modifies this`calls, this`world, this`trace, this`stats
      ensures Valid() && old(trace) <= trace && calls == old(calls) + 1
      ensures r == if env(old(calls)).Ok? then Done else Cut
      ensures world == if env(old(calls)).Ok? || env(old(calls)).landed then DeletedFrom(old(world), key) else old(world)
      ensures stats == old(stats).(deletedSource := old(stats.deletedSource) + (if r.Done? then 1 else 0))
    {
      var reply := Call();
      if reply.Ok? || reply.landed {
        DeleteSteps(world, base, key);
        Become(DeletedFrom(world, key));
      }
      r := Cut;
      if reply.Ok? {
        stats := stats.(deletedSource := stats.deletedSource + 1);
        r := Done;
      }
    }

    /** The process dies in the delete of the next move, which takes effect all the same. */
    ghost predicate DiesDeleting(n: nat) {
      env(n).Ok? && env(n + 1).Ok? && env(n + 2).Ok? && env(n + 3) == Dies(true)
    }

    /** From world `w` and call `n` on, the first of the keys is moved, and the process dies deleting its source. */
    ghost predicate Doomed(keys: seq<string>, w: World, n: nat) {
      !dryRun && deletes && DiesDeleting(n) && |keys| > 0 && keys[0] in w.pub
    }

    /** Copy, verify by size, and delete the source if asked to. */
    method MoveObject(key: string) returns (r: Move)
      requires Valid() && key in DocKeys(world.docs, base)
      modifies this
      ensures Valid() && old(trace) <= trace && world.docs == old(world.docs)
      ensures seen == old(seen)
      ensures stats == old(stats).(deletedSource := old(stats.deletedSource) + (if deletes && r.Done? then 1 else 0))
      ensures !deletes ==> world.pub == old(world.pub)
      ensures forall k :: Landed(old(world), k) ==> Landed(world, k)
      ensures r.Done? ==> key in old(world.pub) && Landed(world, key)
      ensures r.Done? ==> world.pub == Without(old(world.pub), key, deletes)
      ensures r.Done? ==> world.priv == old(world.priv)[key := old(world.pub)[key]]
      ensures var c := old(calls);
              r == if key !in old(world.pub) || !env(c).Ok? || env(c + 1).Dies? || env(c + 2).Dies? then Cut
                   else if env(c + 1).Throws? || env(c + 2).Throws? then Unverified
                   else if deletes && !env(c + 3).Ok? then Cut
                   else Done
      ensures r.Unverified? ==> world == old(world).(priv := old(world.priv)[key := old(world.pub)[key]])
      ensures Doomed([key], old(world), old(calls)) ==> r.Cut? && world == DeletedFrom(CopiedTo(old(world), key), key)
    {
      ghost var w0 := world;
      CopyLands(world, key);
      var ok := Copy(key);
      if !ok {
        return Cut;
      }
      assert world == CopiedTo(w0, key);
      r := Verify(key);
      if r.Done? && deletes {
        r := Delete(key);
      }
    }

    /** The live move of one reference: a rejected copy is counted and leaves the reference. */
    method MoveValue(key: string, newRef: string) returns (out: Outcome)
      requires Valid() && !dryRun && key in DocKeys(world.docs, base)
      modifies this
      ensures Valid() && old(trace) <= trace && world.docs == old(world.docs)
      ensures seen == old(seen)
      ensures out.Unchanged? ==> stats == old(stats).(verifyFailures := old(stats.verifyFailures) + 1)
      ensures out.NewRef? ==> stats == old(stats).(migrated := old(stats.migrated) + 1,
                                                   deletedSource := old(stats.deletedSource) + (if deletes then 1 else 0))
      ensures !deletes ==> world.pub == old(world.pub)
      ensures forall k :: Landed(old(world), k) ==> Landed(world, k)
      ensures out.NewRef? ==> out.ref == newRef && Landed(world, key) && Took([key], old(world), world, deletes)
      ensures Did([key], old(world), old(calls), world, calls, !out.Aborted?)
      ensures Calm() ==> (out.NewRef? <==> !out.Aborted?)
    {
      ghost var w0 := world;
      var r := MoveObject(key);
      match r
      case Cut =>
        return Aborted;
      case Unverified =>
        stats := stats.(verifyFailures := stats.verifyFailures + 1);
        return Unchanged;
      case Done =>
        TookOne(key, w0, world, deletes);
        stats := stats.(migrated := stats.migrated + 1);
        return NewRef(newRef);
    }

    /** One reference by its decision, counted under it. */
    method MigrateDecided(value: Option<string>) returns (out: Outcome)
      requires Valid() && forall key :: key in ValueKeys(value, base) ==> key in DocKeys(world.docs, base)
      modifies this
      ensures Valid() && old(trace) <= trace && world.docs == old(world.docs)
      ensures seen == old(seen)
      ensures !out.Aborted? ==>
                var s := old(stats).(scanned := old(stats.scanned) + 1);
                stats == match Decide(value, base)
                         case SkipEmpty => s.(skippedEmpty := s.skippedEmpty + 1)
                         case SkipPrivate => s.(skippedPrivate := s.skippedPrivate + 1)
                         case SkipForeign => s.(skippedForeign := s.skippedForeign + 1)
                         case Migrate(_, _) =>
                           if out.Unchanged? then s.(verifyFailures := s.verifyFailures + 1)
                           else s.(migrated := s.migrated + 1, deletedSource := s.deletedSource + (if deletes && !dryRun then 1 else 0))
      ensures dryRun || !Decide(value, base).Migrate? ==> world == old(world) && trace == old(trace) && !out.Aborted?
      ensures dryRun ==> (out.NewRef? <==> Decide(value, base).Migrate?)
      ensures !deletes ==> world.pub == old(world.pub)
      ensures forall k :: Landed(old(world), k) ==> Landed(world, k)
      ensures out.NewRef? ==>
                var d := Decide(value, base);
                && d.Migrate? && out.ref == d.newRef
                && (!dryRun ==> Landed(world, d.key) && Took([d.key], old(world), world, deletes))
      ensures Did(ValueKeys(value, base), old(world), old(calls), world, calls, !out.Aborted?)
      ensures !dryRun && Calm() ==> (out.NewRef? <==> Decide(value, base).Migrate? && !out.Aborted?)
    {
      stats := stats.(scanned := stats.scanned + 1);
      TookNone(world, deletes);
      match Decide(value, base)
      case SkipEmpty =>
        stats := stats.(skippedEmpty := stats.skippedEmpty + 1);
        return Unchanged;
      case SkipPrivate =>
        stats := stats.(skippedPrivate := stats.skippedPrivate + 1);
        return Unchanged;
      case SkipForeign =>
        stats := stats.(skippedForeign := stats.skippedForeign + 1);
        return Unchanged;
      case Migrate(key, newRef) =>
        if dryRun {
          stats := stats.(migrated := stats.migrated + 1);
          return NewRef(newRef);
        }
        out := MoveValue(key, newRef);
    }

    method MigrateValue(value: Option<string>) returns (out: Outcome)
      requires Valid() && forall key :: key in ValueKeys(value, base) ==> key in DocKeys(world.docs, base)
      modifies this
      ensures Valid() && old(trace) <= trace && world.docs == old(world.docs)
      ensures !out.Aborted? ==> seen == old(seen) + [value] && (old(Accounted()) ==> Accounted())
      ensures !out.Aborted? && old(Balanced(stats)) ==> Balanced(stats)
      ensures !out.Aborted? ==> stats.migrated == old(stats.migrated) + (if out.NewRef? then 1 else 0)
      ensures dryRun || !Decide(value, base).Migrate? ==> world == old(world) && trace == old(trace) && !out.Aborted?
      ensures dryRun ==> (out.NewRef? <==> Decide(value, base).Migrate?)
      ensures !deletes ==> world.pub == old(world.pub)
      ensures forall k :: Landed(old(world), k) ==> Landed(world, k)
      ensures out.NewRef? ==>
                var d := Decide(value, base);
                && d.Migrate? && out.ref == d.newRef
                && (!dryRun ==> Landed(world, d.key) && Took([d.key], old(world), world, deletes))
      ensures Did(ValueKeys(value, base), old(world), old(calls), world, calls, !out.Aborted?)
      ensures !dryRun && Calm() ==> (out.NewRef? <==> Decide(value, base).Migrate? && !out.Aborted?)
    {
      ghost var s0 := stats;
      out := MigrateDecided(value);
      if !out.Aborted? && Counts(s0, seen, base) { CountsOne(s0, stats, seen, value, base); }
      seen := seen + [value];
    }

    /** The database update of one document. */
    method WriteDoc(i: nat, slots: seq<Option<string>>) returns (ok: bool)
      requires Valid() && i < |world.docs| && |slots| == |Slots(world.docs[i])|
      requires forall j :: 0 <= j < |slots| ==>
                 slots[j] == Slots(world.docs[i])[j] || Moved(world, base, Slots(world.docs[i])[j], slots[j])
      modifies this`calls, this`world, this`trace
      ensures Valid() && old(trace) <= trace && world.pub == old(world.pub)
      ensures world.priv == old(world.priv) && |world.docs| == |old(world.docs)|
      ensures forall k :: 0 <= k < |world.docs| && k != i ==> world.docs[k] == old(world.docs[k])
      ensures calls == old(calls) + 1 && ok == env(old(calls)).Ok?
      ensures world.docs[i] == if env(old(calls)).Ok? || env(old(calls)).landed then WithSlots(old(world.docs[i]), slots)
                               else old(world.docs[i])
      ensures Calm() ==> ok
    {
      var d := world.docs[i];
      var write := Call();
      ok := write.Ok?;
      if write.Ok? || write.landed {
        QueryKept(d, slots, base);
        assert DocRewrites(world, base, d, WithSlots(d, slots));
        assert forall k :: 0 <= k < |world.docs| && k != i ==> DocRewrites(world, base, world.docs[k], world.docs[k]);
        Become(world.(docs := world.docs[i := WithSlots(d, slots)]));
      }
    }

    /**
     * Moving the keys, from world `w0` and call `n0` on, has come to `w` and `n`:
     * nothing for no keys; when nothing fails it goes through exactly when the
     * keys can be moved, and then has moved them; and a doomed one has ended.
     */
    ghost predicate Did(keys: seq<string>, w0: World, n0: nat, w: World, n: nat, ok: bool) {
      && (|keys| == 0 ==> ok && w == w0 && n == n0)
      && (!dryRun && Calm() ==> (ok <==> CanMove(keys, w0.pub, deletes)) && (ok ==> Took(keys, w0, w, deletes)))
      && (Doomed(keys, w0, n0) ==> !ok && w == DeletedFrom(CopiedTo(w0, keys[0]), keys[0]))
    }

    lemma DidNone(w: World, n: nat)
      ensures Did([], w, n, w, n, true)
    {
    }

    lemma DidMore(done: seq<string>, keys: seq<string>, rest: seq<string>, w0: World, n0: nat, w1: World, n1: nat, w2: World, n2: nat, ok: bool)
      requires Did(done, w0, n0, w1, n1, true) && Did(keys, w1, n1, w2, n2, ok)
      ensures if ok then Did(done + keys, w0, n0, w2, n2, true) else Did(done + (keys + rest), w0, n0, w2, n2, false)
    {
      if !dryRun && Calm() { TookOn(done, keys, rest, w0, w1, w2, deletes, ok); }
      if |done| == 0 {
        assert done + keys == keys && done + (keys + rest) == keys + rest;
      }
    }

    /** The references of one document, in order. */
    method MigrateSlots(before: seq<Option<string>>) returns (ok: bool, slots: seq<Option<string>>, changed: bool)
      requires Valid() && forall key :: key in SlotKeys(before, base) ==> key in DocKeys(world.docs, base)
      modifies this
      ensures Valid() && old(trace) <= trace && world.docs == old(world.docs)
      ensures |slots| == |before| && (!changed ==> slots == before)
      ensures forall k :: 0 <= k < |before| ==> slots[k] == before[k] || MovedSlot(before[k], slots[k])
      ensures ok ==> seen == old(seen) + before && (old(Accounted()) ==> Accounted())
      ensures ok && old(Balanced(stats)) ==> Balanced(stats)
      ensures dryRun || SlotKeys(before, base) == [] ==> ok && world == old(world) && trace == old(trace)
      ensures SlotKeys(before, base) == [] ==> !changed
      ensures ok && (dryRun || Calm()) ==> stats.migrated == old(stats.migrated) + |SlotKeys(before, base)|
      ensures !deletes ==> world.pub == old(world.pub)
      ensures Did(SlotKeys(before, base), old(world), old(calls), world, calls, ok)
      ensures !dryRun && Calm() && ok ==> slots == RewrittenSlots(before, base)
    {
      ghost var w0, n0, all, target := world, calls, SlotKeys(before, base), RewrittenSlots(before, base);
      DidNone(w0, n0);
      slots, changed := before, false;
      ghost var done: seq<string> := [];
      assert before[0..] == before && before[..0] == [];
      for j := 0 to |before|
        invariant Valid() && old(trace) <= trace && world.docs == old(world.docs)
        invariant |slots| == |before| && forall k :: j <= k < |before| ==> slots[k] == before[k]
        invariant forall k :: 0 <= k < j ==> slots[k] == before[k] || MovedSlot(before[k], slots[k])
        invariant !changed ==> slots == before
        invariant seen == old(seen) + before[..j] && (old(Accounted()) ==> Accounted())
        invariant old(Balanced(stats)) ==> Balanced(stats)
        invariant done + SlotKeys(before[j..], base) == all
        invariant dryRun || all == [] ==> world == old(world) && trace == old(trace)
        invariant all == [] ==> !changed
        invariant dryRun || Calm() ==> stats.migrated == old(stats.migrated) + |done|
        invariant !deletes ==> world.pub == w0.pub
        invariant Did(done, w0, n0, world, calls, true)
        invariant !dryRun && Calm() ==> forall k :: 0 <= k < j ==> slots[k] == target[k]
      {
        assert before[j..][0] == before[j] && before[j..][1..] == before[j + 1..];
        ghost var keys, rest, w1, n1 := ValueKeys(before[j], base), SlotKeys(before[j + 1..], base), world, calls;
        assert SlotKeys(before[j..], base) == keys + rest;
        Regroup(done, keys, rest);
        var out := MigrateValue(slots[j]);
        DidMore(done, keys, rest, w0, n0, w1, n1, world, calls, !out.Aborted?);
        if out.Aborted? {
          return false, slots, changed;
        }
        done := done + keys;
        if out.NewRef? {
          slots, changed := slots[j := Some(out.ref)], true;
        }
      }
      ok := true;
      assert done == all && before[..|before|] == before;
    }

    /** One document: left alone outside the query, else written once if anything moved. */
    method MigrateDoc(i: nat) returns (ok: bool)
      requires Valid() && i < |world.docs|
      modifies this
      ensures Valid() && old(trace) <= trace
      ensures |world.docs| == |old(world.docs)|
      ensures forall k :: 0 <= k < |world.docs| && k != i ==> world.docs[k] == old(world.docs[k])
      ensures ok ==> seen == old(seen) + LookedAt(old(world.docs[i])) && (old(Accounted()) ==> Accounted())
      ensures ok && old(Balanced(stats)) ==> Balanced(stats)
      ensures dryRun || KeysIn(old(world.docs[i]), base) == [] ==> ok && world == old(world) && trace == old(trace)
      ensures ok && (dryRun || Calm()) ==> stats.migrated == old(stats.migrated) + |KeysIn(old(world.docs[i]), base)|
      ensures !deletes ==> world.pub == old(world.pub)
      ensures Did(KeysIn(old(world.docs[i]), base), old(world), old(calls), world, calls, ok)
      ensures !dryRun && Calm() && ok ==> world.docs[i] == RewrittenDoc(old(world.docs[i]), base)
    {
      var d := world.docs[i];
      if !InQuery(d) {
        return true;
      }
      DocKeysListed(world.docs, base, i);
      var slots, changed;
      ok, slots, changed := MigrateSlots(Slots(d));
      if ok && changed && !dryRun {
        ok := WriteDoc(i, slots);
      }
      WithSame(d);
    }

    /** The whole script. */
    method Run() returns (ok: bool)
      requires Valid()
      modifies this
      ensures Valid() && old(trace) <= trace
      ensures ok ==> seen == old(seen) + ScopeSlots(old(world.docs)) && (old(Accounted()) ==> Accounted())
      ensures ok && old(Balanced(stats)) ==> Balanced(stats)
      ensures dryRun || DocKeys(old(world.docs), base) == [] ==> ok && world == old(world) && trace == old(trace)
      ensures dryRun ==> stats.migrated == old(stats.migrated) + |DocKeys(old(world.docs), base)|
      ensures !deletes ==> world.pub == old(world.pub)
      ensures !dryRun && Calm() ==>
                var keys := DocKeys(old(world.docs), base);
                && (ok <==> CanMove(keys, old(world.pub), deletes))
                && (ok ==> && world.pub == Left(old(world.pub), keys, deletes)
                           && world.priv == Filled(old(world.priv), keys, old(world.pub))
                           && world.docs == RewrittenDocs(old(world.docs), base)
                           && stats.migrated == old(stats.migrated) + |keys|)
      ensures var keys := DocKeys(old(world.docs), base);
              Doomed(keys, old(world), old(calls)) ==> !ok && world == DeletedFrom(CopiedTo(old(world), keys[0]), keys[0])
    {
      ghost var docs, w0, n0 := world.docs, world, calls;
      ghost var all, scanned, target := DocKeys(docs, base), seen + ScopeSlots(docs), RewrittenDocs(docs, base);
      DidNone(w0, n0);
      ghost var done: seq<string> := [];
      assert docs[0..] == docs;
      for i := 0 to |world.docs|
        invariant Valid() && old(trace) <= trace && |world.docs| == |docs|
        invariant forall k :: i <= k < |docs| ==> world.docs[k] == docs[k]
        invariant seen + ScopeSlots(docs[i..]) == scanned
        invariant old(Accounted()) ==> Accounted()
        invariant old(Balanced(stats)) ==> Balanced(stats)
        invariant done + DocKeys(docs[i..], base) == all
        invariant dryRun || all == [] ==> world == old(world) && trace == old(trace)
        invariant dryRun || Calm() ==> stats.migrated == old(stats.migrated) + |done|
        invariant !deletes ==> world.pub == w0.pub
        invariant Did(done, w0, n0, world, calls, true)
        invariant !dryRun && Calm() ==> forall k :: 0 <= k < i ==> world.docs[k] == target[k]
      {
        ghost var keys, rest, w1, n1 := KeysIn(docs[i], base), DocKeys(docs[i + 1..], base), world, calls;
        assert docs[i..][0] == docs[i] && docs[i..][1..] == docs[i + 1..];
        assert DocKeys(docs[i..], base) == keys + rest;
        Regroup(done, keys, rest);
        Regroup(seen, LookedAt(docs[i]), ScopeSlots(docs[i + 1..]));
        ok := MigrateDoc(i);
        DidMore(done, keys, rest, w0, n0, w1, n1, world, calls, ok);
        if !ok {
          return;
        }
        assert !dryRun && Calm() ==> world.docs[i] == target[i];
        done := done + keys;
      }
      ok := true;
      assert done == all;
    }

    ghost predicate MovedSlot(before: Option<string>, after: Option<string>)
      reads this
    {
      var d := Decide(before, base);
      d.Migrate? && after == Some(d.newRef) && (!dryRun ==> Landed(world, d.key))
    }
  }

  lemma QueryKept(d: Doc, slots: seq<Option<string>>, base: string)
    requires |slots| == |Slots(d)| && forall j :: 0 <= j < |slots| ==> slots[j] == Slots(d)[j] || (slots[j].Some? && Slots(d)[j].Some?)
    ensures InQuery(WithSlots(d, slots)) == InQuery(d)
  {
    assert slots[|slots| - 1] == Slots(d)[|slots| - 1] || slots[|slots| - 1].Some?;
    if d.Application? { assert slots[0] == Slots(d)[0] || slots[0].Some?; }
  }

  lemma WithSame(d: Doc)
    ensures WithSlots(d, Slots(d)) == d
  {
  }

  /**
   * A run in which nothing fails completes exactly when every source is there
   * and, if sources are deleted, no key is referenced twice. Every object it
   * moved is then in the private bucket, and objects that were private before
   * kept their content exactly when no moved key clashed with one of them. The
   * run after it, whatever befalls that one, has nothing to do and changes
   * nothing.
   */
  method RunTwice(base: string, deletes: bool, calm: nat -> Reply, any: nat -> Reply, start: World)
      returns (ok: bool, end: World, again: bool, after: World)
    requires forall n :: calm(n).Ok?
    ensures var keys := DocKeys(start.docs, base);
            ok <==> (forall k :: k in keys ==> k in start.pub) && (deletes ==> Distinct(keys))
    ensures ok ==>
              var keys := DocKeys(start.docs, base);
              && (forall k :: k in keys ==> k in end.priv && end.priv[k] == start.pub[k])
              && (PrivateKept(start.priv, end.priv) <==> forall k :: k in keys && k in start.priv ==> start.pub[k] == start.priv[k])
    ensures ok ==> end.docs == RewrittenDocs(start.docs, base) && again && after == end
    ensures ok ==>
              var keys := DocKeys(start.docs, base);
              && (forall k :: k in end.priv ==> k in keys || k in start.priv)
              && (forall k :: k in end.pub <==> k in start.pub && !(deletes && k in keys))
              && (forall k :: k in end.pub ==> end.pub[k] == start.pub[k])
  {
    var first := new Mover(base, false, deletes, calm, start);
    ok := first.Run();
    end := first.world;
    CanMoveIff(DocKeys(start.docs, base), start.pub, deletes);
    RewrittenIsDone(start.docs, base);
    if ok {
      PrivateKeptIff(start.priv, DocKeys(start.docs, base), start.pub);
    }
    var second := new Mover(base, false, deletes, any, end);
    again := second.Run();
    after := second.world;
  }

  /**
   * The stranding crash is one of a run: dying in its first delete, the run leaves
   * every reference to that key stranded, and no rerun can finish.
   */
  method DyingRunStrands(base: string, start: World) returns (ok: bool, end: World)
    requires var keys := DocKeys(start.docs, base); |keys| > 0 && keys[0] in start.pub
    ensures var key := DocKeys(start.docs, base)[0];
            && !ok && end == DeletedFrom(CopiedTo(start, key), key)
            && (forall i, j :: 0 <= i < |start.docs| && 0 <= j < |Slots(start.docs[i])| &&
                               Decide(Slots(start.docs[i])[j], base).Migrate? && Decide(Slots(start.docs[i])[j], base).key == key ==>
                  Resolve(Slots(start.docs[i])[j], base, start).Some? && Stranded(Slots(end.docs[i])[j], base, end))
    ensures forall deletes :: !CanMove(DocKeys(end.docs, base), end.pub, deletes)
  {
    var m := new Mover(base, false, true, (n: nat) => if n == 3 then Dies(true) else Ok, start);
    ok := m.Run();
    end := m.world;
  }

  predicate PrivateKept(priv: map<string, Content>, priv': map<string, Content>) {
    forall k :: k in priv ==> k in priv' && priv'[k] == priv[k]
  }

  lemma PrivateKeptIff(priv: map<string, Content>, keys: seq<string>, pub: map<string, Content>)
    requires forall k :: k in keys ==> k in pub
    ensures PrivateKept(priv, Filled(priv, keys, pub)) <==> forall k :: k in keys && k in priv ==> pub[k] == priv[k]
  {
    forall k | k in keys && k in priv && PrivateKept(priv, Filled(priv, keys, pub)) ensures pub[k] == priv[k] {
      assert Filled(priv, keys, pub)[k] == pub[k];
    }
  }
}
