/**
 * What a private-media run does to the stored documents, reference by reference:
 * which references name a public object, which of them a run looks at and in
 * what order, and what each field holds afterwards.
 */
module MediaEffects {
  import opened Prelude
  import opened PrivateMedia

  // ------------------------------------------------------------ one reference

  /** `origin` is the public base without its one trailing slash, if it has one. */
  ghost predicate OriginOf(origin: string, base: string) {
    base == origin + "/" || (base == origin && (origin == "" || origin[|origin| - 1] != '/'))
  }

  /** The reference is the public URL of the key, with or without a query behind it. */
  ghost predicate Names(value: Option<string>, base: string, key: string) {
    exists origin, query :: NamesAt(value, base, key, origin, query)
  }

  ghost predicate NamesAt(value: Option<string>, base: string, key: string, origin: string, query: string) {
    && OriginOf(origin, base) && origin != "" && key != "" && '?' !in key && (query == "" || query[0] == '?')
    && value == Some(origin + "/" + key + query) && !("r2-private://" <= value.value)
  }

  lemma {:induction false} QueryCut(s: string)
    ensures BeforeQuery(s) <= s && '?' !in BeforeQuery(s)
    ensures var rest := s[|BeforeQuery(s)|..]; rest == "" || rest[0] == '?'
  {
    if |s| == 0 || s[0] == '?' {
    } else {
      QueryCut(s[1..]);
      var cut := BeforeQuery(s[1..]);
      assert BeforeQuery(s) == [s[0]] + cut;
      assert s[|BeforeQuery(s)|..] == s[1..][|cut|..];
    }
  }

  lemma {:induction false} KeyBeforeQuery(key: string, query: string)
    requires '?' !in key && (query == "" || query[0] == '?')
    ensures BeforeQuery(key + query) == key
  {
    if |key| == 0 {
      assert key + query == query;
    } else {
      assert (key + query)[1..] == key[1..] + query;
      KeyBeforeQuery(key[1..], query);
    }
  }

  lemma OriginIs(origin: string, base: string)
    ensures OriginOf(origin, base) <==> StripSlash(base) == origin
  {
    if |base| > 0 && base[|base| - 1] == '/' { assert base == base[..|base| - 1] + "/"; }
    if base == origin + "/" { assert base[..|base| - 1] == origin; }
  }

  lemma NamedIsPublic(value: Option<string>, base: string, key: string)
    requires Names(value, base, key)
    ensures Decide(value, base) == Migrate(key, "r2-private://" + key)
  {
    var origin, query :| NamesAt(value, base, key, origin, query);
    OriginIs(origin, base);
    KeyBeforeQuery(key, query);
    var tail := key + query;
    assert value.value == (origin + "/") + tail;
    assert value.value[|origin| + 1..] == tail;
  }

  lemma PublicIsNamed(value: Option<string>, base: string)
    requires Decide(value, base).Migrate?
    ensures Names(value, base, Decide(value, base).key)
  {
    var origin, key := StripSlash(base), Decide(value, base).key;
    OriginIs(origin, base);
    var tail := value.value[|origin| + 1..];
    QueryCut(tail);
    assert tail == key + tail[|key|..];
    assert value.value == origin + "/" + key + tail[|key|..];
    assert NamesAt(value, base, key, origin, tail[|key|..]);
  }

  /** The four decisions, from the reference and the public base alone. */
  lemma DecideIs(value: Option<string>, base: string, key: string)
    ensures Decide(value, base).SkipEmpty? <==> value == None || value == Some("")
    ensures Decide(value, base).SkipPrivate? <==> value.Some? && "r2-private://" <= value.value
    ensures Decide(value, base) == Migrate(key, "r2-private://" + key) <==> Names(value, base, key)
    ensures Decide(value, base).Migrate? <==> exists k :: Names(value, base, k)
  {
    if Decide(value, base).Migrate? { PublicIsNamed(value, base); }
    if Names(value, base, key) { NamedIsPublic(value, base, key); }
    if k :| Names(value, base, k) { NamedIsPublic(value, base, k); }
  }

  // -------------------------------------------------------------- the documents

  ghost predicate NotPublic(value: Option<string>, base: string) {
    forall key :: !Names(value, base, key)
  }

  /** The reference afterwards: the private form of the key it names, or what it was. */
  ghost predicate Renewed(before: Option<string>, after: Option<string>, base: string) {
    && (forall key :: Names(before, base, key) ==> after == Some("r2-private://" + key))
    && (NotPublic(before, base) ==> after == before)
  }

  ghost predicate PrivateCategory(category: string) {
    category == "connect-inbox-media" || category == "connect-job-resume" || category == "connect-job-voice"
  }

  /** The document afterwards, field by field. */
  ghost predicate DocAfter(d: Doc, d': Doc, base: string) {
    match d
    case Message(media, audio) =>
      && d'.Message? && |d'.media| == |media| && Renewed(audio, d'.audio, base)
      && forall j :: 0 <= j < |media| ==> Renewed(media[j], d'.media[j], base)
    case Application(voice, resume) =>
      d'.Application? && Renewed(voice, d'.voice, base) && Renewed(resume, d'.resume, base)
    case UploadEvent(category, url) =>
      d'.UploadEvent? && d'.category == category && if PrivateCategory(category) then Renewed(url, d'.fileUrl, base) else d'.fileUrl == url
  }

  /** No field that a run is responsible for names a public object. */
  ghost predicate NothingPublic(d: Doc, base: string) {
    match d
    case Message(media, audio) => NotPublic(audio, base) && forall j :: 0 <= j < |media| ==> NotPublic(media[j], base)
    case Application(voice, resume) => NotPublic(voice, base) && NotPublic(resume, base)
    case UploadEvent(category, url) => PrivateCategory(category) ==> NotPublic(url, base)
  }

  lemma RewrittenRenews(value: Option<string>, base: string)
    ensures Renewed(value, Rewritten(value, base), base)
    ensures NotPublic(Rewritten(value, base), base)
  {
    if Decide(value, base).Migrate? { PublicIsNamed(value, base); }
    forall key | Names(value, base, key) ensures Rewritten(value, base) == Some("r2-private://" + key) {
      NamedIsPublic(value, base, key);
    }
    forall key ensures !Names(Rewritten(value, base), base, key) {
      if Names(Rewritten(value, base), base, key) {
        NamedIsPublic(Rewritten(value, base), base, key);
        if Decide(value, base).Migrate? { NewRefIsPrivate(value, base); }
      }
    }
  }

  lemma CategoryIs(category: string)
    ensures category in PRIVATE_CATEGORIES <==> PrivateCategory(category)
  {
  }

  lemma RewrittenDocIs(d: Doc, base: string)
    ensures DocAfter(d, RewrittenDoc(d, base), base) && NothingPublic(RewrittenDoc(d, base), base)
  {
    var d' := RewrittenDoc(d, base);
    forall j | 0 <= j < |Slots(d)|
      ensures Renewed(Slots(d)[j], Rewritten(Slots(d)[j], base), base)
      ensures NotPublic(Rewritten(Slots(d)[j], base), base)
    {
      RewrittenRenews(Slots(d)[j], base);
    }
    if !d.UploadEvent? {
      assert forall j :: 0 <= j < |Slots(d)| ==> Slots(d')[j] == Rewritten(Slots(d)[j], base);
      match d
      case Message(media, audio) =>
        assert Slots(d)[|media|] == audio && Slots(d')[|media|] == d'.audio;
        assert forall j :: 0 <= j < |media| ==> Slots(d)[j] == media[j] && Slots(d')[j] == d'.media[j];
      case Application(voice, resume) =>
        assert Slots(d)[0] == voice && Slots(d)[1] == resume;
    } else {
      CategoryIs(d.category);
      assert Slots(d)[0] == d.fileUrl;
    }
  }

  /** The references a document is counted with: all its own, and none where the query leaves it out. */
  lemma LookedAtIs(d: Doc)
    ensures match d
            case Message(media, audio) => LookedAt(d) == if media == [] && audio == None then [] else media + [audio]
            case Application(voice, resume) => LookedAt(d) == if voice == None && resume == None then [] else [voice, resume]
            case UploadEvent(category, url) => LookedAt(d) == if PrivateCategory(category) then [url] else []
  {
    if d.UploadEvent? { CategoryIs(d.category); }
  }

  /** A completed run, field by field, and nothing it is responsible for is left public. */
  method CompletedRun(base: string, deletes: bool, calm: nat -> Reply, start: World) returns (ok: bool, end: World)
    requires forall n :: calm(n).Ok?
    ensures ok ==> |end.docs| == |start.docs| &&
                   forall i :: 0 <= i < |start.docs| ==> DocAfter(start.docs[i], end.docs[i], base) && NothingPublic(end.docs[i], base)
  {
    var m := new Mover(base, false, deletes, calm, start);
    ok := m.Run();
    end := m.world;
    forall i | 0 <= i < |start.docs|
      ensures DocAfter(start.docs[i], RewrittenDoc(start.docs[i], base), base) && NothingPublic(RewrittenDoc(start.docs[i], base), base)
    {
      RewrittenDocIs(start.docs[i], base);
    }
  }

  // ------------------------------------------------------- which keys, in order

  /** Field `j` of the document, in the order a run visits them. */
  ghost predicate FieldAt(d: Doc, j: nat, v: Option<string>) {
    match d
    case Message(media, audio) => (j < |media| && v == media[j]) || (j == |media| && v == audio)
    case Application(voice, resume) => (j == 0 && v == voice) || (j == 1 && v == resume)
    case UploadEvent(category, url) => PrivateCategory(category) && j == 0 && v == url
  }

  ghost predicate Before(p: (nat, nat), q: (nat, nat)) {
    p.0 < q.0 || (p.0 == q.0 && p.1 < q.1)
  }

  /** Field `j` is one a run looks at, and names the key. */
  ghost predicate FieldNames(d: Doc, j: nat, base: string, key: string) {
    exists v :: FieldAt(d, j, v) && Names(v, base, key)
  }

  ghost predicate KeyAt(docs: seq<Doc>, base: string, place: (nat, nat), key: string) {
    place.0 < |docs| && FieldNames(docs[place.0], place.1, base, key)
  }

  /**
   * The `k`-th key stands at `places[k]`, document and field; from document `from` on these
   * are all the public references in scope, one after the other, repeats included.
   */
  ghost predicate KeysAt(docs: seq<Doc>, from: nat, base: string, keys: seq<string>, places: seq<(nat, nat)>) {
    && |places| == |keys|
    && (forall k :: 0 <= k < |keys| ==> from <= places[k].0 && KeyAt(docs, base, places[k], keys[k]))
    && (forall k, l :: 0 <= k < l < |keys| ==> Before(places[k], places[l]))
    && (forall place: (nat, nat), key :: from <= place.0 && KeyAt(docs, base, place, key) ==> place in places)
  }

  lemma FieldIsSlot(d: Doc, j: nat, v: Option<string>)
    requires InQuery(d)
    ensures FieldAt(d, j, v) <==> j < |Slots(d)| && Slots(d)[j] == v
  {
    if d.UploadEvent? { CategoryIs(d.category); }
  }

  /** A document the query leaves out holds no public reference in scope. */
  lemma UnselectedHasNoKey(d: Doc, base: string, j: nat, v: Option<string>, key: string)
    requires !InQuery(d) && FieldAt(d, j, v)
    ensures !Names(v, base, key)
  {
    if d.UploadEvent? { CategoryIs(d.category); }
  }

  lemma NamesOneKey(value: Option<string>, base: string, k: string, l: string)
    requires Names(value, base, k) && Names(value, base, l)
    ensures k == l
  {
    NamedIsPublic(value, base, k);
    NamedIsPublic(value, base, l);
  }

  /** The same within one document's slots, from slot `from` on. */
  ghost predicate SlotKeysAt(slots: seq<Option<string>>, from: nat, base: string, keys: seq<string>, js: seq<nat>) {
    && |js| == |keys|
    && (forall k :: 0 <= k < |keys| ==> from <= js[k] < |slots| && Names(slots[js[k]], base, keys[k]))
    && (forall k, l :: 0 <= k < l < |keys| ==> js[k] < js[l])
    && (forall j, key :: from <= j < |slots| && Names(slots[j], base, key) ==> j in js)
  }

  lemma SlotPasses(slots: seq<Option<string>>, i: nat, base: string, keys: seq<string>, js: seq<nat>)
    requires i < |slots| && SlotKeysAt(slots, i + 1, base, keys, js) && NotPublic(slots[i], base)
    ensures SlotKeysAt(slots, i, base, keys, js)
  {
  }

  lemma SlotListed(slots: seq<Option<string>>, i: nat, base: string, key: string, keys: seq<string>, js: seq<nat>)
    requires i < |slots| && SlotKeysAt(slots, i + 1, base, keys, js) && Names(slots[i], base, key)
    ensures SlotKeysAt(slots, i, base, [key] + keys, [i] + js)
  {
    var more := [i] + js;
    forall k, l | 0 <= k < l < |more| ensures more[k] < more[l] {
      assert more[l] == js[l - 1];
    }
    forall j, other | i <= j < |slots| && Names(slots[j], base, other) ensures j in more {
      if j == i { assert more[0] == j; } else { assert j in js; }
    }
  }

  lemma {:induction false} SlotKeysAre(slots: seq<Option<string>>, i: nat, base: string) returns (js: seq<nat>)
    requires i <= |slots|
    ensures SlotKeysAt(slots, i, base, SlotKeys(slots[i..], base), js)
    decreases |slots| - i
  {
    js := [];
    if i < |slots| {
      js := SlotKeysAre(slots, i + 1, base);
      assert slots[i..][0] == slots[i] && slots[i..][1..] == slots[i + 1..];
      if Decide(slots[i], base).Migrate? {
        PublicIsNamed(slots[i], base);
        SlotListed(slots, i, base, Decide(slots[i], base).key, SlotKeys(slots[i + 1..], base), js);
        js := [i] + js;
      } else {
        forall key ensures !Names(slots[i], base, key) { DecideIs(slots[i], base, key); }
        SlotPasses(slots, i, base, SlotKeys(slots[i + 1..], base), js);
        assert SlotKeys(slots[i..], base) == SlotKeys(slots[i + 1..], base);
      }
    }
  }

  /** The same within one document, by its fields. */
  ghost predicate DocKeysAt(d: Doc, base: string, keys: seq<string>, js: seq<nat>) {
    && |js| == |keys|
    && (forall k :: 0 <= k < |keys| ==> FieldNames(d, js[k], base, keys[k]))
    && (forall k, l :: 0 <= k < l < |keys| ==> js[k] < js[l])
    && (forall j, key :: FieldNames(d, j, base, key) ==> j in js)
  }

  lemma ThisDocKeys(d: Doc, base: string) returns (js: seq<nat>)
    ensures DocKeysAt(d, base, KeysIn(d, base), js)
  {
    js := [];
    if InQuery(d) {
      js := SlotKeysAre(Slots(d), 0, base);
      assert Slots(d)[0..] == Slots(d);
      forall k | 0 <= k < |js| ensures FieldNames(d, js[k], base, KeysIn(d, base)[k]) {
        FieldIsSlot(d, js[k], Slots(d)[js[k]]);
      }
    }
    forall j, key | FieldNames(d, j, base, key) ensures j in js {
      var v :| FieldAt(d, j, v) && Names(v, base, key);
      if InQuery(d) { FieldIsSlot(d, j, v); } else { UnselectedHasNoKey(d, base, j, v, key); }
    }
  }

  function InDoc(i: nat, js: seq<nat>): seq<(nat, nat)> {
    seq(|js|, k requires 0 <= k < |js| => (i, js[k]))
  }

  lemma InDocHas(i: nat, js: seq<nat>, j: nat)
    requires j in js
    ensures (i, j) in InDoc(i, js)
  {
    var k :| 0 <= k < |js| && js[k] == j;
    assert InDoc(i, js)[k] == (i, j);
  }

  lemma DocsAscend(i: nat, js: seq<nat>, places: seq<(nat, nat)>, k: nat, l: nat)
    requires forall k, l :: 0 <= k < l < |js| ==> js[k] < js[l]
    requires forall k, l :: 0 <= k < l < |places| ==> Before(places[k], places[l])
    requires forall k :: 0 <= k < |places| ==> i < places[k].0
    requires k < l < |InDoc(i, js) + places|
    ensures Before((InDoc(i, js) + places)[k], (InDoc(i, js) + places)[l])
  {
  }

  lemma DocListed(docs: seq<Doc>, i: nat, base: string, here: seq<string>, js: seq<nat>, keys: seq<string>, places: seq<(nat, nat)>)
    requires i < |docs| && DocKeysAt(docs[i], base, here, js) && KeysAt(docs, i + 1, base, keys, places)
    ensures KeysAt(docs, i, base, here + keys, InDoc(i, js) + places)
  {
    var all := InDoc(i, js) + places;
    forall k, l | 0 <= k < l < |all| ensures Before(all[k], all[l]) {
      DocsAscend(i, js, places, k, l);
    }
    forall place: (nat, nat), key | i <= place.0 && KeyAt(docs, base, place, key) ensures place in all {
      if place.0 == i { InDocHas(i, js, place.1); }
    }
  }

  lemma {:induction false} DocKeysFrom(docs: seq<Doc>, i: nat, base: string) returns (places: seq<(nat, nat)>)
    requires i <= |docs|
    ensures KeysAt(docs, i, base, DocKeys(docs[i..], base), places)
    decreases |docs| - i
  {
    places := [];
    if i < |docs| {
      var js := ThisDocKeys(docs[i], base);
      places := DocKeysFrom(docs, i + 1, base);
      assert docs[i..][0] == docs[i] && docs[i..][1..] == docs[i + 1..];
      DocListed(docs, i, base, KeysIn(docs[i], base), js, DocKeys(docs[i + 1..], base), places);
      places := InDoc(i, js) + places;
    }
  }

  /** The keys a run moves are those of the public references in scope, document by document and field by field. */
  lemma DocKeysAre(docs: seq<Doc>, base: string) returns (places: seq<(nat, nat)>)
    ensures KeysAt(docs, 0, base, DocKeys(docs, base), places)
  {
    places := DocKeysFrom(docs, 0, base);
    assert docs[0..] == docs;
  }
}
