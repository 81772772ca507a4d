/**
 * Merging the mobile and the web translations of a language and seeding the
 * result: a web-biased union keyed by a joined identifier, then inserts of what
 * is missing.
 */
module TranslationSeed {
  import opened Prelude
  import opened OrderedMap
  import opened Flatten

  datatype Merged = Merged(namespace: string, key: string, value: string, platforms: seq<string>)

  datatype Conflict = Conflict(id: string, mobileValue: string, webValue: string)

  type MergeMap = OMap<string, Merged>

  datatype Merging = Merging(map_: MergeMap, conflicts: seq<Conflict>)

  function Id(f: Flat): string {
    f.namespace + "::" + f.key
  }

  function LoadMobile(mobile: seq<Flat>): MergeMap {
    if |mobile| == 0 then []
    else
      var m := mobile[|mobile| - 1];
      OrderedMap.Put(LoadMobile(mobile[..|mobile| - 1]), Id(m), Merged(m.namespace, m.key, m.value, ["mobile"]))
  }

  function MergeWeb(st: Merging, w: Flat): Merging {
    var existing := Get(st.map_, Id(w));
    if existing.None? then
      st.(map_ := OrderedMap.Put(st.map_, Id(w), Merged(w.namespace, w.key, w.value, ["web"])))
    else
      var e := existing.value;
      var platforms := if "web" in e.platforms then e.platforms else e.platforms + ["web"];
      Merging(OrderedMap.Put(st.map_, Id(w), e.(value := w.value, platforms := platforms)),
              st.conflicts + (if e.value != w.value then [Conflict(Id(w), e.value, w.value)] else []))
  }

  function MergeBoth(mobile: seq<Flat>, web: seq<Flat>): Merging {
    if |web| == 0 then Merging(LoadMobile(mobile), [])
    else MergeWeb(MergeBoth(mobile, web[..|web| - 1]), web[|web| - 1])
  }

  function Values(m: MergeMap): seq<Merged> {
    seq(|m|, i requires 0 <= i < |m| => m[i].1)
  }

  function MergeAll(mobile: seq<Flat>, web: seq<Flat>): seq<Merged> {
    Values(MergeBoth(mobile, web).map_)
  }

  /** The conflicts are collected and dropped, as in the script; they are handed out here to speak about them. */
  method MergeTranslations(mobile: seq<Flat>, web: seq<Flat>) returns (merged: seq<Merged>, conflicts: seq<Conflict>)
    ensures merged == MergeAll(mobile, web) && conflicts == MergeBoth(mobile, web).conflicts
  {
    var map_: MergeMap := [];
    conflicts := [];
    for i := 0 to |mobile|
      invariant map_ == LoadMobile(mobile[..i])
    {
      assert mobile[..i + 1][..i] == mobile[..i];
      var m := mobile[i];
      map_ := OrderedMap.Put(map_, Id(m), Merged(m.namespace, m.key, m.value, ["mobile"]));
    }
    assert mobile[..|mobile|] == mobile;
    for i := 0 to |web|
      invariant Merging(map_, conflicts) == MergeBoth(mobile, web[..i])
    {
      assert web[..i + 1][..i] == web[..i];
      var w := web[i];
      var existing := Get(map_, Id(w));
      if existing.Some? {
        var e := existing.value;
        if e.value != w.value { conflicts := conflicts + [Conflict(Id(w), e.value, w.value)]; }
        if "web" !in e.platforms { e := e.(platforms := e.platforms + ["web"]); }
        map_ := OrderedMap.Put(map_, Id(w), e.(value := w.value));
      } else {
        map_ := OrderedMap.Put(map_, Id(w), Merged(w.namespace, w.key, w.value, ["web"]));
      }
    }
    assert web[..|web|] == web;
    merged := Values(map_);
  }

  // ------------------------------------------------------------ keyed union

  /** The last entry with the identifier. */
  function LastOf(list: seq<Flat>, id: string): Option<Flat> {
    if |list| == 0 then None
    else if Id(list[|list| - 1]) == id then Some(list[|list| - 1])
    else LastOf(list[..|list| - 1], id)
  }

  function FirstOf(list: seq<Flat>, id: string): Option<Flat> {
    if |list| == 0 then None
    else if FirstOf(list[..|list| - 1], id).Some? then FirstOf(list[..|list| - 1], id)
    else if Id(list[|list| - 1]) == id then Some(list[|list| - 1])
    else None
  }

  /** What the union keeps under an identifier: the web value if there is one, and where it came from. */
  function Union(mobile: seq<Flat>, web: seq<Flat>, id: string): Option<Merged> {
    var m, f, w := LastOf(mobile, id), FirstOf(web, id), LastOf(web, id);
    if m.None? && w.None? then None
    else if m.Some? && w.None? then Some(Merged(m.value.namespace, m.value.key, m.value.value, ["mobile"]))
    else if m.Some? then Some(Merged(m.value.namespace, m.value.key, w.value.value, ["mobile", "web"]))
    else if f.Some? then Some(Merged(f.value.namespace, f.value.key, w.value.value, ["web"]))
    else None
  }

  lemma {:induction false} FirstAndLast(list: seq<Flat>, id: string)
    ensures FirstOf(list, id).Some? <==> LastOf(list, id).Some?
    ensures LastOf(list, id).Some? <==> exists i :: 0 <= i < |list| && Id(list[i]) == id
    ensures LastOf(list, id).Some? ==> LastOf(list, id).value in list && Id(LastOf(list, id).value) == id
    ensures FirstOf(list, id).Some? ==> FirstOf(list, id).value in list && Id(FirstOf(list, id).value) == id
  {
    if |list| == 0 {
    } else {
      var n := |list| - 1;
      FirstAndLast(list[..n], id);
      assert forall i :: 0 <= i < n ==> list[..n][i] == list[i];
    }
  }

  lemma {:induction false} MobileGet(mobile: seq<Flat>, id: string)
    ensures UniqueKeys(LoadMobile(mobile)) && Get(LoadMobile(mobile), id) == Union(mobile, [], id)
  {
    if |mobile| == 0 {
    } else {
      var n := |mobile| - 1;
      MobileGet(mobile[..n], id);
      var m := Merged(mobile[n].namespace, mobile[n].key, mobile[n].value, ["mobile"]);
      PutGet(LoadMobile(mobile[..n]), Id(mobile[n]), m, id);
      PutUnique(LoadMobile(mobile[..n]), Id(mobile[n]), m);
    }
  }

  /** The merge is exactly the web-biased union, identifier by identifier. */
  lemma {:induction false} MergeIsUnion(mobile: seq<Flat>, web: seq<Flat>, id: string)
    ensures UniqueKeys(MergeBoth(mobile, web).map_)
    ensures Get(MergeBoth(mobile, web).map_, id) == Union(mobile, web, id)
  {
    if |web| == 0 {
      MobileGet(mobile, id);
    } else {
      var n := |web| - 1;
      var w := web[n];
      MergeIsUnion(mobile, web[..n], id);
      MergeIsUnion(mobile, web[..n], Id(w));
      MergeWebGet(MergeBoth(mobile, web[..n]), w, id);
      UnionMore(mobile, web, id);
    }
  }

  /** How the last web entry changes the union. */
  lemma UnionMore(mobile: seq<Flat>, web: seq<Flat>, id: string)
    requires |web| > 0
    ensures var n := |web| - 1;
            var e := Union(mobile, web[..n], id);
            Union(mobile, web, id) == if id == Id(web[n]) then Some(WithWeb(e, web[n])) else e
  {
    var n := |web| - 1;
    FirstAndLast(web[..n], id);
    assert ["mobile"] + ["web"] == ["mobile", "web"];
    assert "web" !in ["mobile"] && "web" in ["web"] && "web" in ["mobile", "web"];
  }

  function WithWeb(e: Option<Merged>, w: Flat): Merged {
    if e.None? then Merged(w.namespace, w.key, w.value, ["web"])
    else e.value.(value := w.value,
                  platforms := if "web" in e.value.platforms then e.value.platforms else e.value.platforms + ["web"])
  }

  lemma MergeWebGet(st: Merging, w: Flat, id: string)
    requires UniqueKeys(st.map_)
    ensures UniqueKeys(MergeWeb(st, w).map_)
    ensures Get(MergeWeb(st, w).map_, id) == if id == Id(w) then Some(WithWeb(Get(st.map_, id), w)) else Get(st.map_, id)
  {
    var v := WithWeb(Get(st.map_, Id(w)), w);
    PutGet(st.map_, Id(w), v, id);
    PutUnique(st.map_, Id(w), v);
  }

  /** No two different pairs of the lists share an identifier. */
  ghost predicate Injective(mobile: seq<Flat>, web: seq<Flat>) {
    forall a, b :: (a in mobile || a in web) && (b in mobile || b in web) && Id(a) == Id(b) ==>
      a.namespace == b.namespace && a.key == b.key
  }

  /** Namespaces without a colon are enough. */
  lemma {:induction false} IdInjective(a: Flat, b: Flat)
    requires ':' !in a.namespace && ':' !in b.namespace && Id(a) == Id(b)
    ensures a.namespace == b.namespace && a.key == b.key
  {
    var n, m := |a.namespace|, |b.namespace|;
    ColonAt(a);
    ColonAt(b);
    assert n == m;
    assert Id(a)[..n] == a.namespace && Id(b)[..m] == b.namespace;
    assert Id(a)[n + 2..] == a.key && Id(b)[m + 2..] == b.key;
  }

  lemma ColonAt(a: Flat)
    requires ':' !in a.namespace
    ensures Id(a)[|a.namespace|] == ':' && forall i :: 0 <= i < |a.namespace| ==> Id(a)[i] != ':'
  {
    assert forall i :: 0 <= i < |a.namespace| ==> Id(a)[i] == a.namespace[i];
  }

  /** A witness: two different pairs collide, and the merge keeps one entry for both. */
  lemma {:induction false} IdsCollide()
    ensures var a, b := Flat("a::b", "c", "x"), Flat("a", "b::c", "y");
            Id(a) == Id(b) && MergeAll([a], [b]) == [Merged("a::b", "c", "y", ["mobile", "web"])]
  {
    var a, b := Flat("a::b", "c", "x"), Flat("a", "b::c", "y");
    assert Id(a) == Id(b) == "a::b::c";
    assert [a][..0] == [] && [b][..0] == [];
    var m := Merged("a::b", "c", "x", ["mobile"]);
    assert LoadMobile([a]) == [(Id(a), m)];
    var st := Merging([(Id(a), m)], []);
    assert MergeBoth([a], []) == st;
    GetAt(st.map_, 0);
    assert Get(st.map_, Id(b)) == Some(m);
    assert "web" !in ["mobile"] && ["mobile"] + ["web"] == ["mobile", "web"];
    assert MergeBoth([a], [b]) == MergeWeb(st, b);
    assert MergeBoth([a], [b]).map_ == [(Id(a), Merged("a::b", "c", "y", ["mobile", "web"]))];
  }

  /**
   * The merged list, when identifiers are injective: one entry for exactly the
   * pairs of either side, with the web's last value where the web has the pair,
   * else the mobile's, tagged with the platforms it came from.
   */
  lemma {:induction false} MergedList(mobile: seq<Flat>, web: seq<Flat>, t: Merged)
    requires Injective(mobile, web)
    ensures var id := Id(Flat(t.namespace, t.key, ""));
            t in MergeAll(mobile, web) <==>
              && (HasPair(mobile, t.namespace, t.key) || HasPair(web, t.namespace, t.key))
              && Union(mobile, web, id) == Some(t)
  {
    var m := MergeBoth(mobile, web).map_;
    var id := Id(Flat(t.namespace, t.key, ""));
    MergeIsUnion(mobile, web, id);
    if t in MergeAll(mobile, web) {
      var i :| 0 <= i < |m| && m[i].1 == t;
      GetAt(m, i);
      MergeIsUnion(mobile, web, m[i].0);
      UnionFacts(mobile, web, m[i].0);
      assert m[i].0 == id;
    }
    if Union(mobile, web, id) == Some(t) {
      var i := Find(m, id);
      assert Values(m)[i] == t;
    }
  }

  predicate HasPair(list: seq<Flat>, ns: string, key: string) {
    exists i :: 0 <= i < |list| && list[i].namespace == ns && list[i].key == key
  }

  lemma UnionFacts(mobile: seq<Flat>, web: seq<Flat>, id: string)
    ensures var u := Union(mobile, web, id);
            u.Some? ==>
              && Id(Flat(u.value.namespace, u.value.key, "")) == id
              && (HasPair(mobile, u.value.namespace, u.value.key) || HasPair(web, u.value.namespace, u.value.key))
              && (LastOf(web, id).Some? ==> u.value.value == LastOf(web, id).value.value)
  {
    FirstAndLast(mobile, id);
    FirstAndLast(web, id);
  }

  /** No two entries of the merged list share a pair, injective identifiers or not. */
  lemma {:induction false} MergedDistinct(mobile: seq<Flat>, web: seq<Flat>)
    ensures DistinctPairs(MergeAll(mobile, web))
  {
    var m := MergeBoth(mobile, web).map_;
    forall i, j | 0 <= i < j < |m|
      ensures m[i].1.namespace != m[j].1.namespace || m[i].1.key != m[j].1.key
    {
      EntryId(mobile, web, i);
      EntryId(mobile, web, j);
      MergeIsUnion(mobile, web, "");
    }
  }

  lemma EntryId(mobile: seq<Flat>, web: seq<Flat>, i: nat)
    requires i < |MergeBoth(mobile, web).map_|
    ensures var e := MergeBoth(mobile, web).map_[i]; Id(Flat(e.1.namespace, e.1.key, "")) == e.0
  {
    var m := MergeBoth(mobile, web).map_;
    MergeIsUnion(mobile, web, m[i].0);
    GetAt(m, i);
    UnionFacts(mobile, web, m[i].0);
  }

  ghost predicate DistinctPairs(merged: seq<Merged>) {
    forall i, j :: 0 <= i < j < |merged| ==> merged[i].namespace != merged[j].namespace || merged[i].key != merged[j].key
  }

  predicate HasEntry(merged: seq<Merged>, ns: string, key: string) {
    exists i :: 0 <= i < |merged| && merged[i].namespace == ns && merged[i].key == key
  }

  /** The merge keeps an entry for every pair of either side. */
  ghost predicate KeepsAllPairs(mobile: seq<Flat>, web: seq<Flat>) {
    forall f :: f in mobile || f in web ==> HasEntry(MergeAll(mobile, web), f.namespace, f.key)
  }

  /**
   * Exactly when no pair is swallowed by another (each pair then has an entry of
   * its own, as no two entries share one): when the joined identifiers of the
   * pairs are injective.
   */
  lemma PairsKeptIff(mobile: seq<Flat>, web: seq<Flat>)
    ensures KeepsAllPairs(mobile, web) <==> Injective(mobile, web)
  {
    var m := MergeBoth(mobile, web).map_;
    if KeepsAllPairs(mobile, web) {
      forall a, b | (a in mobile || a in web) && (b in mobile || b in web) && Id(a) == Id(b)
        ensures a.namespace == b.namespace && a.key == b.key
      {
        var i :| 0 <= i < |m| && Values(m)[i].namespace == a.namespace && Values(m)[i].key == a.key;
        var j :| 0 <= j < |m| && Values(m)[j].namespace == b.namespace && Values(m)[j].key == b.key;
        EntryId(mobile, web, i);
        EntryId(mobile, web, j);
        MergeIsUnion(mobile, web, "");
        assert m[i].0 == Id(a) && m[j].0 == Id(b);
        assert i == j;
      }
    }
    if Injective(mobile, web) {
      forall f | f in mobile || f in web
        ensures HasEntry(MergeAll(mobile, web), f.namespace, f.key)
      {
        PairHasEntry(mobile, web, f);
      }
    }
  }

  lemma PairHasEntry(mobile: seq<Flat>, web: seq<Flat>, f: Flat)
    requires Injective(mobile, web) && (f in mobile || f in web)
    ensures HasEntry(MergeAll(mobile, web), f.namespace, f.key)
  {
    var m := MergeBoth(mobile, web).map_;
    FirstAndLast(mobile, Id(f));
    FirstAndLast(web, Id(f));
    MergeIsUnion(mobile, web, Id(f));
    var t := Union(mobile, web, Id(f)).value;
    assert t.namespace == f.namespace && t.key == f.key;
    var i := Find(m, Id(f));
    assert Values(m)[i] == t;
  }

  // --------------------------------------------------------------- conflicts

  /** The keys both sides have with different values, in the web's order. */
  function Differing(mobile: seq<Flat>, web: seq<Flat>): seq<Conflict> {
    if |web| == 0 then []
    else
      var w := web[|web| - 1];
      var m := LastOf(mobile, Id(w));
      Differing(mobile, web[..|web| - 1]) +
      (if m.Some? && m.value.value != w.value then [Conflict(Id(w), m.value.value, w.value)] else [])
  }

  ghost predicate UniqueIds(list: seq<Flat>) {
    forall i, j :: 0 <= i < j < |list| ==> Id(list[i]) != Id(list[j])
  }

  /** The list the merge collects holds exactly the differing keys. */
  lemma {:induction false} ConflictsAreDiffering(mobile: seq<Flat>, web: seq<Flat>)
    requires UniqueIds(web)
    ensures MergeBoth(mobile, web).conflicts == Differing(mobile, web)
  {
    if |web| == 0 {
    } else {
      var n := |web| - 1;
      assert forall i :: 0 <= i < n ==> web[..n][i] == web[i];
      ConflictsAreDiffering(mobile, web[..n]);
      MergeIsUnion(mobile, web[..n], Id(web[n]));
      FirstAndLast(web[..n], Id(web[n]));
    }
  }

  predicate Differs(list: seq<Flat>, t: Merged) {
    exists i :: 0 <= i < |list| && list[i].namespace == t.namespace && list[i].key == t.key && list[i].value != t.value
  }

  /** The filter the report is made from. */
  predicate Selected(mobile: seq<Flat>, web: seq<Flat>, t: Merged) {
    Differs(mobile, t) && Differs(web, t)
  }

  /** It selects an entry exactly when the mobile side differs and the web itself lists the pair twice, differently. */
  lemma {:induction false} SelectedIff(mobile: seq<Flat>, web: seq<Flat>, t: Merged)
    requires Injective(mobile, web) && t in MergeAll(mobile, web)
    ensures Selected(mobile, web, t) <==> Differs(mobile, t) && TwoValues(web, t.namespace, t.key)
  {
    MergedList(mobile, web, t);
    var id := Id(Flat(t.namespace, t.key, ""));
    UnionFacts(mobile, web, id);
    FirstAndLast(web, id);
    if Differs(web, t) {
      var i :| 0 <= i < |web| && web[i].namespace == t.namespace && web[i].key == t.key && web[i].value != t.value;
      assert Id(web[i]) == id;
      var last := LastOf(web, id).value;
      var j :| 0 <= j < |web| && web[j] == last;
      assert last.namespace == web[i].namespace && last.key == web[i].key;
    }
  }

  predicate TwoValues(list: seq<Flat>, ns: string, key: string) {
    exists i, j :: 0 <= i < |list| && 0 <= j < |list| && list[i].namespace == list[j].namespace == ns &&
                   list[i].key == list[j].key == key && list[i].value != list[j].value
  }

  /** So with unique web keys the report is empty, however many keys differ. */
  lemma {:induction false} NothingReported(mobile: seq<Flat>, web: seq<Flat>, t: Merged)
    requires Injective(mobile, web) && UniqueIds(web) && t in MergeAll(mobile, web)
    ensures !Selected(mobile, web, t)
  {
    SelectedIff(mobile, web, t);
    if TwoValues(web, t.namespace, t.key) {
      var i, j :| 0 <= i < |web| && 0 <= j < |web| && web[i].namespace == web[j].namespace == t.namespace &&
                  web[i].key == web[j].key == t.key && web[i].value != web[j].value;
      assert Id(web[i]) == Id(web[j]);
    }
  }

  // ----------------------------------------------------------------- seeding

  datatype RowKey = RowKey(lang: string, namespace: string, key: string)

  datatype Row = Row(value: string, platforms: seq<string>)

  function KeyOf(lang: string, t: Merged): RowKey {
    RowKey(lang, t.namespace, t.key)
  }

  /** The rows after the first `n` entries of a live run. */
  function SeedRows(rows: map<RowKey, Row>, lang: string, merged: seq<Merged>, n: nat, force: bool): map<RowKey, Row>
    requires n <= |merged|
  {
    if n == 0 then rows
    else
      var before, t := SeedRows(rows, lang, merged, n - 1, force), merged[n - 1];
      if KeyOf(lang, t) in before && !force then before else before[KeyOf(lang, t) := Row(t.value, t.platforms)]
  }

  function CountMissing(rows: map<RowKey, Row>, lang: string, merged: seq<Merged>, n: nat): (c: nat)
    requires n <= |merged|
    ensures c <= n
  {
    if n == 0 then 0
    else CountMissing(rows, lang, merged, n - 1) + (if KeyOf(lang, merged[n - 1]) in rows then 0 else 1)
  }

  lemma {:induction false} SeedRowsHas(rows: map<RowKey, Row>, lang: string, merged: seq<Merged>, n: nat, force: bool, k: RowKey)
    requires n <= |merged|
    ensures k in SeedRows(rows, lang, merged, n, force) <==> k in rows || exists i :: 0 <= i < n && KeyOf(lang, merged[i]) == k
    ensures !force && k in rows ==> SeedRows(rows, lang, merged, n, force)[k] == rows[k]
    ensures (forall i :: 0 <= i < n ==> KeyOf(lang, merged[i]) != k) && k in rows ==>
              SeedRows(rows, lang, merged, n, force)[k] == rows[k]
  {
    if n == 0 {
    } else {
      SeedRowsHas(rows, lang, merged, n - 1, force, k);
    }
  }

  /** Entries before the `n`-th have other keys, so they do not decide whether its row is there. */
  lemma NotYetSeeded(rows: map<RowKey, Row>, lang: string, merged: seq<Merged>, n: nat, force: bool)
    requires DistinctPairs(merged) && n < |merged|
    ensures KeyOf(lang, merged[n]) in SeedRows(rows, lang, merged, n, force) <==> KeyOf(lang, merged[n]) in rows
  {
    SeedRowsHas(rows, lang, merged, n, force, KeyOf(lang, merged[n]));
  }

  /** Each entry ends up stored, unless a row was there and the run was not forced. */
  lemma {:induction false} SeedRowsValue(rows: map<RowKey, Row>, lang: string, merged: seq<Merged>, n: nat, force: bool, i: nat)
    requires DistinctPairs(merged) && i < n <= |merged|
    ensures var k := KeyOf(lang, merged[i]);
            var after := SeedRows(rows, lang, merged, n, force);
            && k in after
            && after[k] == if k in rows && !force then rows[k] else Row(merged[i].value, merged[i].platforms)
  {
    var k := KeyOf(lang, merged[i]);
    SeedRowsHas(rows, lang, merged, n - 1, force, k);
    if i < n - 1 {
      SeedRowsValue(rows, lang, merged, n - 1, force, i);
      assert KeyOf(lang, merged[n - 1]) != k;
    }
  }

  class TranslationStore {
    var rows: map<RowKey, Row>
    var bundles: map<string, nat>

    constructor (rows: map<RowKey, Row>, bundles: map<string, nat>)
      ensures this.rows == rows && this.bundles == bundles
    {
      this.rows, this.bundles := rows, bundles;
    }

    /** Create the row, or overwrite it when forced; a dry run only looks. */
    method SeedOne(lang: string, t: Merged, force: bool, dryRun: bool) returns (existing: bool)
      modifies this`rows
      ensures existing <==> KeyOf(lang, t) in old(rows)
      ensures rows == if dryRun || (existing && !force) then old(rows) else old(rows)[KeyOf(lang, t) := Row(t.value, t.platforms)]
    {
      existing := KeyOf(lang, t) in rows;
      if !dryRun && (!existing || force) {
        rows := rows[KeyOf(lang, t) := Row(t.value, t.platforms)];
      }
    }

    /** One language. The counts of a dry run are those of the live run it stands for. */
    method SeedLanguage(lang: string, mobile: seq<Flat>, web: seq<Flat>, force: bool, dryRun: bool)
        returns (inserted: nat, skipped: nat, updated: nat)
      modifies this
      ensures dryRun ==> rows == old(rows) && bundles == old(bundles)
      ensures !dryRun ==>
                var merged := MergeAll(mobile, web);
                && rows == SeedRows(old(rows), lang, merged, |merged|, force)
                && bundles == old(bundles)[lang := (if lang in old(bundles) then old(bundles)[lang] else 0) + 1]
      ensures var merged := MergeAll(mobile, web);
              inserted == CountMissing(old(rows), lang, merged, |merged|) && inserted + skipped == |merged|
      ensures updated == if force then skipped else 0
      ensures !dryRun ==> |rows| == |old(rows)| + inserted
    {
      var merged, _ := MergeTranslations(mobile, web);
      MergedDistinct(mobile, web);
      inserted, skipped, updated := 0, 0, 0;
      for i := 0 to |merged|
        invariant bundles == old(bundles)
        invariant rows == if dryRun then old(rows) else SeedRows(old(rows), lang, merged, i, force)
        invariant inserted == CountMissing(old(rows), lang, merged, i) && inserted + skipped == i
        invariant updated == if force then skipped else 0
        invariant !dryRun ==> |rows| == |old(rows)| + inserted
      {
        NotYetSeeded(old(rows), lang, merged, i, force);
        var existing := SeedOne(lang, merged[i], force, dryRun);
        if existing {
          skipped := skipped + 1;
          updated := if force then updated + 1 else updated;
        } else {
          inserted := inserted + 1;
        }
      }
      if !dryRun {
        bundles := bundles[lang := (if lang in bundles then bundles[lang] else 0) + 1];
      }
    }
  }

  /** Without force every row already there stays as it was, and exactly the missing keys are added. */
  lemma {:induction false} SeedOnlyAdds(rows: map<RowKey, Row>, lang: string, mobile: seq<Flat>, web: seq<Flat>, k: RowKey)
    ensures var merged := MergeAll(mobile, web);
            var after := SeedRows(rows, lang, merged, |merged|, false);
            && (k in rows ==> k in after && after[k] == rows[k])
            && (k in after && k !in rows <==>
                 k !in rows && k.lang == lang && exists i :: 0 <= i < |merged| && merged[i].namespace == k.namespace && merged[i].key == k.key)
  {
    var merged := MergeAll(mobile, web);
    SeedRowsHas(rows, lang, merged, |merged|, false, k);
    if k.lang == lang && exists i :: 0 <= i < |merged| && merged[i].namespace == k.namespace && merged[i].key == k.key {
      var i :| 0 <= i < |merged| && merged[i].namespace == k.namespace && merged[i].key == k.key;
      assert KeyOf(lang, merged[i]) == k;
    }
  }

  /** A second run inserts nothing and, forced or not, leaves the rows as the first one did. */
  lemma {:induction false} SecondSeedChangesNothing(rows: map<RowKey, Row>, lang: string, mobile: seq<Flat>, web: seq<Flat>, force: bool)
    ensures var merged := MergeAll(mobile, web);
            var after := SeedRows(rows, lang, merged, |merged|, force);
            && SeedRows(after, lang, merged, |merged|, force) == after
            && CountMissing(after, lang, merged, |merged|) == 0
  {
    var merged := MergeAll(mobile, web);
    var after := SeedRows(rows, lang, merged, |merged|, force);
    MergedDistinct(mobile, web);
    forall i | 0 <= i < |merged|
      ensures KeyOf(lang, merged[i]) in after
      ensures force ==> after[KeyOf(lang, merged[i])] == Row(merged[i].value, merged[i].platforms)
    {
      SeedRowsValue(rows, lang, merged, |merged|, force, i);
    }
    Stable(after, lang, merged, |merged|, force);
  }

  lemma {:induction false} Stable(rows: map<RowKey, Row>, lang: string, merged: seq<Merged>, n: nat, force: bool)
    requires n <= |merged|
    requires forall i :: 0 <= i < |merged| ==> KeyOf(lang, merged[i]) in rows
    requires forall i :: 0 <= i < |merged| && force ==> rows[KeyOf(lang, merged[i])] == Row(merged[i].value, merged[i].platforms)
    ensures SeedRows(rows, lang, merged, n, force) == rows && CountMissing(rows, lang, merged, n) == 0
  {
    if n == 0 {
    } else {
      Stable(rows, lang, merged, n - 1, force);
      assert KeyOf(lang, merged[n - 1]) in rows;
    }
  }

  // ----------------------------------------------------------------- orphans

  function RowId(k: RowKey): string {
    k.lang + "::" + k.namespace + "::" + k.key
  }

  /** Rows whose joined identifier is in none of the merged lists. */
  function Orphans(rows: map<RowKey, Row>, ids: set<string>): set<RowKey> {
    set k | k in rows && RowId(k) !in ids
  }

  /** Seeding neither makes nor removes orphans. */
  lemma {:induction false} OrphansUnchanged(rows: map<RowKey, Row>, lang: string, merged: seq<Merged>, force: bool, ids: set<string>)
    requires forall i :: 0 <= i < |merged| ==> RowId(KeyOf(lang, merged[i])) in ids
    ensures Orphans(SeedRows(rows, lang, merged, |merged|, force), ids) == Orphans(rows, ids)
  {
    forall k ensures k in Orphans(SeedRows(rows, lang, merged, |merged|, force), ids) <==> k in Orphans(rows, ids) {
      SeedRowsHas(rows, lang, merged, |merged|, force, k);
    }
  }
}
