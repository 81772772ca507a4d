/** What the merged list and the seeded rows hold for a pair of namespace and key, from the two files alone. */
module TranslationEffects {
  import opened Prelude
  import opened Flatten
  import opened TranslationSeed

  /** The entry's joined identifier. */
  ghost predicate At(f: Flat, id: string) {
    f.namespace + "::" + f.key == id
  }

  ghost predicate Has(list: seq<Flat>, id: string) {
    exists i :: 0 <= i < |list| && At(list[i], id)
  }

  ghost predicate IsLast(list: seq<Flat>, id: string, i: nat) {
    i < |list| && At(list[i], id) && forall j :: i < j < |list| ==> !At(list[j], id)
  }

  ghost predicate IsFirst(list: seq<Flat>, id: string, i: nat) {
    i < |list| && At(list[i], id) && forall j :: 0 <= j < i ==> !At(list[j], id)
  }

  lemma {:induction false} LastIs(list: seq<Flat>, id: string) returns (i: nat)
    ensures if LastOf(list, id).Some? then IsLast(list, id, i) && list[i] == LastOf(list, id).value else !Has(list, id)
  {
    i := 0;
    if |list| > 0 {
      var n := |list| - 1;
      if At(list[n], id) {
        i := n;
      } else {
        i := LastIs(list[..n], id);
        assert forall j :: 0 <= j < n ==> list[..n][j] == list[j];
      }
    }
  }

  lemma {:induction false} FirstIs(list: seq<Flat>, id: string) returns (i: nat)
    ensures if FirstOf(list, id).Some? then IsFirst(list, id, i) && list[i] == FirstOf(list, id).value else !Has(list, id)
  {
    i := 0;
    if |list| > 0 {
      var n := |list| - 1;
      i := FirstIs(list[..n], id);
      assert forall j :: 0 <= j < n ==> list[..n][j] == list[j];
      if FirstOf(list[..n], id).None? { i := n; }
    }
  }

  /**
   * What the merge keeps under an identifier: the pair of the mobile's last entry,
   * or of the web's first one, the value of the web's last entry if the web has
   * one, and the platforms that have it.
   */
  ghost predicate Keeps(mobile: seq<Flat>, web: seq<Flat>, id: string, t: Merged) {
    && (Has(mobile, id) ==> exists i: nat :: IsLast(mobile, id, i) && t.namespace == mobile[i].namespace && t.key == mobile[i].key)
    && (!Has(mobile, id) ==> exists i: nat :: IsFirst(web, id, i) && t.namespace == web[i].namespace && t.key == web[i].key)
    && (Has(web, id) ==> exists i: nat :: IsLast(web, id, i) && t.value == web[i].value)
    && (!Has(web, id) ==> exists i: nat :: IsLast(mobile, id, i) && t.value == mobile[i].value)
    && t.platforms == (if !Has(web, id) then ["mobile"] else if Has(mobile, id) then ["mobile", "web"] else ["web"])
  }

  lemma UnionIs(mobile: seq<Flat>, web: seq<Flat>, id: string)
    ensures Union(mobile, web, id).Some? <==> Has(mobile, id) || Has(web, id)
    ensures Union(mobile, web, id).Some? ==> Keeps(mobile, web, id, Union(mobile, web, id).value)
  {
    var m := LastIs(mobile, id);
    var w := LastIs(web, id);
    var f := FirstIs(web, id);
  }

  /** The merged list holds, for each identifier of either side, exactly what the merge keeps under it. */
  lemma MergedIs(mobile: seq<Flat>, web: seq<Flat>, id: string) returns (t: Merged)
    requires Has(mobile, id) || Has(web, id)
    ensures t in MergeAll(mobile, web) && t.namespace + "::" + t.key == id && Keeps(mobile, web, id, t)
  {
    UnionIs(mobile, web, id);
    MergeIsUnion(mobile, web, id);
    var m := MergeBoth(mobile, web).map_;
    var i := OrderedMap.Find(m, id);
    t := m[i].1;
    assert Values(m)[i] == t;
    UnionFacts(mobile, web, id);
  }

  /** Nothing else is in the list. */
  lemma MergedFrom(mobile: seq<Flat>, web: seq<Flat>, k: nat) returns (id: string)
    requires k < |MergeAll(mobile, web)|
    ensures var t := MergeAll(mobile, web)[k];
            t.namespace + "::" + t.key == id && (Has(mobile, id) || Has(web, id)) && Keeps(mobile, web, id, t)
  {
    var m := MergeBoth(mobile, web).map_;
    id := m[k].0;
    EntryId(mobile, web, k);
    MergeIsUnion(mobile, web, id);
    OrderedMap.GetAt(m, k);
    UnionIs(mobile, web, id);
  }

  /** The value of the last entry with the identifier. */
  ghost predicate LastValue(list: seq<Flat>, id: string, value: string) {
    exists j: nat :: IsLast(list, id, j) && value == list[j].value
  }

  ghost predicate HasValue(list: seq<Flat>, id: string, value: string) {
    exists i :: 0 <= i < |list| && At(list[i], id) && list[i].value == value
  }

  /** A conflict is a web entry whose identifier the mobile side has, last with another value. */
  ghost predicate IsConflict(mobile: seq<Flat>, web: seq<Flat>, c: Conflict) {
    c.mobileValue != c.webValue && LastValue(mobile, c.id, c.mobileValue) && HasValue(web, c.id, c.webValue)
  }

  lemma LastValueIs(list: seq<Flat>, id: string, value: string)
    ensures LastValue(list, id, value) <==> LastOf(list, id).Some? && LastOf(list, id).value.value == value
  {
    var i := LastIs(list, id);
    if j: nat :| IsLast(list, id, j) && value == list[j].value {
      assert LastOf(list, id).Some? && j == i;
    }
  }

  lemma HasValueOn(list: seq<Flat>, id: string, value: string)
    requires |list| > 0
    ensures var n := |list| - 1;
            HasValue(list, id, value) <==> HasValue(list[..n], id, value) || (At(list[n], id) && list[n].value == value)
  {
    var n := |list| - 1;
    assert forall i :: 0 <= i < n ==> list[..n][i] == list[i];
  }

  lemma {:induction false} DifferingIs(mobile: seq<Flat>, web: seq<Flat>, c: Conflict)
    ensures c in Differing(mobile, web) <==> IsConflict(mobile, web, c)
  {
    if |web| > 0 {
      var n := |web| - 1;
      DifferingIs(mobile, web[..n], c);
      HasValueOn(web, c.id, c.webValue);
      LastValueIs(mobile, c.id, c.mobileValue);
    }
  }

  /** With unique web identifiers the collected conflicts are exactly these. */
  lemma ConflictsAre(mobile: seq<Flat>, web: seq<Flat>, c: Conflict)
    requires forall i, j :: 0 <= i < j < |web| ==> web[i].namespace + "::" + web[i].key != web[j].namespace + "::" + web[j].key
    ensures c in MergeBoth(mobile, web).conflicts <==> IsConflict(mobile, web, c)
  {
    assert UniqueIds(web);
    ConflictsAreDiffering(mobile, web);
    DifferingIs(mobile, web, c);
  }

  /**
   * A row after a live run: an entry of the merged list is stored under its
   * language and pair with its value and platforms, unless a row was there and the
   * run was not forced; all other rows stay.
   */
  lemma SeededRowIs(rows: map<RowKey, Row>, lang: string, mobile: seq<Flat>, web: seq<Flat>, force: bool, i: nat, k: RowKey)
    ensures var (merged, after) := (MergeAll(mobile, web), SeedRows(rows, lang, MergeAll(mobile, web), |MergeAll(mobile, web)|, force));
            && (i < |merged| ==>
                  var key := RowKey(lang, merged[i].namespace, merged[i].key);
                  key in after &&
                  after[key] == if key in rows && !force then rows[key] else Row(merged[i].value, merged[i].platforms))
            && ((forall j :: 0 <= j < |merged| ==> RowKey(lang, merged[j].namespace, merged[j].key) != k) ==>
                  (k in after <==> k in rows) && (k in rows ==> after[k] == rows[k]))
  {
    var merged := MergeAll(mobile, web);
    MergedDistinct(mobile, web);
    if i < |merged| { SeedRowsValue(rows, lang, merged, |merged|, force, i); }
    SeedRowsHas(rows, lang, merged, |merged|, force, k);
    if forall j :: 0 <= j < |merged| ==> RowKey(lang, merged[j].namespace, merged[j].key) != k {
      assert forall j :: 0 <= j < |merged| ==> KeyOf(lang, merged[j]) == RowKey(lang, merged[j].namespace, merged[j].key);
    }
  }
}
