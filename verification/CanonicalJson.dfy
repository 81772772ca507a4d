/**
 * Canonical key order for a JSON value: two values come out the same exactly
 * when they differ in nothing but the order of object keys.
 */
module CanonicalJson {
  import opened Prelude

  datatype Json = Scalar(text: string) | Array(items: seq<Json>) | Object(fields: seq<Field>)

  datatype Field = Field(key: string, value: Json)

  /** The order of Array.prototype.sort on strings. */
  predicate Less(a: string, b: string) {
    |b| > 0 && (|a| == 0 || a[0] < b[0] || (a[0] == b[0] && Less(a[1..], b[1..])))
  }

  function Lookup(fields: seq<Field>, key: string): Option<Json> {
    if |fields| == 0 then None
    else if fields[0].key == key then Some(fields[0].value)
    else Lookup(fields[1..], key)
  }

  /** Objects have no key twice. */
  ghost predicate WellFormed(v: Json) {
    match v
    case Scalar(_) => true
    case Array(items) => forall i :: 0 <= i < |items| ==> WellFormed(items[i])
    case Object(fields) =>
      && (forall i, j :: 0 <= i < j < |fields| ==> fields[i].key != fields[j].key)
      && forall i :: 0 <= i < |fields| ==> WellFormed(fields[i].value)
  }

  // ------------------------------------------------------------ specification

  function Insert(fields: seq<Field>, f: Field): seq<Field> {
    if |fields| == 0 then [f]
    else if Less(f.key, fields[0].key) then [f] + fields
    else [fields[0]] + Insert(fields[1..], f)
  }

  function SortDeep(v: Json): Json
    decreases v
  {
    match v
    case Scalar(_) => v
    case Array(items) => Array(SortItems(items))
    case Object(fields) => Object(SortFields(fields))
  }

  function SortItems(items: seq<Json>): seq<Json>
    decreases items
  {
    if |items| == 0 then [] else [SortDeep(items[0])] + SortItems(items[1..])
  }

  function SortFields(fields: seq<Field>): seq<Field>
    decreases fields
  {
    if |fields| == 0 then []
    else Insert(SortFields(fields[1..]), Field(fields[0].key, SortDeep(fields[0].value)))
  }

  /** Equal up to the order of object keys. */
  ghost predicate Same(a: Json, b: Json) {
    match a
    case Scalar(_) => a == b
    case Array(items) => b.Array? && |b.items| == |items| && forall i :: 0 <= i < |items| ==> Same(items[i], b.items[i])
    case Object(fields) =>
      && b.Object?
      && (forall key :: Lookup(fields, key).Some? <==> Lookup(b.fields, key).Some?)
      && forall i :: 0 <= i < |fields| && Lookup(b.fields, fields[i].key).Some? ==>
           Same(fields[i].value, Lookup(b.fields, fields[i].key).value)
  }

  ghost predicate Ascending(fields: seq<Field>) {
    forall i, j :: 0 <= i < j < |fields| ==> Less(fields[i].key, fields[j].key)
  }

  // ------------------------------------------------------------------- order

  lemma {:induction false} LessTransitive(a: string, b: string, c: string)
    requires Less(a, b) && Less(b, c)
    ensures Less(a, c)
  {
    if |a| > 0 && a[0] == b[0] && b[0] == c[0] { LessTransitive(a[1..], b[1..], c[1..]); }
  }

  lemma {:induction false} LessTotal(a: string, b: string)
    ensures Less(a, b) || a == b || Less(b, a)
    ensures !(Less(a, b) && Less(b, a)) && !Less(a, a)
  {
    if |a| > 0 && |b| > 0 {
      LessTotal(a[1..], b[1..]);
      LessTotal(a[1..], a[1..]);
      if a[0] == b[0] && a[1..] == b[1..] { assert a == [a[0]] + a[1..] && b == [b[0]] + b[1..]; }
    } else if |a| > 0 {
      LessTotal(a[1..], a[1..]);
    }
  }

  /** Equal up to place `n`, where one ends or has the smaller character. */
  ghost predicate SplitAt(a: string, b: string, n: nat) {
    n <= |a| && n < |b| && a[..n] == b[..n] && (n == |a| || a[n] < b[n])
  }

  ghost predicate Precedes(a: string, b: string) {
    exists n: nat :: SplitAt(a, b, n)
  }

  lemma SplitHead(a: string, b: string, n: nat)
    requires SplitAt(a, b, n) && n > 0
    ensures a[0] == b[0]
  {
    assert a[..n][0] == b[..n][0];
  }

  /** The order of the keys: a proper prefix comes first, else the first differing character decides. */
  lemma {:induction false} LessIff(a: string, b: string)
    ensures Less(a, b) <==> Precedes(a, b)
  {
    if |a| > 0 && |b| > 0 && a[0] == b[0] {
      LessIff(a[1..], b[1..]);
      if n: nat :| SplitAt(a[1..], b[1..], n) {
        assert a[..n + 1] == [a[0]] + a[1..][..n] && b[..n + 1] == [b[0]] + b[1..][..n];
        assert SplitAt(a, b, n + 1);
      }
      if n: nat :| SplitAt(a, b, n) {
        assert a[1..][..n - 1] == a[..n][1..] && b[1..][..n - 1] == b[..n][1..];
        assert SplitAt(a[1..], b[1..], n - 1);
      }
    } else if Less(a, b) {
      assert SplitAt(a, b, 0);
    } else if n: nat :| SplitAt(a, b, n) {
      if n > 0 { SplitHead(a, b, n); }
    }
  }

  // ----------------------------------------------------------------- sorting

  lemma {:induction false} LookupAt(fields: seq<Field>, key: string)
    ensures Lookup(fields, key).Some? <==> exists i :: 0 <= i < |fields| && fields[i].key == key
    ensures Lookup(fields, key).Some? ==> exists i :: 0 <= i < |fields| && fields[i] == Field(key, Lookup(fields, key).value)
  {
    if |fields| == 0 {
    } else {
      LookupAt(fields[1..], key);
      assert forall i :: 0 < i < |fields| ==> fields[i] == fields[1..][i - 1];
    }
  }

  lemma {:induction false} InsertFacts(fields: seq<Field>, f: Field, key: string)
    ensures Lookup(Insert(fields, f), key) == if key == f.key && Lookup(fields, key).None? then Some(f.value)
                                              else if key == f.key then Lookup(Insert(fields, f), key)
                                              else Lookup(fields, key)
    ensures Lookup(Insert(fields, f), f.key).Some?
    ensures |Insert(fields, f)| == |fields| + 1
    ensures forall i :: 0 <= i <= |fields| ==> Insert(fields, f)[i] == f || Insert(fields, f)[i] in fields
  {
    if |fields| > 0 {
      InsertFacts(fields[1..], f, key);
      assert ([f] + fields)[1..] == fields;
      if !Less(f.key, fields[0].key) {
        var r := Insert(fields[1..], f);
        assert ([fields[0]] + r)[1..] == r;
      }
    } else {
      assert [f][1..] == [];
    }
  }

  lemma {:induction false} InsertAscends(fields: seq<Field>, f: Field)
    requires Ascending(fields) && forall i :: 0 <= i < |fields| ==> fields[i].key != f.key
    ensures Ascending(Insert(fields, f))
  {
    if |fields| == 0 {
    } else {
      if Less(f.key, fields[0].key) {
        forall j | 0 < j < |fields| ensures Less(f.key, fields[j].key) {
          LessTransitive(f.key, fields[0].key, fields[j].key);
        }
      } else {
        LessTotal(f.key, fields[0].key);
        InsertAscends(fields[1..], f);
        InsertFacts(fields[1..], f, f.key);
        var r := Insert(fields[1..], f);
        forall i | 0 <= i < |r| ensures Less(fields[0].key, r[i].key) {
          assert r[i] == f || r[i] in fields[1..];
        }
      }
    }
  }

  lemma InsertFirst(fields: seq<Field>, f: Field)
    requires forall i :: 0 <= i < |fields| ==> Less(f.key, fields[i].key)
    ensures Insert(fields, f) == [f] + fields
  {
  }

  ghost predicate Distinct(fields: seq<Field>) {
    forall i, j :: 0 <= i < j < |fields| ==> fields[i].key != fields[j].key
  }

  /** Sorting the fields: strictly ascending keys, every lookup the sorted value it was. */
  lemma {:induction false} SortFieldsFacts(fields: seq<Field>, key: string)
    requires Distinct(fields)
    ensures Ascending(SortFields(fields)) && |SortFields(fields)| == |fields|
    ensures Lookup(SortFields(fields), key) ==
            if Lookup(fields, key).Some? then Some(SortDeep(Lookup(fields, key).value)) else None
    ensures forall i :: 0 <= i < |fields| ==> exists j :: 0 <= j < |fields| && SortFields(fields)[i].key == fields[j].key
    decreases |fields|
  {
    if |fields| == 0 {
    } else {
      var rest := fields[1..];
      var f := Field(fields[0].key, SortDeep(fields[0].value));
      SortFieldsFacts(rest, key);
      SortFieldsFacts(rest, f.key);
      LookupAt(rest, f.key);
      assert Lookup(rest, f.key).None?;
      LookupAt(SortFields(rest), f.key);
      InsertAscends(SortFields(rest), f);
      InsertFacts(SortFields(rest), f, key);
      var r := SortFields(fields);
      forall i | 0 <= i < |r| ensures exists j :: 0 <= j < |fields| && r[i].key == fields[j].key {
        if r[i] != f {
          var m :| 0 <= m < |rest| && SortFields(rest)[m] == r[i];
          var j :| 0 <= j < |rest| && SortFields(rest)[m].key == rest[j].key;
          assert fields[j + 1].key == r[i].key;
        }
      }
    }
  }

  /** An ascending list is determined by its lookups. */
  lemma {:induction false} AscendingUnique(a: seq<Field>, b: seq<Field>)
    requires Ascending(a) && Ascending(b) && forall key :: Lookup(a, key) == Lookup(b, key)
    ensures a == b
  {
    if |a| == 0 || |b| == 0 {
      HeadFound(a);
      HeadFound(b);
    } else {
      HeadsAgree(a, b);
      forall key ensures Lookup(a[1..], key) == Lookup(b[1..], key) {
        assert Lookup(a, key) == Lookup(b, key);
        NotFirst(a);
        NotFirst(b);
      }
      AscendingUnique(a[1..], b[1..]);
      assert a == [a[0]] + a[1..] && b == [b[0]] + b[1..];
    }
  }

  lemma HeadFound(a: seq<Field>)
    ensures |a| > 0 ==> Lookup(a, a[0].key).Some?
  {
  }

  lemma NotFirst(a: seq<Field>)
    requires Ascending(a) && |a| > 0
    ensures Lookup(a[1..], a[0].key).None?
  {
    LookupAt(a[1..], a[0].key);
    LessTotal(a[0].key, a[0].key);
  }

  lemma HeadsAgree(a: seq<Field>, b: seq<Field>)
    requires Ascending(a) && Ascending(b) && |a| > 0 && |b| > 0 && forall key :: Lookup(a, key) == Lookup(b, key)
    ensures a[0] == b[0]
  {
    assert Lookup(b, a[0].key).Some? && Lookup(a, b[0].key).Some?;
    LookupAt(b, a[0].key);
    LookupAt(a, b[0].key);
    LessTotal(a[0].key, b[0].key);
  }

  lemma {:induction false} SortItemsAt(items: seq<Json>)
    ensures |SortItems(items)| == |items| && forall i :: 0 <= i < |items| ==> SortItems(items)[i] == SortDeep(items[i])
  {
    if |items| == 0 {
    } else {
      SortItemsAt(items[1..]);
    }
  }

  // ------------------------------------------------------------- main results

  /**
   * Two well-formed values have the same canonical form exactly when they are
   * equal up to the order of object keys.
   */
  lemma {:induction false} SameFormIff(a: Json, b: Json)
    requires WellFormed(a) && WellFormed(b)
    ensures SortDeep(a) == SortDeep(b) <==> Same(a, b)
    decreases a
  {
    match a
    case Scalar(_) =>
    case Array(items) =>
      if b.Array? {
        SortItemsAt(items);
        SortItemsAt(b.items);
        forall i | 0 <= i < |items| && i < |b.items| ensures SortDeep(items[i]) == SortDeep(b.items[i]) <==> Same(items[i], b.items[i]) {
          SameFormIff(items[i], b.items[i]);
        }
        if SortItems(items) == SortItems(b.items) {
          forall i | 0 <= i < |items| ensures Same(items[i], b.items[i]) {
            assert SortItems(items)[i] == SortItems(b.items)[i];
          }
        }
      }
    case Object(fields) =>
      if b.Object? {
        forall i | 0 <= i < |fields| && Lookup(b.fields, fields[i].key).Some?
          ensures SortDeep(fields[i].value) == SortDeep(Lookup(b.fields, fields[i].key).value) <==>
                  Same(fields[i].value, Lookup(b.fields, fields[i].key).value)
        {
          LookupAt(b.fields, fields[i].key);
          SameFormIff(fields[i].value, Lookup(b.fields, fields[i].key).value);
        }
        ObjectsSameIff(fields, b.fields);
      }
  }

  lemma ObjectsSameIff(a: seq<Field>, b: seq<Field>)
    requires Distinct(a) && Distinct(b)
    requires forall i :: 0 <= i < |a| && Lookup(b, a[i].key).Some? ==>
               (SortDeep(a[i].value) == SortDeep(Lookup(b, a[i].key).value) <==> Same(a[i].value, Lookup(b, a[i].key).value))
    ensures SortFields(a) == SortFields(b) <==> Same(Object(a), Object(b))
  {
    forall key ensures Lookup(SortFields(a), key) == if Lookup(a, key).Some? then Some(SortDeep(Lookup(a, key).value)) else None {
      SortFieldsFacts(a, key);
    }
    forall key ensures Lookup(SortFields(b), key) == if Lookup(b, key).Some? then Some(SortDeep(Lookup(b, key).value)) else None {
      SortFieldsFacts(b, key);
    }
    forall i | 0 <= i < |a| ensures Lookup(a, a[i].key) == Some(a[i].value) { DistinctLookup(a, i); }
    if SortFields(a) == SortFields(b) {
      forall key ensures Lookup(a, key).Some? <==> Lookup(b, key).Some? {
        assert Lookup(SortFields(a), key) == Lookup(SortFields(b), key);
      }
      forall i | 0 <= i < |a| ensures Same(a[i].value, Lookup(b, a[i].key).value) {
        assert Lookup(SortFields(a), a[i].key) == Lookup(SortFields(b), a[i].key);
      }
    }
    if Same(Object(a), Object(b)) {
      forall key ensures Lookup(SortFields(a), key) == Lookup(SortFields(b), key) {
        LookupAt(a, key);
        if Lookup(a, key).Some? {
          var i :| 0 <= i < |a| && a[i] == Field(key, Lookup(a, key).value);
          assert Same(a[i].value, Lookup(b, key).value);
        }
      }
      SortFieldsFacts(a, "");
      SortFieldsFacts(b, "");
      AscendingUnique(SortFields(a), SortFields(b));
    }
  }

  lemma {:induction false} DistinctLookup(a: seq<Field>, i: nat)
    requires Distinct(a) && i < |a|
    ensures Lookup(a, a[i].key) == Some(a[i].value)
  {
    if i == 0 {
    } else {
      assert Distinct(a[1..]);
      DistinctLookup(a[1..], i - 1);
    }
  }

  /** Every lookup is preserved, key by key, and array order is untouched. */
  lemma {:induction false} LookupsPreserved(v: Json, key: string)
    requires WellFormed(v)
    ensures v.Object? ==>
              && SortDeep(v).Object?
              && Lookup(SortDeep(v).fields, key) ==
                   (if Lookup(v.fields, key).Some? then Some(SortDeep(Lookup(v.fields, key).value)) else None)
    ensures v.Array? ==>
              && SortDeep(v).Array? && |SortDeep(v).items| == |v.items|
              && forall i :: 0 <= i < |v.items| ==> SortDeep(v).items[i] == SortDeep(v.items[i])
  {
    match v
    case Scalar(_) =>
    case Array(items) => SortItemsAt(items);
    case Object(fields) => SortFieldsFacts(fields, key);
  }

  lemma {:induction false} AlreadySorted(fields: seq<Field>)
    requires Ascending(fields) && forall i :: 0 <= i < |fields| ==> SortDeep(fields[i].value) == fields[i].value
    ensures SortFields(fields) == fields
  {
    if |fields| == 0 {
    } else {
      AlreadySorted(fields[1..]);
      InsertFirst(fields[1..], fields[0]);
      assert Field(fields[0].key, SortDeep(fields[0].value)) == fields[0];
      assert [fields[0]] + fields[1..] == fields;
    }
  }

  /** The canonical form is a fixed point. */
  lemma {:induction false} Idempotent(v: Json)
    requires WellFormed(v)
    ensures SortDeep(SortDeep(v)) == SortDeep(v)
    decreases v
  {
    match v
    case Scalar(_) =>
    case Array(items) =>
      SortItemsAt(items);
      SortItemsAt(SortItems(items));
      forall i | 0 <= i < |items| ensures SortDeep(SortItems(items)[i]) == SortItems(items)[i] { Idempotent(items[i]); }
      assert SortItems(SortItems(items)) == SortItems(items);
    case Object(fields) =>
      var r := SortFields(fields);
      SortFieldsFacts(fields, "");
      forall i | 0 <= i < |r| ensures SortDeep(r[i].value) == r[i].value {
        var j :| 0 <= j < |fields| && r[i].key == fields[j].key;
        DistinctLookup(fields, j);
        SortFieldsFacts(fields, r[i].key);
        AscendingDistinct(r);
        DistinctLookup(r, i);
        Idempotent(fields[j].value);
      }
      AlreadySorted(r);
  }

  /** At every depth the keys of an object ascend. */
  ghost predicate KeysAscend(v: Json) {
    match v
    case Scalar(_) => true
    case Array(items) => forall i :: 0 <= i < |items| ==> KeysAscend(items[i])
    case Object(fields) =>
      && (forall i, j :: 0 <= i < j < |fields| ==> Precedes(fields[i].key, fields[j].key))
      && forall i :: 0 <= i < |fields| ==> KeysAscend(fields[i].value)
  }

  /** The canonical form of a value has ascending keys at every depth. */
  lemma {:induction false} FormAscends(v: Json)
    requires WellFormed(v)
    ensures KeysAscend(SortDeep(v))
    decreases v
  {
    match v
    case Scalar(_) =>
    case Array(items) =>
      SortItemsAt(items);
      forall i | 0 <= i < |items| ensures KeysAscend(SortItems(items)[i]) { FormAscends(items[i]); }
    case Object(fields) =>
      var r := SortFields(fields);
      SortFieldsFacts(fields, "");
      forall i | 0 <= i < |r| ensures KeysAscend(r[i].value) {
        KeyFound(fields, i);
        FormAscends(ValueOf(fields, r[i].key));
      }
      forall i, j | 0 <= i < j < |r| ensures Precedes(r[i].key, r[j].key) {
        LessIff(r[i].key, r[j].key);
      }
  }

  lemma AscendingDistinct(a: seq<Field>)
    requires Ascending(a)
    ensures Distinct(a)
  {
    forall i, j | 0 <= i < j < |a| ensures a[i].key != a[j].key { LessTotal(a[i].key, a[j].key); }
  }

  lemma {:induction false} FormWellFormed(v: Json)
    requires WellFormed(v)
    ensures WellFormed(SortDeep(v))
    decreases v
  {
    match v
    case Scalar(_) =>
    case Array(items) =>
      SortItemsAt(items);
      forall i | 0 <= i < |items| ensures WellFormed(SortItems(items)[i]) { FormWellFormed(items[i]); }
    case Object(fields) =>
      var r := SortFields(fields);
      SortFieldsFacts(fields, "");
      AscendingDistinct(r);
      forall i | 0 <= i < |r| ensures WellFormed(r[i].value) {
        KeyFound(fields, i);
        FormWellFormed(ValueOf(fields, r[i].key));
      }
  }

  /** The form is the value itself, up to the order of object keys. */
  lemma FormIsSame(v: Json)
    requires WellFormed(v)
    ensures Same(v, SortDeep(v))
  {
    FormWellFormed(v);
    Idempotent(v);
    SameFormIff(v, SortDeep(v));
  }

  // ------------------------------------------------------------ the algorithm

  function KeysOf(fields: seq<Field>): seq<string> {
    seq(|fields|, i requires 0 <= i < |fields| => fields[i].key)
  }

  function Place(keys: seq<string>, k: string): seq<string> {
    if |keys| == 0 then [k] else if Less(k, keys[0]) then [k] + keys else [keys[0]] + Place(keys[1..], k)
  }

  /** `Object.keys(value).sort()`. */
  function SortedKeys(fields: seq<Field>): seq<string> {
    if |fields| == 0 then [] else Place(SortedKeys(fields[1..]), fields[0].key)
  }

  lemma {:induction false} PlaceIsInsert(fields: seq<Field>, f: Field)
    ensures Place(KeysOf(fields), f.key) == KeysOf(Insert(fields, f))
  {
    if |fields| == 0 {
    } else {
      assert KeysOf(fields)[1..] == KeysOf(fields[1..]);
      PlaceIsInsert(fields[1..], f);
    }
  }

  lemma {:induction false} SortedKeysAre(fields: seq<Field>)
    ensures SortedKeys(fields) == KeysOf(SortFields(fields))
  {
    if |fields| == 0 {
    } else {
      SortedKeysAre(fields[1..]);
      PlaceIsInsert(SortFields(fields[1..]), Field(fields[0].key, SortDeep(fields[0].value)));
    }
  }

  /** The recursive routine: arrays mapped, objects refilled in the order of their sorted keys. */
  method SortDeeply(v: Json) returns (r: Json)
    requires WellFormed(v)
    ensures r == SortDeep(v)
    decreases v
  {
    match v
    case Scalar(_) => r := v;
    case Array(items) =>
      SortItemsAt(items);
      var out: seq<Json> := [];
      for i := 0 to |items|
        invariant out == SortItems(items)[..i]
      {
        var item := SortDeeply(items[i]);
        out := out + [item];
      }
      r := Array(out);
    case Object(fields) =>
      var keys := SortedKeys(fields);
      SortedKeysAre(fields);
      ghost var target := SortFields(fields);
      SortFieldsFacts(fields, "");
      var out: seq<Field> := [];
      for i := 0 to |keys|
        invariant out == target[..i]
      {
        KeyFound(fields, i);
        var value := ValueOf(fields, keys[i]);
        var sorted := SortDeeply(value);
        out := out + [Field(keys[i], sorted)];
      }
      r := Object(out);
  }

  /** `value[key]` for a key that is there. */
  function ValueOf(fields: seq<Field>, key: string): (v: Json)
    requires Lookup(fields, key).Some?
    ensures exists i :: 0 <= i < |fields| && fields[i] == Field(key, v)
    ensures v == Lookup(fields, key).value
  {
    LookupAt(fields, key);
    Lookup(fields, key).value
  }

  lemma KeyFound(fields: seq<Field>, i: nat)
    requires Distinct(fields) && i < |SortFields(fields)|
    ensures var f := SortFields(fields)[i];
            Lookup(fields, f.key).Some? && f.value == SortDeep(Lookup(fields, f.key).value)
  {
    var r := SortFields(fields);
    SortFieldsFacts(fields, r[i].key);
    AscendingDistinct(r);
    DistinctLookup(r, i);
  }
}
