/**
 * Flattening translation files: nested objects become (namespace, dotted key)
 * pairs, and which files can be read back from the flat form.
 */
module Flatten {
  import opened Prelude

  /** String leaves only; an object is the list of its entries, in order. */
  datatype Json = Leaf(text: string) | Node(fields: seq<Entry>)

  datatype Entry = Entry(key: string, value: Json)

  type Fields = seq<Entry>

  datatype Flat = Flat(namespace: string, key: string, value: string)

  function FullKey(prefix: string, k: string): string {
    if prefix == "" then k else prefix + "." + k
  }

  function FlatEntry(e: Entry, ns: string, prefix: string): seq<Flat>
    decreases e
  {
    match e.value
    case Node(sub) => Inner(sub, ns, FullKey(prefix, e.key))
    case Leaf(text) => [Flat(ns, FullKey(prefix, e.key), text)]
  }

  function Inner(fields: Fields, ns: string, prefix: string): seq<Flat>
    decreases fields
  {
    if |fields| == 0 then [] else FlatEntry(fields[0], ns, prefix) + Inner(fields[1..], ns, prefix)
  }

  function FlatTop(e: Entry): seq<Flat> {
    match e.value
    case Node(sub) => Inner(sub, e.key, "")
    case Leaf(text) => [Flat(e.key, e.key, text)]
  }

  function FlattenAll(data: Fields): seq<Flat> {
    if |data| == 0 then [] else FlatTop(data[0]) + FlattenAll(data[1..])
  }

  /** The array all recursive calls push to. */
  class Results {
    var list: seq<Flat>

    constructor ()
      ensures list == []
    {
      list := [];
    }
  }

  method FlattenInner(fields: Fields, ns: string, prefix: string, results: Results)
    modifies results
    ensures results.list == old(results.list) + Inner(fields, ns, prefix)
    decreases fields
  {
    assert fields[0..] == fields;
    for i := 0 to |fields|
      invariant results.list + Inner(fields[i..], ns, prefix) == old(results.list) + Inner(fields, ns, prefix)
    {
      assert fields[i..][0] == fields[i] && fields[i..][1..] == fields[i + 1..];
      var key := FullKey(prefix, fields[i].key);
      Regroup(results.list, FlatEntry(fields[i], ns, prefix), Inner(fields[i + 1..], ns, prefix));
      match fields[i].value
      case Node(sub) => FlattenInner(sub, ns, key, results);
      case Leaf(text) => results.list := results.list + [Flat(ns, key, text)];
    }
  }

  method FlattenTranslations(data: Fields) returns (flat: seq<Flat>)
    ensures flat == FlattenAll(data)
  {
    var results := new Results();
    assert data[0..] == data;
    for i := 0 to |data|
      invariant fresh(results) && results.list + FlattenAll(data[i..]) == FlattenAll(data)
    {
      assert data[i..][0] == data[i] && data[i..][1..] == data[i + 1..];
      Regroup(results.list, FlatTop(data[i]), FlattenAll(data[i + 1..]));
      match data[i].value
      case Node(sub) => FlattenInner(sub, data[i].key, "", results);
      case Leaf(text) => results.list := results.list + [Flat(data[i].key, data[i].key, text)];
    }
    flat := results.list;
  }

  // ------------------------------------------------------------ reading back

  function Split(s: string): (parts: seq<string>)
    ensures |parts| > 0
  {
    if |s| == 0 then [""]
    else
      var rest := Split(s[1..]);
      if s[0] == '.' then [""] + rest else [[s[0]] + rest[0]] + rest[1..]
  }

  /** Put a text at a path, into the last object when its key fits, else into a new one. */
  function Put(fields: Fields, path: seq<string>, text: string): Fields
    requires |path| > 0
    decreases |path|
  {
    var n := |fields| - 1;
    if |path| == 1 then fields + [Entry(path[0], Leaf(text))]
    else if n >= 0 && fields[n].key == path[0] && fields[n].value.Node?
    then fields[n := Entry(path[0], Node(Put(fields[n].value.fields, path[1..], text)))]
    else fields + [Entry(path[0], Node(Put([], path[1..], text)))]
  }

  type Item = (seq<string>, string)

  ghost predicate HavePaths(items: seq<Item>) {
    forall i :: 0 <= i < |items| ==> |items[i].0| > 0
  }

  function Build(fields: Fields, items: seq<Item>): Fields
    requires HavePaths(items)
    decreases |items|
  {
    if |items| == 0 then fields else Build(Put(fields, items[0].0, items[0].1), items[1..])
  }

  function ItemOf(f: Flat): Item {
    ([f.namespace] + Split(f.key), f.value)
  }

  function ItemsOf(flat: seq<Flat>): (items: seq<Item>)
    ensures HavePaths(items)
  {
    seq(|flat|, i requires 0 <= i < |flat| => ItemOf(flat[i]))
  }

  function Unflatten(flat: seq<Flat>): Fields {
    Build([], ItemsOf(flat))
  }

  // -------------------------------------------------------------- round trip

  predicate NoDot(s: string) {
    '.' !in s
  }

  /** Dot-free keys that differ from their neighbours, and no empty object. */
  ghost predicate Sound(fields: Fields)
    decreases fields
  {
    |fields| > 0 ==>
      && NoDot(fields[0].key)
      && (|fields| > 1 ==> fields[1].key != fields[0].key)
      && (fields[0].value.Node? ==> |fields[0].value.fields| > 0 && Sound(fields[0].value.fields))
      && Sound(fields[1..])
  }

  /** Every namespace is an object of sound entries, and no object directly in it has the empty key. */
  ghost predicate Readable(data: Fields) {
    && (forall i :: 0 <= i < |data| ==> data[i].value.Node? && |data[i].value.fields| > 0 && Sound(data[i].value.fields) &&
                                        NamedObjects(data[i].value.fields))
    && (forall i :: 0 <= i < |data| - 1 ==> data[i].key != data[i + 1].key)
  }

  ghost predicate NamedObjects(fields: Fields) {
    forall i :: 0 <= i < |fields| && fields[i].value.Node? ==> fields[i].key != ""
  }

  lemma {:induction false} SplitNoDot(s: string)
    requires NoDot(s)
    ensures Split(s) == [s]
  {
    if |s| == 0 {
    } else {
      assert NoDot(s[1..]);
      SplitNoDot(s[1..]);
      assert [s[0]] + s[1..] == s;
    }
  }

  lemma {:induction false} SplitPrefix(s: string, t: string)
    requires NoDot(s)
    ensures Split(s + "." + t) == [s] + Split(t)
  {
    if |s| == 0 {
      assert (s + "." + t)[1..] == t;
    } else {
      assert (s + "." + t)[1..] == s[1..] + "." + t;
      assert NoDot(s[1..]);
      SplitPrefix(s[1..], t);
      assert [s[0]] + s[1..] == s;
    }
  }

  /** The texts of an entry with their paths, below `path`. */
  function EntryItems(e: Entry, path: seq<string>): (items: seq<Item>)
    ensures forall i :: 0 <= i < |items| ==> |items[i].0| > |path|
    decreases e
  {
    match e.value
    case Node(sub) => Items(sub, path + [e.key])
    case Leaf(text) => [(path + [e.key], text)]
  }

  function Items(fields: Fields, path: seq<string>): (items: seq<Item>)
    ensures forall i :: 0 <= i < |items| ==> |items[i].0| > |path|
    decreases fields
  {
    if |fields| == 0 then [] else EntryItems(fields[0], path) + Items(fields[1..], path)
  }

  function Prefixed(k: string, items: seq<Item>): seq<Item> {
    seq(|items|, i requires 0 <= i < |items| => ([k] + items[i].0, items[i].1))
  }

  lemma EntryBelow(e: Entry, k: string, path: seq<string>)
    ensures EntryItems(e, [k] + path) == Prefixed(k, EntryItems(e, path))
    decreases e
  {
    assert [k] + path + [e.key] == [k] + (path + [e.key]);
    if e.value.Node? { ItemsBelow(e.value.fields, k, path + [e.key]); }
  }

  lemma {:induction false} ItemsBelow(fields: Fields, k: string, path: seq<string>)
    ensures Items(fields, [k] + path) == Prefixed(k, Items(fields, path))
    decreases fields
  {
    if |fields| == 0 {
    } else {
      EntryBelow(fields[0], k, path);
      ItemsBelow(fields[1..], k, path);
    }
  }

  lemma {:induction false} BuildConcat(fields: Fields, a: seq<Item>, b: seq<Item>)
    requires HavePaths(a) && HavePaths(b)
    ensures HavePaths(a + b) && Build(fields, a + b) == Build(Build(fields, a), b)
    decreases |a|
  {
    if |a| == 0 {
      assert a + b == b;
    } else {
      assert (a + b)[1..] == a[1..] + b;
      BuildConcat(Put(fields, a[0].0, a[0].1), a[1..], b);
    }
  }

  /** Items below a key go into the last object of that key. */
  lemma {:induction false} BuildInside(fields: Fields, k: string, sub: Fields, items: seq<Item>)
    requires HavePaths(items)
    ensures HavePaths(Prefixed(k, items))
    ensures Build(fields + [Entry(k, Node(sub))], Prefixed(k, items)) == fields + [Entry(k, Node(Build(sub, items)))]
    decreases |items|
  {
    if |items| == 0 {
    } else {
      var before := fields + [Entry(k, Node(sub))];
      var next := fields + [Entry(k, Node(Put(sub, items[0].0, items[0].1)))];
      var path := [k] + items[0].0;
      assert path[1..] == items[0].0;
      assert Put(before, path, items[0].1) == next;
      assert Prefixed(k, items)[1..] == Prefixed(k, items[1..]);
      BuildInside(fields, k, Put(sub, items[0].0, items[0].1), items[1..]);
    }
  }

  ghost predicate Apart(fields: Fields, k: string) {
    |fields| > 0 ==> fields[|fields| - 1].key != k
  }

  lemma BuildNode(fields: Fields, k: string, items: seq<Item>)
    requires HavePaths(items) && |items| > 0 && Apart(fields, k)
    ensures HavePaths(Prefixed(k, items))
    ensures Build(fields, Prefixed(k, items)) == fields + [Entry(k, Node(Build([], items)))]
  {
    var path := [k] + items[0].0;
    assert path[1..] == items[0].0;
    assert Prefixed(k, items)[1..] == Prefixed(k, items[1..]);
    var first := Put([], items[0].0, items[0].1);
    assert Put(fields, path, items[0].1) == fields + [Entry(k, Node(first))];
    BuildInside(fields, k, first, items[1..]);
  }

  lemma {:induction false} SomeItems(fields: Fields, path: seq<string>)
    requires |fields| > 0 && Sound(fields)
    ensures |Items(fields, path)| > 0
    decreases fields
  {
    if fields[0].value.Node? { SomeItems(fields[0].value.fields, path + [fields[0].key]); }
  }

  lemma BuildEntry(acc: Fields, e: Entry)
    requires Apart(acc, e.key) && (e.value.Node? ==> |e.value.fields| > 0 && Sound(e.value.fields))
    ensures HavePaths(EntryItems(e, [])) && Build(acc, EntryItems(e, [])) == acc + [e]
    decreases e
  {
    var k := e.key;
    assert [] + [k] == [k];
    match e.value
    case Node(sub) =>
      assert [k] + [] == [k];
      ItemsBelow(sub, k, []);
      SomeItems(sub, []);
      BuildItems([], sub);
      assert [] + sub == sub;
      BuildNode(acc, k, Items(sub, []));
    case Leaf(text) =>
      assert EntryItems(e, [])[1..] == [];
  }

  /** Building from the items of a sound object appends the object. */
  lemma {:induction false} BuildItems(acc: Fields, fields: Fields)
    requires Sound(fields) && (|fields| > 0 ==> Apart(acc, fields[0].key))
    ensures HavePaths(Items(fields, [])) && Build(acc, Items(fields, [])) == acc + fields
    decreases fields
  {
    if |fields| == 0 {
      assert acc + fields == acc;
    } else {
      BuildEntry(acc, fields[0]);
      BuildItems(acc + [fields[0]], fields[1..]);
      BuildConcat(acc, EntryItems(fields[0], []), Items(fields[1..], []));
      Regroup(acc, [fields[0]], fields[1..]);
      assert [fields[0]] + fields[1..] == fields;
    }
  }

  /** The keys below `prefix`, split at their dots, lie below `path`. */
  ghost predicate Stands(prefix: string, path: seq<string>) {
    && (path == [] <==> prefix == "")
    && (path != [] ==> Split(prefix) == path && forall s: string :: Split(prefix + "." + s) == path + Split(s))
  }

  lemma StandsBelow(prefix: string, path: seq<string>, k: string)
    requires Stands(prefix, path) && NoDot(k)
    ensures Split(FullKey(prefix, k)) == path + [k]
    ensures path != [] || k != "" ==> Stands(FullKey(prefix, k), path + [k])
  {
    SplitNoDot(k);
    var key := FullKey(prefix, k);
    assert path == [] ==> path + [k] == [k];
    forall s: string ensures Split(key + "." + s) == path + [k] + Split(s) {
      SplitPrefix(k, s);
      if path != [] {
        assert key + "." + s == prefix + "." + (k + "." + s);
        assert path + ([k] + Split(s)) == path + [k] + Split(s);
      }
    }
  }

  lemma EntryKeysArePaths(e: Entry, ns: string, prefix: string, path: seq<string>)
    requires NoDot(e.key) && (e.value.Node? ==> Sound(e.value.fields) && (path != [] || e.key != ""))
    requires Stands(prefix, path)
    ensures ItemsOf(FlatEntry(e, ns, prefix)) == Prefixed(ns, EntryItems(e, path))
    decreases e
  {
    StandsBelow(prefix, path, e.key);
    match e.value
    case Node(sub) => KeysArePaths(sub, ns, FullKey(prefix, e.key), path + [e.key]);
    case Leaf(text) =>
  }

  /** The flat keys, split at their dots, are the paths. */
  lemma {:induction false} KeysArePaths(fields: Fields, ns: string, prefix: string, path: seq<string>)
    requires Sound(fields) && Stands(prefix, path) && (path == [] ==> NamedObjects(fields))
    ensures ItemsOf(Inner(fields, ns, prefix)) == Prefixed(ns, Items(fields, path))
    decreases fields
  {
    if |fields| == 0 {
    } else {
      EntryKeysArePaths(fields[0], ns, prefix, path);
      KeysArePaths(fields[1..], ns, prefix, path);
      ItemsOfConcat(FlatEntry(fields[0], ns, prefix), Inner(fields[1..], ns, prefix));
      PrefixedConcat(ns, EntryItems(fields[0], path), Items(fields[1..], path));
    }
  }

  lemma PrefixedConcat(k: string, a: seq<Item>, b: seq<Item>)
    ensures Prefixed(k, a + b) == Prefixed(k, a) + Prefixed(k, b)
  {
  }

  lemma ItemsOfConcat(a: seq<Flat>, b: seq<Flat>)
    ensures ItemsOf(a + b) == ItemsOf(a) + ItemsOf(b)
  {
  }

  lemma BuildNamespace(acc: Fields, e: Entry)
    requires e.value.Node? && |e.value.fields| > 0 && Sound(e.value.fields) && NamedObjects(e.value.fields) && Apart(acc, e.key)
    ensures Build(acc, ItemsOf(Inner(e.value.fields, e.key, ""))) == acc + [e]
  {
    var sub := e.value.fields;
    KeysArePaths(sub, e.key, "", []);
    SomeItems(sub, []);
    BuildItems([], sub);
    assert [] + sub == sub;
    BuildNode(acc, e.key, Items(sub, []));
  }

  lemma {:induction false} BuildData(acc: Fields, data: Fields)
    requires Readable(data) && (|data| > 0 ==> Apart(acc, data[0].key))
    ensures Build(acc, ItemsOf(FlattenAll(data))) == acc + data
    decreases |data|
  {
    if |data| == 0 {
      assert acc + data == acc;
    } else {
      var first := Inner(data[0].value.fields, data[0].key, "");
      assert Readable(data[1..]);
      BuildNamespace(acc, data[0]);
      BuildData(acc + [data[0]], data[1..]);
      ItemsOfConcat(first, FlattenAll(data[1..]));
      BuildConcat(acc, ItemsOf(first), ItemsOf(FlattenAll(data[1..])));
      Regroup(acc, [data[0]], data[1..]);
      assert [data[0]] + data[1..] == data;
    }
  }

  /** A readable file is recovered from its flat form. */
  lemma {:induction false} RoundTrip(data: Fields)
    requires Readable(data)
    ensures Unflatten(FlattenAll(data)) == data
  {
    BuildData([], data);
    assert [] + data == data;
  }

  // ------------------------------------------------ exactly which come back

  /** Neighbouring keys differ at every level, as the keys of a JSON object do. */
  ghost predicate Keyed(fields: Fields)
    decreases fields
  {
    |fields| > 0 ==>
      && (|fields| > 1 ==> fields[1].key != fields[0].key)
      && (fields[0].value.Node? ==> Keyed(fields[0].value.fields))
      && Keyed(fields[1..])
  }

  /** Dot-free keys and no empty object, at every level. */
  ghost predicate Solid(fields: Fields)
    decreases fields
  {
    forall i :: 0 <= i < |fields| ==> SolidEntry(fields[i])
  }

  ghost predicate SolidEntry(e: Entry)
    decreases e
  {
    NoDot(e.key) && (e.value.Node? ==> |e.value.fields| > 0 && Solid(e.value.fields))
  }

  lemma {:induction false} SoundIff(fields: Fields)
    requires Keyed(fields)
    ensures Sound(fields) <==> Solid(fields)
    decreases fields
  {
    if |fields| == 0 {
    } else {
      SoundIff(fields[1..]);
      if fields[0].value.Node? { SoundIff(fields[0].value.fields); }
      assert Solid(fields) <==> SolidEntry(fields[0]) && Solid(fields[1..]) by {
        assert forall i :: 0 < i < |fields| ==> fields[i] == fields[1..][i - 1];
      }
    }
  }

  ghost predicate NoDots(path: seq<string>) {
    forall i :: 0 <= i < |path| ==> NoDot(path[i])
  }

  lemma {:induction false} SplitParts(s: string)
    ensures NoDots(Split(s))
  {
    if |s| == 0 {
    } else {
      SplitParts(s[1..]);
    }
  }

  lemma {:induction false} PutSolid(fields: Fields, path: seq<string>, text: string)
    requires Solid(fields) && |path| > 0 && NoDots(path)
    ensures Solid(Put(fields, path, text)) && |Put(fields, path, text)| > 0
    decreases |path|
  {
    var n := |fields| - 1;
    assert NoDot(path[0]);
    if |path| == 1 {
    } else if n >= 0 && fields[n].key == path[0] && fields[n].value.Node? {
      assert SolidEntry(fields[n]);
      PutSolid(fields[n].value.fields, path[1..], text);
    } else {
      PutSolid([], path[1..], text);
    }
  }

  /** Namespaces are objects, not empty, and solid inside. */
  ghost predicate Top(data: Fields) {
    forall i :: 0 <= i < |data| ==>
      data[i].value.Node? && |data[i].value.fields| > 0 && Solid(data[i].value.fields)
  }

  lemma PutTop(data: Fields, ns: string, rest: seq<string>, text: string)
    requires Top(data) && |rest| > 0 && NoDots(rest)
    ensures Top(Put(data, [ns] + rest, text))
  {
    assert ([ns] + rest)[1..] == rest;
    var n := |data| - 1;
    if n >= 0 && data[n].key == ns {
      PutSolid(data[n].value.fields, rest, text);
    } else {
      PutSolid([], rest, text);
    }
  }

  lemma {:induction false} BuildTop(acc: Fields, flat: seq<Flat>)
    requires Top(acc)
    ensures Top(Build(acc, ItemsOf(flat)))
    decreases |flat|
  {
    if |flat| == 0 {
    } else {
      SplitParts(flat[0].key);
      PutTop(acc, flat[0].namespace, Split(flat[0].key), flat[0].value);
      assert ItemsOf(flat)[1..] == ItemsOf(flat[1..]);
      BuildTop(Put(acc, ItemOf(flat[0]).0, flat[0].value), flat[1..]);
    }
  }

  lemma {:induction false} ItemsConcat(a: Fields, b: Fields, path: seq<string>)
    ensures Items(a + b, path) == Items(a, path) + Items(b, path)
  {
    if |a| == 0 {
      assert a + b == b;
    } else {
      assert (a + b)[1..] == a[1..] + b;
      ItemsConcat(a[1..], b, path);
      Regroup(EntryItems(a[0], path), Items(a[1..], path), Items(b, path));
    }
  }

  lemma ItemsOfOne(e: Entry, path: seq<string>)
    ensures Items([e], path) == EntryItems(e, path)
  {
    assert [e][1..] == [];
  }

  /** Putting a text at a path adds exactly that item, at the end. */
  lemma {:induction false} PutItems(fields: Fields, path: seq<string>, text: string, base: seq<string>)
    requires |path| > 0
    ensures Items(Put(fields, path, text), base) == Items(fields, base) + [(base + path, text)]
    decreases |path|
  {
    var n := |fields| - 1;
    var k, rest := path[0], path[1..];
    assert path == [k] + rest;
    assert base + path == (base + [k]) + rest;
    if |path| == 1 {
      assert path == [k];
      ItemsConcat(fields, [Entry(k, Leaf(text))], base);
      ItemsOfOne(Entry(k, Leaf(text)), base);
    } else if n >= 0 && fields[n].key == k && fields[n].value.Node? {
      var init, sub := fields[..n], fields[n].value.fields;
      var e := Entry(k, Node(Put(sub, rest, text)));
      assert fields == init + [fields[n]] && Put(fields, path, text) == init + [e];
      ItemsConcat(init, [fields[n]], base);
      ItemsConcat(init, [e], base);
      ItemsOfOne(fields[n], base);
      ItemsOfOne(e, base);
      PutItems(sub, rest, text, base + [k]);
      Regroup(Items(init, base), Items(sub, base + [k]), [(base + path, text)]);
    } else {
      var e := Entry(k, Node(Put([], rest, text)));
      ItemsConcat(fields, [e], base);
      ItemsOfOne(e, base);
      PutItems([], rest, text, base + [k]);
      assert [] + [(base + path, text)] == [(base + path, text)];
    }
  }

  lemma {:induction false} BuiltItems(acc: Fields, items: seq<Item>)
    requires HavePaths(items)
    ensures Items(Build(acc, items), []) == Items(acc, []) + items
    decreases |items|
  {
    if |items| == 0 {
      assert Items(acc, []) + items == Items(acc, []);
    } else {
      PutItems(acc, items[0].0, items[0].1, []);
      assert [] + items[0].0 == items[0].0;
      BuiltItems(Put(acc, items[0].0, items[0].1), items[1..]);
      Regroup(Items(acc, []), [items[0]], items[1..]);
      assert [items[0]] + items[1..] == items;
    }
  }

  /** The lengths of all paths together. */
  function Total(items: seq<Item>): nat {
    if |items| == 0 then 0 else |items[0].0| + Total(items[1..])
  }

  lemma {:induction false} TotalConcat(a: seq<Item>, b: seq<Item>)
    ensures Total(a + b) == Total(a) + Total(b)
  {
    if |a| == 0 {
      assert a + b == b;
    } else {
      assert (a + b)[1..] == a[1..] + b;
      TotalConcat(a[1..], b);
    }
  }

  lemma {:induction false} TotalPrefixed(k: string, items: seq<Item>)
    ensures Total(Prefixed(k, items)) == Total(items) + |items|
  {
    if |items| == 0 {
    } else {
      assert Prefixed(k, items)[1..] == Prefixed(k, items[1..]);
      TotalPrefixed(k, items[1..]);
    }
  }

  /** An object under the empty key directly in a namespace loses a step of all its paths; nothing else does. */
  lemma {:induction false} InnerTotal(fields: Fields, ns: string)
    requires Sound(fields)
    ensures Total(ItemsOf(Inner(fields, ns, ""))) <= Total(Prefixed(ns, Items(fields, [])))
    ensures Total(ItemsOf(Inner(fields, ns, ""))) == Total(Prefixed(ns, Items(fields, []))) ==> NamedObjects(fields)
    decreases fields
  {
    if |fields| == 0 {
    } else {
      EntryTotal(fields[0], ns);
      InnerTotal(fields[1..], ns);
      InnerTotalSplit(fields, ns);
      assert forall i :: 0 < i < |fields| ==> fields[i] == fields[1..][i - 1];
    }
  }

  lemma InnerTotalSplit(fields: Fields, ns: string)
    requires |fields| > 0
    ensures Total(ItemsOf(Inner(fields, ns, "")))
         == Total(ItemsOf(FlatEntry(fields[0], ns, ""))) + Total(ItemsOf(Inner(fields[1..], ns, "")))
    ensures Total(Prefixed(ns, Items(fields, [])))
         == Total(Prefixed(ns, EntryItems(fields[0], []))) + Total(Prefixed(ns, Items(fields[1..], [])))
  {
    var e, rest := fields[0], fields[1..];
    ItemsOfConcat(FlatEntry(e, ns, ""), Inner(rest, ns, ""));
    PrefixedConcat(ns, EntryItems(e, []), Items(rest, []));
    TotalConcat(ItemsOf(FlatEntry(e, ns, "")), ItemsOf(Inner(rest, ns, "")));
    TotalConcat(Prefixed(ns, EntryItems(e, [])), Prefixed(ns, Items(rest, [])));
  }

  lemma EntryTotal(e: Entry, ns: string)
    requires NoDot(e.key) && (e.value.Node? ==> |e.value.fields| > 0 && Sound(e.value.fields))
    ensures var flat, tree := Total(ItemsOf(FlatEntry(e, ns, ""))), Total(Prefixed(ns, EntryItems(e, [])));
            if e.value.Node? && e.key == "" then flat < tree else flat == tree
    decreases e, 1
  {
    if e.value.Node? && e.key == "" {
      ShorterBelowEmpty(e, ns);
    } else {
      EntryKeysArePaths(e, ns, "", []);
    }
  }

  lemma ShorterBelowEmpty(e: Entry, ns: string)
    requires e.value.Node? && e.key == "" && |e.value.fields| > 0 && Sound(e.value.fields)
    ensures Total(ItemsOf(FlatEntry(e, ns, ""))) < Total(Prefixed(ns, EntryItems(e, [])))
    decreases e, 0
  {
    var sub := e.value.fields;
    InnerTotal(sub, ns);
    assert [] + [""] == [""] + [];
    ItemsBelow(sub, "", []);
    SomeItems(sub, []);
    var items := Items(sub, []);
    assert EntryItems(e, []) == Prefixed("", items);
    TotalPrefixed("", items);
    TotalPrefixed(ns, items);
    TotalPrefixed(ns, Prefixed("", items));
  }

  lemma {:induction false} DataTotal(data: Fields)
    requires Top(data) && forall i :: 0 <= i < |data| ==> Sound(data[i].value.fields)
    ensures Total(ItemsOf(FlattenAll(data))) <= Total(Items(data, []))
    ensures Total(ItemsOf(FlattenAll(data))) == Total(Items(data, [])) ==>
              forall i :: 0 <= i < |data| ==> NamedObjects(data[i].value.fields)
    decreases |data|
  {
    if |data| == 0 {
    } else {
      var e, rest := data[0], data[1..];
      var sub := e.value.fields;
      DataTotal(rest);
      InnerTotal(sub, e.key);
      assert [] + [e.key] == [e.key] + [];
      ItemsBelow(sub, e.key, []);
      ItemsOfConcat(FlatTop(e), FlattenAll(rest));
      TotalConcat(ItemsOf(FlatTop(e)), ItemsOf(FlattenAll(rest)));
      TotalConcat(EntryItems(e, []), Items(rest, []));
      assert forall i :: 0 < i < |data| ==> data[i] == rest[i - 1];
    }
  }

  lemma {:induction false} KeyedInside(data: Fields)
    requires Keyed(data)
    ensures forall i :: 0 <= i < |data| && data[i].value.Node? ==> Keyed(data[i].value.fields)
    ensures forall i :: 0 <= i < |data| - 1 ==> data[i].key != data[i + 1].key
    decreases |data|
  {
    if |data| == 0 {
    } else {
      KeyedInside(data[1..]);
      assert forall i :: 0 < i < |data| ==> data[i] == data[1..][i - 1];
    }
  }

  /**
   * Exactly which files come back from their flat form: those whose namespaces
   * are non-empty objects, with dot-free keys and no empty object inside, and no
   * object under the empty key directly in a namespace.
   */
  lemma RoundTripIff(data: Fields)
    requires Keyed(data)
    ensures Unflatten(FlattenAll(data)) == data <==> Readable(data)
  {
    if Readable(data) {
      RoundTrip(data);
    }
    if Unflatten(FlattenAll(data)) == data {
      BuildTop([], FlattenAll(data));
      KeyedInside(data);
      forall i | 0 <= i < |data| ensures Sound(data[i].value.fields) {
        SoundIff(data[i].value.fields);
      }
      BuiltItems([], ItemsOf(FlattenAll(data)));
      assert [] + ItemsOf(FlattenAll(data)) == ItemsOf(FlattenAll(data));
      DataTotal(data);
    }
  }

  /** Witnesses: pairs of different files with the same flat form, one for each way of not being readable. */
  lemma {:induction false} NotReadable()
    ensures FlattenAll([Entry("n", Node([Entry("a.b", Leaf("x"))]))]) == FlattenAll([Entry("n", Node([Entry("a", Node([Entry("b", Leaf("x"))]))]))])
    ensures FlattenAll([Entry("n", Node([Entry("a", Node([]))]))]) == FlattenAll([Entry("n", Node([]))])
    ensures FlattenAll([Entry("n", Leaf("x"))]) == FlattenAll([Entry("n", Node([Entry("n", Leaf("x"))]))])
    ensures FlattenAll([Entry("n", Node([Entry("", Node([Entry("b", Leaf("x"))]))]))]) == FlattenAll([Entry("n", Node([Entry("b", Leaf("x"))]))])
  {
    assert FullKey("a", "b") == "a.b";
    assert Inner([Entry("b", Leaf("x"))], "n", "a") == [Flat("n", "a.b", "x")];
    assert Inner([Entry("b", Leaf("x"))], "n", "") == [Flat("n", "b", "x")];
    assert Inner([Entry("a.b", Leaf("x"))], "n", "") == [Flat("n", "a.b", "x")];
    assert Inner([Entry("n", Leaf("x"))], "n", "") == [Flat("n", "n", "x")];
    assert Inner([Entry("a", Node([Entry("b", Leaf("x"))]))], "n", "") == [Flat("n", "a.b", "x")];
    assert Inner([Entry("", Node([Entry("b", Leaf("x"))]))], "n", "") == [Flat("n", "b", "x")];
    assert Inner([Entry("a", Node([]))], "n", "") == [];
    forall sub: Fields ensures FlattenAll([Entry("n", Node(sub))]) == Inner(sub, "n", "") {
      assert [Entry("n", Node(sub))][1..] == [];
    }
    assert FlattenAll([Entry("n", Leaf("x"))]) == [Flat("n", "n", "x")];
  }
}
