/**
 * The wholesale cost table: rows valid on half-open intervals of time, repriced
 * by closing the open row and inserting a new one, with no transaction between.
 */
module PriceHistory {
  import opened Prelude
  import opened MigrationRunner

  datatype Key = Key(provider: string, channel: string, country: string, encoding: string, segments: nat)

  datatype Row = Row(key: Key, cost: nat, since: nat, until: Option<nat>)

  type Table = seq<Row>

  predicate Covers(r: Row, t: nat) {
    r.since <= t && (r.until.Some? ==> t < r.until.value)
  }

  predicate IsOpen(r: Row, key: Key) {
    r.key == key && r.until.None?
  }

  /** findOne on the open row of the key; the length when there is none. */
  function FirstOpen(rows: Table, key: Key): (i: nat)
    ensures i <= |rows| && (i < |rows| ==> IsOpen(rows[i], key))
    ensures forall j :: 0 <= j < i ==> !IsOpen(rows[j], key)
  {
    if |rows| == 0 then 0 else if IsOpen(rows[0], key) then 0 else 1 + FirstOpen(rows[1..], key)
  }

  /** The lookup: of the rows in force at `t`, the one that took effect last. */
  function InForce(rows: Table, key: Key, t: nat): Option<Row> {
    if |rows| == 0 then None
    else
      var best, r := InForce(rows[..|rows| - 1], key, t), rows[|rows| - 1];
      if r.key == key && Covers(r, t) && (best.None? || best.value.since < r.since) then Some(r) else best
  }

  function PriceAt(rows: Table, key: Key, t: nat): Option<nat> {
    var r := InForce(rows, key, t);
    if r.Some? then Some(r.value.cost) else None
  }

  /** One line of the seed: the two clock readings are taken for the close and for the insert. */
  datatype Entry = Entry(key: Key, cost: nat, closeAt: nat, insertAt: nat)

  function Closed(rows: Table, e: Entry): Table {
    var i := FirstOpen(rows, e.key);
    if i < |rows| && rows[i].cost != e.cost then rows[i := rows[i].(until := Some(e.closeAt))] else rows
  }

  function Seeded(rows: Table, e: Entry, base: nat): Table {
    var i := FirstOpen(rows, e.key);
    if i == |rows| then rows + [Row(e.key, e.cost, base, None)]
    else if rows[i].cost == e.cost then rows
    else Closed(rows, e) + [Row(e.key, e.cost, e.insertAt, None)]
  }

  function Replay(rows: Table, es: seq<Entry>, base: nat): Table {
    if |es| == 0 then rows else Seeded(Replay(rows, es[..|es| - 1], base), es[|es| - 1], base)
  }

  function Inserts(rows: Table, es: seq<Entry>, base: nat): nat {
    if |es| == 0 then 0
    else
      var before := Replay(rows, es[..|es| - 1], base);
      Inserts(rows, es[..|es| - 1], base) + |Seeded(before, es[|es| - 1], base)| - |before|
  }

  class CostTable {
    var rows: Table

    constructor (rows: Table)
      ensures this.rows == rows
    {
      this.rows := rows;
    }

    /** One run; the process dies in entry `diesIn`, if there is one, before or after the close. */
    method RunSeed(es: seq<Entry>, base: nat, diesIn: nat, closed: bool) returns (inserted: nat, skipped: nat)
      modifies this
      ensures |rows| == |old(rows)| + inserted
      ensures diesIn >= |es| ==>
                && rows == Replay(old(rows), es, base)
                && inserted == Inserts(old(rows), es, base) && inserted + skipped == |es|
      ensures diesIn < |es| ==>
                var before := Replay(old(rows), es[..diesIn], base);
                rows == if closed then Closed(before, es[diesIn]) else before
    {
      inserted, skipped := 0, 0;
      for i := 0 to |es|
        invariant i <= diesIn && rows == Replay(old(rows), es[..i], base)
        invariant inserted == Inserts(old(rows), es[..i], base) && inserted + skipped == i
        invariant |rows| == |old(rows)| + inserted
      {
        assert es[..i + 1][..i] == es[..i];
        var e := es[i];
        if i == diesIn && !closed {
          return;
        }
        var k := FirstOpen(rows, e.key);
        if k < |rows| && rows[k].cost == e.cost {
          if i == diesIn {
            return;
          }
          skipped := skipped + 1;
          continue;
        }
        var existing := k < |rows|;
        if existing {
          rows := rows[k := rows[k].(until := Some(e.closeAt))];
        }
        if i == diesIn {
          return;
        }
        rows := rows + [Row(e.key, e.cost, if existing then e.insertAt else base, None)];
        inserted := inserted + 1;
      }
      assert es[..|es|] == es;
    }
  }

  // ---------------------------------------------------------------- invariant

  ghost predicate OneOpen(rows: Table, key: Key) {
    forall i, j :: 0 <= i < j < |rows| && IsOpen(rows[i], key) ==> !IsOpen(rows[j], key)
  }

  /** No instant has two rows of the key in force. */
  ghost predicate Disjoint(rows: Table, key: Key) {
    forall i, j, t: nat :: 0 <= i < j < |rows| && rows[i].key == key && rows[j].key == key && Covers(rows[i], t) ==>
      !Covers(rows[j], t)
  }

  /** A key with rows has an open one. */
  ghost predicate NoOrphan(rows: Table, key: Key) {
    forall i :: 0 <= i < |rows| && rows[i].key == key ==> FirstOpen(rows, key) < |rows|
  }

  /** Every row of the key took effect by `now`. */
  ghost predicate Past(rows: Table, key: Key, now: nat) {
    forall i :: 0 <= i < |rows| && rows[i].key == key ==> rows[i].since <= now
  }

  ghost predicate Sound(rows: Table, key: Key, now: nat) {
    OneOpen(rows, key) && Disjoint(rows, key) && NoOrphan(rows, key) && Past(rows, key, now)
  }

  ghost predicate Ordered(e: Entry, now: nat) {
    now <= e.closeAt <= e.insertAt
  }

  /** The clock before entry `i`. */
  ghost function Tick(es: seq<Entry>, now: nat, i: nat): nat
    requires i <= |es|
  {
    if i == 0 then now else es[i - 1].insertAt
  }

  /** A monotone clock from `now` on. */
  ghost predicate Timed(es: seq<Entry>, now: nat) {
    forall i :: 0 <= i < |es| ==> Tick(es, now, i) <= es[i].closeAt <= es[i].insertAt
  }

  lemma {:induction false} TimedPrefix(es: seq<Entry>, now: nat)
    requires |es| > 0 && Timed(es, now)
    ensures var n := |es| - 1;
            && Timed(es[..n], now) && Tick(es[..n], now, n) == Tick(es, now, n)
            && Ordered(es[n], Tick(es, now, n)) && now <= Tick(es, now, n)
  {
    var n := |es| - 1;
    assert forall i :: 0 <= i < n ==> es[..n][i] == es[i] && Tick(es[..n], now, i) == Tick(es, now, i);
    if n == 0 {
    } else {
      TimedPrefix(es[..n], now);
    }
  }

  lemma OpenFound(rows: Table, key: Key, i: nat)
    requires i < |rows| && IsOpen(rows[i], key)
    ensures FirstOpen(rows, key) <= i
  {
  }

  /** A seed line leaves every other key's rows as they are. */
  lemma OtherKeysKept(rows: Table, e: Entry, base: nat, key: Key)
    requires e.key != key
    ensures var next := Seeded(rows, e, base);
            && (forall i :: 0 <= i < |rows| && rows[i].key == key ==> next[i] == rows[i])
            && (forall i :: 0 <= i < |next| && next[i].key == key ==> i < |rows| && rows[i] == next[i])
            && (FirstOpen(rows, key) < |rows| ==> FirstOpen(next, key) < |next|)
  {
    var next := Seeded(rows, e, base);
    if FirstOpen(rows, key) < |rows| { OpenFound(next, key, FirstOpen(rows, key)); }
  }

  lemma RepriceKeepsSound(rows: Table, e: Entry, base: nat, now: nat)
    requires Sound(rows, e.key, now) && Ordered(e, now)
    requires FirstOpen(rows, e.key) < |rows| && rows[FirstOpen(rows, e.key)].cost != e.cost
    ensures Sound(Seeded(rows, e, base), e.key, e.insertAt)
  {
    RepriceKeepsDisjoint(rows, e, base, now);
    OpenFound(Seeded(rows, e, base), e.key, |rows|);
  }

  lemma SeedKeepsSound(rows: Table, e: Entry, base: nat, key: Key, now: nat)
    requires Sound(rows, key, now) && Ordered(e, now) && base <= now
    ensures Sound(Seeded(rows, e, base), key, e.insertAt)
  {
    var next := Seeded(rows, e, base);
    var k := FirstOpen(rows, e.key);
    if e.key != key {
      OtherKeysKept(rows, e, base, key);
    } else if k == |rows| {
      assert forall i :: 0 <= i < |rows| ==> rows[i].key != key;
      OpenFound(next, key, |rows|);
    } else if rows[k].cost != e.cost {
      RepriceKeepsSound(rows, e, base, now);
    }
  }

  /** An instant another row of the key covers lies before its open row. */
  lemma OthersBeforeOpen(rows: Table, key: Key, k: nat, i: nat, t: nat)
    requires Disjoint(rows, key) && k < |rows| && i < |rows| && i != k && IsOpen(rows[k], key)
    requires rows[i].key == key && Covers(rows[i], t)
    ensures t < rows[k].since
  {
    if i < k { assert !Covers(rows[k], t); }
  }

  lemma {:induction false} RepriceKeepsDisjoint(rows: Table, e: Entry, base: nat, now: nat)
    requires OneOpen(rows, e.key) && Disjoint(rows, e.key) && Past(rows, e.key, now) && Ordered(e, now)
    requires FirstOpen(rows, e.key) < |rows| && rows[FirstOpen(rows, e.key)].cost != e.cost
    ensures Disjoint(Seeded(rows, e, base), e.key)
  {
    var next := Seeded(rows, e, base);
    var k := FirstOpen(rows, e.key);
    forall i, j, t: nat | 0 <= i < j < |next| && next[i].key == e.key && next[j].key == e.key && Covers(next[i], t)
      ensures !Covers(next[j], t)
    {
      assert next[i] == if i == k then rows[i].(until := Some(e.closeAt)) else rows[i];
      assert Covers(rows[i], t);
      if j < |rows| {
        assert next[j] == if j == k then rows[j].(until := Some(e.closeAt)) else rows[j];
        assert !Covers(rows[j], t);
      } else {
        assert next[j].since == e.insertAt;
        if i != k { OthersBeforeOpen(rows, e.key, k, i, t); }
      }
    }
  }

  /** Over any crash-free history, every key has at most one open row and its intervals never overlap. */
  lemma {:induction false} HistoryIsSound(rows: Table, es: seq<Entry>, base: nat, key: Key, now: nat)
    requires Sound(rows, key, now) && base <= now
    requires Timed(es, now)
    ensures Sound(Replay(rows, es, base), key, Tick(es, now, |es|))
  {
    if |es| == 0 {
    } else {
      var n := |es| - 1;
      TimedPrefix(es, now);
      HistoryIsSound(rows, es[..n], base, key, now);
      SeedKeepsSound(Replay(rows, es[..n], base), es[n], base, key, Tick(es, now, n));
    }
  }

  // ---------------------------------------------------------------- the past

  /** The lookup finds a row exactly when one covers the instant, and then one of those that took effect last. */
  lemma {:induction false} InForceIs(rows: Table, key: Key, t: nat)
    ensures InForce(rows, key, t).Some? <==> exists i :: 0 <= i < |rows| && rows[i].key == key && Covers(rows[i], t)
    ensures InForce(rows, key, t).Some? ==>
              var r := InForce(rows, key, t).value;
              && r in rows && r.key == key && Covers(r, t)
              && forall i :: 0 <= i < |rows| && rows[i].key == key && Covers(rows[i], t) ==> rows[i].since <= r.since
  {
    if |rows| == 0 {
    } else {
      var n := |rows| - 1;
      InForceIs(rows[..n], key, t);
      assert forall i :: 0 <= i < n ==> rows[..n][i] == rows[i];
    }
  }

  /** Changing a row's end beyond `t`, or another key's rows, changes nothing at `t`. */
  lemma {:induction false} SameInForce(rows: Table, next: Table, key: Key, t: nat)
    requires |next| == |rows|
    requires forall i :: 0 <= i < |rows| ==>
               && (next[i].key == key <==> rows[i].key == key)
               && (rows[i].key == key ==> next[i].cost == rows[i].cost && next[i].since == rows[i].since &&
                                          (Covers(next[i], t) <==> Covers(rows[i], t)))
    ensures PriceAt(next, key, t) == PriceAt(rows, key, t)
    ensures InForce(next, key, t).Some? <==> InForce(rows, key, t).Some?
    ensures InForce(rows, key, t).Some? ==> InForce(next, key, t).value.since == InForce(rows, key, t).value.since
  {
    if |rows| == 0 {
    } else {
      var n := |rows| - 1;
      assert forall i :: 0 <= i < n ==> rows[..n][i] == rows[i] && next[..n][i] == next[i];
      SameInForce(rows[..n], next[..n], key, t);
    }
  }

  /** A row from `base` on at this cost would decide the price at `t`, and decide it otherwise. */
  predicate Overrides(rows: Table, key: Key, cost: nat, base: nat, t: nat) {
    var r := InForce(rows, key, t);
    base <= t && (r.None? || (r.value.since < base && r.value.cost != cost))
  }

  /**
   * Exactly when a seed line changes the price in force at a past instant: the
   * key has no open row, and the base date reaches back to an instant no row
   * covers, or only one that took effect earlier at another cost.
   */
  lemma {:induction false} PastChangesIff(rows: Table, e: Entry, base: nat, key: Key, t: nat, now: nat)
    requires Ordered(e, now) && t < now && Past(rows, key, now)
    ensures PriceAt(Seeded(rows, e, base), key, t) != PriceAt(rows, key, t) <==>
            e.key == key && FirstOpen(rows, key) == |rows| && Overrides(rows, key, e.cost, base, t)
  {
    var next := Seeded(rows, e, base);
    var k := FirstOpen(rows, e.key);
    if k == |rows| {
      assert next[..|rows|] == rows;
    } else if rows[k].cost != e.cost {
      var closed := Closed(rows, e);
      assert next[..|rows|] == closed;
      SameInForce(rows, closed, key, t);
    }
  }

  lemma StaysOpen(rows: Table, e: Entry, base: nat, key: Key)
    requires FirstOpen(rows, key) < |rows|
    ensures FirstOpen(Seeded(rows, e, base), key) < |Seeded(rows, e, base)|
  {
    var next := Seeded(rows, e, base);
    var k := FirstOpen(rows, key);
    if e.key != key {
      OpenFound(next, key, k);
    } else if rows[k].cost != e.cost {
      OpenFound(next, key, |rows|);
    } else {
      OpenFound(next, key, k);
    }
  }

  /** A seed line for another key leaves the row in force of this one. */
  lemma OthersInForce(rows: Table, e: Entry, base: nat, key: Key, t: nat)
    requires e.key != key
    ensures PriceAt(Seeded(rows, e, base), key, t) == PriceAt(rows, key, t)
    ensures forall cost, base' :: Overrides(Seeded(rows, e, base), key, cost, base', t) <==> Overrides(rows, key, cost, base', t)
  {
    var next := Seeded(rows, e, base);
    SameInForce(rows, next[..|rows|], key, t);
    if |next| > |rows| { assert next == next[..|rows|] + [next[|rows|]]; }
  }

  /** The first line of the seed for the key; their number when there is none. */
  function FirstFor(es: seq<Entry>, key: Key): (i: nat)
    ensures i <= |es| && (i < |es| ==> es[i].key == key)
    ensures forall j :: 0 <= j < i ==> es[j].key != key
  {
    if |es| == 0 then 0
    else
      var i := FirstFor(es[..|es| - 1], key);
      if i < |es| - 1 || es[|es| - 1].key == key then i else |es|
  }

  lemma SeedKeepsPast(rows: Table, e: Entry, base: nat, key: Key, now: nat)
    requires Past(rows, key, now) && Ordered(e, now) && base <= now
    ensures Past(Seeded(rows, e, base), key, e.insertAt)
  {
    var next := Seeded(rows, e, base);
    assert forall i :: 0 <= i < |rows| ==> next[i].key == rows[i].key && next[i].since == rows[i].since;
  }

  /** After the first line for a key it has an open row; before it, its rows in force are the old ones. */
  ghost predicate Replayed(rows: Table, es: seq<Entry>, base: nat, key: Key, t: nat, now: nat) {
    var after, i := Replay(rows, es, base), FirstFor(es, key);
    && Past(after, key, Tick(es, now, |es|))
    && (FirstOpen(after, key) < |after| <==> FirstOpen(rows, key) < |rows| || i < |es|)
    && (i == |es| ==> forall cost, base' :: Overrides(after, key, cost, base', t) <==> Overrides(rows, key, cost, base', t))
  }

  lemma {:induction false} ReplayedMore(rows: Table, es: seq<Entry>, base: nat, key: Key, t: nat, now: nat)
    requires |es| > 0 && Timed(es, now) && base <= now && Replayed(rows, es[..|es| - 1], base, key, t, now)
    ensures Replayed(rows, es, base, key, t, now)
  {
    var n := |es| - 1;
    TimedPrefix(es, now);
    var mid := Replay(rows, es[..n], base);
    SeedKeepsPast(mid, es[n], base, key, Tick(es, now, n));
    if es[n].key != key {
      OthersInForce(mid, es[n], base, key, t);
      OthersOpen(mid, es[n], base, key);
    } else if FirstOpen(mid, key) < |mid| {
      StaysOpen(mid, es[n], base, key);
    } else {
      OpenFound(Seeded(mid, es[n], base), key, |mid|);
    }
  }

  lemma OthersOpen(rows: Table, e: Entry, base: nat, key: Key)
    requires e.key != key
    ensures FirstOpen(Seeded(rows, e, base), key) < |Seeded(rows, e, base)| <==> FirstOpen(rows, key) < |rows|
  {
    OtherKeysKept(rows, e, base, key);
    var next := Seeded(rows, e, base);
    if FirstOpen(next, key) < |next| { OpenFound(rows, key, FirstOpen(next, key)); }
  }

  /**
   * Exactly when a crash-free history changes a price in force before it began:
   * its first line for the key does, finding no open row. No later line can.
   */
  lemma {:induction false} HistoryChangesPastIff(rows: Table, es: seq<Entry>, base: nat, key: Key, t: nat, now: nat)
    requires Past(rows, key, now) && base <= now && t < now && Timed(es, now)
    ensures Replayed(rows, es, base, key, t, now)
    ensures PriceAt(Replay(rows, es, base), key, t) != PriceAt(rows, key, t) <==>
              var i := FirstFor(es, key);
              FirstOpen(rows, key) == |rows| && i < |es| && Overrides(rows, key, es[i].cost, base, t)
  {
    if |es| == 0 {
    } else {
      var n := |es| - 1;
      TimedPrefix(es, now);
      HistoryChangesPastIff(rows, es[..n], base, key, t, now);
      ReplayedMore(rows, es, base, key, t, now);
      PastChangesIff(Replay(rows, es[..n], base), es[n], base, key, t, Tick(es, now, n));
    }
  }

  /** For a key with an open row, no crash-free history changes a price in force before it began. */
  lemma {:induction false} PastIsKept(rows: Table, es: seq<Entry>, base: nat, key: Key, t: nat, now: nat)
    requires Past(rows, key, now) && base <= now && t < now
    requires FirstOpen(rows, key) < |rows|
    requires Timed(es, now)
    ensures PriceAt(Replay(rows, es, base), key, t) == PriceAt(rows, key, t)
    ensures FirstOpen(Replay(rows, es, base), key) < |Replay(rows, es, base)|
  {
    HistoryChangesPastIff(rows, es, base, key, t, now);
  }

  // ---------------------------------------------------------------- the future

  /** Where intervals are apart, the covering row is the one in force. */
  lemma PriceIs(rows: Table, key: Key, t: nat, i: nat)
    requires Disjoint(rows, key) && i < |rows| && rows[i].key == key && Covers(rows[i], t)
    ensures PriceAt(rows, key, t) == Some(rows[i].cost)
  {
    InForceIs(rows, key, t);
    var r := InForce(rows, key, t).value;
    var j :| 0 <= j < |rows| && rows[j] == r;
    assert i == j;
  }

  lemma NoPrice(rows: Table, key: Key, t: nat)
    requires forall i :: 0 <= i < |rows| && rows[i].key == key ==> !Covers(rows[i], t)
    ensures PriceAt(rows, key, t) == None
  {
    InForceIs(rows, key, t);
  }

  /** The key's row without an end. */
  ghost predicate OpenAt(rows: Table, key: Key, k: nat) {
    k < |rows| && rows[k].key == key && rows[k].until == None
  }

  lemma OpenAtIs(rows: Table, key: Key, k: nat, now: nat)
    requires Sound(rows, key, now) && OpenAt(rows, key, k)
    ensures FirstOpen(rows, key) == k && IsOpen(rows[k], key)
  {
    OpenFound(rows, key, k);
    assert OneOpen(rows, key) && IsOpen(rows[FirstOpen(rows, key)], key) && IsOpen(rows[k], key);
  }

  /** A line at the cost of the open row changes no price, and that row's price holds from now on. */
  lemma PriceKept(rows: Table, e: Entry, base: nat, now: nat, k: nat, t: nat)
    requires Sound(rows, e.key, now) && OpenAt(rows, e.key, k) && rows[k].cost == e.cost
    ensures Seeded(rows, e, base) == rows
    ensures t >= now ==> PriceAt(rows, e.key, t) == Some(e.cost)
  {
    OpenAtIs(rows, e.key, k, now);
    if t >= now { PriceIs(rows, e.key, t, k); }
  }

  /**
   * A reprice at every instant: the old prices up to the close, none between close
   * and insert, and the new cost from the insert on.
   */
  lemma PriceMoved(rows: Table, e: Entry, base: nat, now: nat, k: nat, t: nat)
    requires Sound(rows, e.key, now) && Ordered(e, now) && base <= now
    requires OpenAt(rows, e.key, k) && rows[k].cost != e.cost
    ensures PriceAt(Seeded(rows, e, base), e.key, t) ==
            if t < e.closeAt then PriceAt(rows, e.key, t) else if t < e.insertAt then None else Some(e.cost)
  {
    var next := Seeded(rows, e, base);
    OpenAtIs(rows, e.key, k, now);
    var closed := Closed(rows, e);
    assert next == closed + [Row(e.key, e.cost, e.insertAt, None)] && next[..|rows|] == closed;
    if t < e.closeAt {
      SameInForce(rows, closed, e.key, t);
    } else if t < e.insertAt {
      forall i | 0 <= i < |next| && next[i].key == e.key ensures !Covers(next[i], t) {
        if i < |rows| && i != k && Covers(rows[i], t) { OthersBeforeOpen(rows, e.key, k, i, t); }
      }
      NoPrice(next, e.key, t);
    } else {
      SeedKeepsSound(rows, e, base, e.key, now);
      PriceIs(next, e.key, t, |rows|);
    }
  }

  /** The first line for a key without an open row: its cost from the base date on, and nothing before. */
  lemma PriceStarted(rows: Table, e: Entry, base: nat, now: nat, t: nat)
    requires Sound(rows, e.key, now) && Ordered(e, now) && base <= now && forall k :: !OpenAt(rows, e.key, k)
    ensures PriceAt(Seeded(rows, e, base), e.key, t) == if t < base then None else Some(e.cost)
  {
    var next, k := Seeded(rows, e, base), FirstOpen(rows, e.key);
    if k < |rows| { assert OpenAt(rows, e.key, k); }
    assert next == rows + [Row(e.key, e.cost, base, None)];
    assert forall i :: 0 <= i < |rows| ==> rows[i].key != e.key;
    if t < base {
      NoPrice(next, e.key, t);
    } else {
      SeedKeepsSound(rows, e, base, e.key, now);
      PriceIs(next, e.key, t, |rows|);
    }
  }

  /** From the insert on a line's cost is the price, whatever was in the table; other keys keep theirs at every instant. */
  lemma PriceAfterSeed(rows: Table, e: Entry, base: nat, now: nat, key: Key, t: nat)
    requires Sound(rows, e.key, now) && Ordered(e, now) && base <= now
    ensures t >= e.insertAt ==> PriceAt(Seeded(rows, e, base), e.key, t) == Some(e.cost)
    ensures key != e.key ==> PriceAt(Seeded(rows, e, base), key, t) == PriceAt(rows, key, t)
  {
    if key != e.key { OthersInForce(rows, e, base, key, t); }
    if k: nat :| OpenAt(rows, e.key, k) {
      if rows[k].cost == e.cost {
        PriceKept(rows, e, base, now, k, t);
      } else {
        PriceMoved(rows, e, base, now, k, t);
      }
    } else {
      PriceStarted(rows, e, base, now, t);
    }
  }

  /** Line `i` is the last one for the key. */
  ghost predicate LastFor(es: seq<Entry>, key: Key, i: nat) {
    i < |es| && es[i].key == key && forall j :: i < j < |es| ==> es[j].key != key
  }

  ghost predicate NoLine(es: seq<Entry>, key: Key) {
    forall i :: 0 <= i < |es| ==> es[i].key != key
  }

  lemma LastInInit(es: seq<Entry>, key: Key)
    requires |es| > 0 && es[|es| - 1].key != key
    ensures forall i: nat :: LastFor(es, key, i) ==> LastFor(es[..|es| - 1], key, i) && es[..|es| - 1][i] == es[i]
    ensures NoLine(es, key) ==> NoLine(es[..|es| - 1], key)
  {
  }

  /** Once a crash-free history is over, the price of a key is that of its last line, and without one what it was. */
  lemma {:induction false} PriceAfterHistory(rows: Table, es: seq<Entry>, base: nat, now: nat, key: Key, t: nat)
    requires Sound(rows, key, now) && base <= now && Timed(es, now) && t >= Tick(es, now, |es|)
    ensures forall i: nat :: LastFor(es, key, i) ==> PriceAt(Replay(rows, es, base), key, t) == Some(es[i].cost)
    ensures NoLine(es, key) ==> PriceAt(Replay(rows, es, base), key, t) == PriceAt(rows, key, t)
  {
    if |es| > 0 {
      var n := |es| - 1;
      var mid := Replay(rows, es[..n], base);
      TimedPrefix(es, now);
      assert t >= Tick(es[..n], now, n);
      if es[n].key == key {
        HistoryIsSound(rows, es[..n], base, key, now);
        PriceAfterSeed(mid, es[n], base, Tick(es, now, n), key, t);
        assert forall i: nat :: LastFor(es, key, i) ==> i == n;
      } else {
        PriceAfterHistory(rows, es[..n], base, now, key, t);
        OthersInForce(mid, es[n], base, key, t);
        LastInInit(es, key);
      }
    }
  }

  // ------------------------------------------------------------------ crashes

  /**
   * Exactly when seeding a key keeps its intervals apart: it has an open row, or
   * nothing of its history reaches past the base date.
   */
  lemma {:induction false} SeedKeepsDisjointIff(rows: Table, e: Entry, base: nat, now: nat)
    requires OneOpen(rows, e.key) && Disjoint(rows, e.key) && Past(rows, e.key, now) && Ordered(e, now)
    ensures Disjoint(Seeded(rows, e, base), e.key) <==>
              || FirstOpen(rows, e.key) < |rows|
              || forall i, t: nat :: 0 <= i < |rows| && rows[i].key == e.key && base <= t ==> !Covers(rows[i], t)
  {
    var next := Seeded(rows, e, base);
    var k := FirstOpen(rows, e.key);
    if k < |rows| {
      if rows[k].cost != e.cost { RepriceKeepsDisjoint(rows, e, base, now); }
    } else {
      assert next[..|rows|] == rows && next[|rows|] == Row(e.key, e.cost, base, None);
      forall i, t: nat | Disjoint(next, e.key) && 0 <= i < |rows| && rows[i].key == e.key && base <= t
        ensures !Covers(rows[i], t)
      {
        assert next[i] == rows[i] && Covers(next[|rows|], t);
      }
      if forall i, t: nat :: 0 <= i < |rows| && rows[i].key == e.key && base <= t ==> !Covers(rows[i], t) {
        forall i, j, t: nat | 0 <= i < j < |next| && next[i].key == e.key && next[j].key == e.key && Covers(next[i], t)
          ensures !Covers(next[j], t)
        {
          assert next[i] == rows[i];
        }
      }
    }
  }

  /**
   * A crash between close and insert: the next run starts the key again at the
   * base date. Exactly when that overlaps: a row of the key, the one just closed
   * up to its close, reaches past the base date.
   */
  lemma {:induction false} CrashOverlapsIff(rows: Table, e: Entry, e': Entry, base: nat, now: nat)
    requires Sound(rows, e.key, now) && Ordered(e, now) && Ordered(e', e.closeAt) && e'.key == e.key
    requires var k := FirstOpen(rows, e.key); k < |rows| && rows[k].cost != e.cost
    ensures FirstOpen(Closed(rows, e), e.key) == |rows|
    ensures var k := FirstOpen(rows, e.key);
            !Disjoint(Seeded(Closed(rows, e), e', base), e.key) <==>
              exists i, t: nat :: 0 <= i < |rows| && rows[i].key == e.key && base <= t && Covers(rows[i], t) && (i == k ==> t < e.closeAt)
  {
    var k := FirstOpen(rows, e.key);
    var closed := Closed(rows, e);
    forall i | 0 <= i < |rows| ensures !IsOpen(closed[i], e.key) {
      if i < k { assert !IsOpen(rows[i], e.key); } else if i > k { assert IsOpen(rows[k], e.key); }
    }
    SeedKeepsDisjointIff(closed, e', base, e.closeAt) by {
      ClosedIsApart(rows, e, now);
    }
    assert forall i, t: nat :: 0 <= i < |rows| && rows[i].key == e.key ==>
      closed[i].key == e.key && (Covers(closed[i], t) <==> Covers(rows[i], t) && (i == k ==> t < e.closeAt));
  }

  /** In particular when the closed row and the base date both lie before the close. */
  lemma {:induction false} CrashOverlaps(rows: Table, e: Entry, e': Entry, base: nat, now: nat)
    requires Sound(rows, e.key, now) && Ordered(e, now) && Ordered(e', e.closeAt) && e'.key == e.key
    requires var k := FirstOpen(rows, e.key); k < |rows| && rows[k].cost != e.cost && rows[k].since < e.closeAt && base < e.closeAt
    ensures !Disjoint(Seeded(Closed(rows, e), e', base), e.key)
  {
    CrashOverlapsIff(rows, e, e', base, now);
    assert Covers(rows[FirstOpen(rows, e.key)], e.closeAt - 1);
  }

  lemma ClosedIsApart(rows: Table, e: Entry, now: nat)
    requires Sound(rows, e.key, now) && Ordered(e, now)
    ensures OneOpen(Closed(rows, e), e.key) && Disjoint(Closed(rows, e), e.key) && Past(Closed(rows, e), e.key, e.closeAt)
  {
    var closed := Closed(rows, e);
    assert forall i :: 0 <= i < |rows| ==>
      closed[i].key == rows[i].key && closed[i].since == rows[i].since && (IsOpen(closed[i], e.key) ==> IsOpen(rows[i], e.key));
    assert forall i, t: nat :: 0 <= i < |rows| && rows[i].key == e.key && Covers(closed[i], t) ==> Covers(rows[i], t);
  }

  /** The seed as a unit of the ledgered runner, halting between the close and the insert. */
  function SeedUnit(e: Entry, base: nat): Migration<Table> {
    Migration("0030_erp_seed_msg91_costs", Convergent, Some("v1"),
              (rows: Table) => Seeded(rows, e, base), (rows: Table, k: nat) => Closed(rows, e))
  }

  /** A rerun does not absorb that crash: the unit misses the hypothesis of the exactly-once refinement. */
  lemma {:induction false} SeedUnitIsNotRetryable(e: Entry, base: nat, now: nat)
    requires Ordered(e, now) && base < now
    ensures !Retryable(SeedUnit(e, base))
  {
    var rows := [Row(e.key, e.cost + 1, base, None)];
    var u := SeedUnit(e, base);
    var closed := Closed(rows, e);
    assert closed == [rows[0].(until := Some(e.closeAt))];
    assert FirstOpen(closed, e.key) == 1;
    assert u.run(rows) == closed + [Row(e.key, e.cost, e.insertAt, None)];
    assert u.run(u.halt(rows, 0)) == closed + [Row(e.key, e.cost, base, None)];
    assert u.run(rows)[1] != u.run(u.halt(rows, 0))[1];
  }
}
