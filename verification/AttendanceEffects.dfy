/**
 * What a completed backfill writes: which rows get an event, every field of the
 * event and of the projected row, and the counts.
 */
module AttendanceEffects {
  import opened Prelude
  import opened AttendanceBackfill

  /** The row has a status and no event was made from it. */
  ghost predicate Needs(events: seq<Event>, r: Row) {
    r.status != "" && forall i :: 0 <= i < |events| ==> events[i].origin != Some(r.id)
  }

  /** The event of a row: checked in at, else dated; by whom it was marked, if that is a valid reference. */
  ghost predicate EventFor(e: Event, r: Row, now: nat) {
    && e.origin == Some(r.id) && e.member == r.member && e.status == r.status && e.note == r.note && e.at == now
    && e.timestamp == (if r.checkIn == None then r.date else r.checkIn.value)
    && e.source == (if r.autoMarked then "auto_cron" else "manual")
    && e.verify == (if r.autoMarked then "auto" else "manual")
    && e.markedBy == (match r.markedBy case NoOne => None case Valid(id) => Some(id) case Invalid => None)
  }

  /** The row with its projection: everything it held, its source, this run's clock, and a version of at least one. */
  ghost predicate ProjectedRow(r: Row, q: Row, now: nat) {
    q == Row(r.id, r.member, r.status, r.checkIn, r.date, r.autoMarked, r.markedBy, r.note,
             Some(if r.autoMarked then "auto_cron" else "manual"), Some(now),
             if r.version == None || r.version.value < 1 then Some(1) else r.version)
  }

  lemma NeedsIs(events: seq<Event>, r: Row)
    ensures IsPlanned(events, r) <==> Needs(events, r)
  {
  }

  lemma EventIs(r: Row, now: nat)
    ensures EventFor(EventOf(r, now), r, now) && ProjectedRow(r, Projected(r, SourceOf(r), now), now)
  {
  }

  /** `ks` are the places, in order, of the first `n` rows that need an event. */
  ghost predicate Places(rows: seq<Row>, events: seq<Event>, n: nat, plan: seq<Row>, ks: seq<nat>)
    requires n <= |rows|
  {
    && |ks| == |plan|
    && (forall k :: 0 <= k < |ks| ==> ks[k] < n && plan[k] == rows[ks[k]])
    && (forall k, l :: 0 <= k < l < |ks| ==> ks[k] < ks[l])
    && (forall i: nat :: i < n ==> (i in ks <==> Needs(events, rows[i])))
  }

  lemma PlaceOn(rows: seq<Row>, events: seq<Event>, n: nat, plan: seq<Row>, ks: seq<nat>)
    requires n < |rows| && Places(rows, events, n, plan, ks)
    ensures if Needs(events, rows[n]) then Places(rows, events, n + 1, plan + [rows[n]], ks + [n])
            else Places(rows, events, n + 1, plan, ks)
  {
    var more := ks + [n];
    assert more[|ks|] == n && n !in ks;
    assert forall i: nat :: i < n ==> (i in more <==> i in ks);
  }

  lemma {:induction false} PlanPlaces(rows: seq<Row>, events: seq<Event>, n: nat) returns (ks: seq<nat>)
    requires n <= |rows|
    ensures Places(rows, events, n, Planned(rows[..n], events), ks)
  {
    ks := [];
    if n > 0 {
      ks := PlanPlaces(rows, events, n - 1);
      PlannedNext(rows, events, n - 1);
      NeedsIs(events, rows[n - 1]);
      PlaceOn(rows, events, n - 1, Planned(rows[..n - 1], events), ks);
      if Needs(events, rows[n - 1]) { ks := ks + [n - 1]; }
    }
  }

  function NoStatusAt(rows: seq<Row>, n: nat): set<nat>
    requires n <= |rows|
  {
    set i: nat | i < n && rows[i].status == ""
  }

  lemma {:induction false} NoStatusCount(rows: seq<Row>, n: nat)
    requires n <= |rows|
    ensures CountNoStatus(rows[..n]) == |NoStatusAt(rows, n)|
  {
    if n > 0 {
      NoStatusCount(rows, n - 1);
      CountNext(rows, n - 1);
      assert NoStatusAt(rows, n) == NoStatusAt(rows, n - 1) + (if rows[n - 1].status == "" then {(n - 1) as nat} else {});
    }
  }

  /** The events of a completed run stand behind those found, one for each row that needs one, in row order. */
  ghost predicate EventsAdded(rows: seq<Row>, events: seq<Event>, after: seq<Event>, ks: seq<nat>, now: nat) {
    && |after| == |events| + |ks| && after[..|events|] == events
    && forall k :: 0 <= k < |ks| ==> ks[k] < |rows| && EventFor(after[|events| + k], rows[ks[k]], now)
  }

  ghost predicate RowsProjected(rows: seq<Row>, events: seq<Event>, after: seq<Row>, now: nat) {
    |after| == |rows| && forall i :: 0 <= i < |rows| ==>
      if Needs(events, rows[i]) then ProjectedRow(rows[i], after[i], now) else after[i] == rows[i]
  }

  lemma PlanEvents(rows: seq<Row>, events: seq<Event>, now: nat, ks: seq<nat>)
    requires Places(rows, events, |rows|, Planned(rows, events), ks)
    ensures EventsAdded(rows, events, events + EventsOf(Planned(rows, events), now), ks, now)
  {
    forall k | 0 <= k < |ks| ensures EventFor(EventsOf(Planned(rows, events), now)[k], rows[ks[k]], now) {
      EventIs(rows[ks[k]], now);
    }
  }

  lemma PlanRows(rows: seq<Row>, events: seq<Event>, now: nat)
    requires UniqueRows(rows)
    ensures RowsProjected(rows, events, ApplyOps(rows, OpsOf(Planned(rows, events), now)), now)
  {
    forall i | 0 <= i < |rows|
      ensures var after := ApplyOps(rows, OpsOf(Planned(rows, events), now))[i];
              if Needs(events, rows[i]) then ProjectedRow(rows[i], after, now) else after == rows[i]
    {
      RowAfter(rows, events, now, i);
      NeedsIs(events, rows[i]);
      EventIs(rows[i], now);
    }
  }

  /** A completed live run, field by field, with its counts, for every batch size. */
  method CompletedRun(rows: seq<Row>, events: seq<Event>, batchSize: nat, now: nat)
      returns (after: seq<Row>, all: seq<Event>, counts: Counts, written: nat, projected: nat, ghost ks: seq<nat>)
    requires batchSize > 0 && UniqueRows(rows)
    ensures (forall k, l :: 0 <= k < l < |ks| ==> ks[k] < ks[l]) && forall i: nat :: i < |rows| ==> (i in ks <==> Needs(events, rows[i]))
    ensures EventsAdded(rows, events, all, ks, now) && RowsProjected(rows, events, after, now)
    ensures counts.planned == written == projected == |ks| && counts.noStatus == |NoStatusAt(rows, |rows|)|
    ensures counts.planned + counts.hadEvent + counts.noStatus == |rows|
  {
    var b := new Backfill(rows, events, now);
    var ok;
    ghost var sent, rest;
    ok, counts, sent, rest := b.Run(batchSize, false, Never);
    after, all, written, projected := b.rows, b.events, b.written, b.projectionUpdated;
    assert rows[..|rows|] == rows;
    ks := PlanPlaces(rows, events, |rows|);
    PlanEvents(rows, events, now, ks);
    PlanRows(rows, events, now);
    NoStatusCount(rows, |rows|);
  }
}
