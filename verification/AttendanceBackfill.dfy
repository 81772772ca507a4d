/**
 * Backfilling one event per attendance row in batches: insert a batch of
 * events, then update the projection of its rows, with a process that may die
 * in any flush.
 */
module AttendanceBackfill {
  import opened Prelude

  datatype Marker = NoOne | Valid(id: nat) | Invalid

  datatype Row = Row(id: nat, member: nat, status: string, checkIn: Option<nat>, date: nat, autoMarked: bool, markedBy: Marker,
                     note: Option<string>, dominantSource: Option<string>, computedAt: Option<nat>, version: Option<int>)

  /** `origin` is the attendance row a migration event was made from. */
  datatype Event = Event(origin: Option<nat>, member: nat, timestamp: nat, status: string, source: string, verify: string,
                         markedBy: Option<nat>, note: Option<string>, at: nat)

  datatype Projection = Projection(id: nat, source: string, at: nat)

  predicate HasEvent(events: seq<Event>, id: nat) {
    exists i :: 0 <= i < |events| && events[i].origin == Some(id)
  }

  function SourceOf(r: Row): string {
    if r.autoMarked then "auto_cron" else "manual"
  }

  function EventOf(r: Row, now: nat): Event {
    Event(Some(r.id), r.member, r.checkIn.GetOr(r.date), r.status, SourceOf(r), if r.autoMarked then "auto" else "manual",
          if r.markedBy.Valid? then Some(r.markedBy.id) else None, r.note, now)
  }

  predicate IsPlanned(events: seq<Event>, r: Row) {
    r.status != "" && !HasEvent(events, r.id)
  }

  /** The rows a run will make events for. */
  function Planned(rows: seq<Row>, events: seq<Event>): seq<Row> {
    if |rows| == 0 then []
    else Planned(rows[..|rows| - 1], events) + (if IsPlanned(events, rows[|rows| - 1]) then [rows[|rows| - 1]] else [])
  }

  function CountNoStatus(rows: seq<Row>): nat {
    if |rows| == 0 then 0 else CountNoStatus(rows[..|rows| - 1]) + (if rows[|rows| - 1].status == "" then 1 else 0)
  }

  function EventsOf(rows: seq<Row>, now: nat): seq<Event> {
    seq(|rows|, i requires 0 <= i < |rows| => EventOf(rows[i], now))
  }

  function OpsOf(rows: seq<Row>, now: nat): seq<Projection> {
    seq(|rows|, i requires 0 <= i < |rows| => Projection(rows[i].id, SourceOf(rows[i]), now))
  }

  /** `$max`: a version only moves forward. */
  function Forward(version: Option<int>): Option<int> {
    Some(if version.Some? && version.value > 1 then version.value else 1)
  }

  function Projected(r: Row, source: string, at: nat): Row {
    r.(dominantSource := Some(source), computedAt := Some(at), version := Forward(r.version))
  }

  function ApplyOp(rows: seq<Row>, op: Projection): seq<Row> {
    seq(|rows|, i requires 0 <= i < |rows| => if rows[i].id == op.id then Projected(rows[i], op.source, op.at) else rows[i])
  }

  function ApplyOps(rows: seq<Row>, ops: seq<Projection>): (r: seq<Row>)
    ensures |r| == |rows| && forall i :: 0 <= i < |rows| ==> r[i].id == rows[i].id && r[i].status == rows[i].status
  {
    if |ops| == 0 then rows else ApplyOp(ApplyOps(rows, ops[..|ops| - 1]), ops[|ops| - 1])
  }

  /** Where the process dies: in which flush, which of its events made it, and how many projections after them. */
  datatype Death = Never | InFlush(flush: nat, inserted: set<nat>, projections: nat)

  ghost predicate UniqueRows(rows: seq<Row>) {
    forall i, j :: 0 <= i < j < |rows| ==> rows[i].id != rows[j].id
  }

  /** The rows whose id is in the set. */
  function WithIds(rows: seq<Row>, ids: set<nat>): seq<Row> {
    if |rows| == 0 then []
    else WithIds(rows[..|rows| - 1], ids) + (if rows[|rows| - 1].id in ids then [rows[|rows| - 1]] else [])
  }

  function Min(a: nat, b: nat): nat {
    if a < b then a else b
  }

  /** The rows of a dying flush that got their projection: none unless all events made it. */
  function DoneOf(batch: seq<Row>, ids: set<nat>, projections: nat): seq<Row> {
    if WithIds(batch, ids) == batch then batch[..Min(projections, |batch|)] else []
  }

  /** `q * b`, by addition. */
  function Times(q: nat, b: nat): nat {
    if q == 0 then 0 else Times(q - 1, b) + b
  }

  /** A run flushes each full batch of its plan and, at the end, what is left: flush `f` comes when the plan holds `f - 1` batches. */
  predicate Dies(plan: seq<Row>, batchSize: nat, death: Death) {
    death.InFlush? && death.flush > 0 && Times(death.flush - 1, batchSize) <= |plan|
  }

  /** The flush the process dies in splits the plan: `sent` is in the store, `rest` is the batch, full or the last. */
  predicate DiesIn(plan: seq<Row>, batchSize: nat, death: Death, sent: seq<Row>, rest: seq<Row>) {
    && death.InFlush? && death.flush > 0 && |sent| == Times(death.flush - 1, batchSize)
    && sent + rest <= plan && |rest| <= batchSize && (|rest| == batchSize || sent + rest == plan)
  }

  lemma {:induction false} TimesMonotone(p: nat, q: nat, b: nat)
    requires p <= q
    ensures Times(p, b) <= Times(q, b)
  {
    if p == q {
    } else {
      TimesMonotone(p, q - 1, b);
    }
  }

  lemma {:induction false} TimesIs(q: nat, b: nat)
    ensures Times(q, b) == q * b
  {
    if q == 0 {
    } else {
      TimesIs(q - 1, b);
      assert q * b == (q - 1) * b + b;
    }
  }

  /** What becomes of a row of the cursor. */
  datatype Fate = NoStatus | HadEvent | Taken

  function FateOf(r: Row, events: seq<Event>): Fate {
    if r.status == "" then NoStatus else if HasEvent(events, r.id) then HadEvent else Taken
  }

  datatype Counts = Counts(planned: nat, hadEvent: nat, noStatus: nat) {
    function Plus(fate: Fate): Counts {
      match fate
      case NoStatus => this.(noStatus := noStatus + 1)
      case HadEvent => this.(hadEvent := hadEvent + 1)
      case Taken => this.(planned := planned + 1)
    }
  }

  /** The counters after `rows`, whose planned ones are `todo`. */
  predicate Counted(rows: seq<Row>, todo: seq<Row>, c: Counts) {
    c.planned == |todo| && c.noStatus == CountNoStatus(rows) && c.planned + c.hadEvent + c.noStatus == |rows|
  }

  lemma CountedNext(rows: seq<Row>, events: seq<Event>, i: nat, c: Counts)
    requires i < |rows| && Counted(rows[..i], Planned(rows[..i], events), c)
    ensures Counted(rows[..i + 1], Planned(rows[..i + 1], events), c.Plus(FateOf(rows[i], events)))
  {
    PlannedNext(rows, events, i);
    CountNext(rows, i);
  }

  /**
   * The store and the batch. A batch holds its planned rows: the event and the
   * projection of a row are functions of it and of the run's clock reading.
   */
  class Backfill {
    var rows: seq<Row>
    var events: seq<Event>
    var batch: seq<Row>
    var written: nat
    var projectionUpdated: nat
    var flushes: nat
    const now: nat
    ghost const rows0: seq<Row>
    ghost const events0: seq<Event>
    /** The rows whose event this run has inserted, and those it has projected. */
    ghost var kept: seq<Row>
    ghost var done: seq<Row>

    constructor (rows: seq<Row>, events: seq<Event>, now: nat)
      ensures Valid() && this.rows == rows0 == rows && this.events == events0 == events && this.now == now
      ensures batch == kept == done == [] && written == projectionUpdated == flushes == 0
    {
      this.rows, this.events, this.batch, this.now := rows, events, [], now;
      this.rows0, this.events0, this.kept, this.done := rows, events, [], [];
      written, projectionUpdated, flushes := 0, 0, 0;
      new;
      assert events + EventsOf([], now) == events;
    }

    /** The store is the one the run began with, plus what it has inserted and projected. */
    ghost predicate Valid()
      reads this
    {
      events == events0 + EventsOf(kept, now) && rows == ApplyOps(rows0, OpsOf(done, now))
    }

    method InsertMany(ids: Option<set<nat>>) returns (all: bool)
      requires Valid()
      modifies this`events, this`kept
      ensures Valid() && kept == old(kept) + (if ids.Some? then WithIds(batch, ids.value) else batch)
      ensures all <==> ids.None? || WithIds(batch, ids.value) == batch
    {
      var inserted := if ids.Some? then WithIds(batch, ids.value) else batch;
      EventsConcat(kept, inserted, now);
      Regroup(events0, EventsOf(kept, now), EventsOf(inserted, now));
      events, kept := events + EventsOf(inserted, now), kept + inserted;
      all := inserted == batch;
    }

    method BulkWrite(n: nat)
      requires Valid() && n <= |batch|
      modifies this`rows, this`done
      ensures Valid() && done == old(done) + batch[..n]
    {
      ghost var done0 := done;
      for k := 0 to n
        invariant Valid() && done == done0 + batch[..k]
      {
        var row := batch[k];
        OneMoreOp(rows0, done, row, now);
        rows, done := ApplyOp(rows, Projection(row.id, SourceOf(row), now)), done + [row];
        assert batch[..k + 1] == batch[..k] + [row];
      }
    }

    method FlushBatch(dryRun: bool, death: Death) returns (ok: bool)
      requires Valid()
      modifies this
      ensures Valid() && flushes == old(flushes) + 1
      ensures ok <==> dryRun || death.Never? || death.flush != flushes
      ensures ok ==> batch == []
      ensures dryRun ==> kept == old(kept) && done == old(done) && written == old(written) &&
                         projectionUpdated == old(projectionUpdated)
      ensures ok && !dryRun ==>
                && kept == old(kept) + old(batch) && done == old(done) + old(batch)
                && written == old(written) + |old(batch)| && projectionUpdated == old(projectionUpdated) + |old(batch)|
      ensures !ok ==>
                && kept == old(kept) + WithIds(old(batch), death.inserted)
                && done == old(done) + DoneOf(old(batch), death.inserted, death.projections)
    {
      flushes := flushes + 1;
      if dryRun {
        batch := [];
        return true;
      }
      if death.InFlush? && death.flush == flushes {
        var all := InsertMany(Some(death.inserted));
        assert DoneOf(batch, death.inserted, death.projections) == batch[..if all then Min(death.projections, |batch|) else 0];
        BulkWrite(if all then Min(death.projections, |batch|) else 0);
        return false;
      }
      var all := InsertMany(None);
      written := written + |batch|;
      BulkWrite(|batch|);
      assert batch[..|batch|] == batch;
      projectionUpdated := projectionUpdated + |batch|;
      batch := [];
      ok := true;
    }

    /** Between two rows: what is planned is in the store or in the batch, which is not full, and nothing has died. */
    ghost predicate Between(todo: seq<Row>, sent: seq<Row>, batchSize: nat, dryRun: bool, death: Death)
      reads this
    {
      && sent + batch == todo && |batch| < batchSize && |sent| == Times(flushes, batchSize)
      && (if dryRun then kept == done == [] && written == projectionUpdated == 0
          else kept == done == sent && written == projectionUpdated == |sent|)
      && (dryRun || death.Never? || death.flush == 0 || death.flush > flushes)
    }

    /** The process died in the flush of `rest`, everything of `sent` being in the store. */
    ghost predicate Stopped(sent: seq<Row>, rest: seq<Row>, batchSize: nat, death: Death)
      reads this
    {
      && death.InFlush? && death.flush == flushes > 0 && |sent| == Times(flushes - 1, batchSize)
      && kept == sent + WithIds(rest, death.inserted)
      && done == sent + DoneOf(rest, death.inserted, death.projections)
    }

    /** A row that gets an event: into the batch, and the batch out when it is full. */
    method TakeAndFlush(row: Row, batchSize: nat, dryRun: bool, death: Death, ghost todo: seq<Row>, ghost sent: seq<Row>)
        returns (ok: bool, ghost sent': seq<Row>, ghost rest: seq<Row>)
      requires Valid() && Between(todo, sent, batchSize, dryRun, death)
      modifies this
      ensures Valid()
      ensures ok ==> Between(todo + [row], sent', batchSize, dryRun, death)
      ensures !ok ==> !dryRun && Stopped(sent', rest, batchSize, death) && sent' + rest == todo + [row] && |rest| == batchSize
    {
      Regroup(sent, batch, [row]);
      batch := batch + [row];
      ok, sent', rest := true, sent, batch;
      if |batch| >= batchSize {
        ok := FlushBatch(dryRun, death);
        if ok { sent' := sent + rest; }
      }
    }

    /** The idempotency check asks the store as it is by now, batches of this run included. */
    method AlreadyHasEvent(i: nat, ghost sent: seq<Row>, batchSize: nat, dryRun: bool, death: Death) returns (has: bool)
      requires Valid() && UniqueRows(rows0) && i < |rows0| && Between(Planned(rows0[..i], events0), sent, batchSize, dryRun, death)
      requires rows[i].id == rows0[i].id
      ensures has <==> HasEvent(events0, rows0[i].id)
    {
      assert kept <= Planned(rows0[..i], events0);
      SameAnswer(rows0, i, events0, kept, now);
      has := HasEvent(events, rows[i].id);
    }

    /** One row of the cursor, and the counter it goes to. */
    method Visit(i: nat, batchSize: nat, dryRun: bool, death: Death, found: Row, ghost todo: seq<Row>, ghost sent: seq<Row>)
        returns (ok: bool, fate: Fate, ghost todo': seq<Row>, ghost sent': seq<Row>, ghost rest: seq<Row>)
      requires Valid() && UniqueRows(rows0) && i < |rows0| && found == rows0[i] && todo == Planned(rows0[..i], events0)
      requires Between(todo, sent, batchSize, dryRun, death)
      modifies this
      ensures Valid() && todo' == Planned(rows0[..i + 1], events0)
      ensures fate == FateOf(found, events0)
      ensures ok ==> Between(todo', sent', batchSize, dryRun, death)
      ensures !ok ==> !dryRun && Stopped(sent', rest, batchSize, death) && sent' + rest == todo' && |rest| == batchSize
    {
      PlannedNext(rows0, events0, i);
      todo' := todo;
      if found.status == "" {
        return true, NoStatus, todo', sent, [];
      }
      var hasEvent := AlreadyHasEvent(i, sent, batchSize, dryRun, death);
      if hasEvent {
        return true, HadEvent, todo', sent, [];
      }
      fate, todo' := Taken, todo + [found];
      ok, sent', rest := TakeAndFlush(found, batchSize, dryRun, death, todo, sent);
    }

    /** The cursor loop: every row visited, counted and, when planned, batched. */
    method Scan(batchSize: nat, dryRun: bool, death: Death)
        returns (ok: bool, counts: Counts, ghost sent: seq<Row>, ghost rest: seq<Row>, ghost todo: seq<Row>, ghost n: nat)
      requires Valid() && UniqueRows(rows0) && rows == rows0 && Between([], [], batchSize, dryRun, death)
      modifies this
      ensures Valid() && n <= |rows0| && todo == Planned(rows0[..n], events0)
      ensures ok ==> n == |rows0| && Counted(rows0[..n], todo, counts) && Between(todo, sent, batchSize, dryRun, death)
      ensures !ok ==> !dryRun && Stopped(sent, rest, batchSize, death) && |rest| == batchSize && sent + rest == todo
    {
      var found := rows;
      counts, sent, rest, todo, n := Counts(0, 0, 0), [], [], [], 0;
      for i := 0 to |found|
        invariant Valid() && Between(todo, sent, batchSize, dryRun, death)
        invariant n == i && todo == Planned(rows0[..n], events0) && Counted(rows0[..n], todo, counts)
      {
        var fate;
        ok, fate, todo, sent, rest := Visit(i, batchSize, dryRun, death, found[i], todo, sent);
        n := i + 1;
        if !ok {
          return;
        }
        CountedNext(rows0, events0, i, counts);
        counts := counts.Plus(fate);
      }
      ok := true;
    }

    method Run(batchSize: nat, dryRun: bool, death: Death)
        returns (ok: bool, counts: Counts, ghost sent: seq<Row>, ghost rest: seq<Row>)
      requires batchSize > 0 && UniqueRows(rows)
      requires Valid() && rows == rows0 && events == events0
      requires batch == kept == done == [] && written == projectionUpdated == flushes == 0
      modifies this
      ensures ok <==> dryRun || !Dies(Planned(rows0, events0), batchSize, death)
      ensures ok ==> Counted(rows0, Planned(rows0, events0), counts)
      ensures ok && dryRun ==> rows == rows0 && events == events0
      ensures ok && !dryRun ==>
                && events == events0 + EventsOf(Planned(rows0, events0), now)
                && rows == ApplyOps(rows0, OpsOf(Planned(rows0, events0), now))
                && written == projectionUpdated == counts.planned
      ensures !ok ==>
                && DiesIn(Planned(rows0, events0), batchSize, death, sent, rest)
                && events == events0 + EventsOf(sent + WithIds(rest, death.inserted), now)
                && rows == ApplyOps(rows0, OpsOf(sent + DoneOf(rest, death.inserted, death.projections), now))
    {
      assert Times(0, batchSize) == 0;
      ghost var todo, n;
      ok, counts, sent, rest, todo, n := Scan(batchSize, dryRun, death);
      if !ok {
        PlannedIsPrefix(rows0, events0, n);
        StoppedIn(Planned(rows0, events0), sent, rest, batchSize, death);
        return;
      }
      assert rows0[..|rows0|] == rows0;
      rest := batch;
      ok := FlushBatch(dryRun, death);
      LastFlush(todo, sent, rest, batchSize, death, flushes);
      assert dryRun ==> events0 + EventsOf([], now) == events0;
    }
  }

  lemma StoppedIn(plan: seq<Row>, sent: seq<Row>, rest: seq<Row>, batchSize: nat, death: Death)
    requires death.InFlush? && death.flush > 0 && |sent| == Times(death.flush - 1, batchSize)
    requires sent + rest <= plan && |rest| == batchSize
    ensures DiesIn(plan, batchSize, death, sent, rest) && Dies(plan, batchSize, death)
  {
  }

  /** The flush at the end, number `flush`, of what is left; no flush comes after it. */
  lemma LastFlush(plan: seq<Row>, sent: seq<Row>, rest: seq<Row>, batchSize: nat, death: Death, flush: nat)
    requires sent + rest == plan && |rest| < batchSize && flush > 0 && |sent| == Times(flush - 1, batchSize)
    ensures death.InFlush? && death.flush == flush ==> DiesIn(plan, batchSize, death, sent, rest) && Dies(plan, batchSize, death)
    ensures death.InFlush? && death.flush > flush ==> !Dies(plan, batchSize, death)
  {
    if death.InFlush? && death.flush > flush {
      TimesMonotone(flush, death.flush - 1, batchSize);
    }
  }

  lemma PlannedNext(rows: seq<Row>, events: seq<Event>, i: nat)
    requires i < |rows|
    ensures Planned(rows[..i + 1], events) ==
            if IsPlanned(events, rows[i]) then Planned(rows[..i], events) + [rows[i]] else Planned(rows[..i], events)
  {
    assert rows[..i + 1][..i] == rows[..i];
    assert Planned(rows[..i], events) + [] == Planned(rows[..i], events);
  }

  lemma CountNext(rows: seq<Row>, i: nat)
    requires i < |rows|
    ensures CountNoStatus(rows[..i + 1]) == CountNoStatus(rows[..i]) + (if rows[i].status == "" then 1 else 0)
  {
    assert rows[..i + 1][..i] == rows[..i];
  }

  lemma PlannedIsPrefix(rows: seq<Row>, events: seq<Event>, i: nat)
    requires i <= |rows|
    ensures Planned(rows[..i], events) <= Planned(rows, events)
    decreases |rows| - i
  {
    if i == |rows| {
      assert rows[..i] == rows;
    } else {
      PlannedIsPrefix(rows, events, i + 1);
      assert rows[..i + 1][..i] == rows[..i];
    }
  }

  lemma OneMoreOp(rows: seq<Row>, done: seq<Row>, row: Row, now: nat)
    ensures ApplyOps(rows, OpsOf(done + [row], now))
         == ApplyOp(ApplyOps(rows, OpsOf(done, now)), Projection(row.id, SourceOf(row), now))
  {
    var ops := OpsOf(done + [row], now);
    assert ops[..|done|] == OpsOf(done, now);
  }

  lemma EventsConcat(a: seq<Row>, b: seq<Row>, now: nat)
    ensures EventsOf(a, now) + EventsOf(b, now) == EventsOf(a + b, now)
  {
  }

  /** Rows of the plan, each at most once. */
  ghost predicate SomeOf(kept: seq<Row>, planned: seq<Row>) {
    UniqueRows(kept) && forall r :: r in kept ==> r in planned
  }

  lemma {:induction false} PlannedUnique(rows: seq<Row>, events: seq<Event>)
    requires UniqueRows(rows)
    ensures UniqueRows(Planned(rows, events))
  {
    if |rows| == 0 {
    } else {
      var n := |rows| - 1;
      assert forall i :: 0 <= i < n ==> rows[..n][i] == rows[i];
      PlannedUnique(rows[..n], events);
      var init := Planned(rows[..n], events);
      forall i | 0 <= i < |init| ensures init[i].id != rows[n].id {
        assert init[i] in init;
        PlannedFrom(rows[..n], events, init[i]);
        var k :| 0 <= k < n && rows[..n][k] == init[i];
        assert rows[k] == init[i];
      }
    }
  }

  lemma {:induction false} WithIdsSome(rows: seq<Row>, ids: set<nat>)
    requires UniqueRows(rows)
    ensures SomeOf(WithIds(rows, ids), rows)
  {
    if |rows| == 0 {
    } else {
      var n := |rows| - 1;
      assert forall i :: 0 <= i < n ==> rows[..n][i] == rows[i];
      WithIdsSome(rows[..n], ids);
      var init := WithIds(rows[..n], ids);
      forall i | 0 <= i < |init| ensures init[i].id != rows[n].id {
        assert init[i] in init && init[i] in rows[..n];
      }
    }
  }

  /** What a death leaves: events of some planned rows, each once, and projections of a prefix of the plan among them. */
  lemma DeathLeaves(plan: seq<Row>, sent: seq<Row>, rest: seq<Row>, ids: set<nat>, projections: nat)
    requires UniqueRows(plan) && sent + rest <= plan
    ensures SomeOf(sent + WithIds(rest, ids), plan) && sent + DoneOf(rest, ids, projections) <= plan
    ensures forall r :: r in sent + DoneOf(rest, ids, projections) ==> r in sent + WithIds(rest, ids)
  {
    assert UniqueRows(rest) by {
      assert forall j :: 0 <= j < |rest| ==> plan[|sent| + j] == (sent + rest)[|sent| + j] == rest[j];
    }
    WithIdsSome(rest, ids);
    SomeAfter(sent, rest, WithIds(rest, ids), plan);
  }

  lemma SomeAfter(front: seq<Row>, batch: seq<Row>, kept: seq<Row>, plan: seq<Row>)
    requires UniqueRows(plan) && front + batch <= plan && SomeOf(kept, batch)
    ensures SomeOf(front + kept, plan)
  {
    var both := front + batch;
    assert forall j :: 0 <= j < |front| ==> plan[j] == both[j] == front[j];
    assert forall m :: 0 <= m < |batch| ==> plan[|front| + m] == both[|front| + m] == batch[m];
    forall k | 0 <= k < |kept| ensures kept[k] in batch {
      assert kept[k] in kept;
    }
    forall j, k | 0 <= j < |front| && 0 <= k < |kept| ensures front[j].id != kept[k].id {
      var m :| 0 <= m < |batch| && batch[m] == kept[k];
      assert plan[j].id != plan[|front| + m].id;
    }
  }

  // ------------------------------------------------------------- main results

  function CountFor(events: seq<Event>, id: nat): nat {
    if |events| == 0 then 0 else CountFor(events[..|events| - 1], id) + (if events[|events| - 1].origin == Some(id) then 1 else 0)
  }

  lemma {:induction false} CountConcat(a: seq<Event>, b: seq<Event>, id: nat)
    ensures CountFor(a + b, id) == CountFor(a, id) + CountFor(b, id)
  {
    if |b| == 0 {
      assert a + b == a;
    } else {
      InitOfConcat(a, b);
      CountConcat(a, b[..|b| - 1], id);
    }
  }

  lemma {:induction false} CountedIffHas(events: seq<Event>, id: nat)
    ensures CountFor(events, id) > 0 <==> HasEvent(events, id)
  {
    if |events| == 0 {
    } else {
      var n := |events| - 1;
      CountedIffHas(events[..n], id);
      assert forall i :: 0 <= i < n ==> events[..n][i] == events[i];
    }
  }

  lemma {:induction false} CountNew(rows: seq<Row>, id: nat, now: nat)
    requires UniqueRows(rows)
    ensures CountFor(EventsOf(rows, now), id) == if exists i :: 0 <= i < |rows| && rows[i].id == id then 1 else 0
  {
    if |rows| == 0 {
    } else {
      var n := |rows| - 1;
      assert EventsOf(rows, now)[..n] == EventsOf(rows[..n], now);
      assert forall i :: 0 <= i < n ==> rows[..n][i] == rows[i];
      CountNew(rows[..n], id, now);
    }
  }

  /** After a completed live run every row with a status has exactly one migration event, if none had two before. */
  lemma {:induction false} OneEventEach(rows: seq<Row>, events: seq<Event>, now: nat, r: Row)
    requires UniqueRows(rows) && r in rows && r.status != "" && CountFor(events, r.id) <= 1
    ensures CountFor(events + EventsOf(Planned(rows, events), now), r.id) == 1
  {
    var todo := Planned(rows, events);
    PlannedUnique(rows, events);
    PlannedFrom(rows, events, r);
    CountConcat(events, EventsOf(todo, now), r.id);
    CountNew(todo, r.id, now);
    CountedIffHas(events, r.id);
    if i :| 0 <= i < |todo| && todo[i].id == r.id {
      assert todo[i] in todo;
      PlannedFrom(rows, events, todo[i]);
    }
  }

  lemma EventIffKept(events: seq<Event>, rows: seq<Row>, kept: seq<Row>, at: nat, r: Row)
    requires UniqueRows(rows) && SomeOf(kept, Planned(rows, events)) && r in rows
    ensures CountFor(events + EventsOf(kept, at), r.id) == CountFor(events, r.id) + (if r in kept then 1 else 0)
    ensures r in kept ==> IsPlanned(events, r)
  {
    CountConcat(events, EventsOf(kept, at), r.id);
    CountNew(kept, r.id, at);
    if i :| 0 <= i < |kept| && kept[i].id == r.id {
      assert kept[i] in kept;
      PlannedFrom(rows, events, kept[i]);
      SameRow(rows, kept[i], r);
    }
    if r in kept {
      var i :| 0 <= i < |kept| && kept[i] == r;
      PlannedFrom(rows, events, r);
    }
  }

  lemma SameRow(rows: seq<Row>, a: Row, b: Row)
    requires UniqueRows(rows) && a in rows && b in rows && a.id == b.id
    ensures a == b
  {
  }

  /** A completed rerun over exactly what a death left, rows and events: one event for each row with a status. */
  lemma DeathThenRerun(rows: seq<Row>, events: seq<Event>, kept: seq<Row>, done: seq<Row>, at: nat, now: nat, r: Row)
    requires UniqueRows(rows) && r in rows && r.status != "" && CountFor(events, r.id) <= 1
    requires SomeOf(kept, Planned(rows, events))
    ensures var rows1, events1 := ApplyOps(rows, OpsOf(done, at)), events + EventsOf(kept, at);
            CountFor(events1 + EventsOf(Planned(rows1, events1), now), r.id) == 1
  {
    var rows1, events1 := ApplyOps(rows, OpsOf(done, at)), events + EventsOf(kept, at);
    EventIffKept(events, rows, kept, at, r);
    CountedIffHas(events, r.id);
    var i :| 0 <= i < |rows| && rows[i] == r;
    OneEventEach(rows1, events1, now, rows1[i]);
  }

  lemma {:induction false} OpsElsewhere(rows: seq<Row>, todo: seq<Row>, now: nat, i: nat)
    requires i < |rows| && forall j :: 0 <= j < |todo| ==> todo[j].id != rows[i].id
    ensures ApplyOps(rows, OpsOf(todo, now))[i] == rows[i]
  {
    if |todo| == 0 {
    } else {
      var n := |todo| - 1;
      assert OpsOf(todo, now)[..n] == OpsOf(todo[..n], now);
      OpsElsewhere(rows, todo[..n], now, i);
      assert todo[n].id != rows[i].id;
    }
  }

  lemma {:induction false} OpsHere(rows: seq<Row>, todo: seq<Row>, now: nat, i: nat, j: nat)
    requires i < |rows| && j < |todo| && UniqueRows(todo) && todo[j] == rows[i]
    ensures ApplyOps(rows, OpsOf(todo, now))[i] == Projected(rows[i], SourceOf(rows[i]), now)
  {
    var n := |todo| - 1;
    assert OpsOf(todo, now)[..n] == OpsOf(todo[..n], now);
    if j == n {
      OpsElsewhere(rows, todo[..n], now, i);
    } else {
      OpsHere(rows, todo[..n], now, i, j);
      assert todo[n].id != todo[j].id;
    }
  }

  /** What a completed live run does to a row: planned rows are projected, all others stay. */
  lemma {:induction false} RowAfter(rows: seq<Row>, events: seq<Event>, now: nat, i: nat)
    requires UniqueRows(rows) && i < |rows|
    ensures var after := ApplyOps(rows, OpsOf(Planned(rows, events), now));
            && |after| == |rows|
            && after[i] == if IsPlanned(events, rows[i]) then Projected(rows[i], SourceOf(rows[i]), now) else rows[i]
  {
    var todo := Planned(rows, events);
    PlannedFrom(rows, events, rows[i]);
    PlannedUnique(rows, events);
    if IsPlanned(events, rows[i]) {
      var j :| 0 <= j < |todo| && todo[j] == rows[i];
      OpsHere(rows, todo, now, i, j);
    } else {
      forall j | 0 <= j < |todo| ensures todo[j].id != rows[i].id {
        assert todo[j] in todo;
        PlannedFrom(rows, events, todo[j]);
      }
      OpsElsewhere(rows, todo, now, i);
    }
  }

  /** No run lowers a projection version. */
  lemma {:induction false} VersionNeverFalls(rows: seq<Row>, ops: seq<Projection>, i: nat)
    requires i < |rows| && rows[i].version.Some?
    ensures var v := ApplyOps(rows, ops)[i].version; v.Some? && v.value >= rows[i].version.value
  {
    if |ops| == 0 {
    } else {
      VersionNeverFalls(rows, ops[..|ops| - 1], i);
    }
  }

  predicate Unprojected(r: Row) {
    r.version.None? || r.version.value < 1
  }

  /** A row with an event whose projection was never made. */
  predicate Stranded(r: Row, events: seq<Event>) {
    r.status != "" && HasEvent(events, r.id) && Unprojected(r)
  }

  /** No completed run repairs such a row: exactly the rows stranded before are stranded after. */
  lemma {:induction false} StrandedForGood(rows: seq<Row>, events: seq<Event>, now: nat, i: nat)
    requires UniqueRows(rows) && i < |rows|
    ensures var todo := Planned(rows, events);
            |ApplyOps(rows, OpsOf(todo, now))| == |rows| &&
            (Stranded(ApplyOps(rows, OpsOf(todo, now))[i], events + EventsOf(todo, now)) <==> Stranded(rows[i], events))
  {
    RowAfter(rows, events, now, i);
    var todo := Planned(rows, events);
    var all := events + EventsOf(todo, now);
    PlannedUnique(rows, events);
    CountConcat(events, EventsOf(todo, now), rows[i].id);
    CountNew(todo, rows[i].id, now);
    CountedIffHas(events, rows[i].id);
    CountedIffHas(all, rows[i].id);
    if j :| 0 <= j < |todo| && todo[j].id == rows[i].id {
      assert todo[j] in todo;
      PlannedFrom(rows, events, todo[j]);
    }
  }

  /** In terms of what a death left: the rows whose event was inserted and that were not projected. */
  lemma StrandedIffKept(rows: seq<Row>, events: seq<Event>, kept: seq<Row>, done: seq<Row>, at: nat, now: nat, i: nat)
    requires UniqueRows(rows) && i < |rows| && IsPlanned(events, rows[i]) && Unprojected(rows[i])
    requires var plan := Planned(rows, events); SomeOf(kept, plan) && done <= plan && forall r :: r in done ==> r in kept
    ensures var rows1, events1 := ApplyOps(rows, OpsOf(done, at)), events + EventsOf(kept, at);
            var plan1 := Planned(rows1, events1);
            && (Stranded(rows1[i], events1) <==> rows[i] in kept && rows[i] !in done)
            && (Stranded(ApplyOps(rows1, OpsOf(plan1, now))[i], events1 + EventsOf(plan1, now)) <==>
                  rows[i] in kept && rows[i] !in done)
  {
    var rows1, events1 := ApplyOps(rows, OpsOf(done, at)), events + EventsOf(kept, at);
    EventIffKept(events, rows, kept, at, rows[i]);
    CountedIffHas(events, rows[i].id);
    CountedIffHas(events1, rows[i].id);
    PlannedUnique(rows, events);
    assert UniqueRows(done) by {
      assert forall j :: 0 <= j < |done| ==> done[j] == Planned(rows, events)[j];
    }
    RowDone(rows, events, done, at, i);
    StrandedForGood(rows1, events1, now, i);
  }

  lemma RowDone(rows: seq<Row>, events: seq<Event>, done: seq<Row>, at: nat, i: nat)
    requires UniqueRows(rows) && i < |rows| && UniqueRows(done) && forall r :: r in done ==> r in Planned(rows, events)
    ensures ApplyOps(rows, OpsOf(done, at))[i] == if rows[i] in done then Projected(rows[i], SourceOf(rows[i]), at) else rows[i]
  {
    if rows[i] in done {
      var j :| 0 <= j < |done| && done[j] == rows[i];
      OpsHere(rows, done, at, i, j);
    } else {
      forall j | 0 <= j < |done| ensures done[j].id != rows[i].id {
        assert done[j] in done;
        PlannedFrom(rows, events, done[j]);
        if done[j].id == rows[i].id { SameRow(rows, done[j], rows[i]); }
      }
      OpsElsewhere(rows, done, at, i);
    }
  }

  /**
   * Does a death strand the `k`-th planned row? It must be in the batch of the
   * flush the process dies in, its event among those inserted, and its projection
   * not among those written, which are none unless the whole batch was inserted.
   */
  predicate StrandsPlace(plan: seq<Row>, batchSize: nat, death: Death, k: nat)
    requires death.InFlush? && death.flush > 0 && k < |plan|
  {
    var from := Times(death.flush - 1, batchSize);
    var to := Min(from + batchSize, |plan|);
    && from <= k < to && plan[k].id in death.inserted
    && !(k - from < death.projections && forall m :: from <= m < to ==> plan[m].id in death.inserted)
  }

  /** Exactly which planned rows a dying run strands for good, a completed rerun included. */
  lemma {:induction false} StrandedByDeathIff(rows: seq<Row>, events: seq<Event>, batchSize: nat, death: Death, sent: seq<Row>, rest: seq<Row>,
                                              at: nat, now: nat, i: nat, k: nat)
    requires UniqueRows(rows) && DiesIn(Planned(rows, events), batchSize, death, sent, rest)
    requires i < |rows| && k < |Planned(rows, events)| && Planned(rows, events)[k] == rows[i] && Unprojected(rows[i])
    ensures var rows1 := ApplyOps(rows, OpsOf(sent + DoneOf(rest, death.inserted, death.projections), at));
            var events1 := events + EventsOf(sent + WithIds(rest, death.inserted), at);
            var plan1 := Planned(rows1, events1);
            var stranded := StrandsPlace(Planned(rows, events), batchSize, death, k);
            && (Stranded(rows1[i], events1) <==> stranded)
            && (Stranded(ApplyOps(rows1, OpsOf(plan1, now))[i], events1 + EventsOf(plan1, now)) <==> stranded)
  {
    var plan := Planned(rows, events);
    var kept, done := sent + WithIds(rest, death.inserted), sent + DoneOf(rest, death.inserted, death.projections);
    PlannedUnique(rows, events);
    DeathLeaves(plan, sent, rest, death.inserted, death.projections);
    assert rows[i] in plan;
    PlannedFrom(rows, events, rows[i]);
    StrandedIffKept(rows, events, kept, done, at, now, i);
    StrandsPlaceIff(plan, batchSize, death, sent, rest, k);
  }

  lemma {:induction false} StrandsPlaceIff(plan: seq<Row>, batchSize: nat, death: Death, sent: seq<Row>, rest: seq<Row>, k: nat)
    requires UniqueRows(plan) && DiesIn(plan, batchSize, death, sent, rest) && k < |plan|
    ensures StrandsPlace(plan, batchSize, death, k) <==>
              && plan[k] in sent + WithIds(rest, death.inserted)
              && plan[k] !in sent + DoneOf(rest, death.inserted, death.projections)
  {
    var from := Times(death.flush - 1, batchSize);
    var to := Min(from + batchSize, |plan|);
    DyingBatch(plan, batchSize, death, sent, rest);
    InKept(plan, from, to, death.inserted, k);
    InDone(plan, from, to, death.inserted, death.projections, k);
  }

  lemma {:induction false} DyingBatch(plan: seq<Row>, batchSize: nat, death: Death, sent: seq<Row>, rest: seq<Row>)
    requires DiesIn(plan, batchSize, death, sent, rest)
    ensures var from := Times(death.flush - 1, batchSize);
            from <= |plan| && sent == plan[..from] && rest == plan[from..Min(from + batchSize, |plan|)]
  {
    assert plan[..|sent + rest|] == sent + rest;
  }

  lemma InKept(plan: seq<Row>, from: nat, to: nat, ids: set<nat>, k: nat)
    requires UniqueRows(plan) && from <= to <= |plan| && k < |plan|
    ensures plan[k] in plan[..from] + WithIds(plan[from..to], ids) <==> k < from || (k < to && plan[k].id in ids)
  {
    WithIdsIs(plan[from..to], ids, plan[k]);
    InSlice(plan, 0, from, k);
    InSlice(plan, from, to, k);
  }

  lemma InDone(plan: seq<Row>, from: nat, to: nat, ids: set<nat>, projections: nat, k: nat)
    requires UniqueRows(plan) && from <= to <= |plan| && k < |plan|
    ensures plan[k] in plan[..from] + DoneOf(plan[from..to], ids, projections) <==>
              k < from || (k < to && k - from < projections && forall m :: from <= m < to ==> plan[m].id in ids)
  {
    var rest := plan[from..to];
    var n := Min(projections, |rest|);
    WholeIn(plan, from, to, ids);
    InSlice(plan, 0, from, k);
    if WithIds(rest, ids) == rest {
      InSlice(plan, from, from + n, k);
      SliceOfSlice(plan, from, to, n);
    }
  }

  lemma SliceOfSlice(plan: seq<Row>, from: nat, to: nat, n: nat)
    requires from <= to <= |plan| && from + n <= to
    ensures plan[from..to][..n] == plan[from..from + n]
  {
  }

  lemma WholeIn(plan: seq<Row>, from: nat, to: nat, ids: set<nat>)
    requires from <= to <= |plan|
    ensures WithIds(plan[from..to], ids) == plan[from..to] <==> forall m :: from <= m < to ==> plan[m].id in ids
  {
    var rest := plan[from..to];
    assert forall j :: 0 <= j < |rest| ==> rest[j] == plan[from + j];
    assert forall m :: from <= m < to ==> plan[m] == rest[m - from];
    WholeIff(rest, ids);
  }

  lemma InSlice(plan: seq<Row>, a: nat, b: nat, k: nat)
    requires UniqueRows(plan) && a <= b <= |plan| && k < |plan|
    ensures plan[k] in plan[a..b] <==> a <= k < b
  {
    if a <= k < b { assert plan[a..b][k - a] == plan[k]; }
  }

  lemma {:induction false} WithIdsIs(rows: seq<Row>, ids: set<nat>, r: Row)
    ensures r in WithIds(rows, ids) <==> r in rows && r.id in ids
  {
    if |rows| == 0 {
    } else {
      InitAndLast(rows);
      WithIdsIs(rows[..|rows| - 1], ids, r);
    }
  }

  lemma WholeIff(rows: seq<Row>, ids: set<nat>)
    ensures WithIds(rows, ids) == rows <==> forall j :: 0 <= j < |rows| ==> rows[j].id in ids
  {
    if WithIds(rows, ids) == rows {
      forall j | 0 <= j < |rows| ensures rows[j].id in ids {
        assert rows[j] in WithIds(rows, ids);
        WithIdsIs(rows, ids, rows[j]);
      }
    }
    if forall j :: 0 <= j < |rows| ==> rows[j].id in ids { AllWithIds(rows, ids); }
  }

  /** Such a death exists for every planned row: the run that dies after inserting the row's batch strands it. */
  method DyingRunStrands(rows: seq<Row>, events: seq<Event>, batchSize: nat, now: nat, k: nat)
      returns (rows1: seq<Row>, events1: seq<Event>, ok: bool)
    requires batchSize > 0 && UniqueRows(rows) && k < |Planned(rows, events)| && Unprojected(Planned(rows, events)[k])
    ensures !ok
    ensures |rows1| == |rows| && forall i :: 0 <= i < |rows| && rows[i] == Planned(rows, events)[k] ==> Stranded(rows1[i], events1)
  {
    var plan, flush := Planned(rows, events), k / batchSize;
    FlushOf(k, batchSize, flush);
    var death := InFlush(flush + 1, set r | r in plan :: r.id, 0);
    var b := new Backfill(rows, events, now);
    var counts;
    ghost var sent, rest;
    ok, counts, sent, rest := b.Run(batchSize, false, death);
    rows1, events1 := b.rows, b.events;
    LeftStranded(rows, events, sent, rest, death.inserted, now, k);
  }

  lemma FlushOf(k: nat, b: nat, flush: nat)
    requires b > 0 && flush == k / b
    ensures Times(flush, b) <= k < Times(flush, b) + b
  {
    TimesIs(flush, b);
  }

  lemma KthInRest(plan: seq<Row>, sent: seq<Row>, rest: seq<Row>, k: nat)
    requires UniqueRows(plan) && sent + rest <= plan && |sent| <= k < |sent| + |rest|
    ensures plan[k] in rest && plan[k] !in sent
  {
    assert plan[k] == (sent + rest)[k] == rest[k - |sent|];
    assert forall j :: 0 <= j < |sent| ==> plan[j] == (sent + rest)[j] == sent[j];
  }

  lemma WholeBatch(plan: seq<Row>, sent: seq<Row>, rest: seq<Row>, ids: set<nat>)
    requires sent + rest <= plan && forall r :: r in plan ==> r.id in ids
    ensures WithIds(rest, ids) == rest && DoneOf(rest, ids, 0) == []
  {
    forall j | 0 <= j < |rest| ensures rest[j].id in ids {
      assert plan[|sent| + j] == (sent + rest)[|sent| + j] == rest[j];
    }
    AllWithIds(rest, ids);
  }

  lemma LeftStranded(rows: seq<Row>, events: seq<Event>, sent: seq<Row>, rest: seq<Row>, ids: set<nat>, now: nat, k: nat)
    requires UniqueRows(rows) && sent + rest <= Planned(rows, events) && |sent| <= k < |sent| + |rest|
    requires Unprojected(Planned(rows, events)[k]) && forall r :: r in Planned(rows, events) ==> r.id in ids
    ensures var rows1, events1 := ApplyOps(rows, OpsOf(sent + DoneOf(rest, ids, 0), now)), events + EventsOf(sent + WithIds(rest, ids), now);
            forall i :: 0 <= i < |rows| && rows[i] == Planned(rows, events)[k] ==> Stranded(rows1[i], events1)
  {
    var plan := Planned(rows, events);
    PlannedUnique(rows, events);
    KthInRest(plan, sent, rest, k);
    WholeBatch(plan, sent, rest, ids);
    DeathLeaves(plan, sent, rest, ids, 0);
    var kept, done := sent + WithIds(rest, ids), sent + DoneOf(rest, ids, 0);
    forall i | 0 <= i < |rows| && rows[i] == plan[k]
      ensures Stranded(ApplyOps(rows, OpsOf(done, now))[i], events + EventsOf(kept, now))
    {
      PlannedFrom(rows, events, plan[k]);
      StrandedIffKept(rows, events, kept, done, now, now, i);
    }
  }

  lemma {:induction false} AllWithIds(rows: seq<Row>, ids: set<nat>)
    requires forall j :: 0 <= j < |rows| ==> rows[j].id in ids
    ensures WithIds(rows, ids) == rows
  {
    if |rows| == 0 {
    } else {
      AllWithIds(rows[..|rows| - 1], ids);
      assert rows == rows[..|rows| - 1] + [rows[|rows| - 1]];
    }
  }

  /** A second live run plans nothing. */
  lemma {:induction false} SecondRunPlansNothing(rows: seq<Row>, events: seq<Event>, now: nat)
    requires UniqueRows(rows)
    ensures var todo := Planned(rows, events);
            Planned(ApplyOps(rows, OpsOf(todo, now)), events + EventsOf(todo, now)) == []
  {
    var todo := Planned(rows, events);
    var after, all := ApplyOps(rows, OpsOf(todo, now)), events + EventsOf(todo, now);
    forall i | 0 <= i < |after| ensures i < |rows| && !IsPlanned(all, after[i]) {
      RowAfter(rows, events, now, 0);
      RowAfter(rows, events, now, i);
      if IsPlanned(events, rows[i]) {
        PlannedFrom(rows, events, rows[i]);
        var j :| 0 <= j < |todo| && todo[j] == rows[i];
        assert all[|events| + j].origin == Some(rows[i].id);
      } else if HasEvent(events, rows[i].id) {
        var j :| 0 <= j < |events| && events[j].origin == Some(rows[i].id);
        assert all[j] == events[j];
      }
    }
    NonePlanned(after, all);
  }

  lemma {:induction false} NonePlanned(rows: seq<Row>, events: seq<Event>)
    requires forall i :: 0 <= i < |rows| ==> !IsPlanned(events, rows[i])
    ensures Planned(rows, events) == []
  {
    if |rows| == 0 {
    } else {
      NonePlanned(rows[..|rows| - 1], events);
    }
  }

  lemma {:induction false} PlannedFrom(rows: seq<Row>, events: seq<Event>, r: Row)
    ensures r in Planned(rows, events) <==> r in rows && IsPlanned(events, r)
  {
    if |rows| == 0 {
    } else {
      PlannedFrom(rows[..|rows| - 1], events, r);
      assert rows == rows[..|rows| - 1] + [rows[|rows| - 1]];
    }
  }

  /** Events written earlier in the run are those of earlier rows, so they do not answer for this one. */
  lemma SameAnswer(rows: seq<Row>, i: nat, events: seq<Event>, flushed: seq<Row>, now: nat)
    requires i < |rows| && UniqueRows(rows) && flushed <= Planned(rows[..i], events)
    ensures HasEvent(events + EventsOf(flushed, now), rows[i].id) <==> HasEvent(events, rows[i].id)
  {
    var all := events + EventsOf(flushed, now);
    forall j | 0 <= j < |flushed| ensures flushed[j].id != rows[i].id {
      PlannedFrom(rows[..i], events, flushed[j]);
      assert flushed[j] == Planned(rows[..i], events)[j];
      assert flushed[j] in rows[..i];
    }
    if HasEvent(all, rows[i].id) {
      var j :| 0 <= j < |all| && all[j].origin == Some(rows[i].id);
      assert j < |events|;
    }
    if HasEvent(events, rows[i].id) {
      var j :| 0 <= j < |events| && events[j].origin == Some(rows[i].id);
      assert all[j] == events[j];
    }
  }
}
