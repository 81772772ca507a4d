/**
 * The ledgered migration runner: an ordered registry of units, a persistent
 * ledger of outcomes, a fail-closed run loop, and baseline pre-stamping.
 *
 * What the environment does to one attempt (a throw, a crash, a ledger write
 * that fails or lands although it reported failure) is an `Attempt` value, so
 * a statement quantified over schedules speaks about every point of failure.
 */
module MigrationRunner {
  import opened Prelude

  datatype Kind = Once | Convergent

  datatype Status = Applied | Failed

  datatype Record = Record(status: Status, checksum: Option<string>, appliedAt: Option<nat>, error: Option<string>)

  type Ledger = map<string, Record>

  /** `run` is the effect of a run that returns; `halt(d, k)` is what a run from `d` leaves when it stops at point `k`. */
  datatype Migration<!DB> = Migration(
    name: string, kind: Kind, checksum: Option<string>, run: DB -> DB, halt: (DB, nat) -> DB)

  /**
   * What befalls one unit: the read of its record, which comes first, or the
   * attempt to run it. `recorded` says whether the `failed` record was written
   * or the write was swallowed.
   */
  datatype Attempt =
    | ReadThrows
    | Completes
    | RunThrows(at: nat, message: string, recorded: bool)
    | ApplyWriteThrows(landed: bool, message: string, recorded: bool)
    | DiesInRun(at: nat)
    | DiesBeforeWrite
    | DiesAfterWrite

  datatype State<DB> = State(ledger: Ledger, db: DB)

  datatype Summary = Summary(applied: seq<string>, skipped: seq<string>, failed: seq<(string, string)>)

  /** `ReadFailed`: the read of a record threw, outside the runner's own error handling. */
  datatype End = Finished | Threw(name: string) | ReadFailed | Died

  /** `ran` lists the units whose `run` was called, in order. */
  datatype Report<DB> = Report(state: State<DB>, summary: Summary, end: End, ran: seq<string>)

  const NO_SUMMARY := Summary([], [], [])

  predicate IsPending<DB>(ledger: Ledger, u: Migration<DB>) {
    !(u.name in ledger && ledger[u.name].status.Applied? &&
      (u.kind.Once? || ledger[u.name].checksum == u.checksum))
  }

  function RecordApplied<DB>(ledger: Ledger, u: Migration<DB>, now: nat): Ledger {
    ledger[u.name := Record(Applied, u.checksum, Some(now), None)]
  }

  /** `$set` without `appliedAt`: an earlier timestamp stays. */
  function RecordFailed<DB>(ledger: Ledger, u: Migration<DB>, message: string): Ledger {
    var since := if u.name in ledger then ledger[u.name].appliedAt else None;
    ledger[u.name := Record(Failed, u.checksum, since, Some(message))]
  }

  function Try<DB>(u: Migration<DB>, s: State<DB>, a: Attempt, now: nat): State<DB> {
    match a
    case ReadThrows => s
    case Completes => State(RecordApplied(s.ledger, u, now), u.run(s.db))
    case RunThrows(at, message, recorded) =>
      State(if recorded then RecordFailed(s.ledger, u, message) else s.ledger, u.halt(s.db, at))
    case ApplyWriteThrows(landed, message, recorded) =>
      var ledger := if landed then RecordApplied(s.ledger, u, now) else s.ledger;
      State(if recorded then RecordFailed(ledger, u, message) else ledger, u.run(s.db))
    case DiesInRun(at) => State(s.ledger, u.halt(s.db, at))
    case DiesBeforeWrite => State(s.ledger, u.run(s.db))
    case DiesAfterWrite => State(RecordApplied(s.ledger, u, now), u.run(s.db))
  }

  /** The run loop from unit `i` on; `sched[j]` is what befalls unit `j` if the run comes to it. */
  function Apply<DB>(units: seq<Migration<DB>>, i: nat, s: State<DB>, sched: seq<Attempt>, now: nat,
                     sum: Summary, ran: seq<string>): Report<DB>
    requires i <= |units| == |sched|
    decreases |units| - i
  {
    if i == |units| then
      Report(s, sum, Finished, ran)
    else if sched[i].ReadThrows? then
      Report(s, sum, ReadFailed, ran)
    else if !IsPending(s.ledger, units[i]) then
      Apply(units, i + 1, s, sched, now, sum.(skipped := sum.skipped + [units[i].name]), ran)
    else
      var s' := Try(units[i], s, sched[i], now);
      var ran' := ran + [units[i].name];
      match sched[i]
      case Completes =>
        Apply(units, i + 1, s', sched, now, sum.(applied := sum.applied + [units[i].name]), ran')
      case RunThrows(_, message, _) =>
        Report(s', sum.(failed := sum.failed + [(units[i].name, message)]), Threw(units[i].name), ran')
      case ApplyWriteThrows(_, message, _) =>
        Report(s', sum.(failed := sum.failed + [(units[i].name, message)]), Threw(units[i].name), ran')
      case _ =>
        Report(s', sum, Died, ran')
  }

  function RunOnce<DB>(units: seq<Migration<DB>>, s: State<DB>, sched: seq<Attempt>, now: nat): Report<DB>
    requires |units| == |sched|
  {
    Apply(units, 0, s, sched, now, NO_SUMMARY, [])
  }

  /** The checksum of the first registered unit of that name, if any. */
  function RegisteredChecksum<DB>(units: seq<Migration<DB>>, name: string): Option<string> {
    if |units| == 0 then None
    else if units[0].name == name then units[0].checksum
    else RegisteredChecksum(units[1..], name)
  }

  function Stamp<DB>(units: seq<Migration<DB>>, names: seq<string>, ledger: Ledger, now: nat): Ledger {
    if |names| == 0 then ledger
    else
      var rest := names[..|names| - 1];
      var last := names[|names| - 1];
      Stamp(units, rest, ledger, now)[last := Record(Applied, RegisteredChecksum(units, last), Some(now), None)]
  }

  function OnceNames<DB>(units: seq<Migration<DB>>): seq<string> {
    if |units| == 0 then []
    else OnceNames(units[..|units| - 1]) +
         (if units[|units| - 1].kind.Once? then [units[|units| - 1].name] else [])
  }

  class Runner<DB> {
    const units: seq<Migration<DB>>
    var ledger: Ledger
    var db: DB

    constructor (units: seq<Migration<DB>>, ledger: Ledger, db: DB)
      ensures this.units == units && this.ledger == ledger && this.db == db
    {
      this.units, this.ledger, this.db := units, ledger, db;
    }

    method ApplyPending(sched: seq<Attempt>, now: nat) returns (summary: Summary, end: End, ghost ran: seq<string>)
      requires |sched| == |units|
      modifies this
      ensures Report(State(ledger, db), summary, end, ran) == RunOnce(units, State(old(ledger), old(db)), sched, now)
    {
      summary, ran := NO_SUMMARY, [];
      for i := 0 to |units|
        invariant Apply(units, i, State(ledger, db), sched, now, summary, ran)
               == RunOnce(units, State(old(ledger), old(db)), sched, now)
      {
        var u := units[i];
        if sched[i].ReadThrows? {
          return summary, ReadFailed, ran;
        }
        if u.name in ledger && ledger[u.name].status.Applied? &&
           (u.kind.Once? || ledger[u.name].checksum == u.checksum) {
          summary := summary.(skipped := summary.skipped + [u.name]);
          continue;
        }
        ran := ran + [u.name];
        var a := sched[i];
        if a.Completes? {
          db := u.run(db);
          ledger := RecordApplied(ledger, u, now);
          summary := summary.(applied := summary.applied + [u.name]);
        } else if a.RunThrows? {
          db := u.halt(db, a.at);
          if a.recorded { ledger := RecordFailed(ledger, u, a.message); }
          summary := summary.(failed := summary.failed + [(u.name, a.message)]);
          return summary, Threw(u.name), ran;
        } else if a.ApplyWriteThrows? {
          db := u.run(db);
          if a.landed { ledger := RecordApplied(ledger, u, now); }
          if a.recorded { ledger := RecordFailed(ledger, u, a.message); }
          summary := summary.(failed := summary.failed + [(u.name, a.message)]);
          return summary, Threw(u.name), ran;
        } else if a.DiesInRun? {
          db := u.halt(db, a.at);
          return summary, Died, ran;
        } else {
          db := u.run(db);
          if a.DiesAfterWrite? { ledger := RecordApplied(ledger, u, now); }
          return summary, Died, ran;
        }
      }
      end := Finished;
    }

    /** Runs only when this instance wins the single-flight claim. */
    method RunAll(claimed: bool, sched: seq<Attempt>, now: nat) returns (summary: Summary, end: End, ghost ran: seq<string>)
      requires |sched| == |units|
      modifies this
      ensures claimed ==>
        Report(State(ledger, db), summary, end, ran) == RunOnce(units, State(old(ledger), old(db)), sched, now)
      ensures !claimed ==>
        ledger == old(ledger) && db == old(db) && summary == NO_SUMMARY && end == Finished && ran == []
    {
      if !claimed {
        return NO_SUMMARY, Finished, [];
      }
      summary, end, ran := ApplyPending(sched, now);
    }

    /** Stamps the names as applied without running them; the process may die after `upTo` stamps. */
    method MarkBaseline(names: seq<string>, now: nat, upTo: nat)
      requires upTo <= |names|
      modifies this
      ensures db == old(db)
      ensures ledger == Stamp(units, names[..upTo], old(ledger), now)
    {
      assert names[..0] == [];
      for i := 0 to upTo
        invariant db == old(db)
        invariant ledger == Stamp(units, names[..i], old(ledger), now)
      {
        var checksum: Option<string> := None;
        var j := 0;
        while j < |units| && units[j].name != names[i]
          invariant 0 <= j <= |units|
          invariant RegisteredChecksum(units, names[i]) == RegisteredChecksum(units[j..], names[i])
        {
          assert units[j..][1..] == units[j + 1..];
          j := j + 1;
        }
        if j < |units| { checksum := units[j].checksum; }
        assert names[..i + 1][..i] == names[..i];
        ledger := ledger[names[i] := Record(Applied, checksum, Some(now), None)];
      }
    }

    method BaselineAllOnce(now: nat, upTo: nat)
      requires upTo <= |OnceNames(units)|
      modifies this
      ensures db == old(db)
      ensures ledger == Stamp(units, OnceNames(units)[..upTo], old(ledger), now)
    {
      var names := [];
      for i := 0 to |units|
        invariant names == OnceNames(units[..i])
        invariant ledger == old(ledger) && db == old(db)
      {
        assert units[..i + 1][..i] == units[..i];
        if units[i].kind.Once? { names := names + [units[i].name]; }
      }
      assert units[..|units|] == units;
      MarkBaseline(names, now, upTo);
    }
  }

  // ---------------------------------------------------------------- one run

  ghost predicate DistinctNames<DB>(units: seq<Migration<DB>>) {
    forall i, j :: 0 <= i < j < |units| ==> units[i].name != units[j].name
  }

  /** The names of the pending units among `units[i..k]`, in order. */
  function PendingNames<DB>(units: seq<Migration<DB>>, i: nat, k: nat, ledger: Ledger): seq<string>
    requires i <= k <= |units|
    decreases k - i
  {
    if i == k then []
    else (if IsPending(ledger, units[i]) then [units[i].name] else []) + PendingNames(units, i + 1, k, ledger)
  }

  /** An attempt settles its unit when the `applied` record is written and not replaced by a `failed` one. */
  predicate Settles(a: Attempt) {
    a.Completes? || a.DiesAfterWrite? || (a.ApplyWriteThrows? && a.landed && !a.recorded)
  }

  ghost predicate SameRecord(l: Ledger, l': Ledger, name: string) {
    (name in l <==> name in l') && (name in l ==> l[name] == l'[name])
  }

  ghost predicate Named<DB>(units: seq<Migration<DB>>, i: nat, k: nat, name: string)
    requires k <= |units|
  {
    exists j :: i <= j < k && units[j].name == name
  }

  lemma TrySettles<DB>(u: Migration<DB>, s: State<DB>, a: Attempt, now: nat)
    requires IsPending(s.ledger, u)
    ensures IsPending(Try(u, s, a, now).ledger, u) <==> !Settles(a)
    ensures forall n :: n != u.name ==> SameRecord(s.ledger, Try(u, s, a, now).ledger, n)
  {
  }

  lemma {:induction false} PendingAgree<DB>(units: seq<Migration<DB>>, i: nat, k: nat, l: Ledger, l': Ledger)
    requires i <= k <= |units|
    requires forall j :: i <= j < k ==> SameRecord(l, l', units[j].name)
    ensures PendingNames(units, i, k, l) == PendingNames(units, i, k, l')
    decreases k - i
  {
    if i < k {
      assert SameRecord(l, l', units[i].name);
      PendingAgree(units, i + 1, k, l, l');
    }
  }

  /** Where the run stops: at the unit whose record cannot be read or whose attempt does not complete, else at the end. */
  function StopOf<DB>(units: seq<Migration<DB>>, i: nat, s: State<DB>, sched: seq<Attempt>, now: nat): (stop: nat)
    requires i <= |units| == |sched|
    ensures i <= stop <= |units|
    decreases |units| - i
  {
    if i == |units| || sched[i].ReadThrows? then i
    else if !IsPending(s.ledger, units[i]) then StopOf(units, i + 1, s, sched, now)
    else if sched[i].Completes? then StopOf(units, i + 1, Try(units[i], s, sched[i], now), sched, now)
    else i
  }

  /** The units up to here were reached with their record read. */
  function Upto(stop: nat, sched: seq<Attempt>): nat {
    if stop < |sched| && !sched[stop].ReadThrows? then stop + 1 else stop
  }

  /** What a run that starts at unit `i` in state `s` and stops at unit `stop` reports. */
  ghost predicate Shape<DB>(units: seq<Migration<DB>>, i: nat, s: State<DB>, sched: seq<Attempt>,
                            ran: seq<string>, r: Report<DB>, stop: nat)
    requires i <= |units| == |sched|
  {
    && i <= stop <= |units|
    && (r.end.Finished? <==> stop == |units|)
    && (r.end.ReadFailed? <==> stop < |units| && sched[stop].ReadThrows?)
    && r.ran == ran + PendingNames(units, i, Upto(stop, sched), s.ledger)
    && (forall j :: i <= j < stop ==> !IsPending(r.state.ledger, units[j]))
    && (stop < |units| && !sched[stop].ReadThrows? ==>
          && IsPending(s.ledger, units[stop])
          && (IsPending(r.state.ledger, units[stop]) <==> !Settles(sched[stop]))
          && (r.end.Threw? ==> r.end.name == units[stop].name))
    && (forall n :: !Named(units, i, Upto(stop, sched), n) ==> SameRecord(s.ledger, r.state.ledger, n))
  }

  /**
   * Fail-closed run: it stops at one unit (or at the end), has called exactly
   * the pending units up to there in registry order, leaves every earlier unit
   * settled, and touches no record of a unit it has not reached.
   */
  lemma {:induction false} RunShape<DB>(units: seq<Migration<DB>>, i: nat, s: State<DB>,
      sched: seq<Attempt>, now: nat, sum: Summary, ran: seq<string>)
    requires DistinctNames(units) && i <= |units| == |sched|
    ensures Shape(units, i, s, sched, ran, Apply(units, i, s, sched, now, sum, ran), StopOf(units, i, s, sched, now))
    decreases |units| - i
  {
    if i == |units| || sched[i].ReadThrows? {
      return;
    }
    var u, stop := units[i], StopOf(units, i, s, sched, now);
    if !IsPending(s.ledger, u) {
      RunShape(units, i + 1, s, sched, now, sum.(skipped := sum.skipped + [u.name]), ran);
      SkippedStep(units, i, s, sched, ran, Apply(units, i, s, sched, now, sum, ran), stop);
      return;
    }
    var s' := Try(u, s, sched[i], now);
    TrySettles(u, s, sched[i], now);
    if sched[i].Completes? {
      RunShape(units, i + 1, s', sched, now, sum.(applied := sum.applied + [u.name]), ran + [u.name]);
      AppliedStep(units, i, s, s', sched, ran, Apply(units, i, s, sched, now, sum, ran), stop);
    } else {
      assert PendingNames(units, i, i + 1, s.ledger) == [u.name] + PendingNames(units, i + 1, i + 1, s.ledger);
      assert Named(units, i, i + 1, u.name);
    }
  }

  lemma SkippedStep<DB>(units: seq<Migration<DB>>, i: nat, s: State<DB>, sched: seq<Attempt>,
                        ran: seq<string>, r: Report<DB>, stop: nat)
    requires DistinctNames(units) && i < |units| == |sched|
    requires !IsPending(s.ledger, units[i]) && Shape(units, i + 1, s, sched, ran, r, stop)
    ensures Shape(units, i, s, sched, ran, r, stop)
  {
    var k := Upto(stop, sched);
    assert !Named(units, i + 1, k, units[i].name);
    assert SameRecord(s.ledger, r.state.ledger, units[i].name);
    assert forall n :: Named(units, i + 1, k, n) ==> Named(units, i, k, n);
  }

  lemma AppliedStep<DB>(units: seq<Migration<DB>>, i: nat, s: State<DB>, s': State<DB>, sched: seq<Attempt>,
                        ran: seq<string>, r: Report<DB>, stop: nat)
    requires DistinctNames(units) && i < |units| == |sched|
    requires IsPending(s.ledger, units[i]) && !IsPending(s'.ledger, units[i])
    requires forall n :: n != units[i].name ==> SameRecord(s.ledger, s'.ledger, n)
    requires Shape(units, i + 1, s', sched, ran + [units[i].name], r, stop)
    ensures Shape(units, i, s, sched, ran, r, stop)
  {
    var k := Upto(stop, sched);
    assert forall j :: i < j < k ==> SameRecord(s.ledger, s'.ledger, units[j].name);
    PendingAgree(units, i + 1, k, s.ledger, s'.ledger);
    assert !Named(units, i + 1, k, units[i].name);
    assert SameRecord(s'.ledger, r.state.ledger, units[i].name);
    forall n | !Named(units, i, k, n)
      ensures SameRecord(s.ledger, r.state.ledger, n)
    {
      assert units[i].name != n;
      assert !Named(units, i + 1, k, n);
      assert SameRecord(s.ledger, s'.ledger, n) && SameRecord(s'.ledger, r.state.ledger, n);
    }
  }

  /** Whatever befalls a run, no unit runs past a failed one, and everything before the stop is settled. */
  lemma FailClosed<DB>(units: seq<Migration<DB>>, s: State<DB>, sched: seq<Attempt>, now: nat)
    requires DistinctNames(units) && |units| == |sched|
    ensures Shape(units, 0, s, sched, [], RunOnce(units, s, sched, now), StopOf(units, 0, s, sched, now))
  {
    RunShape(units, 0, s, sched, now, NO_SUMMARY, []);
  }

  ghost predicate AllRead(sched: seq<Attempt>) {
    forall j :: 0 <= j < |sched| ==> !sched[j].ReadThrows?
  }

  lemma {:induction false} AllSkipped<DB>(units: seq<Migration<DB>>, i: nat, s: State<DB>, sched: seq<Attempt>,
                                          now: nat, sum: Summary, ran: seq<string>)
    requires i <= |units| == |sched|
    requires forall j :: i <= j < |units| ==> !IsPending(s.ledger, units[j])
    ensures var r := Apply(units, i, s, sched, now, sum, ran);
            && r.state == s && r.ran == ran && (r.end.Finished? || r.end.ReadFailed?)
            && (AllRead(sched) ==>
                 && r.end.Finished?
                 && r.summary == sum.(skipped := sum.skipped + seq(|units| - i, k requires 0 <= k < |units| - i => units[i + k].name)))
    decreases |units| - i
  {
    if i == |units| || sched[i].ReadThrows? {
    } else {
      AllSkipped(units, i + 1, s, sched, now, sum.(skipped := sum.skipped + [units[i].name]), ran);
    }
  }

  /** A second run right after one that finished calls nothing and changes nothing; if it can read the ledger it skips every unit. */
  lemma SecondRunIsNoOp<DB>(units: seq<Migration<DB>>, s: State<DB>, sched: seq<Attempt>, now: nat,
                            sched': seq<Attempt>, now': nat)
    requires DistinctNames(units) && |units| == |sched| == |sched'|
    requires RunOnce(units, s, sched, now).end.Finished?
    ensures var r := RunOnce(units, s, sched, now);
            var r' := RunOnce(units, r.state, sched', now');
            && r'.state == r.state && r'.ran == []
            && (AllRead(sched') ==>
                 && r'.end.Finished?
                 && r'.summary == Summary([], seq(|units|, k requires 0 <= k < |units| => units[k].name), []))
  {
    FailClosed(units, s, sched, now);
    AllSkipped(units, 0, RunOnce(units, s, sched, now).state, sched', now', NO_SUMMARY, []);
  }

  /** What the summary of a report says about the units it called. */
  ghost predicate Tells<DB>(r: Report<DB>, sum: Summary, ran: seq<string>) {
    && ran <= r.ran && sum.applied <= r.summary.applied && sum.skipped <= r.summary.skipped
    && var called, applied := r.ran[|ran|..], r.summary.applied[|sum.applied|..];
       match r.end
       case Finished => applied == called && r.summary.failed == sum.failed
       case Threw(name) => applied + [name] == called && |r.summary.failed| == |sum.failed| + 1 &&
                           r.summary.failed[|sum.failed|].0 == name
       case ReadFailed => applied == called && r.summary.failed == sum.failed
       case Died => called != [] && applied == called[..|called| - 1] && r.summary.failed == sum.failed
  }

  /** One more unit applied at the front. */
  lemma TellsMore<DB>(r: Report<DB>, sum: Summary, ran: seq<string>, name: string)
    requires Tells(r, sum.(applied := sum.applied + [name]), ran + [name])
    ensures Tells(r, sum, ran)
  {
    assert r.ran[|ran|..] == [name] + r.ran[|ran| + 1..];
    assert r.summary.applied[|sum.applied|..] == [name] + r.summary.applied[|sum.applied| + 1..];
  }

  /**
   * The summary is exact: a run that finishes, or cannot read a record, lists as
   * applied the units it called; one that throws or dies lists all of them but
   * the last, and only a thrown one lists that last unit as failed.
   */
  lemma {:induction false} SummaryIsExact<DB>(units: seq<Migration<DB>>, i: nat, s: State<DB>, sched: seq<Attempt>, now: nat,
                                              sum: Summary, ran: seq<string>)
    requires i <= |units| == |sched|
    ensures Tells(Apply(units, i, s, sched, now, sum, ran), sum, ran)
    decreases |units| - i
  {
    if i == |units| || sched[i].ReadThrows? {
    } else {
      var u := units[i];
      if !IsPending(s.ledger, u) {
        SummaryIsExact(units, i + 1, s, sched, now, sum.(skipped := sum.skipped + [u.name]), ran);
      } else if sched[i].Completes? {
        var s', sum' := Try(u, s, sched[i], now), sum.(applied := sum.applied + [u.name]);
        SummaryIsExact(units, i + 1, s', sched, now, sum', ran + [u.name]);
        TellsMore(Apply(units, i, s, sched, now, sum, ran), sum, ran, u.name);
      }
    }
  }

  // ------------------------------------------------------------- baselines

  lemma {:induction false} RegisteredAt<DB>(units: seq<Migration<DB>>, j: nat)
    requires DistinctNames(units) && j < |units|
    ensures RegisteredChecksum(units, units[j].name) == units[j].checksum
  {
    if j == 0 {
    } else {
      assert units[1..][j - 1] == units[j];
      RegisteredAt(units[1..], j - 1);
    }
  }

  /** A baseline settles every unit it names, convergent ones at the checksum registered now, and runs none. */
  lemma {:induction false} BaselineSettles<DB>(units: seq<Migration<DB>>, names: seq<string>, ledger: Ledger, now: nat, j: nat)
    requires DistinctNames(units) && j < |units|
    ensures units[j].name in names ==> !IsPending(Stamp(units, names, ledger, now), units[j])
    ensures units[j].name !in names ==> (IsPending(Stamp(units, names, ledger, now), units[j]) <==> IsPending(ledger, units[j]))
  {
    if |names| == 0 {
    } else {
      var n := |names| - 1;
      BaselineSettles(units, names[..n], ledger, now, j);
      RegisteredAt(units, j);
      assert names == names[..n] + [names[n]];
    }
  }

  /** The baseline of all `once` units names exactly those. */
  lemma {:induction false} OnceNamesAre<DB>(units: seq<Migration<DB>>, name: string)
    ensures name in OnceNames(units) <==> exists i :: 0 <= i < |units| && units[i].kind.Once? && units[i].name == name
  {
    if |units| == 0 {
    } else {
      var n := |units| - 1;
      OnceNamesAre(units[..n], name);
      assert forall i :: 0 <= i < n ==> units[..n][i] == units[i];
    }
  }

  // ------------------------------------------------------------- failures

  /** The attempt was made and did not complete: the run throws or dies at this unit. */
  predicate AttemptFailed(a: Attempt) {
    !a.Completes? && !a.ReadThrows?
  }

  /** The `failed` record was written. */
  predicate FailureRecorded(a: Attempt) {
    (a.RunThrows? || a.ApplyWriteThrows?) && a.recorded
  }

  /** The `applied` record was written, although the attempt failed. */
  predicate AppliedLanded(a: Attempt) {
    (a.ApplyWriteThrows? && a.landed) || a.DiesAfterWrite?
  }

  /**
   * A unit whose attempt failed is attempted again under whatever version of it
   * the next registry holds exactly when the failure was recorded, or else the
   * record left standing does not satisfy that version: the one just written as
   * applied if that write landed, the one found before if not.
   */
  lemma FailedUnitIsRetried<DB>(u: Migration<DB>, s: State<DB>, a: Attempt, now: nat, next: Migration<DB>)
    requires IsPending(s.ledger, u) && AttemptFailed(a) && next.name == u.name
    ensures IsPending(Try(u, s, a, now).ledger, next) <==>
              || FailureRecorded(a)
              || if AppliedLanded(a) then next.kind.Convergent? && next.checksum != u.checksum else IsPending(s.ledger, next)
  {
  }

  /** A unit reported as failed, and never called again: its `applied` record landed although the write threw. */
  lemma {:induction false} FailedYetSkipped<DB>(u: Migration<DB>, s: State<DB>, message: string, now: nat, again: Attempt, later: nat)
    requires IsPending(s.ledger, u)
    ensures var r := RunOnce([u], s, [ApplyWriteThrows(true, message, false)], now);
            && r.end == Threw(u.name) && r.summary.failed == [(u.name, message)]
            && RunOnce([u], r.state, [again], later).ran == [] && RunOnce([u], r.state, [again], later).state == r.state
  {
    var r := RunOnce([u], s, [ApplyWriteThrows(true, message, false)], now);
    assert r.summary.failed == [] + [(u.name, message)];
    var sum := NO_SUMMARY.(skipped := NO_SUMMARY.skipped + [u.name]);
    assert again.ReadThrows? || RunOnce([u], r.state, [again], later) == Apply([u], 1, r.state, [again], later, sum, []) by {
      assert !IsPending(r.state.ledger, [u][0]);
    }
  }

  /** The exception is real: the failing version is withdrawn, its predecessor's record still says applied. */
  lemma WithdrawnVersionIsSkipped(run: nat -> nat, halt: (nat, nat) -> nat)
    ensures var v1 := Migration("0004_seed", Convergent, Some("v1"), run, halt);
            var v2 := v1.(checksum := Some("v2"));
            var s := State(map["0004_seed" := Record(Applied, Some("v1"), Some(0), None)], 0);
            var swallowed := RunThrows(0, "boom", false);
            IsPending(s.ledger, v2) && !IsPending(Try(v2, s, swallowed, 1).ledger, v1)
  {
  }

  // -------------------------------------------------------------- histories

  /** One thing that happens to the deployment over time. */
  datatype Op<!DB> =
    | Deploy(units: seq<Migration<DB>>, sched: seq<Attempt>, now: nat)
    | LostClaim
    | Baseline(registry: seq<Migration<DB>>, names: seq<string>, at: nat)

  ghost predicate WellFormed<DB>(op: Op<DB>) {
    op.Deploy? ==> |op.sched| == |op.units| && DistinctNames(op.units)
  }

  function Exec<DB>(op: Op<DB>, s: State<DB>): State<DB>
    requires op.Deploy? ==> |op.sched| == |op.units|
  {
    match op
    case Deploy(units, sched, now) => RunOnce(units, s, sched, now).state
    case LostClaim => s
    case Baseline(registry, names, at) => s.(ledger := Stamp(registry, names, s.ledger, at))
  }

  function Called<DB>(op: Op<DB>, s: State<DB>): seq<string>
    requires op.Deploy? ==> |op.sched| == |op.units|
  {
    if op.Deploy? then RunOnce(op.units, s, op.sched, op.now).ran else []
  }

  ghost predicate WellFormedAll<DB>(ops: seq<Op<DB>>) {
    forall op :: op in ops ==> WellFormed(op)
  }

  ghost function After<DB>(ops: seq<Op<DB>>, s: State<DB>): State<DB>
    requires WellFormedAll(ops)
  {
    if |ops| == 0 then s else assert ops[0] in ops; After(ops[1..], Exec(ops[0], s))
  }

  /** Every call of a `run` in the whole history, in order. */
  ghost function Calls<DB>(ops: seq<Op<DB>>, s: State<DB>): seq<string>
    requires WellFormedAll(ops)
  {
    if |ops| == 0 then [] else assert ops[0] in ops; Called(ops[0], s) + Calls(ops[1..], Exec(ops[0], s))
  }

  ghost predicate AppliedIn(ledger: Ledger, name: string) {
    name in ledger && ledger[name].status.Applied?
  }

  /** No registry of the history turns `name` into anything but a `once` unit. */
  ghost predicate AlwaysOnce<DB>(ops: seq<Op<DB>>, name: string) {
    forall op, u :: op in ops && op.Deploy? && u in op.units && u.name == name ==> u.kind.Once?
  }

  lemma {:induction false} StampApplies<DB>(units: seq<Migration<DB>>, names: seq<string>, ledger: Ledger, now: nat, name: string)
    ensures name in names ==> AppliedIn(Stamp(units, names, ledger, now), name)
    ensures name !in names ==> SameRecord(ledger, Stamp(units, names, ledger, now), name)
  {
    if |names| == 0 {
    } else {
      StampApplies(units, names[..|names| - 1], ledger, now, name);
      assert names == names[..|names| - 1] + [names[|names| - 1]];
    }
  }

  lemma {:induction false} PendingNamesArePending<DB>(units: seq<Migration<DB>>, i: nat, k: nat, ledger: Ledger, name: string)
    requires i <= k <= |units|
    requires forall j :: i <= j < k && units[j].name == name ==> !IsPending(ledger, units[j])
    ensures name !in PendingNames(units, i, k, ledger)
    decreases k - i
  {
    if i < k { PendingNamesArePending(units, i + 1, k, ledger, name); }
  }

  lemma OnceStaysPut<DB>(op: Op<DB>, s: State<DB>, name: string)
    requires WellFormed(op) && AppliedIn(s.ledger, name) && AlwaysOnce([op], name)
    ensures name !in Called(op, s) && AppliedIn(Exec(op, s).ledger, name)
  {
    match op
    case Deploy(units, sched, now) =>
      assert op in [op];
      FailClosed(units, s, sched, now);
      var stop := StopOf(units, 0, s, sched, now);
      var k := Upto(stop, sched);
      PendingNamesArePending(units, 0, k, s.ledger, name);
      var r := RunOnce(units, s, sched, now);
      if Named(units, 0, k, name) {
        var j :| 0 <= j < k && units[j].name == name;
        assert !IsPending(s.ledger, units[j]);
        assert j != stop;
        assert !IsPending(r.state.ledger, units[j]);
      } else {
        assert SameRecord(s.ledger, r.state.ledger, name);
      }
    case LostClaim =>
    case Baseline(registry, names, at) =>
      StampApplies(registry, names, s.ledger, at, name);
  }

  /**
   * Once a `once` unit is applied, by a run or by a baseline, nothing calls it
   * again: growing registries, checksum bumps, crashes, failed ledger writes,
   * later baselines and instances that lose the claim included.
   */
  lemma {:induction false} OnceNeverRunsAgain<DB>(ops: seq<Op<DB>>, s: State<DB>, name: string)
    requires WellFormedAll(ops) && AlwaysOnce(ops, name) && AppliedIn(s.ledger, name)
    ensures name !in Calls(ops, s) && AppliedIn(After(ops, s).ledger, name)
  {
    if |ops| == 0 {
    } else {
      assert forall op :: op in ops[1..] ==> op in ops;
      assert ops[0] in ops;
      OnceStaysPut(ops[0], s, name);
      OnceNeverRunsAgain(ops[1..], Exec(ops[0], s), name);
    }
  }

  // ------------------------------------------- failed units over a history

  /** What an attempt makes of a unit's record does not depend on an attempt at another unit before it. */
  lemma TryAfterOther<DB>(u: Migration<DB>, v: Migration<DB>, s: State<DB>, a: Attempt, b: Attempt, now: nat)
    requires u.name != v.name
    ensures SameRecord(Try(v, s, b, now).ledger, Try(v, Try(u, s, a, now), b, now).ledger, v.name)
  {
  }

  /** The record a run leaves of the unit it stopped at is what that attempt made of the one it found. */
  lemma {:induction false} StopRecord<DB>(units: seq<Migration<DB>>, i: nat, s: State<DB>, sched: seq<Attempt>, now: nat,
                                          sum: Summary, ran: seq<string>)
    requires DistinctNames(units) && i <= |units| == |sched|
    ensures var stop := StopOf(units, i, s, sched, now);
            var r := Apply(units, i, s, sched, now, sum, ran);
            stop < |units| && !sched[stop].ReadThrows? ==>
              SameRecord(Try(units[stop], s, sched[stop], now).ledger, r.state.ledger, units[stop].name)
    decreases |units| - i
  {
    if i == |units| || sched[i].ReadThrows? {
    } else if !IsPending(s.ledger, units[i]) {
      StopRecord(units, i + 1, s, sched, now, sum.(skipped := sum.skipped + [units[i].name]), ran);
    } else if sched[i].Completes? {
      var s' := Try(units[i], s, sched[i], now);
      StopRecord(units, i + 1, s', sched, now, sum.(applied := sum.applied + [units[i].name]), ran + [units[i].name]);
      var stop := StopOf(units, i + 1, s', sched, now);
      if stop < |units| {
        TryAfterOther(units[i], units[stop], s, sched[i], sched[stop], now);
      }
    }
  }

  /** A run leaves the record of a unit it did not call. */
  lemma {:induction false} UncalledKept<DB>(units: seq<Migration<DB>>, i: nat, s: State<DB>, sched: seq<Attempt>, now: nat,
                                            sum: Summary, ran: seq<string>, name: string)
    requires i <= |units| == |sched| && name !in Apply(units, i, s, sched, now, sum, ran).ran
    ensures SameRecord(s.ledger, Apply(units, i, s, sched, now, sum, ran).state.ledger, name)
    decreases |units| - i
  {
    if i == |units| || sched[i].ReadThrows? {
    } else if !IsPending(s.ledger, units[i]) {
      UncalledKept(units, i + 1, s, sched, now, sum.(skipped := sum.skipped + [units[i].name]), ran, name);
    } else {
      var r, ran' := Apply(units, i, s, sched, now, sum, ran), ran + [units[i].name];
      if sched[i].Completes? {
        var sum' := sum.(applied := sum.applied + [units[i].name]);
        var s' := Try(units[i], s, sched[i], now);
        SummaryIsExact(units, i + 1, s', sched, now, sum', ran');
        assert ran' <= r.ran && ran'[|ran|] in ran';
        UncalledKept(units, i + 1, s', sched, now, sum', ran', name);
      }
    }
  }

  /** The deployment came to unit `j`, and the attempt at it failed. */
  ghost predicate FailedAt<DB>(op: Op<DB>, s: State<DB>, j: nat) {
    op.Deploy? && |op.sched| == |op.units| && j == StopOf(op.units, 0, s, op.sched, op.now) < |op.units| && AttemptFailed(op.sched[j])
  }

  /** The history neither calls nor baselines `name`. */
  ghost predicate LeavesAlone<DB>(ops: seq<Op<DB>>, s: State<DB>, name: string)
    requires WellFormedAll(ops)
  {
    |ops| > 0 ==>
      assert ops[0] in ops;
      && name !in Called(ops[0], s)
      && (ops[0].Baseline? ==> name !in ops[0].names)
      && LeavesAlone(ops[1..], Exec(ops[0], s), name)
  }

  lemma {:induction false} RecordKept<DB>(ops: seq<Op<DB>>, s: State<DB>, name: string)
    requires WellFormedAll(ops) && LeavesAlone(ops, s, name)
    ensures SameRecord(s.ledger, After(ops, s).ledger, name)
  {
    if |ops| == 0 {
    } else {
      assert ops[0] in ops;
      match ops[0] {
        case Deploy(units, sched, now) => UncalledKept(units, 0, s, sched, now, NO_SUMMARY, [], name);
        case LostClaim =>
        case Baseline(registry, names, at) => StampApplies(registry, names, s.ledger, at, name);
      }
      RecordKept(ops[1..], Exec(ops[0], s), name);
    }
  }

  lemma {:induction false} PendingNamesIff<DB>(units: seq<Migration<DB>>, i: nat, k: nat, ledger: Ledger, m: nat)
    requires DistinctNames(units) && i <= m < k <= |units|
    ensures units[m].name in PendingNames(units, i, k, ledger) <==> IsPending(ledger, units[m])
    decreases k - i
  {
    if i < m {
      PendingNamesIff(units, i + 1, k, ledger, m);
    } else if !IsPending(ledger, units[m]) {
      PendingNamesArePending(units, i, k, ledger, units[m].name);
    }
  }

  /**
   * Over all histories, exactly when a failed unit is called again: whatever
   * happened in between without it, the next deployment that comes to a unit of
   * that name calls it if and only if the failure was recorded, or the record the
   * failed attempt left standing does not satisfy the version now registered. The
   * version that failed is called exactly unless its `applied` record landed and
   * the failure went unrecorded.
   */
  lemma FailedUnitIsCalledIff<DB>(failing: Op<DB>, s: State<DB>, j: nat, later: seq<Op<DB>>, next: Op<DB>, m: nat)
    requires WellFormed(failing) && FailedAt(failing, s, j)
    requires WellFormedAll(later) && LeavesAlone(later, Exec(failing, s), failing.units[j].name)
    requires WellFormed(next) && next.Deploy? && m < |next.units| && next.units[m].name == failing.units[j].name
    requires m < Upto(StopOf(next.units, 0, After(later, Exec(failing, s)), next.sched, next.now), next.sched)
    ensures failing.units[j].name in Called(next, After(later, Exec(failing, s))) <==>
              || FailureRecorded(failing.sched[j])
              || if AppliedLanded(failing.sched[j])
                 then next.units[m].kind.Convergent? && next.units[m].checksum != failing.units[j].checksum
                 else IsPending(s.ledger, next.units[m])
    ensures next.units[m].kind == failing.units[j].kind && next.units[m].checksum == failing.units[j].checksum ==>
              (failing.units[j].name in Called(next, After(later, Exec(failing, s))) <==>
                 FailureRecorded(failing.sched[j]) || !AppliedLanded(failing.sched[j]))
  {
    var u, name, s1 := failing.units[j], failing.units[j].name, Exec(failing, s);
    var s2 := After(later, s1);
    FailClosed(failing.units, s, failing.sched, failing.now);
    StopRecord(failing.units, 0, s, failing.sched, failing.now, NO_SUMMARY, []);
    RecordKept(later, s1, name);
    assert SameRecord(Try(u, s, failing.sched[j], failing.now).ledger, s2.ledger, name);
    FailedUnitIsRetried(u, s, failing.sched[j], failing.now, next.units[m]);
    FailClosed(next.units, s2, next.sched, next.now);
    PendingNamesIff(next.units, 0, Upto(StopOf(next.units, 0, s2, next.sched, next.now), next.sched), s2.ledger, m);
  }

  // ------------------------------------------------------------- refinement

  /** A rerun from anywhere an attempt can leave the database comes to the same end as one undisturbed run. */
  ghost predicate Retryable<DB(!new)>(u: Migration<DB>) {
    && (forall d :: u.run(u.run(d)) == u.run(d))
    && (forall d, k :: u.run(u.halt(d, k)) == u.run(d))
  }

  /** The specification: each of the first `n` units that is pending in `ledger`, once, in order. */
  function EachPendingOnce<DB>(units: seq<Migration<DB>>, ledger: Ledger, d: DB, n: nat): DB
    requires n <= |units|
  {
    if n == 0 then d
    else
      var before := EachPendingOnce(units, ledger, d, n - 1);
      if IsPending(ledger, units[n - 1]) then units[n - 1].run(before) else before
  }

  /** Between runs: units below `i` are done, unit `i` may be half done, the rest is as at the start. */
  ghost predicate Midway<DB>(units: seq<Migration<DB>>, s0: State<DB>, s: State<DB>, i: nat) {
    && i <= |units|
    && (forall j :: 0 <= j < |units| ==>
          (IsPending(s.ledger, units[j]) <==> i <= j && IsPending(s0.ledger, units[j])))
    && var target := EachPendingOnce(units, s0.ledger, s0.db, i);
       s.db == target ||
       (i < |units| && IsPending(s0.ledger, units[i]) && units[i].run(s.db) == units[i].run(target))
  }

  lemma AttemptKeepsMidway<DB(!new)>(units: seq<Migration<DB>>, s0: State<DB>, s: State<DB>, i: nat, a: Attempt, now: nat)
    requires DistinctNames(units) && i < |units| && Retryable(units[i])
    requires Midway(units, s0, s, i) && IsPending(s.ledger, units[i])
    ensures Midway(units, s0, Try(units[i], s, a, now), if Settles(a) then i + 1 else i)
  {
    TrySettles(units[i], s, a, now);
    var s' := Try(units[i], s, a, now);
    forall j | 0 <= j < |units|
      ensures IsPending(s'.ledger, units[j]) <==> (if Settles(a) then i + 1 else i) <= j && IsPending(s0.ledger, units[j])
    {
      if j != i {
        assert SameRecord(s.ledger, s'.ledger, units[j].name);
      }
    }
  }

  lemma SkipKeepsMidway<DB>(units: seq<Migration<DB>>, s0: State<DB>, s: State<DB>, i: nat)
    requires i < |units| && Midway(units, s0, s, i) && !IsPending(s.ledger, units[i])
    ensures Midway(units, s0, s, i + 1)
  {
  }

  /** One run, over any prefix of the final registry, from any state between runs. */
  lemma {:induction false} RunKeepsMidway<DB(!new)>(units: seq<Migration<DB>>, m: nat, k: nat, s0: State<DB>, s: State<DB>,
      i: nat, sched: seq<Attempt>, now: nat, sum: Summary, ran: seq<string>) returns (i': nat)
    requires DistinctNames(units) && (forall j :: 0 <= j < |units| ==> Retryable(units[j]))
    requires k <= m <= |units| && |sched| == m && k <= i && Midway(units, s0, s, i)
    ensures var r := Apply(units[..m], k, s, sched, now, sum, ran);
            Midway(units, s0, r.state, i') && (r.end.Finished? ==> m <= i')
    decreases m - k
  {
    var u := units[..m];
    if k == m || sched[k].ReadThrows? {
      return i;
    }
    assert u[k] == units[k];
    if !IsPending(s.ledger, u[k]) {
      if k == i { SkipKeepsMidway(units, s0, s, i); }
      i' := RunKeepsMidway(units, m, k + 1, s0, s, if k == i then i + 1 else i, sched, now,
                           sum.(skipped := sum.skipped + [u[k].name]), ran);
      return;
    }
    AttemptKeepsMidway(units, s0, s, i, sched[k], now);
    var s' := Try(u[k], s, sched[k], now);
    if sched[k].Completes? {
      i' := RunKeepsMidway(units, m, k + 1, s0, s', i + 1, sched, now,
                           sum.(applied := sum.applied + [u[k].name]), ran + [u[k].name]);
    } else {
      i' := if Settles(sched[k]) then i + 1 else i;
    }
  }

  /** Deployments of growing (or rolled back) registries: each is a prefix of the final one. */
  ghost predicate PrefixDeploys<DB>(ops: seq<Op<DB>>, units: seq<Migration<DB>>) {
    forall op :: op in ops ==> op.LostClaim? || (op.Deploy? && |op.sched| == |op.units| && op.units <= units)
  }

  lemma {:induction false} HistoryKeepsMidway<DB(!new)>(units: seq<Migration<DB>>, s0: State<DB>, s: State<DB>, i: nat,
                                                        ops: seq<Op<DB>>) returns (i': nat)
    requires DistinctNames(units) && (forall j :: 0 <= j < |units| ==> Retryable(units[j]))
    requires PrefixDeploys(ops, units) && WellFormedAll(ops) && Midway(units, s0, s, i)
    ensures Midway(units, s0, After(ops, s), i')
    decreases |ops|
  {
    if |ops| == 0 {
      return i;
    }
    assert forall op :: op in ops[1..] ==> op in ops;
    assert ops[0] in ops;
    var mid := i;
    if ops[0].Deploy? {
      assert ops[0].units == units[..|ops[0].units|];
      mid := RunKeepsMidway(units, |ops[0].units|, 0, s0, s, i, ops[0].sched, ops[0].now, NO_SUMMARY, []);
    }
    i' := HistoryKeepsMidway(units, s0, Exec(ops[0], s), mid, ops[1..]);
  }

  /**
   * Crash/retry refinement. After any history of deployments, each cut short
   * anywhere, the first run of the full registry that finishes leaves the
   * database as if every unit pending at the start had run exactly once, in
   * registry order, and nothing is pending any more.
   */
  lemma {:induction false} ExactlyOnceInOrder<DB(!new)>(units: seq<Migration<DB>>, s: State<DB>, ops: seq<Op<DB>>, sched: seq<Attempt>, now: nat)
    requires DistinctNames(units) && (forall j :: 0 <= j < |units| ==> Retryable(units[j]))
    requires PrefixDeploys(ops, units) && WellFormedAll(ops) && |sched| == |units|
    requires RunOnce(units, After(ops, s), sched, now).end.Finished?
    ensures var final := RunOnce(units, After(ops, s), sched, now).state;
            && final.db == EachPendingOnce(units, s.ledger, s.db, |units|)
            && (forall j :: 0 <= j < |units| ==> !IsPending(final.ledger, units[j]))
  {
    var i := HistoryKeepsMidway(units, s, s, 0, ops);
    assert units[..|units|] == units;
    var i' := RunKeepsMidway(units, |units|, 0, s, After(ops, s), i, sched, now, NO_SUMMARY, []);
  }
}
