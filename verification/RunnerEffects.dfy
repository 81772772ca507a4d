/**
 * One run of the migration runner, written out: which units it calls, what its
 * summary lists, every record it leaves, and the database at each unit.
 */
module RunnerEffects {
  import opened Prelude
  import opened MigrationRunner

  /** The unit has to run: no record, a failed one, or for a convergent unit one of another checksum. */
  ghost predicate Due<DB>(ledger: Ledger, u: Migration<DB>) {
    || u.name !in ledger
    || ledger[u.name].status == Failed
    || (u.kind == Convergent && ledger[u.name].checksum != u.checksum)
  }

  lemma DueIs<DB>(ledger: Ledger, u: Migration<DB>)
    ensures IsPending(ledger, u) <==> Due(ledger, u)
  {
  }

  /** The names of the first `n` units that are due, and of those that are not, each in registry order. */
  ghost function NamesOf<DB>(units: seq<Migration<DB>>, ledger: Ledger, n: nat, due: bool): seq<string>
    requires n <= |units|
  {
    if n == 0 then []
    else NamesOf(units, ledger, n - 1, due) + (if Due(ledger, units[n - 1]) == due then [units[n - 1].name] else [])
  }

  /** The run goes on after unit `j`: its record was read, and it was settled or completed. */
  ghost predicate GoesOn<DB>(units: seq<Migration<DB>>, ledger: Ledger, sched: seq<Attempt>, j: nat)
    requires j < |units| == |sched|
  {
    sched[j] != ReadThrows && (Due(ledger, units[j]) ==> sched[j] == Completes)
  }

  /** The first unit after which the run does not go on, or the end. */
  ghost predicate StopsAt<DB>(units: seq<Migration<DB>>, ledger: Ledger, sched: seq<Attempt>, stop: nat)
    requires |units| == |sched|
  {
    && stop <= |units|
    && (forall j :: 0 <= j < stop ==> GoesOn(units, ledger, sched, j))
    && (stop < |units| ==> !GoesOn(units, ledger, sched, stop))
  }

  /** `dbs[j]` is the database when the run comes to unit `j`. */
  ghost predicate Databases<DB>(units: seq<Migration<DB>>, s: State<DB>, n: nat, dbs: seq<DB>)
    requires n <= |units|
  {
    && |dbs| == n + 1 && dbs[0] == s.db
    && forall j :: 0 <= j < n ==> dbs[j + 1] == if Due(s.ledger, units[j]) then units[j].run(dbs[j]) else dbs[j]
  }

  /** Every called unit among the first `n` has its applied record; every other name has the record it had. */
  ghost predicate Records<DB>(units: seq<Migration<DB>>, before: Ledger, n: nat, after: Ledger, now: nat)
    requires n <= |units|
  {
    && (forall j :: 0 <= j < n && Due(before, units[j]) ==>
          units[j].name in after && after[units[j].name] == Record(Applied, units[j].checksum, Some(now), None))
    && (forall name :: (forall j :: 0 <= j < n && Due(before, units[j]) ==> units[j].name != name) ==> SameRecord(before, after, name))
  }

  lemma RecordsOn<DB>(units: seq<Migration<DB>>, before: Ledger, n: nat, after: Ledger, now: nat)
    requires DistinctNames(units) && n < |units| && Records(units, before, n, after, now)
    ensures IsPending(after, units[n]) <==> Due(before, units[n])
    ensures Records(units, before, n + 1, if Due(before, units[n]) then RecordApplied(after, units[n], now) else after, now)
  {
    assert SameRecord(before, after, units[n].name);
    var next := if Due(before, units[n]) then RecordApplied(after, units[n], now) else after;
    forall name | forall j :: 0 <= j < n + 1 && Due(before, units[j]) ==> units[j].name != name
      ensures SameRecord(before, next, name)
    {
      assert SameRecord(before, after, name);
    }
  }

  /** Up to unit `n`, as long as the run goes on. */
  lemma {:induction false} Proceeds<DB>(units: seq<Migration<DB>>, s: State<DB>, sched: seq<Attempt>, now: nat, n: nat)
      returns (at: State<DB>, dbs: seq<DB>)
    requires DistinctNames(units) && |units| == |sched| && n <= |units|
    requires forall j :: 0 <= j < n ==> GoesOn(units, s.ledger, sched, j)
    ensures RunOnce(units, s, sched, now) ==
            Apply(units, n, at, sched, now,
                  Summary(NamesOf(units, s.ledger, n, true), NamesOf(units, s.ledger, n, false), []),
                  NamesOf(units, s.ledger, n, true))
    ensures Databases(units, s, n, dbs) && dbs[n] == at.db
    ensures Records(units, s.ledger, n, at.ledger, now)
  {
    if n == 0 {
      at, dbs := s, [s.db];
    } else {
      at, dbs := Proceeds(units, s, sched, now, n - 1);
      assert GoesOn(units, s.ledger, sched, n - 1);
      RecordsOn(units, s.ledger, n - 1, at.ledger, now);
      DatabasesOn(units, s, n - 1, dbs);
      if Due(s.ledger, units[n - 1]) {
        at := State(RecordApplied(at.ledger, units[n - 1], now), units[n - 1].run(at.db));
      }
      dbs := dbs + [at.db];
      assert NamesOf(units, s.ledger, n - 1, true) + [] == NamesOf(units, s.ledger, n - 1, true);
      assert NamesOf(units, s.ledger, n - 1, false) + [] == NamesOf(units, s.ledger, n - 1, false);
    }
  }

  lemma DatabasesOn<DB>(units: seq<Migration<DB>>, s: State<DB>, n: nat, dbs: seq<DB>)
    requires n < |units| && Databases(units, s, n, dbs)
    ensures Databases(units, s, n + 1, dbs + [if Due(s.ledger, units[n]) then units[n].run(dbs[n]) else dbs[n]])
  {
  }

  /** The record of the unit the run stopped at, by what befell it there. */
  ghost predicate StopRecordIs<DB>(u: Migration<DB>, before: Ledger, after: Ledger, a: Attempt, now: nat) {
    var since := if u.name in before then before[u.name].appliedAt else None;
    var applied := u.name in after && after[u.name] == Record(Applied, u.checksum, Some(now), None);
    match a
    case ReadThrows => SameRecord(before, after, u.name)
    case Completes => applied
    case RunThrows(_, message, recorded) =>
      if recorded then u.name in after && after[u.name] == Record(Failed, u.checksum, since, Some(message))
      else SameRecord(before, after, u.name)
    case ApplyWriteThrows(landed, message, recorded) =>
      if recorded then
        u.name in after && after[u.name] == Record(Failed, u.checksum, if landed then Some(now) else since, Some(message))
      else if landed then applied
      else SameRecord(before, after, u.name)
    case DiesInRun(_) => SameRecord(before, after, u.name)
    case DiesBeforeWrite => SameRecord(before, after, u.name)
    case DiesAfterWrite => applied
  }

  /** What is left of a database `d` by the attempt the run stopped at. */
  ghost function StopDb<DB>(u: Migration<DB>, d: DB, a: Attempt): DB {
    match a
    case ReadThrows => d
    case RunThrows(at, _, _) => u.halt(d, at)
    case DiesInRun(at) => u.halt(d, at)
    case _ => u.run(d)
  }

  ghost function EndOf(name: string, a: Attempt): End {
    match a
    case ReadThrows => ReadFailed
    case Completes => Finished
    case RunThrows(_, _, _) => Threw(name)
    case ApplyWriteThrows(_, _, _) => Threw(name)
    case _ => Died
  }

  ghost function FailedOf(name: string, a: Attempt): seq<(string, string)> {
    match a
    case RunThrows(_, message, _) => [(name, message)]
    case ApplyWriteThrows(_, message, _) => [(name, message)]
    case _ => []
  }

  /** How a run that stopped at unit `stop` ended, and what it lists. */
  ghost predicate Listed<DB>(units: seq<Migration<DB>>, ledger: Ledger, sched: seq<Attempt>, stop: nat, r: Report<DB>)
    requires stop <= |units| == |sched|
  {
    && r.end == (if stop == |units| then Finished else EndOf(units[stop].name, sched[stop]))
    && r.ran == NamesOf(units, ledger, stop, true) +
                (if stop < |units| && sched[stop] != ReadThrows then [units[stop].name] else [])
    && r.summary.applied == NamesOf(units, ledger, stop, true)
    && r.summary.skipped == NamesOf(units, ledger, stop, false)
    && r.summary.failed == if stop == |units| then [] else FailedOf(units[stop].name, sched[stop])
  }

  /** What it leaves: the records up to the stop, that of the stop itself, and the database. */
  ghost predicate Left<DB>(units: seq<Migration<DB>>, s: State<DB>, sched: seq<Attempt>, now: nat, stop: nat, dbs: seq<DB>, r: Report<DB>)
    requires stop <= |units| == |sched| && Databases(units, s, stop, dbs)
  {
    && r.state.db == (if stop == |units| then dbs[stop] else StopDb(units[stop], dbs[stop], sched[stop]))
    && (forall j :: 0 <= j < stop && Due(s.ledger, units[j]) ==>
          units[j].name in r.state.ledger &&
          r.state.ledger[units[j].name] == Record(Applied, units[j].checksum, Some(now), None))
    && (stop < |units| ==> StopRecordIs(units[stop], s.ledger, r.state.ledger, sched[stop], now))
    && (forall name :: Untouched(units, s.ledger, stop, name) ==> SameRecord(s.ledger, r.state.ledger, name))
  }

  /** No unit called up to and including the stop has the name. */
  ghost predicate Untouched<DB>(units: seq<Migration<DB>>, ledger: Ledger, stop: nat, name: string) {
    forall j :: 0 <= j <= stop && j < |units| && Due(ledger, units[j]) ==> units[j].name != name
  }

  lemma AtStop<DB>(units: seq<Migration<DB>>, s: State<DB>, sched: seq<Attempt>, now: nat, stop: nat, at: State<DB>, dbs: seq<DB>)
    requires DistinctNames(units) && |units| == |sched| && StopsAt(units, s.ledger, sched, stop)
    requires Databases(units, s, stop, dbs) && dbs[stop] == at.db && Records(units, s.ledger, stop, at.ledger, now)
    ensures var sum := Summary(NamesOf(units, s.ledger, stop, true), NamesOf(units, s.ledger, stop, false), []);
            var r := Apply(units, stop, at, sched, now, sum, NamesOf(units, s.ledger, stop, true));
            Listed(units, s.ledger, sched, stop, r) && r.state == (if stop == |units| then at else Try(units[stop], at, sched[stop], now))
  {
    var called := NamesOf(units, s.ledger, stop, true);
    if stop < |units| {
      RecordsOn(units, s.ledger, stop, at.ledger, now);
      var failed: seq<(string, string)> := FailedOf(units[stop].name, sched[stop]);
      assert [] + failed == failed;
    }
    assert called + [] == called;
  }

  lemma LeftAtStop<DB>(units: seq<Migration<DB>>, s: State<DB>, sched: seq<Attempt>, now: nat, stop: nat, at: State<DB>,
                       dbs: seq<DB>, r: Report<DB>)
    requires DistinctNames(units) && |units| == |sched| && StopsAt(units, s.ledger, sched, stop)
    requires Databases(units, s, stop, dbs) && dbs[stop] == at.db && Records(units, s.ledger, stop, at.ledger, now)
    requires r.state == if stop == |units| then at else Try(units[stop], at, sched[stop], now)
    ensures Left(units, s, sched, now, stop, dbs, r)
  {
    if stop < |units| {
      assert SameRecord(s.ledger, at.ledger, units[stop].name);
      TryKeepsOthers(units[stop], at, sched[stop], now);
      StopRecord(units[stop], s.ledger, at, sched[stop], now);
    }
    forall name | Untouched(units, s.ledger, stop, name) ensures SameRecord(s.ledger, r.state.ledger, name) {
      assert SameRecord(s.ledger, at.ledger, name);
      if stop < |units| && !Due(s.ledger, units[stop]) { assert sched[stop].ReadThrows?; }
    }
  }

  lemma TryKeepsOthers<DB>(u: Migration<DB>, at: State<DB>, a: Attempt, now: nat)
    ensures forall name :: name != u.name ==> SameRecord(at.ledger, Try(u, at, a, now).ledger, name)
    ensures a.ReadThrows? ==> Try(u, at, a, now) == at
  {
  }

  lemma StopRecord<DB>(u: Migration<DB>, before: Ledger, at: State<DB>, a: Attempt, now: nat)
    requires SameRecord(before, at.ledger, u.name)
    ensures StopRecordIs(u, before, Try(u, at, a, now).ledger, a, now)
    ensures a != Completes ==> Try(u, at, a, now).db == StopDb(u, at.db, a)
  {
  }

  lemma {:induction false} FindStop<DB>(units: seq<Migration<DB>>, ledger: Ledger, sched: seq<Attempt>, n: nat) returns (stop: nat)
    requires |units| == |sched| && n <= |units| && forall j :: 0 <= j < n ==> GoesOn(units, ledger, sched, j)
    ensures StopsAt(units, ledger, sched, stop)
    decreases |units| - n
  {
    if n == |units| || !GoesOn(units, ledger, sched, n) {
      stop := n;
    } else {
      stop := FindStop(units, ledger, sched, n + 1);
    }
  }

  /**
   * One run, exactly: it stops at the first unit whose record cannot be read or
   * whose attempt does not complete; up to there it has called the due units and
   * skipped the others, in order; the summary lists them, and the failure with its
   * message; each called unit has its applied record, the one at the stop what
   * befell it, and no other record changed; the database went through each call once.
   */
  lemma RunIs<DB>(units: seq<Migration<DB>>, s: State<DB>, sched: seq<Attempt>, now: nat) returns (stop: nat, dbs: seq<DB>)
    requires DistinctNames(units) && |units| == |sched|
    ensures StopsAt(units, s.ledger, sched, stop) && Databases(units, s, stop, dbs)
    ensures Listed(units, s.ledger, sched, stop, RunOnce(units, s, sched, now))
    ensures Left(units, s, sched, now, stop, dbs, RunOnce(units, s, sched, now))
  {
    var at;
    stop := FindStop(units, s.ledger, sched, 0);
    at, dbs := Proceeds(units, s, sched, now, stop);
    AtStop(units, s, sched, now, stop, at, dbs);
    LeftAtStop(units, s, sched, now, stop, at, dbs, RunOnce(units, s, sched, now));
  }

  // --------------------------------------------------------------- baselines

  /** The checksum of the first unit registered under the name. */
  ghost predicate Registered<DB>(units: seq<Migration<DB>>, name: string, checksum: Option<string>) {
    if exists j :: 0 <= j < |units| && units[j].name == name
    then exists j: nat :: FirstNamed(units, name, j) && units[j].checksum == checksum
    else checksum == None
  }

  ghost predicate FirstNamed<DB>(units: seq<Migration<DB>>, name: string, j: nat) {
    j < |units| && units[j].name == name && forall i :: 0 <= i < j ==> units[i].name != name
  }

  lemma {:induction false} RegisteredFrom<DB>(units: seq<Migration<DB>>, name: string) returns (j: nat)
    ensures j <= |units| && forall i :: 0 <= i < j ==> units[i].name != name
    ensures if j < |units| then units[j].name == name && RegisteredChecksum(units, name) == units[j].checksum
            else RegisteredChecksum(units, name) == None
  {
    j := 0;
    if |units| > 0 && units[0].name != name {
      j := RegisteredFrom(units[1..], name);
      j := j + 1;
      assert forall i :: 0 < i < |units| ==> units[i] == units[1..][i - 1];
    }
  }

  lemma RegisteredIs<DB>(units: seq<Migration<DB>>, name: string)
    ensures Registered(units, name, RegisteredChecksum(units, name))
  {
    var j := RegisteredFrom(units, name);
    if j < |units| { assert FirstNamed(units, name, j); }
  }

  lemma {:induction false} StampRecord<DB>(units: seq<Migration<DB>>, names: seq<string>, ledger: Ledger, now: nat, name: string)
    requires name in names
    ensures var after := Stamp(units, names, ledger, now);
            name in after && after[name] == Record(Applied, RegisteredChecksum(units, name), Some(now), None)
  {
    InitAndLast(names);
    if names[|names| - 1] != name { StampRecord(units, names[..|names| - 1], ledger, now, name); }
  }

  /** A baseline: the named records are applied now, at the registered checksum, without an error; the others stay. */
  lemma BaselineIs<DB>(units: seq<Migration<DB>>, names: seq<string>, ledger: Ledger, now: nat, name: string)
      returns (checksum: Option<string>)
    ensures Registered(units, name, checksum)
    ensures var after := Stamp(units, names, ledger, now);
            if name in names then name in after && after[name] == Record(Applied, checksum, Some(now), None)
            else SameRecord(ledger, after, name)
  {
    checksum := RegisteredChecksum(units, name);
    RegisteredIs(units, name);
    if name in names { StampRecord(units, names, ledger, now, name); }
    StampApplies(units, names, ledger, now, name);
  }

  /** The names a full baseline stamps are those of the `once` units, in registry order. */
  lemma {:induction false} OnceNamesInOrder<DB>(units: seq<Migration<DB>>, n: nat) returns (ks: seq<nat>)
    requires n <= |units|
    ensures |OnceNames(units[..n])| == |ks| && forall k :: 0 <= k < |ks| ==> ks[k] < n && OnceNames(units[..n])[k] == units[ks[k]].name
    ensures forall k, l :: 0 <= k < l < |ks| ==> ks[k] < ks[l]
    ensures forall i: nat :: i < n ==> (i in ks <==> units[i].kind == Once)
  {
    ks := [];
    if n > 0 {
      ks := OnceNamesInOrder(units, n - 1);
      assert units[..n][..n - 1] == units[..n - 1];
      if units[n - 1].kind.Once? {
        var more := ks + [n - 1];
        assert more[|ks|] == n - 1;
        assert forall i: nat :: i < n - 1 ==> (i in more <==> i in ks);
        ks := more;
      } else {
        assert n - 1 !in ks;
      }
    }
  }
}
