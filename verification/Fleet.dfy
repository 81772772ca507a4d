/**
 * Several instances of the service running the migration runner at once. Every
 * instance claims the lock first; each read of a record and each attempt at a
 * unit is a step of its own, so the instances interleave freely, while the
 * process of any of them may die and the lock may expire. As long as no run
 * outlives the lock, whatever they do together is a history of deployments one
 * after the other, so the theorems about histories speak about interleavings.
 */
module Fleet {
  import opened Prelude
  import opened MigrationRunner
  import SingleFlight

  type Token = SingleFlight.Token

  /**
   * An instance inside the lock, deploying the first `size` units. `sched` is
   * what has befallen it, unit by unit; `due`: it has read the next record and
   * found the unit pending; `over`: its run has thrown or died.
   */
  datatype Worker = Worker(size: nat, now: nat, sched: seq<Attempt>, due: bool, over: bool)

  /** `calls` lists every call of a `run`, by whichever instance. */
  datatype Fleet<DB> = Fleet(flight: SingleFlight.Flight, workers: map<Token, Worker>, shared: State<DB>, calls: seq<string>)

  datatype Event =
    | Arrive(token: Token, size: nat, now: nat)
    | Look(token: Token, ok: bool)
    | Call(token: Token, attempt: Attempt)
    | Leave(token: Token, released: bool)
    | Die(token: Token)
    | Expire

  predicate Inside<DB>(f: Fleet<DB>, t: Token) {
    t in f.flight.inside && t in f.workers
  }

  predicate Enabled<DB>(units: seq<Migration<DB>>, f: Fleet<DB>, e: Event) {
    match e
    case Arrive(t, size, _) => SingleFlight.Enabled(f.flight, SingleFlight.Claim(t)) && size <= |units|
    case Look(t, _) =>
      Inside(f, t) && var w := f.workers[t]; !w.due && !w.over && |w.sched| < w.size <= |units|
    case Call(t, a) =>
      Inside(f, t) && var w := f.workers[t]; w.due && !w.over && |w.sched| < w.size <= |units| && !a.ReadThrows?
    case Leave(t, _) => Inside(f, t) && var w := f.workers[t]; w.over || (!w.due && |w.sched| == w.size)
    case Die(t) => Inside(f, t)
    case Expire => SingleFlight.Enabled(f.flight, SingleFlight.Expire)
  }

  function Step<DB>(units: seq<Migration<DB>>, f: Fleet<DB>, e: Event): Fleet<DB>
    requires Enabled(units, f, e)
  {
    match e
    case Arrive(t, size, now) =>
      var flight := SingleFlight.Step(f.flight, SingleFlight.Claim(t));
      f.(flight := flight, workers := if t in flight.inside then f.workers[t := Worker(size, now, [], false, false)] else f.workers)
    case Look(t, ok) =>
      var w := f.workers[t];
      var w' := if !ok then w.(sched := w.sched + [ReadThrows], over := true)
                else if IsPending(f.shared.ledger, units[|w.sched|]) then w.(due := true)
                else w.(sched := w.sched + [Completes]);
      f.(workers := f.workers[t := w'])
    case Call(t, a) =>
      var w := f.workers[t];
      var u := units[|w.sched|];
      f.(workers := f.workers[t := w.(sched := w.sched + [a], due := false, over := !a.Completes?)],
         shared := Try(u, f.shared, a, w.now),
         calls := f.calls + [u.name])
    case Leave(t, released) => f.(flight := SingleFlight.Step(f.flight, SingleFlight.Leave(t, released)))
    case Die(t) => f.(flight := SingleFlight.Step(f.flight, SingleFlight.Die(t)))
    case Expire => f.(flight := SingleFlight.Step(f.flight, SingleFlight.Expire))
  }

  ghost predicate Possible<DB>(units: seq<Migration<DB>>, f: Fleet<DB>, events: seq<Event>)
    decreases |events|
  {
    |events| == 0 || (Enabled(units, f, events[0]) && Possible(units, Step(units, f, events[0]), events[1..]))
  }

  ghost function End<DB>(units: seq<Migration<DB>>, f: Fleet<DB>, events: seq<Event>): Fleet<DB>
    requires Possible(units, f, events)
    decreases |events|
  {
    if |events| == 0 then f else End(units, Step(units, f, events[0]), events[1..])
  }

  /** The lock expires under an instance that is still inside. */
  predicate Overrun<DB>(f: Fleet<DB>, e: Event) {
    e.Expire? && f.flight.held.Some? && f.flight.held.value in f.flight.inside
  }

  ghost predicate Overruns<DB>(units: seq<Migration<DB>>, f: Fleet<DB>, events: seq<Event>)
    requires Possible(units, f, events)
    decreases |events|
  {
    |events| > 0 && (Overrun(f, events[0]) || Overruns(units, Step(units, f, events[0]), events[1..]))
  }

  // ------------------------------------------------- one run, unit by unit

  /** One unit more at the end of a registry whose run has finished. */
  lemma {:induction false} ApplyMore<DB>(units: seq<Migration<DB>>, u: Migration<DB>, i: nat, s: State<DB>, sched: seq<Attempt>,
                                         a: Attempt, now: nat, sum: Summary, ran: seq<string>)
    requires i <= |units| == |sched| && Apply(units, i, s, sched, now, sum, ran).end.Finished?
    ensures var r, more := Apply(units, i, s, sched, now, sum, ran), Apply(units + [u], i, s, sched + [a], now, sum, ran);
            if a.ReadThrows? then more.state == r.state && more.ran == r.ran
            else if !IsPending(r.state.ledger, u) then more.state == r.state && more.ran == r.ran && more.end.Finished?
            else && more.state == Try(u, r.state, a, now) && more.ran == r.ran + [u.name]
                 && (a.Completes? ==> more.end.Finished?)
    decreases |units| - i
  {
    if i == |units| {
    } else if !IsPending(s.ledger, units[i]) {
      ApplyMore(units, u, i + 1, s, sched, a, now, sum.(skipped := sum.skipped + [units[i].name]), ran);
    } else {
      ApplyMore(units, u, i + 1, Try(units[i], s, sched[i], now), sched, a, now,
                sum.(applied := sum.applied + [units[i].name]), ran + [units[i].name]);
    }
  }

  /** The run of the first `|sched|` units of the registry. */
  function Partial<DB>(units: seq<Migration<DB>>, s: State<DB>, sched: seq<Attempt>, now: nat): Report<DB>
    requires |sched| <= |units|
  {
    RunOnce(units[..|sched|], s, sched, now)
  }

  lemma PartialMore<DB>(units: seq<Migration<DB>>, s: State<DB>, sched: seq<Attempt>, a: Attempt, now: nat)
    requires |sched| < |units| && Partial(units, s, sched, now).end.Finished?
    ensures var u, r, more := units[|sched|], Partial(units, s, sched, now), Partial(units, s, sched + [a], now);
            if a.ReadThrows? then more.state == r.state && more.ran == r.ran
            else if !IsPending(r.state.ledger, u) then more.state == r.state && more.ran == r.ran && more.end.Finished?
            else && more.state == Try(u, r.state, a, now) && more.ran == r.ran + [u.name]
                 && (a.Completes? ==> more.end.Finished?)
  {
    var k := |sched|;
    assert units[..k + 1] == units[..k] + [units[k]];
    ApplyMore(units[..k], units[k], 0, s, sched, a, now, NO_SUMMARY, []);
  }

  // ------------------------------------------------------------- histories

  lemma {:induction false} HistoryMore<DB>(ops: seq<Op<DB>>, op: Op<DB>, s: State<DB>)
    requires WellFormedAll(ops) && WellFormed(op)
    ensures WellFormedAll(ops + [op])
    ensures After(ops + [op], s) == Exec(op, After(ops, s)) && Calls(ops + [op], s) == Calls(ops, s) + Called(op, After(ops, s))
  {
    var more := ops + [op];
    forall o | o in more ensures WellFormed(o) {
      assert o in ops || o == op;
    }
    if |ops| == 0 {
      assert more[1..] == [] && more[0] == op;
      assert Calls(more[1..], Exec(op, s)) == [];
    } else {
      assert forall o :: o in ops[1..] ==> o in ops;
      assert ops[0] in ops && more[0] == ops[0] && more[1..] == ops[1..] + [op];
      HistoryMore(ops[1..], op, Exec(ops[0], s));
    }
  }

  /** What instance `w` has done so far, from `s` on. */
  ghost predicate Underway<DB>(units: seq<Migration<DB>>, s: State<DB>, calls: seq<string>, f: Fleet<DB>, w: Worker) {
    && |w.sched| <= w.size <= |units|
    && (var r := Partial(units, s, w.sched, w.now);
        f.shared == r.state && f.calls == calls + r.ran && (!w.over ==> r.end.Finished?))
    && (w.due ==> !w.over && |w.sched| < w.size && IsPending(f.shared.ledger, units[|w.sched|]))
  }

  /** Serial so far: `done` are the deployments that are over, and at most one is under way. */
  ghost predicate Serial<DB>(units: seq<Migration<DB>>, s0: State<DB>, f: Fleet<DB>, done: seq<Op<DB>>) {
    && SingleFlight.Exclusive(f.flight) && PrefixDeploys(done, units) && WellFormedAll(done)
    && (forall t :: t in f.flight.inside ==>
          t in f.workers && Underway(units, After(done, s0), Calls(done, s0), f, f.workers[t]))
    && (f.flight.inside == {} ==> f.shared == After(done, s0) && f.calls == Calls(done, s0))
  }

  /** The instance under way is gone: what it did is a deployment of the units it came to. */
  lemma Retired<DB>(units: seq<Migration<DB>>, s0: State<DB>, f: Fleet<DB>, done: seq<Op<DB>>, t: Token) returns (more: seq<Op<DB>>)
    requires DistinctNames(units) && Serial(units, s0, f, done) && t in f.flight.inside
    ensures PrefixDeploys(more, units) && WellFormedAll(more) && f.shared == After(more, s0) && f.calls == Calls(more, s0)
  {
    var w := f.workers[t];
    var op := Deploy(units[..|w.sched|], w.sched, w.now);
    HistoryMore(done, op, s0);
    more := done + [op];
  }

  lemma LookKeepsSerial<DB>(units: seq<Migration<DB>>, s0: State<DB>, f: Fleet<DB>, done: seq<Op<DB>>, t: Token, ok: bool)
    requires Serial(units, s0, f, done) && Enabled(units, f, Look(t, ok))
    ensures Serial(units, s0, Step(units, f, Look(t, ok)), done)
  {
    var w := f.workers[t];
    PartialMore(units, After(done, s0), w.sched, if ok then Completes else ReadThrows, w.now);
  }

  lemma CallKeepsSerial<DB>(units: seq<Migration<DB>>, s0: State<DB>, f: Fleet<DB>, done: seq<Op<DB>>, t: Token, a: Attempt)
    requires Serial(units, s0, f, done) && Enabled(units, f, Call(t, a))
    ensures Serial(units, s0, Step(units, f, Call(t, a)), done)
  {
    var w := f.workers[t];
    PartialMore(units, After(done, s0), w.sched, a, w.now);
    Regroup(Calls(done, s0), Partial(units, After(done, s0), w.sched, w.now).ran, [units[|w.sched|].name]);
  }

  lemma StepKeepsSerial<DB>(units: seq<Migration<DB>>, s0: State<DB>, f: Fleet<DB>, done: seq<Op<DB>>, e: Event)
      returns (more: seq<Op<DB>>)
    requires DistinctNames(units) && Serial(units, s0, f, done) && Enabled(units, f, e) && !Overrun(f, e)
    ensures Serial(units, s0, Step(units, f, e), more)
  {
    more := done;
    if e.Look? {
      LookKeepsSerial(units, s0, f, done, e.token, e.ok);
    } else if e.Call? {
      CallKeepsSerial(units, s0, f, done, e.token, e.attempt);
    } else if e.Leave? || e.Die? {
      more := Retired(units, s0, f, done, e.token);
      assert Step(units, f, e).flight.inside == {};
    }
  }

  lemma {:induction false} FleetIsSerial<DB>(units: seq<Migration<DB>>, s0: State<DB>, f: Fleet<DB>, done: seq<Op<DB>>, events: seq<Event>)
      returns (more: seq<Op<DB>>)
    requires DistinctNames(units) && Serial(units, s0, f, done) && Possible(units, f, events) && !Overruns(units, f, events)
    ensures Serial(units, s0, End(units, f, events), more)
    decreases |events|
  {
    if |events| == 0 {
      more := done;
    } else {
      var next := StepKeepsSerial(units, s0, f, done, events[0]);
      more := FleetIsSerial(units, s0, Step(units, f, events[0]), next, events[1..]);
    }
  }

  // ------------------------------------------------------------ main results

  /** A fleet nobody has entered yet. */
  function Fresh<DB>(flight: SingleFlight.Flight, s: State<DB>): Fleet<DB> {
    Fleet(flight, map[], s, [])
  }

  /**
   * Serializability: as long as no run outlives the lock, any interleaving of any
   * number of instances, each stopped anywhere, leaves the ledger, the database
   * and the calls of deployments carried out one after the other.
   */
  lemma {:induction false} Serializable<DB>(units: seq<Migration<DB>>, flight: SingleFlight.Flight, s: State<DB>, events: seq<Event>)
      returns (ops: seq<Op<DB>>)
    requires DistinctNames(units) && SingleFlight.Exclusive(flight) && flight.inside == {}
    requires Possible(units, Fresh(flight, s), events) && !Overruns(units, Fresh(flight, s), events)
    ensures PrefixDeploys(ops, units) && WellFormedAll(ops)
    ensures var end := End(units, Fresh(flight, s), events); end.shared == After(ops, s) && end.calls == Calls(ops, s)
  {
    var end := End(units, Fresh(flight, s), events);
    ops := FleetIsSerial(units, s, Fresh(flight, s), [], events);
    if t :| t in end.flight.inside {
      ops := Retired(units, s, end, ops, t);
    }
  }

  /**
   * Hence the runner's promises hold of interleavings: after any of them the
   * first finished run leaves every unit pending at the start run once, in order.
   */
  lemma {:induction false} FleetExactlyOnce<DB(!new)>(units: seq<Migration<DB>>, flight: SingleFlight.Flight, s: State<DB>,
                                                      events: seq<Event>, sched: seq<Attempt>, now: nat)
    requires DistinctNames(units) && (forall j :: 0 <= j < |units| ==> Retryable(units[j])) && |sched| == |units|
    requires SingleFlight.Exclusive(flight) && flight.inside == {}
    requires Possible(units, Fresh(flight, s), events) && !Overruns(units, Fresh(flight, s), events)
    requires RunOnce(units, End(units, Fresh(flight, s), events).shared, sched, now).end.Finished?
    ensures var final := RunOnce(units, End(units, Fresh(flight, s), events).shared, sched, now).state;
            && final.db == EachPendingOnce(units, s.ledger, s.db, |units|)
            && (forall j :: 0 <= j < |units| ==> !IsPending(final.ledger, units[j]))
  {
    var ops := Serializable(units, flight, s, events);
    ExactlyOnceInOrder(units, s, ops, sched, now);
  }

  /** And a `once` unit that is applied is called by none of them. */
  lemma {:induction false} FleetNeverRunsAgain<DB>(units: seq<Migration<DB>>, flight: SingleFlight.Flight, s: State<DB>,
                                                   events: seq<Event>, j: nat)
    requires DistinctNames(units) && j < |units| && units[j].kind.Once? && AppliedIn(s.ledger, units[j].name)
    requires SingleFlight.Exclusive(flight) && flight.inside == {}
    requires Possible(units, Fresh(flight, s), events) && !Overruns(units, Fresh(flight, s), events)
    ensures units[j].name !in End(units, Fresh(flight, s), events).calls
  {
    var ops := Serializable(units, flight, s, events);
    forall op, u | op in ops && op.Deploy? && u in op.units && u.name == units[j].name ensures u.kind.Once? {
      var i :| 0 <= i < |op.units| && op.units[i] == u;
      assert units[i] == u;
    }
    OnceNeverRunsAgain(ops, s, units[j].name);
  }

  /** The hypothesis is needed: a run that outlives the lock lets a second instance call the same pending unit again. */
  lemma {:induction false} OverrunCallsTwice<DB>(units: seq<Migration<DB>>, flight: SingleFlight.Flight, s: State<DB>,
                                                 t: Token, t': Token, now: nat)
    requires |units| > 0 && IsPending(s.ledger, units[0])
    requires flight.held.None? && t !in flight.issued && t' !in flight.issued && t != t'
    ensures var u, f := units[0], Fresh(flight, s);
            var events := BothLook(t, t', now) + [Call(t, Completes), Call(t', Completes)];
            && Possible(units, f, events)
            && End(units, f, events).calls == [u.name, u.name] && End(units, f, events).shared.db == u.run(u.run(s.db))
  {
    var f := Fresh(flight, s);
    BothDue(units, f, t, t', now);
    var mid := End(units, f, BothLook(t, t', now));
    BothCall(units, mid, t, t');
    EventsConcat(units, f, BothLook(t, t', now), [Call(t, Completes), Call(t', Completes)]);
  }

  /** The second instance gets in while the first is between its read and its call. */
  function BothLook(t: Token, t': Token, now: nat): seq<Event> {
    [Arrive(t, 1, now), Look(t, true), Expire, Arrive(t', 1, now), Look(t', true)]
  }

  predicate Due<DB>(f: Fleet<DB>, t: Token) {
    Inside(f, t) && var w := f.workers[t]; w.due && !w.over && |w.sched| == 0 && w.size == 1
  }

  lemma {:induction false} BothDue<DB>(units: seq<Migration<DB>>, f: Fleet<DB>, t: Token, t': Token, now: nat)
    requires |units| > 0 && IsPending(f.shared.ledger, units[0])
    requires f.flight.held.None? && t !in f.flight.issued && t' !in f.flight.issued && t != t'
    ensures Possible(units, f, BothLook(t, t', now))
    ensures var mid := End(units, f, BothLook(t, t', now));
            Due(mid, t) && Due(mid, t') && mid.shared == f.shared && mid.calls == f.calls
  {
    var es := BothLook(t, t', now);
    var f1 := Step(units, f, es[0]);
    var f2 := Step(units, f1, es[1]);
    var f3 := Step(units, f2, es[2]);
    var f4 := Step(units, f3, es[3]);
    var f5 := Step(units, f4, es[4]);
    assert Due(f5, t) && Due(f5, t');
    OneMore(units, f4, es[4], []);
    OneMore(units, f3, es[3], [es[4]]);
    OneMore(units, f2, es[2], [es[3], es[4]]);
    OneMore(units, f1, es[1], [es[2], es[3], es[4]]);
    OneMore(units, f, es[0], [es[1], es[2], es[3], es[4]]);
  }

  lemma {:induction false} BothCall<DB>(units: seq<Migration<DB>>, f: Fleet<DB>, t: Token, t': Token)
    requires |units| > 0 && t != t' && Due(f, t) && Due(f, t')
    ensures var es := [Call(t, Completes), Call(t', Completes)];
            && Possible(units, f, es)
            && End(units, f, es).calls == f.calls + [units[0].name, units[0].name]
            && End(units, f, es).shared.db == units[0].run(units[0].run(f.shared.db))
  {
    var f1 := Step(units, f, Call(t, Completes));
    OneMore(units, f1, Call(t', Completes), []);
    OneMore(units, f, Call(t, Completes), [Call(t', Completes)]);
  }

  lemma OneMore<DB>(units: seq<Migration<DB>>, f: Fleet<DB>, e: Event, rest: seq<Event>)
    requires Enabled(units, f, e) && Possible(units, Step(units, f, e), rest)
    ensures Possible(units, f, [e] + rest) && End(units, f, [e] + rest) == End(units, Step(units, f, e), rest)
  {
    assert ([e] + rest)[1..] == rest;
  }

  lemma {:induction false} EventsConcat<DB>(units: seq<Migration<DB>>, f: Fleet<DB>, a: seq<Event>, b: seq<Event>)
    requires Possible(units, f, a) && Possible(units, End(units, f, a), b)
    ensures Possible(units, f, a + b) && End(units, f, a + b) == End(units, End(units, f, a), b)
    decreases |a|
  {
    if |a| == 0 {
      assert a + b == b;
    } else {
      assert (a + b)[1..] == a[1..] + b;
      EventsConcat(units, Step(units, f, a[0]), a[1..], b);
    }
  }

  // ---------------------------------------------------------------- converse

  /** Instance `t` is between two units, about to read the record of unit `i`. */
  predicate Ready<DB>(units: seq<Migration<DB>>, f: Fleet<DB>, t: Token, i: nat, now: nat) {
    Inside(f, t) && f.workers[t] == Worker(|units|, now, f.workers[t].sched, false, false) && |f.workers[t].sched| == i <= |units|
  }

  /** Its part in what befell unit `i` is over: it has left or died, or goes on to the next unit. */
  ghost predicate Passed<DB>(units: seq<Migration<DB>>, f: Fleet<DB>, g: Fleet<DB>, t: Token, i: nat, a: Attempt, now: nat)
    requires i < |units|
  {
    var u := units[i];
    if a.ReadThrows? then g.shared == f.shared && g.calls == f.calls && t !in g.flight.inside
    else if !IsPending(f.shared.ledger, u) then g.shared == f.shared && g.calls == f.calls && Ready(units, g, t, i + 1, now)
    else && g.shared == Try(u, f.shared, a, now) && g.calls == f.calls + [u.name]
         && if a.Completes? then Ready(units, g, t, i + 1, now) else t !in g.flight.inside
  }

  lemma OneUnit<DB>(units: seq<Migration<DB>>, f: Fleet<DB>, t: Token, i: nat, a: Attempt, now: nat) returns (es: seq<Event>)
    requires i < |units| && Ready(units, f, t, i, now)
    ensures Possible(units, f, es) && Passed(units, f, End(units, f, es), t, i, a, now)
  {
    var look := Look(t, !a.ReadThrows?);
    var f1 := Step(units, f, look);
    var gone := if a.DiesInRun? || a.DiesBeforeWrite? || a.DiesAfterWrite? then Die(t) else Leave(t, true);
    es := [];
    if a.ReadThrows? {
      OneMore(units, f1, Leave(t, true), []);
      OneMore(units, f, look, [Leave(t, true)]);
      es := [look] + [Leave(t, true)];
    } else if !IsPending(f.shared.ledger, units[i]) {
      OneMore(units, f, look, []);
      es := [look] + [];
    } else {
      var f2 := Step(units, f1, Call(t, a));
      var rest: seq<Event> := if a.Completes? then [] else [gone];
      if !a.Completes? { OneMore(units, f2, gone, []); }
      OneMore(units, f1, Call(t, a), rest);
      OneMore(units, f, look, [Call(t, a)] + rest);
      es := [look] + ([Call(t, a)] + rest);
    }
  }

  lemma {:induction false} Drive<DB>(units: seq<Migration<DB>>, f: Fleet<DB>, t: Token, i: nat, sched: seq<Attempt>, now: nat,
                                     sum: Summary, ran: seq<string>) returns (es: seq<Event>)
    requires i <= |units| == |sched| && Ready(units, f, t, i, now)
    ensures Possible(units, f, es)
    ensures var r, end := Apply(units, i, f.shared, sched, now, sum, ran), End(units, f, es);
            ran <= r.ran && end.shared == r.state && end.calls == f.calls + r.ran[|ran|..] && t !in end.flight.inside
    decreases |units| - i
  {
    if i == |units| {
      OneMore(units, f, Leave(t, true), []);
      es := [Leave(t, true)] + [];
      return;
    }
    SummaryIsExact(units, i, f.shared, sched, now, sum, ran);
    es := OneUnit(units, f, t, i, sched[i], now);
    var g := End(units, f, es);
    var u := units[i];
    if sched[i].ReadThrows? {
      assert f.calls + [] == f.calls;
    } else if !IsPending(f.shared.ledger, u) {
      var rest := Drive(units, g, t, i + 1, sched, now, sum.(skipped := sum.skipped + [u.name]), ran);
      EventsConcat(units, f, es, rest);
      es := es + rest;
    } else if sched[i].Completes? {
      var rest := Drive(units, g, t, i + 1, sched, now, sum.(applied := sum.applied + [u.name]), ran + [u.name]);
      EventsConcat(units, f, es, rest);
      es := es + rest;
      CallsSplit(f.calls, ran, u.name, Apply(units, i, f.shared, sched, now, sum, ran).ran);
    } else {
      assert (ran + [u.name])[|ran|..] == [u.name];
    }
  }

  lemma CallsSplit(calls: seq<string>, ran: seq<string>, name: string, all: seq<string>)
    requires ran + [name] <= all
    ensures calls + [name] + all[|ran| + 1..] == calls + all[|ran|..]
  {
    assert all[|ran|] == (ran + [name])[|ran|];
    assert all[|ran|..] == [name] + all[|ran| + 1..];
  }

  /** Conversely every deployment, however it ends, is what some instance of the fleet can do on its own. */
  lemma Realizable<DB>(units: seq<Migration<DB>>, f: Fleet<DB>, t: Token, sched: seq<Attempt>, now: nat) returns (es: seq<Event>)
    requires |sched| == |units| && f.flight.held == None && t !in f.flight.issued
    ensures Possible(units, f, es)
    ensures var r, end := RunOnce(units, f.shared, sched, now), End(units, f, es);
            end.shared == r.state && end.calls == f.calls + r.ran && t !in end.flight.inside
  {
    var arrive := Arrive(t, |units|, now);
    var f1 := Step(units, f, arrive);
    var rest := Drive(units, f1, t, 0, sched, now, NO_SUMMARY, []);
    OneMore(units, f, arrive, rest);
    es := [arrive] + rest;
    assert RunOnce(units, f.shared, sched, now).ran[0..] == RunOnce(units, f.shared, sched, now).ran;
  }
}
