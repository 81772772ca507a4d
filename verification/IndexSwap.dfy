/**
 * Replacing the legacy sparse unique index on (workspace, user) by a partial one
 * while the collection is being written to: create first, drop second.
 */
module IndexSwap {
  import opened Prelude

  datatype User = Missing | Null | Oid(id: nat)

  datatype Member = Member(workspace: nat, user: User)

  datatype Index = Legacy | Partial | Lookup

  datatype State = State(rows: seq<Member>, indexes: set<Index>)

  /** Is a row with this user entered in the index? The sparse one leaves out missing users only. */
  predicate Enters(ix: Index, u: User) {
    match ix
    case Legacy => !u.Missing?
    case Partial => u.Oid?
    case Lookup => false
  }

  predicate Clash(ix: Index, a: Member, b: Member) {
    Enters(ix, a.user) && a == b
  }

  /** No unique index in place refuses `m` beside the rows other than row `except`. */
  predicate Admits(s: State, m: Member, except: int) {
    forall i, ix :: 0 <= i < |s.rows| && i != except && ix in s.indexes ==> !Clash(ix, s.rows[i], m)
  }

  /** What other clients do meanwhile: a refused write changes nothing. */
  datatype Write = Insert(m: Member) | Update(i: nat, m: Member) | Delete(i: nat)

  function Written(s: State, w: Write): State {
    match w
    case Insert(m) => if Admits(s, m, -1) then s.(rows := s.rows + [m]) else s
    case Update(i, m) => if i < |s.rows| && Admits(s, m, i) then s.(rows := s.rows[i := m]) else s
    case Delete(i) => if i < |s.rows| then s.(rows := s.rows[..i] + s.rows[i + 1..]) else s
  }

  predicate UniqueUnder(rows: seq<Member>, ix: Index) {
    forall i, j :: 0 <= i < j < |rows| ==> !Clash(ix, rows[i], rows[j])
  }

  /** Every index in place holds, and one of the two guards is in place. */
  ghost predicate Guarded(s: State) {
    && (Legacy in s.indexes || Partial in s.indexes)
    && (forall ix :: ix in s.indexes ==> UniqueUnder(s.rows, ix))
  }

  /** No two rows of a workspace name the same user. */
  ghost predicate NoDuplicateUser(s: State) {
    forall i, j :: 0 <= i < j < |s.rows| && s.rows[i].user.Oid? ==> s.rows[i] != s.rows[j]
  }

  // ------------------------------------------------------------ atomic events

  /** One thing the server does at a time: a client's write, a build that completes, the drop of the legacy index. */
  datatype Event = Client(w: Write) | Build(ix: Index) | Drop

  /** A build over data that violates the index changes nothing. */
  function Step(s: State, e: Event): State {
    match e
    case Client(w) => Written(s, w)
    case Build(ix) => if UniqueUnder(s.rows, ix) then s.(indexes := s.indexes + {ix}) else s
    case Drop => s.(indexes := s.indexes - {Legacy})
  }

  function Final(s: State, es: seq<Event>): State {
    if |es| == 0 then s else Step(Final(s, es[..|es| - 1]), es[|es| - 1])
  }

  /** The legacy index is dropped only while the partial one is in place. */
  ghost predicate DropsLast(s: State, es: seq<Event>) {
    forall n :: 0 <= n < |es| && es[n].Drop? ==> Partial in Final(s, es[..n]).indexes
  }

  lemma WriteKeepsGuarded(s: State, w: Write)
    requires Guarded(s)
    ensures Guarded(Written(s, w)) && Written(s, w).indexes == s.indexes
  {
    var t := Written(s, w);
    forall ix, i, j | ix in s.indexes && 0 <= i < j < |t.rows|
      ensures !Clash(ix, t.rows[i], t.rows[j])
    {
      match w
      case Insert(m) =>
        if j < |s.rows| { assert !Clash(ix, s.rows[i], s.rows[j]); }
      case Update(k, m) =>
        if i == k && t != s {
          assert !Clash(ix, s.rows[j], m);
        } else if j == k && t != s {
          assert !Clash(ix, s.rows[i], m);
        } else {
          assert !Clash(ix, s.rows[i], s.rows[j]);
        }
      case Delete(k) =>
        var i', j' := if k < |s.rows| && i >= k then i + 1 else i, if k < |s.rows| && j >= k then j + 1 else j;
        assert !Clash(ix, s.rows[i'], s.rows[j']);
    }
  }

  /** From a guarded state exactly the early drop loses the guard; every other event keeps it. */
  lemma StepGuardedIff(s: State, e: Event)
    requires Guarded(s)
    ensures Guarded(Step(s, e)) <==> !(e.Drop? && Partial !in s.indexes)
  {
    if e.Client? { WriteKeepsGuarded(s, e.w); }
  }

  lemma GuardedHasNoDuplicates(s: State)
    requires Guarded(s)
    ensures NoDuplicateUser(s) && UniqueUnder(s.rows, Partial)
  {
    var ix := if Legacy in s.indexes then Legacy else Partial;
    forall i, j | 0 <= i < j < |s.rows| && s.rows[i].user.Oid?
      ensures s.rows[i] != s.rows[j]
    {
      assert !Clash(ix, s.rows[i], s.rows[j]);
    }
  }

  ghost predicate GuardedThroughout(s: State, es: seq<Event>) {
    forall n :: 0 <= n <= |es| ==> Guarded(Final(s, es[..n]))
  }

  lemma DropsLastMore(s: State, es: seq<Event>)
    requires |es| > 0
    ensures var init, e := es[..|es| - 1], es[|es| - 1];
            DropsLast(s, es) <==> DropsLast(s, init) && (e.Drop? ==> Partial in Final(s, init).indexes)
  {
    var init := es[..|es| - 1];
    assert forall n :: 0 <= n < |init| ==> init[..n] == es[..n];
  }

  lemma ThroughoutMore(s: State, es: seq<Event>)
    requires |es| > 0
    ensures var init, e := es[..|es| - 1], es[|es| - 1];
            GuardedThroughout(s, es) <==> GuardedThroughout(s, init) && Guarded(Step(Final(s, init), e))
  {
    var init := es[..|es| - 1];
    assert forall n :: 0 <= n <= |init| ==> init[..n] == es[..n];
    assert es[..|es|] == es;
  }

  /**
   * Safety over all interleavings: from a guarded state, every state on the way
   * is guarded exactly when each drop comes while the partial index is in place.
   */
  lemma {:induction false} GuardedThroughoutIff(s: State, es: seq<Event>)
    requires Guarded(s)
    ensures DropsLast(s, es) <==> GuardedThroughout(s, es)
  {
    if |es| == 0 {
      assert es[..0] == es;
    } else {
      var init := es[..|es| - 1];
      GuardedThroughoutIff(s, init);
      DropsLastMore(s, es);
      ThroughoutMore(s, es);
      if GuardedThroughout(s, init) {
        assert init[..|init|] == init;
        StepGuardedIff(Final(s, init), es[|init|]);
      }
    }
  }

  /** Exactly when a further row without a user is accepted: no legacy index, or no such row in the workspace yet. */
  lemma NullAcceptedIff(s: State, workspace: nat)
    ensures Admits(s, Member(workspace, Null), -1) <==> Legacy !in s.indexes || Member(workspace, Null) !in s.rows
  {
    var m := Member(workspace, Null);
    if Legacy in s.indexes && m in s.rows {
      var i :| 0 <= i < |s.rows| && s.rows[i] == m;
      assert Clash(Legacy, s.rows[i], m);
    }
  }

  // ------------------------------------------------------------------ the run

  /** The outcome of one call to the server; a failing one may have taken effect. */
  datatype Reply = Ok | Throws(landed: bool)

  /** What befalls the four calls of a run, and what the other clients do before each. */
  datatype Weather = Weather(create: Reply, list: Reply, drop: Reply, lookup: Reply,
                             before: seq<Write>, beforeList: seq<Write>, beforeDrop: seq<Write>, beforeLookup: seq<Write>)

  datatype Result = Result(newEnsured: bool, legacyDropped: bool, legacyAbsent: bool, lookupEnsured: bool, errors: nat)

  function Clients(ws: seq<Write>): seq<Event> {
    seq(|ws|, i requires 0 <= i < |ws| => Client(ws[i]))
  }

  predicate Lands(r: Reply) {
    r.Ok? || r.landed
  }

  /** Did the build of the partial index return, over the data as it was by then? */
  predicate Created(s: State, w: Weather) {
    w.create.Ok? && UniqueUnder(Final(s, Clients(w.before)).rows, Partial)
  }

  /** What follows the listing of the indexes: the drop if the legacy one was listed, then the lookup index. */
  function SwapEvents(had: bool, w: Weather): seq<Event> {
    DropEvents(had, w) + LookupEvents(w)
  }

  function DropEvents(had: bool, w: Weather): seq<Event> {
    Clients(w.beforeDrop) + (if had && Lands(w.drop) then [Drop] else [])
  }

  function LookupEvents(w: Weather): seq<Event> {
    Clients(w.beforeLookup) + (if Lands(w.lookup) then [Build(Lookup)] else [])
  }

  function CreateEvents(w: Weather): seq<Event> {
    Clients(w.before) + (if Lands(w.create) then [Build(Partial)] else [])
  }

  /** Everything that happens during one run, in order. */
  function RunEvents(s: State, w: Weather): seq<Event> {
    if !Created(s, w) then CreateEvents(w)
    else if !w.list.Ok? then CreateEvents(w) + Clients(w.beforeList)
    else CreateEvents(w) + Clients(w.beforeList) + SwapEvents(Legacy in s.indexes, w)
  }

  /** What the run reports. */
  function RunResult(s: State, w: Weather): Result {
    var created := Created(s, w);
    var listed := created && w.list.Ok?;
    var had := Legacy in s.indexes;
    Result(created, listed && had && w.drop.Ok?, listed && !had, listed && w.lookup.Ok?,
           if !listed then 1 else (if had && !w.drop.Ok? then 1 else 0) + (if w.lookup.Ok? then 0 else 1))
  }

  lemma {:induction false} FinalConcat(s: State, a: seq<Event>, b: seq<Event>)
    ensures Final(s, a + b) == Final(Final(s, a), b)
  {
    if |b| == 0 {
      assert a + b == a;
    } else {
      InitOfConcat(a, b);
      FinalConcat(s, a, b[..|b| - 1]);
    }
  }

  class Collection {
    var state: State
    ghost var start: State
    ghost var events: seq<Event>

    constructor (state: State)
      ensures this.state == start == state && events == [] && Valid()
    {
      this.state, this.start, this.events := state, state, [];
    }

    /** The state is what the events made of the first one; they are atomic, so they name every state there was. */
    ghost predicate Valid()
      reads this
    {
      state == Final(start, events)
    }

    method Do(e: Event)
      requires Valid()
      modifies this`state, this`events
      ensures Valid() && state == Step(old(state), e) && events == old(events) + [e]
    {
      state, events := Step(state, e), events + [e];
      assert events[..|events| - 1] == old(events);
    }

    method Others(writes: seq<Write>)
      requires Valid()
      modifies this`state, this`events
      ensures Valid() && events == old(events) + Clients(writes) && state == Final(old(state), Clients(writes))
      ensures state.indexes == old(state.indexes)
    {
      ghost var all := Clients(writes);
      for i := 0 to |writes|
        invariant Valid() && events == old(events) + all[..i] && state == Final(old(state), all[..i])
        invariant state.indexes == old(state.indexes)
      {
        assert all[..i + 1][..i] == all[..i];
        Do(Client(writes[i]));
      }
      assert all[..|writes|] == all;
    }

    /** `createIndex` of a unique index; it throws when the data violates it, or when the call fails. */
    method CreateIndex(ix: Index, r: Reply) returns (ok: bool)
      requires Valid()
      modifies this`state, this`events
      ensures Valid() && ok == (r.Ok? && UniqueUnder(old(state.rows), ix))
      ensures events == old(events) + (if Lands(r) then [Build(ix)] else [])
      ensures state == if Lands(r) then Step(old(state), Build(ix)) else old(state)
    {
      ok := r.Ok? && UniqueUnder(state.rows, ix);
      if Lands(r) {
        Do(Build(ix));
      }
    }

    /** Step 2, once the new index is there and the indexes are listed. */
    method DropLegacy(hasLegacy: bool, w: Weather) returns (dropped: bool)
      requires Valid()
      modifies this`state, this`events
      ensures Valid() && events == old(events) + DropEvents(hasLegacy, w) && dropped == (hasLegacy && w.drop.Ok?)
    {
      Others(w.beforeDrop);
      dropped := false;
      if hasLegacy {
        if Lands(w.drop) {
          Regroup(old(events), Clients(w.beforeDrop), [Drop]);
          Do(Drop);
        }
        dropped := w.drop.Ok?;
      }
    }

    /** Step 3. */
    method EnsureLookup(w: Weather) returns (found: bool)
      requires Valid()
      modifies this`state, this`events
      ensures Valid() && events == old(events) + LookupEvents(w) && found == w.lookup.Ok?
    {
      Others(w.beforeLookup);
      Regroup(old(events), Clients(w.beforeLookup), if Lands(w.lookup) then [Build(Lookup)] else []);
      found := CreateIndex(Lookup, w.lookup);
    }

    /** Step 1. */
    method CreatePartial(w: Weather) returns (created: bool)
      requires Valid()
      modifies this`state, this`events
      ensures Valid() && events == old(events) + CreateEvents(w) && created == Created(old(state), w)
      ensures Legacy in state.indexes <==> Legacy in old(state.indexes)
    {
      Others(w.before);
      Regroup(old(events), Clients(w.before), if Lands(w.create) then [Build(Partial)] else []);
      created := CreateIndex(Partial, w.create);
    }

    /** The swap: exactly these events, in this order, and this report. */
    method Run(w: Weather) returns (r: Result)
      requires Valid()
      modifies this`state, this`events
      ensures Valid() && events == old(events) + RunEvents(old(state), w)
      ensures r == RunResult(old(state), w)
    {
      var created := CreatePartial(w);
      if !created {
        return Result(false, false, false, false, 1);
      }
      Regroup(old(events), CreateEvents(w), Clients(w.beforeList));
      Others(w.beforeList);
      if w.list.Throws? {
        return Result(true, false, false, false, 1);
      }
      var hasLegacy := Legacy in state.indexes;
      ghost var listed := CreateEvents(w) + Clients(w.beforeList);
      var dropped := DropLegacy(hasLegacy, w);
      var found := EnsureLookup(w);
      Regroup(old(events), listed, DropEvents(hasLegacy, w));
      Regroup(listed, DropEvents(hasLegacy, w), LookupEvents(w));
      Regroup(old(events), listed + DropEvents(hasLegacy, w), LookupEvents(w));
      r := Result(true, dropped, !hasLegacy, found, (if hasLegacy && !dropped then 1 else 0) + (if found then 0 else 1));
    }
  }

  // ---------------------------------------------------------- safety of the run

  lemma {:induction false} ClientsKeepIndexes(s: State, ws: seq<Write>)
    ensures Final(s, Clients(ws)).indexes == s.indexes
  {
    if |ws| == 0 {
    } else {
      var n := |ws| - 1;
      assert Clients(ws)[..n] == Clients(ws[..n]);
      ClientsKeepIndexes(s, ws[..n]);
    }
  }

  lemma {:induction false} IndexesGrow(s: State, es: seq<Event>)
    ensures Partial in s.indexes ==> Partial in Final(s, es).indexes
  {
    if |es| == 0 {
    } else {
      IndexesGrow(s, es[..|es| - 1]);
    }
  }

  lemma DropsLastConcat(s: State, a: seq<Event>, b: seq<Event>)
    requires DropsLast(s, a) && DropsLast(Final(s, a), b)
    ensures DropsLast(s, a + b)
  {
    var all := a + b;
    forall n | 0 <= n < |all| && all[n].Drop?
      ensures Partial in Final(s, all[..n]).indexes
    {
      if n < |a| {
        assert all[..n] == a[..n];
      } else {
        assert all[..n] == a + b[..n - |a|];
        FinalConcat(s, a, b[..n - |a|]);
      }
    }
  }

  lemma PartialAllowsDrops(s: State, es: seq<Event>)
    requires Partial in s.indexes
    ensures DropsLast(s, es)
  {
    forall n | 0 <= n < |es| && es[n].Drop? ensures Partial in Final(s, es[..n]).indexes {
      IndexesGrow(s, es[..n]);
    }
  }

  /** Create before drop: from any state, whichever calls fail and whatever the clients write. */
  lemma RunDropsLast(s: State, w: Weather)
    ensures DropsLast(s, RunEvents(s, w))
  {
    var create := CreateEvents(w);
    assert DropsLast(s, create);
    if Created(s, w) {
      FinalConcat(s, Clients(w.before), [Build(Partial)]);
      assert [Build(Partial)][..0] == [];
      assert Partial in Final(s, create).indexes;
      var rest := if w.list.Ok? then Clients(w.beforeList) + SwapEvents(Legacy in s.indexes, w) else Clients(w.beforeList);
      PartialAllowsDrops(Final(s, create), rest);
      DropsLastConcat(s, create, rest);
      assert create + rest == RunEvents(s, w);
    }
  }

  /** Any number of runs, one after the other. */
  function AllEvents(s: State, ws: seq<Weather>): seq<Event> {
    if |ws| == 0 then []
    else
      var before := AllEvents(s, ws[..|ws| - 1]);
      before + RunEvents(Final(s, before), ws[|ws| - 1])
  }

  function AllResults(s: State, ws: seq<Weather>): seq<Result> {
    if |ws| == 0 then []
    else AllResults(s, ws[..|ws| - 1]) + [RunResult(Final(s, AllEvents(s, ws[..|ws| - 1])), ws[|ws| - 1])]
  }

  lemma {:induction false} RunsDropLast(s: State, ws: seq<Weather>)
    ensures DropsLast(s, AllEvents(s, ws))
  {
    if |ws| == 0 {
    } else {
      var before := AllEvents(s, ws[..|ws| - 1]);
      RunsDropLast(s, ws[..|ws| - 1]);
      RunDropsLast(Final(s, before), ws[|ws| - 1]);
      DropsLastConcat(s, before, RunEvents(Final(s, before), ws[|ws| - 1]));
    }
  }

  /**
   * From the legacy index on, over any number of runs, calls failing anywhere,
   * other clients writing throughout: every state between two atomic events has
   * a guard and holds no duplicate user.
   */
  lemma NeverUnguarded(s: State, ws: seq<Weather>, n: nat)
    requires Guarded(s) && n <= |AllEvents(s, ws)|
    ensures var t := Final(s, AllEvents(s, ws)[..n]); Guarded(t) && NoDuplicateUser(t)
  {
    RunsDropLast(s, ws);
    GuardedThroughoutIff(s, AllEvents(s, ws));
    GuardedHasNoDuplicates(Final(s, AllEvents(s, ws)[..n]));
  }

  /** Exactly when a run leaves the legacy index behind it: the partial one was built, the listing came back, and the drop landed or was not needed. */
  lemma LegacyGoneIff(s: State, w: Weather)
    ensures Legacy !in Final(s, RunEvents(s, w)).indexes <==>
            Legacy !in s.indexes || (Created(s, w) && w.list.Ok? && Lands(w.drop))
  {
    var create := CreateEvents(w);
    FinalConcat(s, Clients(w.before), if Lands(w.create) then [Build(Partial)] else []);
    ClientsKeepIndexes(s, w.before);
    var s1 := Final(s, create);
    assert Legacy in s1.indexes <==> Legacy in s.indexes by { OneEvent(Final(s, Clients(w.before)), Build(Partial)); }
    if Created(s, w) {
      ClientsKeepIndexes(s1, w.beforeList);
      var s2 := Final(s1, Clients(w.beforeList));
      FinalConcat(s, create, Clients(w.beforeList));
      if w.list.Ok? {
        FinalConcat(s, create + Clients(w.beforeList), SwapEvents(Legacy in s.indexes, w));
        SwapGone(s2, Legacy in s.indexes, w);
      }
    }
  }

  lemma OneEvent(s: State, e: Event)
    ensures Final(s, [e]) == Step(s, e)
  {
    assert [e][..0] == [];
  }

  lemma SwapGone(s: State, had: bool, w: Weather)
    ensures Legacy !in Final(s, SwapEvents(had, w)).indexes <==> Legacy !in s.indexes || (had && Lands(w.drop))
  {
    var drop := if had && Lands(w.drop) then [Drop] else [];
    var look := if Lands(w.lookup) then [Build(Lookup)] else [];
    ClientsKeepIndexes(s, w.beforeDrop);
    var s1 := Final(s, Clients(w.beforeDrop));
    FinalConcat(s, Clients(w.beforeDrop), drop);
    OneEvent(s1, Drop);
    var s2 := Final(s1, drop);
    ClientsKeepIndexes(s2, w.beforeLookup);
    FinalConcat(s2, Clients(w.beforeLookup), look);
    OneEvent(Final(s2, Clients(w.beforeLookup)), Build(Lookup));
    FinalConcat(s, DropEvents(had, w), LookupEvents(w));
  }

  lemma {:induction false} CleanRunDrops(s: State, ws: seq<Weather>, k: nat)
    requires k < |ws| == |AllResults(s, ws)| && AllResults(s, ws)[k].errors == 0
    ensures Legacy !in Final(s, AllEvents(s, ws)).indexes
  {
    var n := |ws| - 1;
    var before := AllEvents(s, ws[..n]);
    var mid := Final(s, before);
    ResultsCount(s, ws[..n]);
    FinalConcat(s, before, RunEvents(mid, ws[n]));
    LegacyGoneIff(mid, ws[n]);
    if k < n {
      assert AllResults(s, ws)[k] == AllResults(s, ws[..n])[k];
      CleanRunDrops(s, ws[..n], k);
    }
  }

  lemma {:induction false} ResultsCount(s: State, ws: seq<Weather>)
    ensures |AllResults(s, ws)| == |ws|
  {
    if |ws| == 0 {
    } else {
      ResultsCount(s, ws[..|ws| - 1]);
    }
  }

  /**
   * Runs one after the other on one collection: exactly the events and reports
   * of the specification; safe throughout; and once one run reported no error,
   * rows without a user are accepted whatever the workspace holds.
   */
  method SwapSafely(start: State, ws: seq<Weather>) returns (end: State, results: seq<Result>, ghost events: seq<Event>)
    requires Guarded(start)
    ensures events == AllEvents(start, ws) && end == Final(start, events) && results == AllResults(start, ws)
    ensures forall n :: 0 <= n <= |events| ==> Guarded(Final(start, events[..n])) && NoDuplicateUser(Final(start, events[..n]))
    ensures (exists k :: 0 <= k < |results| && results[k].errors == 0) ==>
              forall workspace :: Admits(end, Member(workspace, Null), -1)
  {
    var c := new Collection(start);
    results := [];
    for k := 0 to |ws|
      invariant c.Valid() && fresh(c) && c.start == start
      invariant c.events == AllEvents(start, ws[..k]) && results == AllResults(start, ws[..k])
    {
      assert ws[..k + 1][..k] == ws[..k];
      var r := c.Run(ws[k]);
      results := results + [r];
    }
    assert ws[..|ws|] == ws;
    end, events := c.state, c.events;
    forall n | 0 <= n <= |events| ensures Guarded(Final(start, events[..n])) && NoDuplicateUser(Final(start, events[..n])) {
      NeverUnguarded(start, ws, n);
    }
    ResultsCount(start, ws);
    if k :| 0 <= k < |results| && results[k].errors == 0 {
      CleanRunDrops(start, ws, k);
      forall workspace ensures Admits(end, Member(workspace, Null), -1) { NullAcceptedIff(end, workspace); }
    }
  }
}
