/** What one run of the index swap leaves in place and reports, and which writes the indexes refuse. */
module IndexEffects {
  import opened Prelude
  import opened IndexSwap

  /** Two rows of a workspace name the same user. */
  ghost predicate Doubled(rows: seq<Member>) {
    exists i, j :: 0 <= i < j < |rows| && rows[i] == rows[j] && rows[i].user.Oid?
  }

  /** Has the call taken effect? */
  ghost predicate Effective(r: Reply) {
    r == Ok || r == Throws(true)
  }

  lemma LandsIs(r: Reply)
    ensures Lands(r) <==> Effective(r)
  {
  }

  lemma UniqueIs(rows: seq<Member>)
    ensures UniqueUnder(rows, Partial) <==> !Doubled(rows)
  {
    if !UniqueUnder(rows, Partial) {
      var i, j :| 0 <= i < j < |rows| && Clash(Partial, rows[i], rows[j]);
      assert rows[i] == rows[j] && rows[i].user.Oid?;
    }
    if i, j :| 0 <= i < j < |rows| && rows[i] == rows[j] && rows[i].user.Oid? {
      assert Clash(Partial, rows[i], rows[j]);
    }
  }

  /** The rows that the build of the partial index finds. */
  ghost function AtCreate(s: State, w: Weather): seq<Member> {
    Final(s, Clients(w.before)).rows
  }

  /** Step 1 went through: the call returned, over rows without a double. */
  ghost predicate PartialBuilt(s: State, w: Weather) {
    w.create == Ok && !Doubled(AtCreate(s, w))
  }

  lemma CreatedIs(s: State, w: Weather)
    ensures Created(s, w) <==> PartialBuilt(s, w)
  {
    UniqueIs(AtCreate(s, w));
  }

  /** A call that builds an index or drops one, after some writes of other clients. */
  lemma OneCall(s: State, ws: seq<Write>, e: Event, made: bool)
    ensures var end := Final(s, Clients(ws) + (if made then [e] else []));
            end == if made then Step(Final(s, Clients(ws)), e) else Final(s, Clients(ws))
  {
    FinalConcat(s, Clients(ws), if made then [e] else []);
    OneEvent(Final(s, Clients(ws)), e);
  }

  /** The indexes after each of the three calls. */
  lemma CreateLeaves(s: State, w: Weather)
    ensures var built := Effective(w.create) && !Doubled(AtCreate(s, w));
            Final(s, CreateEvents(w)).indexes == if built then s.indexes + {Partial} else s.indexes
  {
    LandsIs(w.create);
    UniqueIs(AtCreate(s, w));
    ClientsKeepIndexes(s, w.before);
    OneCall(s, w.before, Build(Partial), Lands(w.create));
  }

  lemma DropLeaves(s: State, had: bool, w: Weather)
    ensures Final(s, DropEvents(had, w)).indexes == if had && Effective(w.drop) then s.indexes - {Legacy} else s.indexes
  {
    LandsIs(w.drop);
    ClientsKeepIndexes(s, w.beforeDrop);
    OneCall(s, w.beforeDrop, Drop, had && Lands(w.drop));
  }

  lemma LookupLeaves(s: State, w: Weather)
    ensures Final(s, LookupEvents(w)).indexes == if Effective(w.lookup) then s.indexes + {Lookup} else s.indexes
  {
    LandsIs(w.lookup);
    ClientsKeepIndexes(s, w.beforeLookup);
    OneCall(s, w.beforeLookup, Build(Lookup), Lands(w.lookup));
  }

  lemma SwapLeaves(s: State, had: bool, w: Weather)
    ensures var dropped := if had && Effective(w.drop) then s.indexes - {Legacy} else s.indexes;
            Final(s, SwapEvents(had, w)).indexes == if Effective(w.lookup) then dropped + {Lookup} else dropped
  {
    FinalConcat(s, DropEvents(had, w), LookupEvents(w));
    DropLeaves(s, had, w);
    LookupLeaves(Final(s, DropEvents(had, w)), w);
  }

  /**
   * The indexes after a run: the partial one if its build took effect; the legacy
   * one gone, and the lookup one there, if the build and the listing returned and
   * the call of its own took effect; nothing else moves.
   */
  lemma IndexesAfter(s: State, w: Weather)
    ensures var end := Final(s, RunEvents(s, w)).indexes;
            var listed := PartialBuilt(s, w) && w.list == Ok;
            && (Partial in end <==> Partial in s.indexes || (Effective(w.create) && !Doubled(AtCreate(s, w))))
            && (Legacy in end <==> Legacy in s.indexes && !(listed && Effective(w.drop)))
            && (Lookup in end <==> Lookup in s.indexes || (listed && Effective(w.lookup)))
  {
    CreatedIs(s, w);
    CreateLeaves(s, w);
    var s1 := Final(s, CreateEvents(w));
    ClientsKeepIndexes(s1, w.beforeList);
    FinalConcat(s, CreateEvents(w), Clients(w.beforeList));
    FinalConcat(s, CreateEvents(w) + Clients(w.beforeList), SwapEvents(Legacy in s.indexes, w));
    SwapLeaves(Final(s1, Clients(w.beforeList)), Legacy in s.indexes, w);
  }

  /**
   * The report, flag by flag. Each failed call is one error, and the first two end
   * the run; without an error the run ensured both indexes and the legacy one is
   * reported as dropped or absent.
   */
  lemma ReportIs(s: State, w: Weather)
    ensures var r := RunResult(s, w);
            var listed := PartialBuilt(s, w) && w.list == Ok;
            && (r.newEnsured <==> PartialBuilt(s, w))
            && (r.legacyDropped <==> listed && Legacy in s.indexes && w.drop == Ok)
            && (r.legacyAbsent <==> listed && Legacy !in s.indexes)
            && (r.lookupEnsured <==> listed && w.lookup == Ok)
            && (!listed ==> r.errors == 1)
            && (listed ==> r.errors == (if Legacy in s.indexes && w.drop != Ok then 1 else 0) + (if w.lookup != Ok then 1 else 0))
            && (r.errors == 0 <==> r.newEnsured && r.lookupEnsured && (r.legacyDropped || r.legacyAbsent))
  {
    CreatedIs(s, w);
  }

  // ------------------------------------------------------------------ writes

  /**
   * Which rows the indexes take beside the others: any without a user reference at
   * all; one with a null reference unless the legacy index is there and such a row
   * is too; one that names a user unless a guard is there and so is that row.
   */
  ghost predicate Takes(s: State, m: Member, except: int) {
    match m.user
    case Missing => true
    case Null => Legacy in s.indexes ==> NoOther(s, m, except)
    case Oid(_) => Legacy in s.indexes || Partial in s.indexes ==> NoOther(s, m, except)
  }

  ghost predicate NoOther(s: State, m: Member, except: int) {
    forall i :: 0 <= i < |s.rows| && i != except ==> s.rows[i] != m
  }

  lemma AdmitsIff(s: State, m: Member, except: int)
    ensures Admits(s, m, except) <==> Takes(s, m, except)
  {
    if !Takes(s, m, except) {
      var i :| 0 <= i < |s.rows| && i != except && s.rows[i] == m;
      var ix := if Legacy in s.indexes then Legacy else Partial;
      assert ix in s.indexes && Clash(ix, s.rows[i], m);
    }
  }

  /** What each write of another client does to the rows; a refused one does nothing. */
  lemma WriteIs(s: State, m: Member, i: nat)
    ensures Written(s, Insert(m)) == State(if Takes(s, m, -1) then s.rows + [m] else s.rows, s.indexes)
    ensures i >= |s.rows| ==> Written(s, Update(i, m)) == s && Written(s, Delete(i)) == s
    ensures i < |s.rows| ==>
              && Written(s, Update(i, m)) == State(if Takes(s, m, i) then s.rows[i := m] else s.rows, s.indexes)
              && Written(s, Delete(i)) == State(s.rows[..i] + s.rows[i + 1..], s.indexes)
  {
    AdmitsIff(s, m, -1);
    AdmitsIff(s, m, i);
  }
}
