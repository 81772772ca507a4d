/**
 * What the granting role passes guarantee along the chain: explicit scopes and
 * lockstep of the parallel arrays after the backfill, and the exact effect of the
 * backfill and of an append on the guard's decisions.
 */
module RoleChain {
  import opened Prelude
  import opened Permissions
  import opened RoleMigrations

  function RunPasses(ps: seq<Pass>, role: Role, presets: Presets): Role {
    if |ps| == 0 then role else Rewrite(ps[|ps| - 1], RunPasses(ps[..|ps| - 1], role, presets), presets).0
  }

  // --------------------------------------------------------------- lockstep

  ghost predicate NullFree(rows: seq<Row>) {
    forall i :: 0 <= i < |rows| && |ScopesOf(rows[i])| == |rows[i].actions| ==> None !in ScopesOf(rows[i])
  }

  /** The scope backfill makes every grant explicit exactly when no full-length scope array holds a null. */
  lemma BackfillMakesExplicit(role: Role)
    ensures AllExplicit(BackfillScopes(role).0.permissions) <==> NullFree(role.permissions)
    ensures forall i :: 0 <= i < |role.permissions| ==>
              |ScopesOf(BackfillScopes(role).0.permissions[i])| == |role.permissions[i].actions|
  {
    var after := BackfillScopes(role).0.permissions;
    forall i | 0 <= i < |role.permissions|
      ensures |ScopesOf(after[i])| == |role.permissions[i].actions|
      ensures Explicit(after[i]) <==>
                (|ScopesOf(role.permissions[i])| == |role.permissions[i].actions| ==> None !in ScopesOf(role.permissions[i]))
    {
    }
  }

  /**
   * What the backfill does to the guard's decisions: it widens exactly the
   * grants whose scope was missing in a row of uneven length, and only where the
   * role is filled with all, which is every role but the Member system role.
   */
  lemma BackfillDecides(role: Role, mod: string, action: string, required: Option<Scope>)
    ensures var rows := role.permissions;
            var widens := required == Some(All) && !(role.isSystem && role.name == "Member") &&
                          exists i :: 0 <= i < |rows| && |ScopesOf(rows[i])| != |rows[i].actions| && HoleAt(rows, mod, action, i);
            Satisfies(BackfillScopes(role).0.permissions, mod, action, required) <==>
              Satisfies(rows, mod, action, required) || widens
  {
    var rows, after := role.permissions, BackfillScopes(role).0.permissions;
    var all := required == Some(All) && !(role.isSystem && role.name == "Member");
    forall i | 0 <= i < |rows|
      ensures RowSatisfies(after[i], mod, action, required) <==>
                || RowSatisfies(rows[i], mod, action, required)
                || (all && |ScopesOf(rows[i])| != |rows[i].actions| && HoleAt(rows, mod, action, i))
    {
    }
  }

  lemma {:induction false} KeptExplicit(row: Row, n: nat)
    requires n <= |row.actions|
    ensures |Kept(row, n).0| == |Kept(row, n).1| && None !in Kept(row, n).1
  {
    if n == 0 {
    } else {
      KeptExplicit(row, n - 1);
    }
  }

  lemma PadIsIdentity(row: Row, fill: Scope)
    requires Explicit(row)
    ensures Padded(row, fill) == ScopesOf(row)
  {
    assert forall i :: 0 <= i < |row.actions| ==> ScopesOf(row)[i] in ScopesOf(row);
  }

  lemma AppendKeepsExplicit(rows: seq<Row>, mod: string, action: string, scope: Scope, create: bool)
    requires AllExplicit(rows)
    ensures AllExplicit(AppendGrant(rows, mod, action, scope, create))
  {
    forall i | 0 <= i < |rows| ensures Explicit(AppendedRow(rows[i], mod, action, scope)) {
      PadIsIdentity(rows[i], scope);
    }
  }

  /** Every pass keeps actions and scopes in lockstep with every scope explicit. */
  lemma RewriteKeepsExplicit(p: Pass, role: Role, presets: Presets)
    requires AllExplicit(role.permissions)
    ensures AllExplicit(Rewrite(p, role, presets).0.permissions)
  {
    match p
    case ScopeBackfill =>
    case WorkerRegularization => AppendKeepsExplicit(role.permissions, ATTENDANCE, "manage_regularizations", Self, false);
    case AttendancePaths =>
    case StripSelfMarkEdit =>
      forall i | 0 <= i < |role.permissions| { KeptExplicit(role.permissions[i], |role.permissions[i].actions|); }
    case HrSensitiveView => AppendKeepsExplicit(role.permissions, SALARY, "sensitive_view", All, false);
    case SalaryDeclareTax =>
      AppendKeepsExplicit(role.permissions, SALARY, "declare_tax", Self, true);
      AppendKeepsExplicit(role.permissions, SALARY, "declare_tax", All, true);
    case Baseline =>
    case StripDeclareTax =>
      forall i | 0 <= i < |role.permissions| && HasDeclareTax(role.permissions[i])
        ensures Explicit(WithoutAction(role.permissions[i], "declare_tax"))
      {
        var row := role.permissions[i];
        assert Explicit(row);
        assert forall k :: 0 <= k < |row.actions| ==> ScopesOf(row)[k] in ScopesOf(row);
        var ks := KeepIndices(row.actions, "declare_tax", |row.actions|);
        assert forall j :: 0 <= j < |ks| ==> ks[j] in ks;
      }
  }

  /** Lockstep over the whole chain, in any order and however often the later passes run. */
  lemma {:induction false} LockstepChain(later: seq<Pass>, role: Role, presets: Presets)
    requires NullFree(role.permissions)
    ensures AllExplicit(RunPasses([ScopeBackfill] + later, role, presets).permissions)
  {
    var ps := [ScopeBackfill] + later;
    if |later| == 0 {
      assert ps[..0] == [];
      BackfillMakesExplicit(role);
    } else {
      var n := |later| - 1;
      assert ps[..|ps| - 1] == [ScopeBackfill] + later[..n];
      LockstepChain(later[..n], role, presets);
      RewriteKeepsExplicit(later[n], RunPasses([ScopeBackfill] + later[..n], role, presets), presets);
    }
  }

  // ------------------------------------------------------- appends, exactly

  lemma FirstIndexAppend(s: seq<string>, x: string, y: string)
    ensures FirstIndex(s + [y], x) == if FirstIndex(s, x) < |s| then FirstIndex(s, x) else if x == y then |s| else |s| + 1
  {
    var f, g := FirstIndex(s, x), FirstIndex(s + [y], x);
    if f < |s| {
      assert (s + [y])[f] == x;
      assert forall j :: 0 <= j < f ==> (s + [y])[j] != x;
    } else {
      assert forall j :: 0 <= j < |s| ==> (s + [y])[j] != x;
      assert (s + [y])[|s|] == y;
    }
  }

  /** A row of the module lists `action` first at a place that has no stored scope. */
  predicate HoleAt(rows: seq<Row>, mod: string, action: string, i: nat)
    requires i < |rows|
  {
    var k := FirstIndex(rows[i].actions, action);
    rows[i].mod == mod && k < |rows[i].actions| && ScopeAt(rows[i], k).None?
  }

  lemma AppendedRowSatisfies(row: Row, mod: string, added: string, scope: Scope, action: string, required: Option<Scope>)
    requires row.mod == mod
    ensures RowSatisfies(AppendedRow(row, mod, added, scope), mod, action, required) <==>
              || RowSatisfies(row, mod, action, required)
              || (action == added && added !in row.actions && (required == Some(All) ==> scope == All))
              || (required == Some(All) && scope == All && HoleAt([row], mod, action, 0))
  {
    FirstIndexAppend(row.actions, action, added);
    var k := FirstIndex(row.actions, action);
    assert added in row.actions <==> FirstIndex(row.actions, added) < |row.actions|;
    assert [row][0] == row;
  }

  /**
   * The exact effect of appending a grant: it grants its own pair at its scope,
   * and, where scopes were missing, whatever the padding fills in; nothing else moves.
   */
  lemma AppendDecides(rows: seq<Row>, mod: string, added: string, scope: Scope, create: bool,
                      m: string, action: string, required: Option<Scope>)
    ensures var before := Satisfies(rows, m, action, required);
            var own := m == mod && action == added && (required == Some(All) ==> scope == All);
            var padding := m == mod && required == Some(All) && scope == All &&
                           exists i :: 0 <= i < |rows| && HoleAt(rows, mod, action, i);
            Satisfies(AppendGrant(rows, mod, added, scope, create), m, action, required) <==>
              before || (Appends(rows, mod, added, create) && (own || padding))
  {
    var next := AppendGrant(rows, mod, added, scope, create);
    var k := FirstRow(rows, mod);
    if !Appends(rows, mod, added, create) {
    } else if k == |rows| {
      assert forall i :: 0 <= i < |rows| ==> next[i] == rows[i] && !HoleAt(rows, mod, action, i);
      assert next[|rows|] == Row(mod, [added], Some([Some(scope)]));
      FirstIndexAppend([], action, added);
      assert [] + [added] == [added];
      assert RowSatisfies(next[|rows|], m, action, required) <==>
             m == mod && action == added && (required == Some(All) ==> scope == All);
      SatisfiesSplit(rows, next, m, action, required);
    } else {
      forall i | 0 <= i < |rows| && rows[i].mod == mod
        ensures RowSatisfies(next[i], mod, action, required) <==>
                  || RowSatisfies(rows[i], mod, action, required)
                  || (action == added && added !in rows[i].actions && (required == Some(All) ==> scope == All))
                  || (required == Some(All) && scope == All && HoleAt(rows, mod, action, i))
      {
        AppendedRowSatisfies(rows[i], mod, added, scope, action, required);
      }
      assert forall i :: 0 <= i < |rows| && rows[i].mod != m ==>
        !RowSatisfies(rows[i], m, action, required) && !RowSatisfies(next[i], m, action, required);
      assert m != mod ==> forall i :: 0 <= i < |rows| && rows[i].mod == m ==> next[i] == rows[i];
      AppendCases(rows, next, mod, added, scope, k, m, action, required);
    }
  }

  lemma SatisfiesSplit(rows: seq<Row>, next: seq<Row>, m: string, action: string, required: Option<Scope>)
    requires |next| == |rows| + 1 && forall i :: 0 <= i < |rows| ==> next[i] == rows[i]
    ensures Satisfies(next, m, action, required) <==>
            Satisfies(rows, m, action, required) || RowSatisfies(next[|rows|], m, action, required)
  {
    if Satisfies(rows, m, action, required) {
      var i :| 0 <= i < |rows| && RowSatisfies(rows[i], m, action, required);
      assert RowSatisfies(next[i], m, action, required);
    }
    if Satisfies(next, m, action, required) {
      var i :| 0 <= i < |next| && RowSatisfies(next[i], m, action, required);
      assert i < |rows| ==> RowSatisfies(rows[i], m, action, required);
    }
  }

  lemma AppendCases(rows: seq<Row>, next: seq<Row>, mod: string, added: string, scope: Scope, k: nat,
                    m: string, action: string, required: Option<Scope>)
    requires |next| == |rows| && k < |rows| && rows[k].mod == mod && added !in rows[k].actions
    requires forall i :: 0 <= i < |rows| && rows[i].mod == mod ==>
               (RowSatisfies(next[i], mod, action, required) <==>
                  || RowSatisfies(rows[i], mod, action, required)
                  || (action == added && added !in rows[i].actions && (required == Some(All) ==> scope == All))
                  || (required == Some(All) && scope == All && HoleAt(rows, mod, action, i)))
    requires forall i :: 0 <= i < |rows| && rows[i].mod != m ==>
               !RowSatisfies(rows[i], m, action, required) && !RowSatisfies(next[i], m, action, required)
    requires m != mod ==> forall i :: 0 <= i < |rows| && rows[i].mod == m ==> next[i] == rows[i]
    ensures Satisfies(next, m, action, required) <==>
              || Satisfies(rows, m, action, required)
              || (m == mod && action == added && (required == Some(All) ==> scope == All))
              || (m == mod && required == Some(All) && scope == All &&
                  exists i :: 0 <= i < |rows| && HoleAt(rows, mod, action, i))
  {
    if Satisfies(next, m, action, required) {
      var i :| 0 <= i < |next| && RowSatisfies(next[i], m, action, required);
      assert rows[i].mod == m;
    }
    if Satisfies(rows, m, action, required) {
      var i :| 0 <= i < |rows| && RowSatisfies(rows[i], m, action, required);
      assert RowSatisfies(next[i], m, action, required);
    }
    if m == mod && action == added && (required == Some(All) ==> scope == All) {
      assert RowSatisfies(next[k], m, action, required);
    }
    if m == mod && required == Some(All) && scope == All && exists i :: 0 <= i < |rows| && HoleAt(rows, mod, action, i) {
      var i :| 0 <= i < |rows| && HoleAt(rows, mod, action, i);
      assert RowSatisfies(next[i], m, action, required);
    }
  }

  /** With explicit scopes the padding never fires: an append grants its own pair and leaves every other decision alone. */
  lemma PaddingNeverWidens(rows: seq<Row>, mod: string, added: string, scope: Scope, create: bool,
                           m: string, action: string, required: Option<Scope>)
    requires AllExplicit(rows)
    ensures Satisfies(AppendGrant(rows, mod, added, scope, create), m, action, required) <==>
              || Satisfies(rows, m, action, required)
              || (Appends(rows, mod, added, create) && m == mod && action == added && (required == Some(All) ==> scope == All))
  {
    AppendDecides(rows, mod, added, scope, create, m, action, required);
    forall i | 0 <= i < |rows| ensures !HoleAt(rows, mod, action, i) {
      assert Explicit(rows[i]);
      var k := FirstIndex(rows[i].actions, action);
      assert k < |rows[i].actions| ==> ScopesOf(rows[i])[k] in ScopesOf(rows[i]);
    }
  }

  /** The HR backfill, reached through any earlier passes, decides everything but its own pair as before. */
  lemma HrBackfillNeverWidens(earlier: seq<Pass>, role: Role, presets: Presets, m: string, action: string, required: Option<Scope>)
    requires NullFree(role.permissions) && (m != SALARY || action != "sensitive_view")
    ensures var before := RunPasses([ScopeBackfill] + earlier, role, presets);
            Satisfies(Rewrite(HrSensitiveView, before, presets).0.permissions, m, action, required) <==>
            Satisfies(before.permissions, m, action, required)
  {
    LockstepChain(earlier, role, presets);
    var before := RunPasses([ScopeBackfill] + earlier, role, presets);
    PaddingNeverWidens(before.permissions, SALARY, "sensitive_view", All, false, m, action, required);
  }
}
