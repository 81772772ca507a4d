/**
 * The two grant strips: what each removes from the guard's decisions, exactly,
 * and why neither the path merge nor the baseline brings it back.
 */
module RoleStrips {
  import opened Prelude
  import opened OrderedMap
  import opened Permissions
  import opened GrantMerge
  import opened RoleMigrations
  import opened RoleChain

  // ------------------------------------------------- self mark/edit, flat rows

  lemma {:induction false} KeptOther(row: Row, n: nat, action: string)
    requires n <= |row.actions| && (row.mod != ATTENDANCE || action !in RETIRED_ACTIONS)
    ensures var k := Kept(row, n);
            var f, f' := FirstIndex(row.actions[..n], action), FirstIndex(k.0, action);
            && |k.0| == |k.1|
            && (f < n <==> f' < |k.0|)
            && (f < n ==> k.1[f'] == Some(ScopeAt(row, f).GetOr(Self)))
  {
    if n == 0 {
    } else {
      KeptOther(row, n - 1, action);
      var k, last := Kept(row, n - 1), row.actions[n - 1];
      assert row.actions[..n] == row.actions[..n - 1] + [last];
      FirstIndexAppend(row.actions[..n - 1], action, last);
      if RetiredEntry(row, n - 1) {
        assert Kept(row, n) == k && last != action;
      } else {
        assert Kept(row, n) == (k.0 + [last], k.1 + [Some(ScopeAt(row, n - 1).GetOr(Self))]);
        FirstIndexAppend(k.0, action, last);
      }
    }
  }

  lemma {:induction false} KeptRetired(row: Row, n: nat, action: string)
    requires n <= |row.actions| && row.mod == ATTENDANCE && action in RETIRED_ACTIONS
    ensures var k := Kept(row, n);
            && |k.0| == |k.1|
            && (action in k.0 <==> WidestIn(row, n, action) == Some(All))
            && (forall j :: 0 <= j < |k.0| && k.0[j] == action ==> k.1[j] == Some(All))
  {
    if n == 0 {
    } else {
      KeptRetired(row, n - 1, action);
      var scope := ScopeAt(row, n - 1).GetOr(Self);
      match scope case Self => case All =>
    }
  }

  lemma StrippedRowSatisfies(row: Row, mod: string, action: string, required: Option<Scope>)
    ensures RowSatisfies(StrippedRow(row), mod, action, required) <==>
            if mod == ATTENDANCE && action in RETIRED_ACTIONS
            then row.mod == mod && WidestIn(row, |row.actions|, action) == Some(All)
            else RowSatisfies(row, mod, action, required)
  {
    if row.mod == ATTENDANCE {
      var k := Kept(row, |row.actions|);
      assert row.actions[..|row.actions|] == row.actions;
      if action in RETIRED_ACTIONS {
        KeptRetired(row, |row.actions|, action);
      } else {
        KeptOther(row, |row.actions|, action);
      }
    }
  }

  lemma UnretiredRowSatisfies(row: Row, action: string, required: Option<Scope>)
    requires action in RETIRED_ACTIONS && forall p :: 0 <= p < |row.actions| ==> !RetiredEntry(row, p)
    ensures RowSatisfies(row, ATTENDANCE, action, required) <==>
            row.mod == ATTENDANCE && WidestIn(row, |row.actions|, action) == Some(All)
  {
    var f := FirstIndex(row.actions, action);
    if row.mod == ATTENDANCE && f < |row.actions| {
      assert !RetiredEntry(row, f);
      var scope := ScopeAt(row, f).GetOr(Self);
      match scope { case Self => case All => }
      WidestInCovers(row, |row.actions|, f);
    }
    var _, w := InOccurs(row, |row.actions|, action);
  }

  lemma {:induction false} WidestFlatAll(rows: seq<Row>, mod: string, action: string)
    ensures WidestFlat(rows, mod, action) == Some(All) <==>
            exists i :: 0 <= i < |rows| && rows[i].mod == mod && WidestIn(rows[i], |rows[i].actions|, action) == Some(All)
  {
    if |rows| == 0 {
    } else {
      var n := |rows| - 1;
      WidestFlatAll(rows[..n], mod, action);
      assert forall i :: 0 <= i < n ==> rows[..n][i] == rows[i];
    }
  }

  /**
   * The exact effect of the strip on flat rows, whatever is stored: mark and
   * edit survive only where some entry grants them at all scope; every other
   * decision of the guard stays.
   */
  lemma StripDecides(role: Role, mod: string, action: string, required: Option<Scope>)
    ensures Satisfies(Stripped(role).permissions, mod, action, required) <==>
            if mod == ATTENDANCE && action in RETIRED_ACTIONS then WidestFlat(role.permissions, mod, action) == Some(All)
            else Satisfies(role.permissions, mod, action, required)
  {
    var rows, after := role.permissions, Stripped(role).permissions;
    var retired := mod == ATTENDANCE && action in RETIRED_ACTIONS;
    forall i | 0 <= i < |rows|
      ensures RowSatisfies(after[i], mod, action, required) <==>
              if retired then rows[i].mod == mod && WidestIn(rows[i], |rows[i].actions|, action) == Some(All)
              else RowSatisfies(rows[i], mod, action, required)
    {
      if HasRetired(role) {
        StrippedRowSatisfies(rows[i], mod, action, required);
      } else if retired {
        UnretiredRowSatisfies(rows[i], action, required);
      }
    }
    WidestFlatAll(rows, mod, action);
  }

  /** With unique pairs: mark and edit are granted afterwards exactly to those who held them at all scope. */
  lemma StripDecidesUnique(role: Role, action: string, required: Option<Scope>)
    requires UniquePairs(role.permissions) && action in RETIRED_ACTIONS
    ensures Satisfies(Stripped(role).permissions, ATTENDANCE, action, required) <==>
            Satisfies(role.permissions, ATTENDANCE, action, Some(All))
  {
    StripDecides(role, ATTENDANCE, action, required);
    UniqueFlat(role.permissions, ATTENDANCE, action, Some(All));
  }

  // ------------------------------------------------------ self mark/edit, paths

  predicate Lists(grants: seq<PathGrant>, path: string) {
    exists j :: 0 <= j < |grants| && grants[j].path == path
  }

  lemma {:induction false} PathSatisfiesAppend(grants: seq<PathGrant>, g: PathGrant, path: string, required: Option<Scope>)
    ensures PathSatisfies(grants + [g], path, required) <==>
              || PathSatisfies(grants, path, required)
              || (!Lists(grants, path) && g.path == path && (required == Some(All) ==> g.scope == All))
  {
    if |grants| > 0 {
      assert (grants + [g])[1..] == grants[1..] + [g];
      PathSatisfiesAppend(grants[1..], g, path, required);
      assert Lists(grants, path) <==> grants[0].path == path || Lists(grants[1..], path) by {
        if Lists(grants, path) && grants[0].path != path {
          var j :| 0 <= j < |grants| && grants[j].path == path;
          assert grants[1..][j - 1].path == path;
        }
      }
      if grants[0].path == path {
      } else {
        assert (grants + [g])[0] == grants[0];
      }
    } else {
      assert grants + [g] == [g];
    }
  }

  /** The same for the path store. */
  lemma {:induction false} StripPathsDecide(paths: seq<PathGrant>, path: string, required: Option<Scope>)
    ensures PathSatisfies(StrippedPaths(paths), path, required) <==>
            if path in RETIRED_PATHS then WidestScope(paths, path) == Some(All) else PathSatisfies(paths, path, required)
    ensures path !in RETIRED_PATHS ==> (Lists(StrippedPaths(paths), path) <==> Lists(paths, path))
    ensures path in RETIRED_PATHS ==> (Lists(StrippedPaths(paths), path) <==> WidestScope(paths, path) == Some(All))
  {
    if |paths| == 0 {
    } else {
      var n := |paths| - 1;
      var init, g := paths[..n], paths[n];
      StripPathsDecide(init, path, required);
      assert paths == init + [g];
      PathSatisfiesAppend(init, g, path, required);
      ListsAppend(init, g, path);
      if RetiredPath(g) {
        assert StrippedPaths(paths) == StrippedPaths(init);
      } else {
        assert StrippedPaths(paths) == StrippedPaths(init) + [g];
        PathSatisfiesAppend(StrippedPaths(init), g, path, required);
        ListsAppend(StrippedPaths(init), g, path);
      }
      match g.scope { case Self => case All => }
    }
  }

  lemma ListsAppend(grants: seq<PathGrant>, g: PathGrant, path: string)
    ensures Lists(grants + [g], path) <==> Lists(grants, path) || g.path == path
  {
    var more := grants + [g];
    assert more[|grants|] == g;
    if Lists(grants, path) {
      var j :| 0 <= j < |grants| && grants[j].path == path;
      assert more[j].path == path;
    }
  }

  lemma StripPathDecides(role: Role, path: string, required: Option<Scope>)
    ensures PathSatisfies(Stripped(role).paths, path, required) <==>
            if path in RETIRED_PATHS then WidestScope(role.paths, path) == Some(All) else PathSatisfies(role.paths, path, required)
  {
    StripPathsDecide(role.paths, path, required);
    if !HasRetired(role) {
      NothingStripped(role.paths);
    }
  }

  lemma {:induction false} NothingStripped(paths: seq<PathGrant>)
    requires forall i :: 0 <= i < |paths| ==> !RetiredPath(paths[i])
    ensures StrippedPaths(paths) == paths
  {
    if |paths| == 0 {
    } else {
      NothingStripped(paths[..|paths| - 1]);
    }
  }

  lemma {:induction false} StrippedPathsClean(paths: seq<PathGrant>)
    ensures forall i :: 0 <= i < |StrippedPaths(paths)| ==> !RetiredPath(StrippedPaths(paths)[i])
  {
    if |paths| == 0 {
    } else {
      StrippedPathsClean(paths[..|paths| - 1]);
    }
  }

  /** No retired self grant is left in either store, so a rerun writes nothing. */
  lemma StripIsComplete(role: Role)
    ensures !HasRetired(Stripped(role)) && Stripped(Stripped(role)) == Stripped(role)
  {
    var after := Stripped(role);
    StrippedPathsClean(role.paths);
    if HasRetired(role) {
      forall i, p | 0 <= i < |after.permissions| && 0 <= p < |after.permissions[i].actions|
        ensures !RetiredEntry(after.permissions[i], p)
      {
        var row := role.permissions[i];
        if row.mod == ATTENDANCE && after.permissions[i].actions[p] in RETIRED_ACTIONS {
          KeptRetired(row, |row.actions|, after.permissions[i].actions[p]);
        }
      }
    }
  }

  /** A force-allow of a retired path, at self scope or without one. */
  ghost predicate SelfAllow(o: PathOverride) {
    && (o.path == "attendance.record.mark" || o.path == "attendance.record.edit")
    && o.allowed && (o.scope == None || o.scope == Some(Self))
  }

  lemma SelfAllowIs(o: PathOverride)
    ensures RetiredOverride(o) <==> SelfAllow(o)
  {
    match o.scope
    case None =>
    case Some(scope) =>
  }

  /** `ks` are the places, in order, of the overrides that are not such, and `kept` is what stands there. */
  ghost predicate KeptAt(overrides: seq<PathOverride>, kept: seq<PathOverride>, ks: seq<nat>) {
    && |ks| == |kept|
    && (forall j :: 0 <= j < |ks| ==> ks[j] < |overrides| && kept[j] == overrides[ks[j]])
    && (forall i, j :: 0 <= i < j < |ks| ==> ks[i] < ks[j])
    && (forall i :: 0 <= i < |overrides| ==> (i in ks <==> !SelfAllow(overrides[i])))
  }

  lemma KeptAtRetired(overrides: seq<PathOverride>, kept: seq<PathOverride>, ks: seq<nat>, o: PathOverride)
    requires KeptAt(overrides, kept, ks) && SelfAllow(o)
    ensures KeptAt(overrides + [o], kept, ks)
  {
    assert |overrides| !in ks;
  }

  lemma KeptAtOther(overrides: seq<PathOverride>, kept: seq<PathOverride>, ks: seq<nat>, o: PathOverride)
    requires KeptAt(overrides, kept, ks) && !SelfAllow(o)
    ensures KeptAt(overrides + [o], kept + [o], ks + [|overrides|])
  {
    var more := ks + [|overrides|];
    forall i | 0 <= i < |overrides + [o]| ensures i in more <==> !SelfAllow((overrides + [o])[i]) {
      if i == |overrides| { assert more[|ks|] == i; }
    }
  }

  /** The kept overrides are exactly those that are not retired force-allows, in their order. */
  lemma {:induction false} OverridesKept(overrides: seq<PathOverride>) returns (ks: seq<nat>)
    ensures KeptAt(overrides, StrippedOverrides(overrides), ks)
  {
    if |overrides| == 0 {
      ks := [];
    } else {
      var init, last := overrides[..|overrides| - 1], overrides[|overrides| - 1];
      InitAndLast(overrides);
      ks := OverridesKept(init);
      SelfAllowIs(last);
      if RetiredOverride(last) {
        KeptAtRetired(init, StrippedOverrides(init), ks, last);
      } else {
        KeptAtOther(init, StrippedOverrides(init), ks, last);
        ks := ks + [|init|];
      }
    }
  }

  lemma {:induction false} SameLengthSameOverrides(overrides: seq<PathOverride>)
    ensures |StrippedOverrides(overrides)| <= |overrides|
    ensures |StrippedOverrides(overrides)| == |overrides| ==> StrippedOverrides(overrides) == overrides
  {
    if |overrides| == 0 {
    } else {
      InitAndLast(overrides);
      SameLengthSameOverrides(overrides[..|overrides| - 1]);
    }
  }

  /** Members whose stored overrides the strip rewrites. */
  function StrippedMembers(members: seq<seq<PathOverride>>, fails: nat -> bool): seq<seq<PathOverride>> {
    seq(|members|, i requires 0 <= i < |members| => if fails(i) then members[i] else StrippedOverrides(members[i]))
  }

  /** Whose list gets shorter. */
  function Shrinks(members: seq<seq<PathOverride>>): seq<bool> {
    seq(|members|, i requires 0 <= i < |members| => |StrippedOverrides(members[i])| != |members[i]|)
  }

  class MemberStore {
    var members: seq<seq<PathOverride>>

    constructor (members: seq<seq<PathOverride>>)
      ensures this.members == members
    {
      this.members := members;
    }

    /** One member: only a list that got shorter is saved. */
    method StripMember(i: nat, failing: bool) returns (changed: bool)
      requires i < |members|
      modifies this
      ensures members == old(members)[i := if failing then old(members)[i] else StrippedOverrides(old(members)[i])]
      ensures changed <==> |StrippedOverrides(old(members)[i])| != |old(members)[i]|
    {
      SameLengthSameOverrides(members[i]);
      var next := StrippedOverrides(members[i]);
      changed := |next| != |members[i]|;
      if changed && !failing {
        members := members[i := next];
      }
    }

    /** Member by member; a failed save leaves its member as it was. */
    method StripOverrides(fails: nat -> bool) returns (updated: nat, errors: nat)
      modifies this
      ensures members == StrippedMembers(old(members), fails)
      ensures updated == Count(Shrinks(old(members)), fails, false) && errors == Count(Shrinks(old(members)), fails, true)
    {
      ghost var found, target, shrinks := members, StrippedMembers(members, fails), Shrinks(members);
      updated, errors := 0, 0;
      for i := 0 to |members|
        invariant |members| == |found|
        invariant forall j :: 0 <= j < |found| ==> members[j] == if j < i then target[j] else found[j]
        invariant updated == Count(shrinks[..i], fails, false) && errors == Count(shrinks[..i], fails, true)
      {
        CountStep(shrinks, i, fails, false);
        CountStep(shrinks, i, fails, true);
        var changed := StripMember(i, fails(i));
        if changed {
          if fails(i) { errors := errors + 1; } else { updated := updated + 1; }
        }
      }
      assert shrinks[..|found|] == shrinks;
    }
  }

  // ------------------------------------------------------------ path merge

  lemma {:induction false} WidestIs(grants: seq<PathGrant>, path: string)
    ensures WidestScope(grants, path).Some? <==> exists i :: 0 <= i < |grants| && grants[i].path == path
    ensures WidestScope(grants, path) == Some(All) <==> exists i :: 0 <= i < |grants| && grants[i] == PathGrant(path, All)
  {
    if |grants| == 0 {
    } else {
      var n := |grants| - 1;
      WidestIs(grants[..n], path);
      assert forall i :: 0 <= i < n ==> grants[..n][i] == grants[i];
      match grants[n].scope { case Self => case All => }
    }
  }

  lemma {:induction false} NewModulesOnly(grants: seq<PathGrant>, g: PathGrant)
    ensures g in OfNewModules(grants) <==> g in grants && Head(g.path) in NEW_MODULES
  {
    if |grants| == 0 {
    } else {
      var n := |grants| - 1;
      NewModulesOnly(grants[..n], g);
      assert grants == grants[..n] + [grants[n]];
    }
  }

  /** The path merge decides every path outside the new modules as before. */
  lemma PathMergeKeepsOthers(role: Role, presets: Presets, path: string, required: Option<Scope>)
    requires UniquePaths(role.paths) && Head(path) !in NEW_MODULES
    ensures PathSatisfies(PathsMerged(role, presets).0.paths, path, required) <==> PathSatisfies(role.paths, path, required)
  {
    var adds := Additions(role, presets);
    WidestIs(adds, path);
    if i :| 0 <= i < |adds| && adds[i].path == path {
      assert adds[i] in adds;
      var preset := if role.isSystem then FindDefault(presets.defaults, role.name) else None;
      NewModulesOnly(if preset.Some? then preset.value.paths else FlatGrantsToPaths(role.permissions, presets.table), adds[i]);
    }
    MergedPathsDecide(role.paths, adds, path, required);
    UniqueLast(role.paths, path, required);
  }

  /** Entry `p` of row `i` is mapped to `path`. */
  predicate Maps(rows: seq<Row>, table: map<(string, string), seq<string>>, path: string, i: nat, p: nat) {
    i < |rows| && p < |rows[i].actions| && (rows[i].mod, rows[i].actions[p]) in table &&
    path in table[(rows[i].mod, rows[i].actions[p])]
  }

  lemma {:induction false} DerivedInIs(row: Row, n: nat, table: map<(string, string), seq<string>>, g: PathGrant)
    requires n <= |row.actions|
    ensures g in DerivedIn(row, n, table) <==>
            exists p :: 0 <= p < n && Maps([row], table, g.path, 0, p) && ScopeAt(row, p).GetOr(Self) == g.scope
  {
    assert [row][0] == row;
    if n == 0 {
    } else {
      DerivedInIs(row, n - 1, table, g);
      var key := (row.mod, row.actions[n - 1]);
      if key in table {
        var at := AtScope(table[key], ScopeAt(row, n - 1).GetOr(Self));
        assert g in at <==> g.path in table[key] && g.scope == ScopeAt(row, n - 1).GetOr(Self) by {
          if g.path in table[key] && g.scope == ScopeAt(row, n - 1).GetOr(Self) {
            var k :| 0 <= k < |table[key]| && table[key][k] == g.path;
            assert at[k] == g;
          }
        }
        assert g in DerivedIn(row, n, table) <==> g in DerivedIn(row, n - 1, table) || g in at;
      }
      assert Maps([row], table, g.path, 0, n - 1) <==> key in table && g.path in table[key];
    }
  }

  lemma {:induction false} DerivedIs(rows: seq<Row>, table: map<(string, string), seq<string>>, g: PathGrant)
    ensures g in Derived(rows, table) <==>
            exists i: nat, p: nat :: Maps(rows, table, g.path, i, p) && ScopeAt(rows[i], p).GetOr(Self) == g.scope
  {
    if |rows| == 0 {
    } else {
      var n := |rows| - 1;
      var row := rows[n];
      DerivedIs(rows[..n], table, g);
      DerivedInIs(row, |row.actions|, table, g);
      assert forall i :: 0 <= i < n ==> rows[..n][i] == rows[i];
      assert forall i: nat, p: nat :: i < n ==> (Maps(rows[..n], table, g.path, i, p) <==> Maps(rows, table, g.path, i, p));
      assert [row][0] == row;
      assert forall p: nat :: Maps([row], table, g.path, 0, p) <==> Maps(rows, table, g.path, n, p);
    }
  }

  /** What the legacy converter grants: a path exactly when some action is mapped to it, at all scope when one such entry has it. */
  lemma ConverterGrants(rows: seq<Row>, table: map<(string, string), seq<string>>, path: string, required: Option<Scope>)
    ensures PathSatisfies(FlatGrantsToPaths(rows, table), path, required) <==>
            exists i: nat, p: nat :: Maps(rows, table, path, i, p) && (required == Some(All) ==> ScopeAt(rows[i], p).GetOr(Self) == All)
  {
    var derived := Derived(rows, table);
    MergePathsGet([], derived, path);
    EntriesSatisfy(MergePaths([], derived).map_, path, required);
    WidestIs(derived, path);
    DerivedIs(rows, table, PathGrant(path, All));
    DerivedIs(rows, table, PathGrant(path, Self));
    ListedAt(derived, path);
  }

  lemma ListedAt(grants: seq<PathGrant>, path: string)
    ensures (exists i :: 0 <= i < |grants| && grants[i].path == path) <==> PathGrant(path, All) in grants || PathGrant(path, Self) in grants
    ensures (exists i :: 0 <= i < |grants| && grants[i] == PathGrant(path, All)) <==> PathGrant(path, All) in grants
  {
    if i :| 0 <= i < |grants| && grants[i].path == path {
      match grants[i].scope { case Self => case All => }
    }
  }

  // ------------------------------------------------------------ convergence

  /** Presets that grant mark and edit at all scope or not at all, and a table that maps only mark and edit to the retired paths. */
  ghost predicate Retired(presets: Presets) {
    && (forall name :: FindDefault(presets.defaults, name).Some? ==>
          && !AnyRetiredPath(FindDefault(presets.defaults, name).value.paths)
          && !AnyRetiredEntry(FindDefault(presets.defaults, name).value.permissions))
    && (forall key :: key in presets.table && (exists p :: p in presets.table[key] && p in RETIRED_PATHS) ==>
          key.0 == ATTENDANCE && key.1 in RETIRED_ACTIONS)
  }

  ghost predicate AnyRetiredPath(grants: seq<PathGrant>) {
    exists i :: 0 <= i < |grants| && RetiredPath(grants[i])
  }

  ghost predicate AnyRetiredEntry(rows: seq<Row>) {
    exists i, p :: 0 <= i < |rows| && 0 <= p < |rows[i].actions| && RetiredEntry(rows[i], p)
  }

  /** No grant of the list is a retired path at self scope, even after widening. */
  lemma {:induction false} WidestClean(grants: seq<PathGrant>, path: string)
    requires !AnyRetiredPath(grants) && path in RETIRED_PATHS
    ensures WidestScope(grants, path) != Some(Self) && LastScope(grants, path) != Some(Self)
  {
    if |grants| == 0 {
    } else {
      var n := |grants| - 1;
      assert forall i :: 0 <= i < n ==> grants[..n][i] == grants[i];
      WidestClean(grants[..n], path);
      assert !RetiredPath(grants[n]);
    }
  }

  lemma MergeStaysClean(existing: seq<PathGrant>, adds: seq<PathGrant>)
    requires !AnyRetiredPath(existing) && !AnyRetiredPath(adds)
    ensures !AnyRetiredPath(MergedPaths(existing, adds))
  {
    var m := MergePaths(LoadPaths(existing), adds);
    forall i | 0 <= i < |m.map_| && m.map_[i].0 in RETIRED_PATHS
      ensures m.map_[i].1 != Self
    {
      var path := m.map_[i].0;
      LoadPathsGet(existing, path);
      MergePathsGet(LoadPaths(existing), adds, path);
      GetAt(m.map_, i);
      WidestClean(existing, path);
      WidestClean(adds, path);
    }
  }

  lemma {:induction false} DerivedInClean(row: Row, n: nat, presets: Presets)
    requires n <= |row.actions| && Retired(presets) && forall p :: 0 <= p < |row.actions| ==> !RetiredEntry(row, p)
    ensures !AnyRetiredPath(DerivedIn(row, n, presets.table))
  {
    if n == 0 {
    } else {
      DerivedInClean(row, n - 1, presets);
      assert !RetiredEntry(row, n - 1);
    }
  }

  lemma {:induction false} DerivedClean(rows: seq<Row>, presets: Presets)
    requires Retired(presets) && !AnyRetiredEntry(rows)
    ensures !AnyRetiredPath(Derived(rows, presets.table))
  {
    if |rows| == 0 {
    } else {
      var n := |rows| - 1;
      assert forall i :: 0 <= i < n ==> rows[..n][i] == rows[i];
      assert !AnyRetiredEntry(rows[..n]);
      DerivedClean(rows[..n], presets);
      DerivedInClean(rows[n], |rows[n].actions|, presets);
    }
  }

  lemma {:induction false} OfNewModulesClean(grants: seq<PathGrant>)
    requires !AnyRetiredPath(grants)
    ensures !AnyRetiredPath(OfNewModules(grants))
  {
    if |grants| == 0 {
    } else {
      var n := |grants| - 1;
      assert forall i :: 0 <= i < n ==> grants[..n][i] == grants[i];
      OfNewModulesClean(grants[..n]);
    }
  }

  /** The path merge, for system and custom roles alike, derives no retired self grant from a clean role. */
  lemma PathMergeReAddsNone(role: Role, presets: Presets)
    requires Retired(presets) && !HasRetired(role)
    ensures !HasRetired(PathsMerged(role, presets).0)
  {
    var preset := if role.isSystem then FindDefault(presets.defaults, role.name) else None;
    if preset.None? {
      DerivedClean(role.permissions, presets);
      ConvertedClean(Derived(role.permissions, presets.table));
    }
    OfNewModulesClean(if preset.Some? then preset.value.paths else FlatGrantsToPaths(role.permissions, presets.table));
    MergeStaysClean(role.paths, Additions(role, presets));
  }

  lemma ConvertedClean(adds: seq<PathGrant>)
    requires !AnyRetiredPath(adds)
    ensures !AnyRetiredPath(Entries(MergePaths([], adds).map_))
  {
    var m := MergePaths([], adds);
    forall i | 0 <= i < |m.map_| && m.map_[i].0 in RETIRED_PATHS
      ensures m.map_[i].1 != Self
    {
      MergePathsGet([], adds, m.map_[i].0);
      GetAt(m.map_, i);
      WidestClean(adds, m.map_[i].0);
    }
  }

  lemma ReconciledRowsClean(rows: seq<Row>, defs: seq<Row>)
    requires !AnyRetiredEntry(rows) && !AnyRetiredEntry(defs)
    ensures !AnyRetiredEntry(MergedRows(rows, defs))
  {
    var flat := MergeRows(LoadRows(rows), defs).map_;
    LoadRowsGet(rows, "", "");
    MergeRowsGet(LoadRows(rows), defs, "", "");
    var out := ToRows(flat);
    forall i, p | 0 <= i < |out| && 0 <= p < |out[i].actions|
      ensures !RetiredEntry(out[i], p)
    {
      var mod, action := out[i].mod, out[i].actions[p];
      GetAt(flat, i);
      GetAt(flat[i].1, p);
      LoadRowsGet(rows, mod, action);
      MergeRowsGet(LoadRows(rows), defs, mod, action);
      if mod == ATTENDANCE && action in RETIRED_ACTIONS {
        NotSelf(rows, action);
        NotSelf(defs, action);
      }
    }
  }

  lemma NotSelf(rows: seq<Row>, action: string)
    requires !AnyRetiredEntry(rows) && action in RETIRED_ACTIONS
    ensures LastFlat(rows, ATTENDANCE, action) != Some(Self) && WidestFlat(rows, ATTENDANCE, action) != Some(Self)
  {
    var i, p, wi, wp := FlatOccurs(rows, ATTENDANCE, action);
    if LastFlat(rows, ATTENDANCE, action).Some? { assert !RetiredEntry(rows[i], p); }
    if WidestFlat(rows, ATTENDANCE, action).Some? { assert !RetiredEntry(rows[wi], wp); }
  }

  lemma AppendKeepsClean(rows: seq<Row>, mod: string, action: string, scope: Scope, create: bool)
    requires !AnyRetiredEntry(rows) && action !in RETIRED_ACTIONS
    ensures !AnyRetiredEntry(AppendGrant(rows, mod, action, scope, create))
  {
    var next := AppendGrant(rows, mod, action, scope, create);
    forall i, p | 0 <= i < |next| && 0 <= p < |next[i].actions|
      ensures !RetiredEntry(next[i], p)
    {
      if i < |rows| && p < |rows[i].actions| {
        assert !RetiredEntry(rows[i], p);
        assert next[i].actions[p] == rows[i].actions[p];
      }
    }
  }

  /** Once stripped, no pass of the chain brings a retired self grant back. */
  lemma RewriteKeepsClean(p: Pass, role: Role, presets: Presets)
    requires Retired(presets) && !HasRetired(role)
    ensures !HasRetired(Rewrite(p, role, presets).0)
  {
    var rows := role.permissions;
    assert !AnyRetiredEntry(rows);
    match p
    case ScopeBackfill =>
      var after := BackfillScopes(role).0.permissions;
      forall i, k | 0 <= i < |after| && 0 <= k < |after[i].actions|
        ensures !RetiredEntry(after[i], k)
      {
        assert !RetiredEntry(rows[i], k);
      }
    case WorkerRegularization => AppendKeepsClean(rows, ATTENDANCE, "manage_regularizations", Self, false);
    case AttendancePaths => PathMergeReAddsNone(role, presets);
    case StripSelfMarkEdit => StripIsComplete(role);
    case HrSensitiveView => AppendKeepsClean(rows, SALARY, "sensitive_view", All, false);
    case SalaryDeclareTax =>
      AppendKeepsClean(rows, SALARY, "declare_tax", Self, true);
      AppendKeepsClean(rows, SALARY, "declare_tax", All, true);
    case Baseline =>
      var def := FindDefault(presets.defaults, role.name);
      if def.Some? {
        ReconciledRowsClean(rows, def.value.permissions);
        MergeStaysClean(role.paths, def.value.paths);
      }
    case StripDeclareTax =>
      var after := Rewrite(p, role, presets).0.permissions;
      forall i, k | 0 <= i < |after| && 0 <= k < |after[i].actions|
        ensures !RetiredEntry(after[i], k)
      {
        if after[i] == rows[i] { assert !RetiredEntry(rows[i], k); }
      }
  }

  /** Convergence: after the strip, whatever passes follow and however often, the strip itself has nothing left to do. */
  lemma {:induction false} StripConverges(later: seq<Pass>, role: Role, presets: Presets)
    requires Retired(presets)
    ensures !HasRetired(RunPasses([StripSelfMarkEdit] + later, role, presets))
  {
    var ps := [StripSelfMarkEdit] + later;
    if |later| == 0 {
      assert ps[..0] == [];
      StripIsComplete(role);
    } else {
      var n := |later| - 1;
      assert ps[..|ps| - 1] == [StripSelfMarkEdit] + later[..n];
      StripConverges(later[..n], role, presets);
      RewriteKeepsClean(later[n], RunPasses([StripSelfMarkEdit] + later[..n], role, presets), presets);
    }
  }

  // ------------------------------------------------------------- declare_tax

  lemma {:induction false} KeepIndicesOrder(actions: seq<string>, action: string, n: nat)
    requires n <= |actions|
    ensures var ks := KeepIndices(actions, action, n);
            && (forall i, j :: 0 <= i < j < |ks| ==> ks[i] < ks[j])
            && (forall i :: 0 <= i < n ==> (i in ks <==> actions[i] != action))
  {
    if n == 0 {
    } else {
      KeepIndicesOrder(actions, action, n - 1);
      var before, more := KeepIndices(actions, action, n - 1), if actions[n - 1] == action then [] else [n - 1];
      assert KeepIndices(actions, action, n) == before + more;
      forall i | 0 <= i < |before| ensures before[i] < n - 1 {
        assert before[i] in before;
      }
    }
  }

  lemma KeptPlace(row: Row, gone: string, action: string)
    requires action != gone && action in row.actions
    ensures var after := WithoutAction(row, gone);
            var f, f' := FirstIndex(row.actions, action), FirstIndex(after.actions, action);
            f' < |after.actions| && ScopeAt(after, f') == ScopeAt(row, f)
  {
    var ks := KeepIndices(row.actions, gone, |row.actions|);
    KeepIndicesOrder(row.actions, gone, |row.actions|);
    var after := WithoutAction(row, gone);
    var f, f' := FirstIndex(row.actions, action), FirstIndex(after.actions, action);
    assert f in ks;
    var j :| 0 <= j < |ks| && ks[j] == f;
    assert after.actions[j] == action;
    assert ks[f'] in ks && row.actions[ks[f']] == action;
    assert f' == j;
  }

  lemma WithoutActionSatisfies(row: Row, gone: string, mod: string, action: string, required: Option<Scope>)
    ensures RowSatisfies(WithoutAction(row, gone), mod, action, required) <==>
            action != gone && RowSatisfies(row, mod, action, required)
  {
    var after := WithoutAction(row, gone);
    var ks := KeepIndices(row.actions, gone, |row.actions|);
    assert forall j :: 0 <= j < |ks| ==> ks[j] in ks && after.actions[j] == row.actions[ks[j]];
    if action != gone && action in row.actions {
      KeptPlace(row, gone, action);
    }
  }

  /** The exact effect of the tax strip, whatever is stored: every declare_tax grant goes, nothing else moves. */
  lemma StripTaxDecides(role: Role, mod: string, action: string, required: Option<Scope>)
    ensures Satisfies(StripTax(role).0.permissions, mod, action, required) <==>
            !(mod == SALARY && action == "declare_tax") && Satisfies(role.permissions, mod, action, required)
  {
    var rows, after := role.permissions, StripTax(role).0.permissions;
    forall i | 0 <= i < |rows|
      ensures RowSatisfies(after[i], mod, action, required) <==>
              !(mod == SALARY && action == "declare_tax") && RowSatisfies(rows[i], mod, action, required)
    {
      if HasDeclareTax(rows[i]) {
        WithoutActionSatisfies(rows[i], "declare_tax", mod, action, required);
      }
    }
  }

  /** A reconcile after the tax strip grants the tax action back exactly as far as the default of that role does. */
  lemma BaselineRegrantsTaxIff(role: Role, def: DefaultRole, required: Option<Scope>)
    ensures var after := Reconciled(StripTax(role).0, def).permissions;
            var granted := WidestFlat(def.permissions, SALARY, "declare_tax");
            Satisfies(after, SALARY, "declare_tax", required) <==>
              granted.Some? && (required == Some(All) ==> granted == Some(All))
  {
    var rows := StripTax(role).0.permissions;
    StripTaxDecides(role, SALARY, "declare_tax", None);
    StripTaxDecides(role, SALARY, "declare_tax", required);
    GrantedIffLoaded(rows, SALARY, "declare_tax");
    MergedRowsDecide(rows, def.permissions, SALARY, "declare_tax", required);
    LoadRowsGet(rows, SALARY, "declare_tax");
    MergeRowsChanges(LoadRows(rows), def.permissions);
    var _, _, i, p := FlatOccurs(def.permissions, SALARY, "declare_tax");
    if WidestFlat(def.permissions, SALARY, "declare_tax").Some? {
      assert Uncovered(LoadRows(rows), def.permissions[i], p);
    }
  }

  ghost predicate AnyTax(rows: seq<Row>) {
    exists i :: 0 <= i < |rows| && HasDeclareTax(rows[i])
  }

  lemma TaxOccurs(rows: seq<Row>)
    requires !AnyTax(rows)
    ensures LastFlat(rows, SALARY, "declare_tax").None? && WidestFlat(rows, SALARY, "declare_tax").None?
  {
    var i, p, wi, wp := FlatOccurs(rows, SALARY, "declare_tax");
    if LastFlat(rows, SALARY, "declare_tax").Some? { assert HasDeclareTax(rows[i]); }
  }

  lemma ReconciledLacksTax(rows: seq<Row>, defs: seq<Row>)
    requires !AnyTax(rows) && !AnyTax(defs)
    ensures !AnyTax(MergedRows(rows, defs))
  {
    var flat := MergeRows(LoadRows(rows), defs).map_;
    LoadRowsGet(rows, SALARY, "declare_tax");
    MergeRowsGet(LoadRows(rows), defs, SALARY, "declare_tax");
    TaxOccurs(rows);
    TaxOccurs(defs);
    var out := ToRows(flat);
    forall i, p | 0 <= i < |flat| && 0 <= p < |flat[i].1|
      ensures flat[i].0 != SALARY || flat[i].1[p].0 != "declare_tax"
    {
      EntryFound(flat, i, p);
    }
    forall i | 0 <= i < |out| && out[i].mod == SALARY
      ensures "declare_tax" !in out[i].actions
    {
      assert forall p :: 0 <= p < |out[i].actions| ==> out[i].actions[p] == flat[i].1[p].0;
    }
  }

  lemma EntryFound(flat: FlatMap, i: nat, p: nat)
    requires NestedUnique(flat) && i < |flat| && p < |flat[i].1|
    ensures FlatGet(flat, flat[i].0, flat[i].1[p].0) == Some(flat[i].1[p].1)
  {
    GetAt(flat, i);
    GetAt(flat[i].1, p);
  }

  /** The Employee or Accountant system role, without the tax action. */
  ghost predicate TaxFreeStaff(role: Role) {
    role.isSystem && role.name in ["Employee", "Accountant"] && !AnyTax(role.permissions)
  }

  ghost predicate StaffDefaultsLackTax(presets: Presets) {
    forall name :: name in ["Employee", "Accountant"] && FindDefault(presets.defaults, name).Some? ==>
      !AnyTax(FindDefault(presets.defaults, name).value.permissions)
  }

  lemma RewriteLacksTax(p: Pass, role: Role, presets: Presets)
    requires TaxFreeStaff(role) && StaffDefaultsLackTax(presets)
    ensures TaxFreeStaff(Rewrite(p, role, presets).0)
  {
    var rows, after := role.permissions, Rewrite(p, role, presets).0.permissions;
    if p.Baseline? {
      var def := FindDefault(presets.defaults, role.name);
      if def.Some? { ReconciledLacksTax(rows, def.value.permissions); }
    } else {
      forall i | 0 <= i < |after|
        ensures !HasDeclareTax(after[i])
      {
        assert !HasDeclareTax(rows[i]);
      }
    }
  }

  lemma StripTaxIsComplete(role: Role)
    ensures !AnyTax(StripTax(role).0.permissions)
  {
    forall i | 0 <= i < |role.permissions|
      ensures !HasDeclareTax(StripTax(role).0.permissions[i])
    {
      KeepIndicesOrder(role.permissions[i].actions, "declare_tax", |role.permissions[i].actions|);
    }
  }

  /** A baseline whose Employee and Accountant defaults lack the action never undoes the strip, whatever passes follow. */
  lemma {:induction false} TaxStaysStripped(later: seq<Pass>, role: Role, presets: Presets)
    requires role.isSystem && role.name in ["Employee", "Accountant"] && StaffDefaultsLackTax(presets)
    ensures TaxFreeStaff(RunPasses([StripDeclareTax] + later, role, presets))
  {
    var ps := [StripDeclareTax] + later;
    if |later| == 0 {
      assert ps[..0] == [];
      StripTaxIsComplete(role);
    } else {
      var n := |later| - 1;
      assert ps[..|ps| - 1] == [StripDeclareTax] + later[..n];
      TaxStaysStripped(later[..n], role, presets);
      RewriteLacksTax(later[n], RunPasses([StripDeclareTax] + later[..n], role, presets), presets);
    }
  }
}
