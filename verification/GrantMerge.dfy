/**
 * Union-and-widen merges: the system-role baseline reconcile and the merge of
 * path grants onto existing roles. Both load what is stored into an
 * insertion-ordered Map, so the last of several duplicates is what they see,
 * while the guard reads the first.
 */
module GrantMerge {
  import opened Prelude
  import opened OrderedMap
  import opened Permissions

  datatype Merged<M> = Merged(map_: M, changed: bool)

  datatype DefaultRole = DefaultRole(name: string, permissions: seq<Row>, paths: seq<PathGrant>)

  /** One grant merged in: added when missing, widened when narrower, else left alone. */
  function MergeOne(m: Merged<OMap<string, Scope>>, key: string, want: Scope): Merged<OMap<string, Scope>> {
    if Covers(Get(m.map_, key), want) then m else Merged(Put(m.map_, key, want), true)
  }

  lemma MergeOneGet(m: Merged<OMap<string, Scope>>, key: string, want: Scope, k: string)
    requires UniqueKeys(m.map_)
    ensures UniqueKeys(MergeOne(m, key, want).map_)
    ensures Get(MergeOne(m, key, want).map_, k) == Join(Get(m.map_, k), if key == k then Some(want) else None)
  {
    PutGet(m.map_, key, want, k);
    PutUnique(m.map_, key, want);
  }

  // ------------------------------------------------------------------ paths

  type PathMap = OMap<string, Scope>

  function LoadPaths(grants: seq<PathGrant>): PathMap {
    if |grants| == 0 then []
    else
      var g := grants[|grants| - 1];
      Put(LoadPaths(grants[..|grants| - 1]), g.path, g.scope)
  }

  function MergePaths(have: PathMap, adds: seq<PathGrant>): Merged<PathMap> {
    if |adds| == 0 then Merged(have, false)
    else
      var g := adds[|adds| - 1];
      MergeOne(MergePaths(have, adds[..|adds| - 1]), g.path, g.scope)
  }

  function Entries(m: PathMap): seq<PathGrant> {
    seq(|m|, i requires 0 <= i < |m| => PathGrant(m[i].0, m[i].1))
  }

  /** The path grants after a merge; nothing is rewritten when nothing changed. */
  function MergedPaths(existing: seq<PathGrant>, adds: seq<PathGrant>): seq<PathGrant> {
    var r := MergePaths(LoadPaths(existing), adds);
    if r.changed then Entries(r.map_) else existing
  }

  method MergePathsInto(existing: seq<PathGrant>, adds: seq<PathGrant>) returns (paths: seq<PathGrant>, changed: bool)
    ensures paths == MergedPaths(existing, adds)
    ensures changed == MergePaths(LoadPaths(existing), adds).changed
  {
    var have: PathMap := [];
    for i := 0 to |existing|
      invariant have == LoadPaths(existing[..i])
    {
      assert existing[..i + 1][..i] == existing[..i];
      have := Put(have, existing[i].path, existing[i].scope);
    }
    assert existing[..|existing|] == existing;
    changed := false;
    for i := 0 to |adds|
      invariant Merged(have, changed) == MergePaths(LoadPaths(existing), adds[..i])
    {
      assert adds[..i + 1][..i] == adds[..i];
      var cur := Get(have, adds[i].path);
      if cur.None? || (cur == Some(Self) && adds[i].scope == All) {
        have := Put(have, adds[i].path, adds[i].scope);
        changed := true;
      }
    }
    assert adds[..|adds|] == adds;
    paths := if changed then Entries(have) else existing;
  }

  lemma {:induction false} LoadPathsGet(grants: seq<PathGrant>, path: string)
    ensures UniqueKeys(LoadPaths(grants)) && Get(LoadPaths(grants), path) == LastScope(grants, path)
  {
    if |grants| == 0 {
    } else {
      var n := |grants| - 1;
      LoadPathsGet(grants[..n], path);
      PutGet(LoadPaths(grants[..n]), grants[n].path, grants[n].scope, path);
      PutUnique(LoadPaths(grants[..n]), grants[n].path, grants[n].scope);
    }
  }

  lemma {:induction false} MergePathsGet(have: PathMap, adds: seq<PathGrant>, path: string)
    requires UniqueKeys(have)
    ensures var r := MergePaths(have, adds);
            UniqueKeys(r.map_) && Get(r.map_, path) == Join(Get(have, path), WidestScope(adds, path))
  {
    if |adds| == 0 {
    } else {
      var n := |adds| - 1;
      MergePathsGet(have, adds[..n], path);
      MergeOneGet(MergePaths(have, adds[..n]), adds[n].path, adds[n].scope, path);
    }
  }

  lemma {:induction false} MergePathsChanges(have: PathMap, adds: seq<PathGrant>)
    ensures var r := MergePaths(have, adds);
            && (!r.changed ==> r.map_ == have)
            && (r.changed <==> exists i :: 0 <= i < |adds| && !Covers(Get(have, adds[i].path), adds[i].scope))
  {
    if |adds| == 0 {
    } else {
      var n := |adds| - 1;
      MergePathsChanges(have, adds[..n]);
      assert forall i :: 0 <= i < n ==> adds[..n][i] == adds[i];
    }
  }

  lemma EntriesSatisfy(m: PathMap, path: string, required: Option<Scope>)
    requires UniqueKeys(m)
    ensures PathSatisfies(Entries(m), path, required) <==>
            Get(m, path).Some? && (required == Some(All) ==> Get(m, path) == Some(All))
  {
    var k := Find(m, path);
    if k < |m| {
      PathSatisfiesAt(Entries(m), path, required, k);
    } else {
      PathUnsatisfied(Entries(m), path, required);
    }
  }

  /** What the guard decides after a path merge, for any stored grants, duplicates included. */
  lemma MergedPathsDecide(existing: seq<PathGrant>, adds: seq<PathGrant>, path: string, required: Option<Scope>)
    ensures var scope := Join(LastScope(existing, path), WidestScope(adds, path));
            PathSatisfies(MergedPaths(existing, adds), path, required) <==>
              if MergePaths(LoadPaths(existing), adds).changed
              then scope.Some? && (required == Some(All) ==> scope == Some(All))
              else PathSatisfies(existing, path, required)
  {
    LoadPathsGet(existing, path);
    MergePathsGet(LoadPaths(existing), adds, path);
    EntriesSatisfy(MergePaths(LoadPaths(existing), adds).map_, path, required);
  }

  lemma {:induction false} CoveredWidest(have: Option<Scope>, adds: seq<PathGrant>, path: string)
    requires forall i :: 0 <= i < |adds| && adds[i].path == path ==> Covers(have, adds[i].scope)
    ensures Join(have, WidestScope(adds, path)) == have
  {
    if |adds| == 0 {
    } else {
      var n := |adds| - 1;
      assert forall i :: 0 <= i < n ==> adds[..n][i] == adds[i];
      CoveredWidest(have, adds[..n], path);
    }
  }

  /** With unique paths on both sides the merge is the least upper bound: it revokes nothing and grants nothing else. */
  lemma MergedPathsAreLub(existing: seq<PathGrant>, adds: seq<PathGrant>, path: string, required: Option<Scope>)
    requires UniquePaths(existing) && UniquePaths(adds)
    ensures PathSatisfies(MergedPaths(existing, adds), path, required) <==>
            PathSatisfies(existing, path, required) || PathSatisfies(adds, path, required)
  {
    MergedPathsDecide(existing, adds, path, required);
    UniqueLast(existing, path, required);
    UniqueLast(adds, path, required);
    MergePathsChanges(LoadPaths(existing), adds);
    if !MergePaths(LoadPaths(existing), adds).changed {
      LoadPathsGet(existing, path);
      forall i | 0 <= i < |adds| && adds[i].path == path
        ensures Covers(LastScope(existing, path), adds[i].scope)
      {
      }
      CoveredWidest(LastScope(existing, path), adds, path);
    }
  }

  /** Is the merge going to rewrite the grants? */
  ghost predicate PathsUncovered(existing: seq<PathGrant>, adds: seq<PathGrant>) {
    exists i :: 0 <= i < |adds| && !Covers(LastScope(existing, adds[i].path), adds[i].scope)
  }

  /**
   * Exactly how a path merge moves an all-scope requirement, for any stored
   * grants: a rewrite replaces the guard's first entry by the last one, so with
   * duplicates it can narrow a path, or widen it beyond what is added.
   */
  lemma PathsMoveIff(existing: seq<PathGrant>, adds: seq<PathGrant>, path: string)
    ensures var before := PathSatisfies(existing, path, Some(All));
            var after := PathSatisfies(MergedPaths(existing, adds), path, Some(All));
            var rewrites := PathsUncovered(existing, adds);
            var last, added := LastScope(existing, path), WidestScope(adds, path);
            && ((before && !after) <==> (before && rewrites && last != Some(All) && added != Some(All)))
            && ((!before && after) <==> (!before && rewrites && (last == Some(All) || added == Some(All))))
  {
    LoadPathsGet(existing, path);
    forall i | 0 <= i < |adds| ensures Get(LoadPaths(existing), adds[i].path) == LastScope(existing, adds[i].path) {
      LoadPathsGet(existing, adds[i].path);
    }
    MergePathsChanges(LoadPaths(existing), adds);
    MergedPathsDecide(existing, adds, path, Some(All));
    var scope := Join(LastScope(existing, path), WidestScope(adds, path));
    assert scope == Some(All) <==> LastScope(existing, path) == Some(All) || WidestScope(adds, path) == Some(All);
  }

  lemma {:induction false} WidestCovers(adds: seq<PathGrant>, i: nat)
    requires i < |adds|
    ensures Covers(WidestScope(adds, adds[i].path), adds[i].scope)
  {
    var n := |adds| - 1;
    if i < n {
      assert adds[..n][i] == adds[i];
      WidestCovers(adds[..n], i);
    }
  }

  lemma {:induction false} LoadEntries(m: PathMap)
    requires UniqueKeys(m)
    ensures LoadPaths(Entries(m)) == m
  {
    if |m| == 0 {
    } else {
      var n := |m| - 1;
      assert Entries(m)[..n] == Entries(m[..n]);
      LoadEntries(m[..n]);
      assert Find(m[..n], m[n].0) == n;
      assert m == m[..n] + [m[n]];
    }
  }

  /** A rerun of the same merge finds everything covered and writes nothing. */
  lemma MergePathsRerun(existing: seq<PathGrant>, adds: seq<PathGrant>)
    ensures !MergePaths(LoadPaths(MergedPaths(existing, adds)), adds).changed
    ensures MergedPaths(MergedPaths(existing, adds), adds) == MergedPaths(existing, adds)
  {
    var have := LoadPaths(existing);
    LoadPathsGet(existing, "");
    var r := MergePaths(have, adds);
    if r.changed {
      MergePathsGet(have, adds, "");
      LoadEntries(r.map_);
      forall i | 0 <= i < |adds|
        ensures Covers(Get(r.map_, adds[i].path), adds[i].scope)
      {
        MergePathsGet(have, adds, adds[i].path);
        WidestCovers(adds, i);
      }
      MergePathsChanges(r.map_, adds);
    }
  }

  // ------------------------------------------------------------- flat rows

  type FlatMap = OMap<string, OMap<string, Scope>>

  function LoadActions(base: OMap<string, Scope>, row: Row, n: nat): OMap<string, Scope>
    requires n <= |row.actions|
  {
    if n == 0 then base else Put(LoadActions(base, row, n - 1), row.actions[n - 1], ScopeAt(row, n - 1).GetOr(Self))
  }

  function LoadRows(rows: seq<Row>): FlatMap {
    if |rows| == 0 then []
    else
      var flat, row := LoadRows(rows[..|rows| - 1]), rows[|rows| - 1];
      Put(flat, row.mod, LoadActions(Get(flat, row.mod).GetOr([]), row, |row.actions|))
  }

  function MergeActions(base: Merged<OMap<string, Scope>>, row: Row, n: nat): Merged<OMap<string, Scope>>
    requires n <= |row.actions|
  {
    if n == 0 then base else MergeOne(MergeActions(base, row, n - 1), row.actions[n - 1], ScopeAt(row, n - 1).GetOr(Self))
  }

  function MergeRow(m: Merged<FlatMap>, row: Row): Merged<FlatMap> {
    var r := MergeActions(Merged(Get(m.map_, row.mod).GetOr([]), m.changed), row, |row.actions|);
    Merged(Put(m.map_, row.mod, r.map_), r.changed)
  }

  function MergeRows(flat: FlatMap, defs: seq<Row>): Merged<FlatMap> {
    if |defs| == 0 then Merged(flat, false)
    else MergeRow(MergeRows(flat, defs[..|defs| - 1]), defs[|defs| - 1])
  }

  function ToRow(mod: string, actions: OMap<string, Scope>): Row {
    Row(mod, Keys(actions), Some(seq(|actions|, i requires 0 <= i < |actions| => Some(actions[i].1))))
  }

  function ToRows(flat: FlatMap): seq<Row> {
    seq(|flat|, i requires 0 <= i < |flat| => ToRow(flat[i].0, flat[i].1))
  }

  function MergedRows(rows: seq<Row>, defs: seq<Row>): seq<Row> {
    var r := MergeRows(LoadRows(rows), defs);
    if r.changed then ToRows(r.map_) else rows
  }

  /** The baseline reconcile of one role with the default of its name. */
  function Reconciled(role: Role, def: DefaultRole): Role {
    role.(permissions := MergedRows(role.permissions, def.permissions), paths := MergedPaths(role.paths, def.paths))
  }

  method LoadFlat(rows: seq<Row>) returns (flat: FlatMap)
    ensures flat == LoadRows(rows)
  {
    flat := [];
    for r := 0 to |rows|
      invariant flat == LoadRows(rows[..r])
    {
      assert rows[..r + 1][..r] == rows[..r];
      ghost var base := Get(flat, rows[r].mod).GetOr([]);
      var actions := Get(flat, rows[r].mod).GetOr([]);
      for i := 0 to |rows[r].actions|
        invariant actions == LoadActions(base, rows[r], i)
      {
        actions := Put(actions, rows[r].actions[i], ScopeAt(rows[r], i).GetOr(Self));
      }
      flat := Put(flat, rows[r].mod, actions);
    }
    assert rows[..|rows|] == rows;
  }

  /** The inner union-and-widen loop: one row of the default. */
  method MergeRowInto(base: OMap<string, Scope>, changedBefore: bool, row: Row) returns (actions: OMap<string, Scope>, changed: bool)
    ensures Merged(actions, changed) == MergeActions(Merged(base, changedBefore), row, |row.actions|)
  {
    actions, changed := base, changedBefore;
    for i := 0 to |row.actions|
      invariant Merged(actions, changed) == MergeActions(Merged(base, changedBefore), row, i)
    {
      var want := ScopeAt(row, i).GetOr(Self);
      var cur := Get(actions, row.actions[i]);
      if cur.None? || (cur == Some(Self) && want == All) {
        actions := Put(actions, row.actions[i], if cur.None? then want else All);
        changed := true;
      }
    }
  }

  method MergeRowsInto(rows: seq<Row>, defs: seq<Row>) returns (out: seq<Row>, changed: bool)
    ensures out == MergedRows(rows, defs)
    ensures changed == MergeRows(LoadRows(rows), defs).changed
  {
    var flat := LoadFlat(rows);
    changed := false;
    for r := 0 to |defs|
      invariant Merged(flat, changed) == MergeRows(LoadRows(rows), defs[..r])
    {
      assert defs[..r + 1][..r] == defs[..r];
      var actions;
      actions, changed := MergeRowInto(Get(flat, defs[r].mod).GetOr([]), changed, defs[r]);
      flat := Put(flat, defs[r].mod, actions);
    }
    assert defs[..|defs|] == defs;
    out := if changed then ToRows(flat) else rows;
  }

  /** The last entry for `action` among the row's first `n`. */
  function LastIn(row: Row, n: nat, action: string): Option<Scope>
    requires n <= |row.actions|
  {
    if n == 0 then None
    else if row.actions[n - 1] == action then Some(ScopeAt(row, n - 1).GetOr(Self))
    else LastIn(row, n - 1, action)
  }

  function WidestIn(row: Row, n: nat, action: string): Option<Scope>
    requires n <= |row.actions|
  {
    if n == 0 then None
    else Join(WidestIn(row, n - 1, action),
              if row.actions[n - 1] == action then Some(ScopeAt(row, n - 1).GetOr(Self)) else None)
  }

  /** The scope a pair is loaded with: its last entry, rows and positions in order. */
  function LastFlat(rows: seq<Row>, mod: string, action: string): Option<Scope> {
    if |rows| == 0 then None
    else
      var row := rows[|rows| - 1];
      var here := if row.mod == mod then LastIn(row, |row.actions|, action) else None;
      if here.Some? then here else LastFlat(rows[..|rows| - 1], mod, action)
  }

  function WidestFlat(rows: seq<Row>, mod: string, action: string): Option<Scope> {
    if |rows| == 0 then None
    else
      var row := rows[|rows| - 1];
      Join(WidestFlat(rows[..|rows| - 1], mod, action),
           if row.mod == mod then WidestIn(row, |row.actions|, action) else None)
  }

  function FlatGet(flat: FlatMap, mod: string, action: string): Option<Scope> {
    Get(Get(flat, mod).GetOr([]), action)
  }

  ghost predicate NestedUnique(flat: FlatMap) {
    UniqueKeys(flat) && forall i :: 0 <= i < |flat| ==> UniqueKeys(flat[i].1)
  }

  lemma {:induction false} LoadActionsGet(base: OMap<string, Scope>, row: Row, n: nat, action: string)
    requires n <= |row.actions| && UniqueKeys(base)
    ensures var m := LoadActions(base, row, n);
            && UniqueKeys(m)
            && Get(m, action) == if LastIn(row, n, action).Some? then LastIn(row, n, action) else Get(base, action)
  {
    if n == 0 {
    } else {
      LoadActionsGet(base, row, n - 1, action);
      var m := LoadActions(base, row, n - 1);
      PutGet(m, row.actions[n - 1], ScopeAt(row, n - 1).GetOr(Self), action);
      PutUnique(m, row.actions[n - 1], ScopeAt(row, n - 1).GetOr(Self));
    }
  }

  lemma NestedGet(flat: FlatMap, mod: string)
    requires NestedUnique(flat)
    ensures UniqueKeys(Get(flat, mod).GetOr([]))
  {
  }

  lemma PutNested(flat: FlatMap, mod: string, actions: OMap<string, Scope>, mod': string)
    requires NestedUnique(flat) && UniqueKeys(actions)
    ensures NestedUnique(Put(flat, mod, actions))
    ensures Get(Put(flat, mod, actions), mod').GetOr([]) == if mod' == mod then actions else Get(flat, mod').GetOr([])
  {
    PutGet(flat, mod, actions, mod');
    PutUnique(flat, mod, actions);
  }

  lemma {:induction false} LoadRowsGet(rows: seq<Row>, mod: string, action: string)
    ensures NestedUnique(LoadRows(rows)) && FlatGet(LoadRows(rows), mod, action) == LastFlat(rows, mod, action)
  {
    if |rows| == 0 {
    } else {
      var n := |rows| - 1;
      var flat, row := LoadRows(rows[..n]), rows[n];
      LoadRowsGet(rows[..n], mod, action);
      NestedGet(flat, row.mod);
      LoadActionsGet(Get(flat, row.mod).GetOr([]), row, |row.actions|, action);
      PutNested(flat, row.mod, LoadActions(Get(flat, row.mod).GetOr([]), row, |row.actions|), mod);
    }
  }

  lemma {:induction false} MergeActionsUnique(base: Merged<OMap<string, Scope>>, row: Row, n: nat)
    requires n <= |row.actions| && UniqueKeys(base.map_)
    ensures UniqueKeys(MergeActions(base, row, n).map_)
  {
    if n == 0 {
    } else {
      MergeActionsUnique(base, row, n - 1);
      MergeOneGet(MergeActions(base, row, n - 1), row.actions[n - 1], ScopeAt(row, n - 1).GetOr(Self), "");
    }
  }

  lemma JoinAssoc(a: Option<Scope>, b: Option<Scope>, c: Option<Scope>)
    ensures Join(Join(a, b), c) == Join(a, Join(b, c))
  {
  }

  lemma {:induction false} MergeActionsGet(base: Merged<OMap<string, Scope>>, row: Row, n: nat, action: string)
    requires n <= |row.actions| && UniqueKeys(base.map_)
    ensures Get(MergeActions(base, row, n).map_, action) == Join(Get(base.map_, action), WidestIn(row, n, action))
  {
    if n == 0 {
    } else {
      var before, scope := MergeActions(base, row, n - 1), ScopeAt(row, n - 1).GetOr(Self);
      MergeActionsUnique(base, row, n - 1);
      MergeActionsGet(base, row, n - 1, action);
      MergeOneGet(before, row.actions[n - 1], scope, action);
      JoinAssoc(Get(base.map_, action), WidestIn(row, n - 1, action), if row.actions[n - 1] == action then Some(scope) else None);
    }
  }

  lemma MergeRowGet(m: Merged<FlatMap>, row: Row, mod: string, action: string)
    requires NestedUnique(m.map_)
    ensures NestedUnique(MergeRow(m, row).map_)
    ensures FlatGet(MergeRow(m, row).map_, mod, action)
         == Join(FlatGet(m.map_, mod, action), if row.mod == mod then WidestIn(row, |row.actions|, action) else None)
  {
    NestedGet(m.map_, row.mod);
    var base := Merged(Get(m.map_, row.mod).GetOr([]), m.changed);
    MergeActionsUnique(base, row, |row.actions|);
    MergeActionsGet(base, row, |row.actions|, action);
    PutNested(m.map_, row.mod, MergeActions(base, row, |row.actions|).map_, mod);
  }

  lemma {:induction false} MergeRowsGet(flat: FlatMap, defs: seq<Row>, mod: string, action: string)
    requires NestedUnique(flat)
    ensures NestedUnique(MergeRows(flat, defs).map_)
    ensures FlatGet(MergeRows(flat, defs).map_, mod, action) == Join(FlatGet(flat, mod, action), WidestFlat(defs, mod, action))
  {
    if |defs| == 0 {
    } else {
      var n := |defs| - 1;
      MergeRowsGet(flat, defs[..n], mod, action);
      MergeRowGet(MergeRows(flat, defs[..n]), defs[n], mod, action);
    }
  }

  predicate Uncovered(flat: FlatMap, row: Row, p: nat)
    requires p < |row.actions|
  {
    !Covers(FlatGet(flat, row.mod, row.actions[p]), ScopeAt(row, p).GetOr(Self))
  }

  ghost predicate AnyUncovered(flat: FlatMap, defs: seq<Row>) {
    exists i, p :: 0 <= i < |defs| && 0 <= p < |defs[i].actions| && Uncovered(flat, defs[i], p)
  }

  ghost predicate SameGrants(f: FlatMap, g: FlatMap) {
    forall mod :: Get(f, mod).GetOr([]) == Get(g, mod).GetOr([])
  }

  lemma {:induction false} MergeActionsChanges(base: Merged<OMap<string, Scope>>, row: Row, n: nat)
    requires n <= |row.actions|
    ensures var r := MergeActions(base, row, n);
            && (!r.changed ==> r.map_ == base.map_)
            && (base.changed ==> r.changed)
            && (!base.changed ==>
                 (r.changed <==> exists p :: 0 <= p < n && !Covers(Get(base.map_, row.actions[p]), ScopeAt(row, p).GetOr(Self))))
  {
    if n == 0 {
    } else {
      MergeActionsChanges(base, row, n - 1);
    }
  }

  lemma MergeRowChanges(flat: FlatMap, m: Merged<FlatMap>, row: Row)
    requires NestedUnique(flat) && NestedUnique(m.map_)
    ensures m.changed ==> MergeRow(m, row).changed
    ensures !m.changed && SameGrants(m.map_, flat) ==>
              && (MergeRow(m, row).changed <==> exists p :: 0 <= p < |row.actions| && Uncovered(flat, row, p))
              && (!MergeRow(m, row).changed ==> SameGrants(MergeRow(m, row).map_, flat))
  {
    var base := Merged(Get(m.map_, row.mod).GetOr([]), m.changed);
    MergeActionsChanges(base, row, |row.actions|);
    if !m.changed && SameGrants(m.map_, flat) {
      assert base.map_ == Get(flat, row.mod).GetOr([]);
      assert forall p :: 0 <= p < |row.actions| ==>
        (Uncovered(flat, row, p) <==> !Covers(Get(base.map_, row.actions[p]), ScopeAt(row, p).GetOr(Self)));
      NestedGet(m.map_, row.mod);
      var r := MergeActions(base, row, |row.actions|);
      if !r.changed {
        forall mod ensures Get(Put(m.map_, row.mod, r.map_), mod).GetOr([]) == Get(flat, mod).GetOr([]) {
          PutNested(m.map_, row.mod, r.map_, mod);
        }
      }
    }
  }

  lemma UncoveredPrefix(flat: FlatMap, defs: seq<Row>)
    requires |defs| > 0
    ensures var n := |defs| - 1;
            AnyUncovered(flat, defs) <==>
              AnyUncovered(flat, defs[..n]) || exists p :: 0 <= p < |defs[n].actions| && Uncovered(flat, defs[n], p)
  {
    var n := |defs| - 1;
    if AnyUncovered(flat, defs[..n]) {
      var i, p :| 0 <= i < n && 0 <= p < |defs[..n][i].actions| && Uncovered(flat, defs[..n][i], p);
      assert Uncovered(flat, defs[i], p);
    }
    if AnyUncovered(flat, defs) {
      var i, p :| 0 <= i < |defs| && 0 <= p < |defs[i].actions| && Uncovered(flat, defs[i], p);
      assert i < n ==> Uncovered(flat, defs[..n][i], p);
    }
  }

  lemma {:induction false} MergeRowsChanges(flat: FlatMap, defs: seq<Row>)
    requires NestedUnique(flat)
    ensures MergeRows(flat, defs).changed <==> AnyUncovered(flat, defs)
    ensures !MergeRows(flat, defs).changed ==> SameGrants(MergeRows(flat, defs).map_, flat)
  {
    if |defs| == 0 {
    } else {
      var n := |defs| - 1;
      MergeRowsChanges(flat, defs[..n]);
      MergeRowsGet(flat, defs[..n], "", "");
      MergeRowChanges(flat, MergeRows(flat, defs[..n]), defs[n]);
      UncoveredPrefix(flat, defs);
    }
  }

  /** Where in the rows the pair sits. */
  predicate Occurs(rows: seq<Row>, mod: string, action: string, i: nat, p: nat) {
    i < |rows| && p < |rows[i].actions| && rows[i].mod == mod && rows[i].actions[p] == action
  }

  ghost predicate Absent(rows: seq<Row>, mod: string, action: string) {
    forall i, p :: !Occurs(rows, mod, action, i, p)
  }

  lemma {:induction false} InOccurs(row: Row, n: nat, action: string) returns (last: nat, widest: nat)
    requires n <= |row.actions|
    ensures LastIn(row, n, action).Some? ==>
              last < n && row.actions[last] == action && LastIn(row, n, action).value == ScopeAt(row, last).GetOr(Self)
    ensures WidestIn(row, n, action).Some? ==>
              widest < n && row.actions[widest] == action && WidestIn(row, n, action).value == ScopeAt(row, widest).GetOr(Self)
    ensures LastIn(row, n, action).None? ==> forall p :: 0 <= p < n ==> row.actions[p] != action
    ensures WidestIn(row, n, action).None? ==> forall p :: 0 <= p < n ==> row.actions[p] != action
  {
    last, widest := 0, 0;
    if n == 0 {
    } else {
      last, widest := InOccurs(row, n - 1, action);
      if row.actions[n - 1] == action {
        last := n - 1;
        if WidestIn(row, n - 1, action) != WidestIn(row, n, action) { widest := n - 1; }
      }
    }
  }

  lemma {:induction false} FlatOccurs(rows: seq<Row>, mod: string, action: string)
      returns (i: nat, p: nat, wi: nat, wp: nat)
    ensures LastFlat(rows, mod, action).Some? ==>
              Occurs(rows, mod, action, i, p) && LastFlat(rows, mod, action).value == ScopeAt(rows[i], p).GetOr(Self)
    ensures WidestFlat(rows, mod, action).Some? ==>
              Occurs(rows, mod, action, wi, wp) && WidestFlat(rows, mod, action).value == ScopeAt(rows[wi], wp).GetOr(Self)
    ensures LastFlat(rows, mod, action).None? || WidestFlat(rows, mod, action).None? ==> Absent(rows, mod, action)
  {
    i, p, wi, wp := 0, 0, 0, 0;
    if |rows| == 0 {
    } else {
      var n := |rows| - 1;
      i, p, wi, wp := FlatOccurs(rows[..n], mod, action);
      assert forall j :: 0 <= j < n ==> rows[..n][j] == rows[j];
      assert forall j, q :: Occurs(rows, mod, action, j, q) ==> j == n || Occurs(rows[..n], mod, action, j, q);
      if rows[n].mod == mod {
        var l, w := InOccurs(rows[n], |rows[n].actions|, action);
        if LastIn(rows[n], |rows[n].actions|, action).Some? { i, p := n, l; }
        if WidestFlat(rows[..n], mod, action) != WidestFlat(rows, mod, action) { wi, wp := n, w; }
      }
    }
  }

  /** An action is granted at all exactly when the pair occurs, so loading loses no grant, only its width. */
  lemma GrantedIffLoaded(rows: seq<Row>, mod: string, action: string)
    ensures Satisfies(rows, mod, action, None) <==> LastFlat(rows, mod, action).Some?
    ensures LastFlat(rows, mod, action).Some? <==> WidestFlat(rows, mod, action).Some?
  {
    var i, p, wi, wp := FlatOccurs(rows, mod, action);
    if LastFlat(rows, mod, action).Some? {
      assert RowSatisfies(rows[i], mod, action, None);
    }
    if Satisfies(rows, mod, action, None) {
      var j :| 0 <= j < |rows| && RowSatisfies(rows[j], mod, action, None);
      assert Occurs(rows, mod, action, j, FirstIndex(rows[j].actions, action));
    }
    if WidestFlat(rows, mod, action).Some? {
      assert Occurs(rows, mod, action, wi, wp);
    }
  }

  lemma UniquePairScope(rows: seq<Row>, mod: string, action: string, i: nat, p: nat)
    requires UniquePairs(rows) && Occurs(rows, mod, action, i, p)
    ensures var scope := Some(ScopeAt(rows[i], p).GetOr(Self));
            && LastFlat(rows, mod, action) == WidestFlat(rows, mod, action) == scope
            && (Satisfies(rows, mod, action, Some(All)) <==> scope == Some(All))
  {
    var j, q, wi, wp := FlatOccurs(rows, mod, action);
    assert FirstIndex(rows[i].actions, action) == p by {
      var f := FirstIndex(rows[i].actions, action);
      assert rows[i].actions[p] == action;
      assert f < |rows[i].actions| && rows[i].actions[f] == rows[i].actions[p];
    }
    if Satisfies(rows, mod, action, Some(All)) {
      var k :| 0 <= k < |rows| && RowSatisfies(rows[k], mod, action, Some(All));
      assert Occurs(rows, mod, action, k, FirstIndex(rows[k].actions, action));
    }
  }

  /** With unique pairs the guard, the loaded scope and the widest scope agree. */
  lemma UniqueFlat(rows: seq<Row>, mod: string, action: string, required: Option<Scope>)
    requires UniquePairs(rows)
    ensures LastFlat(rows, mod, action) == WidestFlat(rows, mod, action)
    ensures Satisfies(rows, mod, action, required) <==>
            LastFlat(rows, mod, action).Some? && (required == Some(All) ==> LastFlat(rows, mod, action) == Some(All))
  {
    GrantedIffLoaded(rows, mod, action);
    if required != Some(All) { NarrowRequirement(rows, mod, action, required); }
    var i, p, _, _ := FlatOccurs(rows, mod, action);
    if LastFlat(rows, mod, action).Some? {
      UniquePairScope(rows, mod, action, i, p);
    } else if Satisfies(rows, mod, action, Some(All)) {
      AllImpliesAny(rows, mod, action);
    }
  }

  lemma NarrowRequirement(rows: seq<Row>, mod: string, action: string, required: Option<Scope>)
    requires required != Some(All)
    ensures Satisfies(rows, mod, action, required) <==> Satisfies(rows, mod, action, None)
  {
    assert forall i :: 0 <= i < |rows| ==>
      (RowSatisfies(rows[i], mod, action, required) <==> RowSatisfies(rows[i], mod, action, None));
  }

  lemma AllImpliesAny(rows: seq<Row>, mod: string, action: string)
    requires Satisfies(rows, mod, action, Some(All))
    ensures Satisfies(rows, mod, action, None)
  {
    var i :| 0 <= i < |rows| && RowSatisfies(rows[i], mod, action, Some(All));
    assert RowSatisfies(rows[i], mod, action, None);
  }

  lemma ToRowsLoad(flat: FlatMap, mod: string, action: string)
    requires NestedUnique(flat)
    ensures UniquePairs(ToRows(flat)) && LastFlat(ToRows(flat), mod, action) == FlatGet(flat, mod, action)
  {
    var rows := ToRows(flat);
    var k := Find(flat, mod);
    var i, p, _, _ := FlatOccurs(rows, mod, action);
    if LastFlat(rows, mod, action).Some? {
      assert k == i;
      GetAt(flat[k].1, p);
    } else if FlatGet(flat, mod, action).Some? {
      assert Occurs(rows, mod, action, k, Find(flat[k].1, action));
    }
  }

  /** What the guard decides on flat rows after a reconcile, for any stored rows, duplicates included. */
  lemma MergedRowsDecide(rows: seq<Row>, defs: seq<Row>, mod: string, action: string, required: Option<Scope>)
    ensures var scope := Join(LastFlat(rows, mod, action), WidestFlat(defs, mod, action));
            Satisfies(MergedRows(rows, defs), mod, action, required) <==>
              if MergeRows(LoadRows(rows), defs).changed
              then scope.Some? && (required == Some(All) ==> scope == Some(All))
              else Satisfies(rows, mod, action, required)
  {
    LoadRowsGet(rows, mod, action);
    var r := MergeRows(LoadRows(rows), defs);
    MergeRowsGet(LoadRows(rows), defs, mod, action);
    ToRowsLoad(r.map_, mod, action);
    UniqueFlat(ToRows(r.map_), mod, action, required);
  }

  /**
   * The reconcile is the least upper bound of role and default on the flat
   * store: with unique pairs it revokes nothing and grants nothing outside both.
   */
  lemma BaselineIsLub(rows: seq<Row>, defs: seq<Row>, mod: string, action: string, required: Option<Scope>)
    requires UniquePairs(rows) && UniquePairs(defs)
    ensures Satisfies(MergedRows(rows, defs), mod, action, required) <==>
            Satisfies(rows, mod, action, required) || Satisfies(defs, mod, action, required)
  {
    MergedRowsDecide(rows, defs, mod, action, required);
    UniqueFlat(rows, mod, action, required);
    UniqueFlat(defs, mod, action, required);
    LoadRowsGet(rows, mod, action);
    MergeRowsChanges(LoadRows(rows), defs);
    if !MergeRows(LoadRows(rows), defs).changed {
      var _, _, i, p := FlatOccurs(defs, mod, action);
      if WidestFlat(defs, mod, action).Some? {
        assert !Uncovered(LoadRows(rows), defs[i], p);
      }
    }
  }

  /** Exactly when a reconcile narrows a stored grant: it rewrites the role, and the guard's first entry was wider than the last. */
  lemma BaselineNarrowsIff(rows: seq<Row>, defs: seq<Row>, mod: string, action: string)
    ensures var before := Satisfies(rows, mod, action, Some(All));
            var after := Satisfies(MergedRows(rows, defs), mod, action, Some(All));
            var rewrites := AnyUncovered(LoadRows(rows), defs);
            (before && !after) <==>
              (before && rewrites && LastFlat(rows, mod, action) == Some(Self) && WidestFlat(defs, mod, action) != Some(All))
  {
    var changed := MergeRows(LoadRows(rows), defs).changed;
    var rewrites := AnyUncovered(LoadRows(rows), defs);
    var after := Satisfies(MergedRows(rows, defs), mod, action, Some(All));
    assert changed <==> rewrites by {
      LoadRowsGet(rows, mod, action);
      MergeRowsChanges(LoadRows(rows), defs);
    }
    var before := Satisfies(rows, mod, action, Some(All));
    assert before ==> LastFlat(rows, mod, action).Some? by {
      if before {
        AllImpliesAny(rows, mod, action);
        GrantedIffLoaded(rows, mod, action);
      }
    }
    var last := LastFlat(rows, mod, action);
    assert last.Some? ==> last == Some(Self) || last == Some(All) by {
      if last.Some? { match last.value case Self => case All => }
    }
    var scope := Join(last, WidestFlat(defs, mod, action));
    assert after <==> if changed then scope == Some(All) else before by {
      MergedRowsDecide(rows, defs, mod, action, Some(All));
    }
  }

  /** And exactly when it widens one beyond both sides: it rewrites the role, and the last entry was wider than every first one. */
  lemma BaselineWidensIff(rows: seq<Row>, defs: seq<Row>, mod: string, action: string)
    ensures var before := Satisfies(rows, mod, action, Some(All));
            var after := Satisfies(MergedRows(rows, defs), mod, action, Some(All));
            var rewrites := AnyUncovered(LoadRows(rows), defs);
            var last, default := LastFlat(rows, mod, action), WidestFlat(defs, mod, action);
            (!before && after && default != Some(All)) <==>
              (!before && rewrites && last == Some(All) && default != Some(All))
  {
    LoadRowsGet(rows, mod, action);
    MergeRowsChanges(LoadRows(rows), defs);
    MergedRowsDecide(rows, defs, mod, action, Some(All));
  }

  /** No other requirement is ever lost. */
  lemma OnlyAllNarrows(rows: seq<Row>, defs: seq<Row>, mod: string, action: string)
    ensures forall required: Option<Scope> :: required != Some(All) && Satisfies(rows, mod, action, required) ==>
              Satisfies(MergedRows(rows, defs), mod, action, required)
  {
    forall required: Option<Scope> | required != Some(All) && Satisfies(rows, mod, action, required)
      ensures Satisfies(MergedRows(rows, defs), mod, action, required)
    {
      NarrowRequirement(rows, mod, action, required);
      GrantedIffLoaded(rows, mod, action);
      MergedRowsDecide(rows, defs, mod, action, required);
    }
  }

  /** The family is not empty: a role row listing one action first at all, then at self. */
  lemma DuplicateNarrows()
    ensures var rows := [Row("team", ["view", "view"], Some([Some(All), Some(Self)]))];
            var defs := [Row("leave", ["view"], Some([Some(Self)]))];
            && Satisfies(rows, "team", "view", Some(All))
            && !Satisfies(MergedRows(rows, defs), "team", "view", Some(All))
  {
    var row := Row("team", ["view", "view"], Some([Some(All), Some(Self)]));
    var def := Row("leave", ["view"], Some([Some(Self)]));
    assert RowSatisfies(row, "team", "view", Some(All));
    assert [row][..0] == [] && [def][..0] == [];
    assert LastIn(row, 2, "view") == Some(Self);
    assert LastFlat([row], "team", "view") == Some(Self) && LastFlat([row], "leave", "view").None?;
    assert WidestFlat([def], "team", "view").None?;
    LoadRowsGet([row], "leave", "view");
    assert Uncovered(LoadRows([row]), [def][0], 0);
    MergeRowsChanges(LoadRows([row]), [def]);
    MergedRowsDecide([row], [def], "team", "view", Some(All));
  }

  lemma WidestFlatCovers(rows: seq<Row>, i: nat, p: nat)
    requires i < |rows| && p < |rows[i].actions|
    ensures Covers(WidestFlat(rows, rows[i].mod, rows[i].actions[p]), ScopeAt(rows[i], p).GetOr(Self))
    decreases |rows|
  {
    var n := |rows| - 1;
    if i < n {
      assert rows[..n][i] == rows[i];
      WidestFlatCovers(rows[..n], i, p);
    } else {
      WidestInCovers(rows[n], |rows[n].actions|, p);
    }
  }

  lemma {:induction false} WidestInCovers(row: Row, n: nat, p: nat)
    requires p < n <= |row.actions|
    ensures Covers(WidestIn(row, n, row.actions[p]), ScopeAt(row, p).GetOr(Self))
  {
    if p < n - 1 { WidestInCovers(row, n - 1, p); }
  }

  /** A rerun of the reconcile finds every default covered in both stores and writes nothing. */
  lemma BaselineRerun(role: Role, def: DefaultRole)
    ensures var once := Reconciled(role, def);
            && !MergeRows(LoadRows(once.permissions), def.permissions).changed
            && !MergePaths(LoadPaths(once.paths), def.paths).changed
            && Reconciled(once, def) == once
  {
    MergePathsRerun(role.paths, def.paths);
    var rows, defs := role.permissions, def.permissions;
    var r := MergeRows(LoadRows(rows), defs);
    if r.changed {
      LoadRowsGet(rows, "", "");
      MergeRowsGet(LoadRows(rows), defs, "", "");
      var out := ToRows(r.map_);
      LoadRowsGet(out, "", "");
      forall i, p | 0 <= i < |defs| && 0 <= p < |defs[i].actions|
        ensures !Uncovered(LoadRows(out), defs[i], p)
      {
        LoadRowsGet(out, defs[i].mod, defs[i].actions[p]);
        ToRowsLoad(r.map_, defs[i].mod, defs[i].actions[p]);
        MergeRowsGet(LoadRows(rows), defs, defs[i].mod, defs[i].actions[p]);
        WidestFlatCovers(defs, i, p);
      }
      MergeRowsChanges(LoadRows(out), defs);
    }
  }
}
