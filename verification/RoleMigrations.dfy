/**
 * The chain of one-shot role migrations, in registry order: scope backfill,
 * grant appends, path merge, strips and the baseline reconcile. Each maps one
 * stored role to its rewritten form; a run applies it role by role.
 */
module RoleMigrations {
  import opened Prelude
  import opened Permissions
  import opened GrantMerge

  const ATTENDANCE := "attendance"
  const SALARY := "salary"
  const RETIRED_ACTIONS := ["mark", "edit"]
  const RETIRED_PATHS := ["attendance.record.mark", "attendance.record.edit"]
  const NEW_MODULES := ["attendance", "leave", "regularization"]

  datatype Pass =
    | ScopeBackfill
    | WorkerRegularization
    | AttendancePaths
    | StripSelfMarkEdit
    | HrSensitiveView
    | SalaryDeclareTax
    | Baseline
    | StripDeclareTax

  /** Registry order: 0015, 0016, 0021, 0023, 0025, 0041, 0055, 0056. */
  const CHAIN := [ScopeBackfill, WorkerRegularization, AttendancePaths, StripSelfMarkEdit,
                  HrSensitiveView, SalaryDeclareTax, Baseline, StripDeclareTax]

  /** The hand-authored default roles and the legacy (module, action) to paths table. */
  datatype Presets = Presets(defaults: seq<DefaultRole>, table: map<(string, string), seq<string>>)

  function FindDefault(defaults: seq<DefaultRole>, name: string): Option<DefaultRole> {
    if |defaults| == 0 then None
    else if defaults[0].name == name then Some(defaults[0])
    else FindDefault(defaults[1..], name)
  }

  // ------------------------------------------------- scope backfill, appends

  /** A scope for every action: the stored one, else `fill`. */
  function Padded(row: Row, fill: Scope): seq<Option<Scope>> {
    seq(|row.actions|, i requires 0 <= i < |row.actions| => Some(ScopeAt(row, i).GetOr(fill)))
  }

  method PadScopes(row: Row, fill: Scope) returns (filled: seq<Option<Scope>>)
    ensures filled == Padded(row, fill)
  {
    filled := [];
    for i := 0 to |row.actions|
      invariant filled == Padded(row, fill)[..i]
    {
      filled := filled + [Some(ScopeAt(row, i).GetOr(fill))];
    }
  }

  function BackfilledRow(row: Row, fill: Scope): Row {
    row.(scopes := Some(if |ScopesOf(row)| == |row.actions| then ScopesOf(row) else Padded(row, fill)))
  }

  function BackfilledRows(rows: seq<Row>, fill: Scope): seq<Row> {
    seq(|rows|, i requires 0 <= i < |rows| => BackfilledRow(rows[i], fill))
  }

  function BackfillScopes(role: Role): (Role, bool) {
    var fill := if role.isSystem && role.name == "Member" then Self else All;
    var changed := exists i :: 0 <= i < |role.permissions| && |ScopesOf(role.permissions[i])| != |role.permissions[i].actions|;
    (if changed then role.(permissions := BackfilledRows(role.permissions, fill)) else role, changed)
  }

  /** The first row of the module, or the length. */
  function FirstRow(rows: seq<Row>, mod: string): (k: nat)
    ensures k <= |rows| && (k < |rows| ==> rows[k].mod == mod)
    ensures forall j :: 0 <= j < k ==> rows[j].mod != mod
  {
    if |rows| == 0 then 0 else if rows[0].mod == mod then 0 else 1 + FirstRow(rows[1..], mod)
  }

  function AppendedRow(row: Row, mod: string, action: string, scope: Scope): Row {
    if row.mod != mod then row
    else Row(mod, row.actions + [action], Some(Padded(row, scope) + [Some(scope)]))
  }

  function AppendedRows(rows: seq<Row>, mod: string, action: string, scope: Scope): seq<Row> {
    seq(|rows|, i requires 0 <= i < |rows| => AppendedRow(rows[i], mod, action, scope))
  }

  /** Does the append write? Only the module's first row is asked whether it has the action. */
  predicate Appends(rows: seq<Row>, mod: string, action: string, create: bool) {
    var k := FirstRow(rows, mod);
    if k == |rows| then create else action !in rows[k].actions
  }

  function AppendGrant(rows: seq<Row>, mod: string, action: string, scope: Scope, create: bool): seq<Row> {
    if !Appends(rows, mod, action, create) then rows
    else if FirstRow(rows, mod) == |rows| then rows + [Row(mod, [action], Some([Some(scope)]))]
    else AppendedRows(rows, mod, action, scope)
  }

  method AppendGrantTo(rows: seq<Row>, mod: string, action: string, scope: Scope, create: bool)
      returns (next: seq<Row>, changed: bool)
    ensures next == AppendGrant(rows, mod, action, scope, create) && changed == Appends(rows, mod, action, create)
  {
    var k := FirstRow(rows, mod);
    if k == |rows| {
      return if create then rows + [Row(mod, [action], Some([Some(scope)]))] else rows, create;
    }
    if action in rows[k].actions {
      return rows, false;
    }
    next := [];
    for i := 0 to |rows|
      invariant next == AppendGrant(rows, mod, action, scope, create)[..i]
    {
      if rows[i].mod != mod {
        next := next + [rows[i]];
      } else {
        var filled := PadScopes(rows[i], scope);
        next := next + [Row(mod, rows[i].actions + [action], Some(filled + [Some(scope)]))];
      }
    }
    changed := true;
  }

  // ------------------------------------------------------------------ strips

  /** Entry `i` of an attendance row is a retired self grant. */
  predicate RetiredEntry(row: Row, i: nat)
    requires i < |row.actions|
  {
    row.mod == ATTENDANCE && row.actions[i] in RETIRED_ACTIONS && ScopeAt(row, i).GetOr(Self) == Self
  }

  function Kept(row: Row, n: nat): (seq<string>, seq<Option<Scope>>)
    requires n <= |row.actions|
  {
    if n == 0 then ([], [])
    else
      var k := Kept(row, n - 1);
      if RetiredEntry(row, n - 1) then k
      else (k.0 + [row.actions[n - 1]], k.1 + [Some(ScopeAt(row, n - 1).GetOr(Self))])
  }

  function StrippedRow(row: Row): Row {
    if row.mod != ATTENDANCE then row
    else var k := Kept(row, |row.actions|); Row(row.mod, k.0, Some(k.1))
  }

  function StrippedRows(rows: seq<Row>): seq<Row> {
    seq(|rows|, i requires 0 <= i < |rows| => StrippedRow(rows[i]))
  }

  predicate RetiredPath(g: PathGrant) {
    g.path in RETIRED_PATHS && g.scope == Self
  }

  function StrippedPaths(paths: seq<PathGrant>): seq<PathGrant> {
    if |paths| == 0 then []
    else StrippedPaths(paths[..|paths| - 1]) +
         (if RetiredPath(paths[|paths| - 1]) then [] else [paths[|paths| - 1]])
  }

  predicate HasRetired(role: Role) {
    (exists i, p :: 0 <= i < |role.permissions| && 0 <= p < |role.permissions[i].actions| && RetiredEntry(role.permissions[i], p)) ||
    (exists i :: 0 <= i < |role.paths| && RetiredPath(role.paths[i]))
  }

  function Stripped(role: Role): Role {
    if HasRetired(role)
    then role.(permissions := StrippedRows(role.permissions), paths := StrippedPaths(role.paths))
    else role
  }

  method StripRole(role: Role) returns (next: Role, changed: bool)
    ensures next == Stripped(role) && changed == HasRetired(role)
  {
    changed := false;
    var rows: seq<Row> := [];
    for r := 0 to |role.permissions|
      invariant rows == StrippedRows(role.permissions)[..r]
      invariant changed <==> exists i, p :: 0 <= i < r && 0 <= p < |role.permissions[i].actions| && RetiredEntry(role.permissions[i], p)
    {
      var row := role.permissions[r];
      if row.mod != ATTENDANCE {
        rows := rows + [row];
      } else {
        var actions, scopes := [], [];
        ghost var before := changed;
        for i := 0 to |row.actions|
          invariant (actions, scopes) == Kept(row, i)
          invariant changed <==> before || exists p :: 0 <= p < i && RetiredEntry(row, p)
        {
          var scope := ScopeAt(row, i).GetOr(Self);
          if row.actions[i] in RETIRED_ACTIONS && scope == Self {
            changed := true;
            continue;
          }
          actions, scopes := actions + [row.actions[i]], scopes + [Some(scope)];
        }
        assert StrippedRow(row) == Row(row.mod, actions, Some(scopes));
        rows := rows + [Row(row.mod, actions, Some(scopes))];
      }
    }
    var paths: seq<PathGrant> := [];
    for i := 0 to |role.paths|
      invariant paths == StrippedPaths(role.paths[..i]) && |paths| <= i
      invariant |paths| < i <==> exists j :: 0 <= j < i && RetiredPath(role.paths[j])
    {
      assert role.paths[..i + 1][..i] == role.paths[..i];
      if !RetiredPath(role.paths[i]) { paths := paths + [role.paths[i]]; }
    }
    assert role.paths[..|role.paths|] == role.paths;
    if |paths| != |role.paths| { changed := true; }
    next := if changed then role.(permissions := rows, paths := paths) else role;
  }

  datatype PathOverride = PathOverride(path: string, allowed: bool, scope: Option<Scope>)

  predicate RetiredOverride(o: PathOverride) {
    o.path in RETIRED_PATHS && o.allowed && o.scope.GetOr(Self) == Self
  }

  /** A member's overrides without the retired force-allows. */
  function StrippedOverrides(overrides: seq<PathOverride>): seq<PathOverride> {
    if |overrides| == 0 then []
    else StrippedOverrides(overrides[..|overrides| - 1]) +
         (if RetiredOverride(overrides[|overrides| - 1]) then [] else [overrides[|overrides| - 1]])
  }

  /** The positions, below `n`, of the actions other than `action`. */
  function KeepIndices(actions: seq<string>, action: string, n: nat): (ks: seq<nat>)
    requires n <= |actions|
    ensures forall k :: k in ks ==> k < n && actions[k] != action
  {
    if n == 0 then [] else KeepIndices(actions, action, n - 1) + (if actions[n - 1] == action then [] else [n - 1])
  }

  function WithoutAction(row: Row, action: string): Row {
    var ks := KeepIndices(row.actions, action, |row.actions|);
    Row(row.mod,
        seq(|ks|, i requires 0 <= i < |ks| => assert ks[i] in ks; row.actions[ks[i]]),
        if row.scopes.Some? then Some(seq(|ks|, i requires 0 <= i < |ks| => ScopeAt(row, ks[i]))) else None)
  }

  predicate HasDeclareTax(row: Row) {
    row.mod == SALARY && "declare_tax" in row.actions
  }

  function WithoutTax(rows: seq<Row>): seq<Row> {
    seq(|rows|, i requires 0 <= i < |rows| =>
      if HasDeclareTax(rows[i]) then WithoutAction(rows[i], "declare_tax") else rows[i])
  }

  function StripTax(role: Role): (Role, bool) {
    var changed := exists i :: 0 <= i < |role.permissions| && HasDeclareTax(role.permissions[i]);
    (if changed then role.(permissions := WithoutTax(role.permissions)) else role, changed)
  }

  // -------------------------------------------------------------- path merge

  /** `path.split('.')[0]`. */
  function Head(path: string): string {
    if |path| == 0 || path[0] == '.' then "" else [path[0]] + Head(path[1..])
  }

  function AtScope(paths: seq<string>, scope: Scope): seq<PathGrant> {
    seq(|paths|, i requires 0 <= i < |paths| => PathGrant(paths[i], scope))
  }

  function DerivedIn(row: Row, n: nat, table: map<(string, string), seq<string>>): seq<PathGrant>
    requires n <= |row.actions|
  {
    if n == 0 then []
    else
      var key := (row.mod, row.actions[n - 1]);
      DerivedIn(row, n - 1, table) + (if key in table then AtScope(table[key], ScopeAt(row, n - 1).GetOr(Self)) else [])
  }

  function Derived(rows: seq<Row>, table: map<(string, string), seq<string>>): seq<PathGrant> {
    if |rows| == 0 then []
    else Derived(rows[..|rows| - 1], table) + DerivedIn(rows[|rows| - 1], |rows[|rows| - 1].actions|, table)
  }

  /** The legacy converter: every mapped path once, the wider scope winning. */
  function FlatGrantsToPaths(rows: seq<Row>, table: map<(string, string), seq<string>>): seq<PathGrant> {
    Entries(MergePaths([], Derived(rows, table)).map_)
  }

  function OfNewModules(grants: seq<PathGrant>): seq<PathGrant> {
    if |grants| == 0 then []
    else OfNewModules(grants[..|grants| - 1]) +
         (if Head(grants[|grants| - 1].path) in NEW_MODULES then [grants[|grants| - 1]] else [])
  }

  function Additions(role: Role, presets: Presets): seq<PathGrant> {
    var preset := if role.isSystem then FindDefault(presets.defaults, role.name) else None;
    OfNewModules(if preset.Some? then preset.value.paths else FlatGrantsToPaths(role.permissions, presets.table))
  }

  function PathsMerged(role: Role, presets: Presets): (Role, bool) {
    if |role.paths| == 0 then (role, false)
    else (role.(paths := MergedPaths(role.paths, Additions(role, presets))),
          MergePaths(LoadPaths(role.paths), Additions(role, presets)).changed)
  }

  // ------------------------------------------------------------ the passes

  function OnRows(role: Role, mod: string, action: string, scope: Scope, create: bool): (Role, bool) {
    (role.(permissions := AppendGrant(role.permissions, mod, action, scope, create)),
     Appends(role.permissions, mod, action, create))
  }

  /** The rewritten role, and whether anything is written. */
  function Rewrite(p: Pass, role: Role, presets: Presets): (Role, bool) {
    match p
    case ScopeBackfill => BackfillScopes(role)
    case WorkerRegularization =>
      if role.isSystem && role.name == "Worker" then OnRows(role, ATTENDANCE, "manage_regularizations", Self, false)
      else (role, false)
    case AttendancePaths => PathsMerged(role, presets)
    case StripSelfMarkEdit => (Stripped(role), HasRetired(role))
    case HrSensitiveView =>
      if role.isSystem && role.name == "HR" then OnRows(role, SALARY, "sensitive_view", All, false) else (role, false)
    case SalaryDeclareTax =>
      if role.isSystem && role.name == "Worker" then OnRows(role, SALARY, "declare_tax", Self, true)
      else if role.isSystem && role.name == "HR" then OnRows(role, SALARY, "declare_tax", All, true)
      else (role, false)
    case Baseline =>
      var def := FindDefault(presets.defaults, role.name);
      if role.isSystem && def.Some? then
        (Reconciled(role, def.value),
         MergeRows(LoadRows(role.permissions), def.value.permissions).changed ||
         MergePaths(LoadPaths(role.paths), def.value.paths).changed)
      else (role, false)
    case StripDeclareTax =>
      if role.isSystem && role.name in ["Employee", "Accountant"] then StripTax(role) else (role, false)
  }

  method RewriteRole(p: Pass, role: Role, presets: Presets) returns (next: Role, changed: bool)
    ensures (next, changed) == Rewrite(p, role, presets)
    ensures !changed ==> next == role
  {
    next, changed := role, false;
    match p
    case ScopeBackfill =>
      var fill := if role.isSystem && role.name == "Member" then Self else All;
      var rows := [];
      for i := 0 to |role.permissions|
        invariant rows == BackfilledRows(role.permissions, fill)[..i]
        invariant changed <==> exists j :: 0 <= j < i && |ScopesOf(role.permissions[j])| != |role.permissions[j].actions|
      {
        var row := role.permissions[i];
        var scopes := ScopesOf(row);
        if |scopes| != |row.actions| {
          changed := true;
          scopes := PadScopes(row, fill);
        }
        rows := rows + [row.(scopes := Some(scopes))];
      }
      assert rows == BackfilledRows(role.permissions, fill);
      if changed { next := role.(permissions := rows); }
    case WorkerRegularization =>
      if role.isSystem && role.name == "Worker" {
        var rows;
        rows, changed := AppendGrantTo(role.permissions, ATTENDANCE, "manage_regularizations", Self, false);
        next := role.(permissions := rows);
      }
    case AttendancePaths =>
      if |role.paths| > 0 {
        var paths;
        paths, changed := MergePathsInto(role.paths, Additions(role, presets));
        next := role.(paths := paths);
      }
    case StripSelfMarkEdit =>
      next, changed := StripRole(role);
    case HrSensitiveView =>
      if role.isSystem && role.name == "HR" {
        var rows;
        rows, changed := AppendGrantTo(role.permissions, SALARY, "sensitive_view", All, false);
        next := role.(permissions := rows);
      }
    case SalaryDeclareTax =>
      var scope := if role.name == "Worker" then Self else All;
      if role.isSystem && (role.name == "Worker" || role.name == "HR") {
        var rows;
        rows, changed := AppendGrantTo(role.permissions, SALARY, "declare_tax", scope, true);
        next := role.(permissions := rows);
      }
    case Baseline =>
      var def := FindDefault(presets.defaults, role.name);
      if role.isSystem && def.Some? {
        var rows, flatChanged := MergeRowsInto(role.permissions, def.value.permissions);
        var paths, pathsChanged := MergePathsInto(role.paths, def.value.paths);
        next, changed := role.(permissions := rows, paths := paths), flatChanged || pathsChanged;
      }
    case StripDeclareTax =>
      if role.isSystem && role.name in ["Employee", "Accountant"] {
        var rows := [];
        for i := 0 to |role.permissions|
          invariant rows == WithoutTax(role.permissions)[..i]
          invariant changed <==> exists j :: 0 <= j < i && HasDeclareTax(role.permissions[j])
        {
          if HasDeclareTax(role.permissions[i]) {
            changed := true;
            rows := rows + [WithoutAction(role.permissions[i], "declare_tax")];
          } else {
            rows := rows + [role.permissions[i]];
          }
        }
        assert rows == WithoutTax(role.permissions);
        if changed { next := role.(permissions := rows); }
      }
  }

  /** A whole pass: role by role; a write that fails is logged and leaves its role as it was. */
  function RunPass(p: Pass, roles: seq<Role>, presets: Presets, fails: nat -> bool): seq<Role> {
    seq(|roles|, i requires 0 <= i < |roles| => if fails(i) then roles[i] else Rewrite(p, roles[i], presets).0)
  }

  function Writes(p: Pass, roles: seq<Role>, presets: Presets): seq<bool> {
    seq(|roles|, i requires 0 <= i < |roles| => Rewrite(p, roles[i], presets).1)
  }

  /** How many of the writes failed, or how many did not. */
  function Count(writes: seq<bool>, fails: nat -> bool, failed: bool): nat {
    if |writes| == 0 then 0
    else
      var n := |writes| - 1;
      Count(writes[..n], fails, failed) + (if writes[n] && fails(n) == failed then 1 else 0)
  }

  lemma CountStep(writes: seq<bool>, i: nat, fails: nat -> bool, failed: bool)
    requires i < |writes|
    ensures Count(writes[..i + 1], fails, failed) ==
            Count(writes[..i], fails, failed) + (if writes[i] && fails(i) == failed then 1 else 0)
  {
    assert writes[..i + 1][..i] == writes[..i];
  }

  class RoleStore {
    var roles: seq<Role>

    constructor (roles: seq<Role>)
      ensures this.roles == roles
    {
      this.roles := roles;
    }

    /** One role: rewritten and written back if anything changed and the write succeeds. */
    method RewriteAt(i: nat, p: Pass, presets: Presets, failing: bool) returns (changed: bool)
      requires i < |roles|
      modifies this
      ensures roles == old(roles)[i := if failing then old(roles)[i] else Rewrite(p, old(roles)[i], presets).0]
      ensures changed == Rewrite(p, old(roles)[i], presets).1
    {
      var next;
      next, changed := RewriteRole(p, roles[i], presets);
      if changed && !failing {
        roles := roles[i := next];
      }
    }

    method Run(p: Pass, presets: Presets, fails: nat -> bool) returns (updated: nat, errors: nat)
      modifies this
      ensures roles == RunPass(p, old(roles), presets, fails)
      ensures updated == Count(Writes(p, old(roles), presets), fails, false)
      ensures errors == Count(Writes(p, old(roles), presets), fails, true)
    {
      updated, errors := 0, 0;
      ghost var found, writes, target := roles, Writes(p, roles, presets), RunPass(p, roles, presets, fails);
      for i := 0 to |roles|
        invariant |roles| == |found|
        invariant forall j :: 0 <= j < |found| ==> roles[j] == if j < i then target[j] else found[j]
        invariant updated == Count(writes[..i], fails, false) && errors == Count(writes[..i], fails, true)
      {
        CountStep(writes, i, fails, false);
        CountStep(writes, i, fails, true);
        var changed := RewriteAt(i, p, presets, fails(i));
        if changed {
          if fails(i) { errors := errors + 1; } else { updated := updated + 1; }
        }
      }
      assert writes[..|found|] == writes;
    }
  }
}
