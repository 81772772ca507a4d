/**
 * Who gets what: every pass of the role chain with its roles, actions, scopes
 * and paths written out, by what the guard decides after it.
 */
module RoleEffects {
  import opened Prelude
  import opened OrderedMap
  import opened Permissions
  import opened GrantMerge
  import opened RoleMigrations
  import opened RoleChain
  import opened RoleStrips

  // ---------------------------------------------------------------- appends

  /** The first row of the module does not list the action. */
  ghost predicate FirstLacks(rows: seq<Row>, mod: string, action: string) {
    exists k :: 0 <= k < |rows| && rows[k].mod == mod && action !in rows[k].actions && NoneBefore(rows, mod, k)
  }

  ghost predicate NoneBefore(rows: seq<Row>, mod: string, k: nat) {
    forall j :: 0 <= j < k && j < |rows| ==> rows[j].mod != mod
  }

  /** Every row keeps its place, its actions and its stored scopes; rows of other modules are untouched. */
  ghost predicate Extended(rows: seq<Row>, next: seq<Row>, mod: string) {
    |rows| <= |next| && forall i :: 0 <= i < |rows| ==> RowExtended(rows[i], next[i], mod)
  }

  ghost predicate RowExtended(row: Row, next: Row, mod: string) {
    && next.mod == row.mod && row.actions <= next.actions
    && (row.mod != mod ==> next == row)
    && forall p :: 0 <= p < |row.actions| && ScopeAt(row, p).Some? ==> ScopeAt(next, p) == ScopeAt(row, p)
  }

  lemma AppendsIff(rows: seq<Row>, mod: string, action: string, create: bool)
    ensures Appends(rows, mod, action, create) <==>
            FirstLacks(rows, mod, action) || (create && NoneBefore(rows, mod, |rows|))
  {
    var k := FirstRow(rows, mod);
    if k < |rows| && action !in rows[k].actions { assert NoneBefore(rows, mod, k); }
    if j :| 0 <= j < |rows| && rows[j].mod == mod && action !in rows[j].actions && NoneBefore(rows, mod, j) {
      assert j == k;
    }
  }

  lemma AppendedExtends(row: Row, mod: string, action: string, scope: Scope)
    ensures RowExtended(row, AppendedRow(row, mod, action, scope), mod)
  {
  }

  lemma AppendExtends(rows: seq<Row>, mod: string, action: string, scope: Scope, create: bool)
    ensures Extended(rows, AppendGrant(rows, mod, action, scope, create), mod)
  {
    forall i | 0 <= i < |rows| ensures RowExtended(rows[i], AppendedRow(rows[i], mod, action, scope), mod) {
      AppendedExtends(rows[i], mod, action, scope);
    }
  }

  /**
   * The worker backfill: a system Worker whose first attendance row does not list
   * it gets manage_regularizations at self scope; no other requirement and no
   * other role moves.
   */
  lemma WorkerGetsRegularizations(role: Role, presets: Presets, m: string, action: string, required: Option<Scope>)
    ensures var (after, wrote) := Rewrite(WorkerRegularization, role, presets);
            && (wrote <==> role.isSystem && role.name == "Worker" &&
                           FirstLacks(role.permissions, "attendance", "manage_regularizations"))
            && (Satisfies(after.permissions, m, action, required) <==>
                  || Satisfies(role.permissions, m, action, required)
                  || (wrote && m == "attendance" && action == "manage_regularizations" && required != Some(All)))
            && after == role.(permissions := after.permissions) && (!wrote ==> after == role)
            && Extended(role.permissions, after.permissions, "attendance")
  {
    AppendsIff(role.permissions, "attendance", "manage_regularizations", false);
    AppendExtends(role.permissions, "attendance", "manage_regularizations", Self, false);
    AppendDecides(role.permissions, "attendance", "manage_regularizations", Self, false, m, action, required);
  }

  /** Of the requirements at all scope, those an all-scope append fills in because their scope was missing. */
  ghost predicate FillsHole(rows: seq<Row>, mod: string, m: string, action: string, required: Option<Scope>) {
    required == Some(All) && m == mod && exists i :: 0 <= i < |rows| && HoleAt(rows, mod, action, i)
  }

  lemma ExplicitHasNoHole(rows: seq<Row>, mod: string, m: string, action: string, required: Option<Scope>)
    requires AllExplicit(rows)
    ensures !FillsHole(rows, mod, m, action, required)
  {
    forall i | 0 <= i < |rows| ensures !HoleAt(rows, mod, action, i) {
      assert Explicit(rows[i]);
      var k := FirstIndex(rows[i].actions, action);
      assert k < |rows[i].actions| ==> ScopesOf(rows[i])[k] in ScopesOf(rows[i]);
    }
  }

  /**
   * The HR backfill: a system HR whose first salary row does not list it gets
   * sensitive_view at all scope, and salary actions without a stored scope are
   * widened with it, none when scopes are explicit. No other role moves.
   */
  lemma HrGetsSensitiveView(role: Role, presets: Presets, m: string, action: string, required: Option<Scope>)
    ensures var (after, wrote) := Rewrite(HrSensitiveView, role, presets);
            && (wrote <==> role.isSystem && role.name == "HR" && FirstLacks(role.permissions, "salary", "sensitive_view"))
            && (Satisfies(after.permissions, m, action, required) <==>
                  || Satisfies(role.permissions, m, action, required)
                  || (wrote && m == "salary" && action == "sensitive_view")
                  || (wrote && FillsHole(role.permissions, "salary", m, action, required)))
            && (AllExplicit(role.permissions) ==> !FillsHole(role.permissions, "salary", m, action, required))
            && after == role.(permissions := after.permissions) && (!wrote ==> after == role)
            && Extended(role.permissions, after.permissions, "salary")
  {
    AppendsIff(role.permissions, "salary", "sensitive_view", false);
    AppendExtends(role.permissions, "salary", "sensitive_view", All, false);
    AppendDecides(role.permissions, "salary", "sensitive_view", All, false, m, action, required);
    if AllExplicit(role.permissions) { ExplicitHasNoHole(role.permissions, "salary", m, action, required); }
  }

  /**
   * The declare_tax backfill, where it writes: a system Worker gets the action at
   * self scope and nothing else; a system HR gets it at all scope, salary actions
   * without a stored scope along with it. A role without a salary row gets one.
   * No other role moves.
   */
  lemma WhoDeclaresTax(role: Role, presets: Presets, m: string, action: string, required: Option<Scope>)
    ensures var (after, wrote) := Rewrite(SalaryDeclareTax, role, presets);
            var own := wrote && m == "salary" && action == "declare_tax";
            && (wrote <==> role.isSystem && (role.name == "Worker" || role.name == "HR") && LacksTax(role.permissions))
            && (role.name == "Worker" ==>
                  (Satisfies(after.permissions, m, action, required) <==>
                     Satisfies(role.permissions, m, action, required) || (own && required != Some(All))))
            && (role.name == "HR" ==>
                  (Satisfies(after.permissions, m, action, required) <==>
                     Satisfies(role.permissions, m, action, required) || own ||
                     (wrote && FillsHole(role.permissions, "salary", m, action, required))))
            && (AllExplicit(role.permissions) ==> !FillsHole(role.permissions, "salary", m, action, required))
            && after == role.(permissions := after.permissions) && (!wrote ==> after == role)
            && Extended(role.permissions, after.permissions, "salary")
  {
    TaxAppended(role.permissions, Self, m, action, required);
    TaxAppended(role.permissions, All, m, action, required);
    if AllExplicit(role.permissions) { ExplicitHasNoHole(role.permissions, "salary", m, action, required); }
  }

  /** The first salary row does not list declare_tax, or there is no salary row. */
  ghost predicate LacksTax(rows: seq<Row>) {
    FirstLacks(rows, "salary", "declare_tax") || forall i :: 0 <= i < |rows| ==> rows[i].mod != "salary"
  }

  lemma TaxAppended(rows: seq<Row>, scope: Scope, m: string, action: string, required: Option<Scope>)
    ensures var next := AppendGrant(rows, "salary", "declare_tax", scope, true);
            && (Appends(rows, "salary", "declare_tax", true) <==> LacksTax(rows))
            && (!LacksTax(rows) ==> next == rows)
            && (Satisfies(next, m, action, required) <==>
                  || Satisfies(rows, m, action, required)
                  || (LacksTax(rows) && m == "salary" && action == "declare_tax" && (required == Some(All) ==> scope == All))
                  || (LacksTax(rows) && scope == All && FillsHole(rows, "salary", m, action, required)))
            && Extended(rows, next, "salary")
  {
    AppendsIff(rows, "salary", "declare_tax", true);
    AppendExtends(rows, "salary", "declare_tax", scope, true);
    AppendDecides(rows, "salary", "declare_tax", scope, true, m, action, required);
  }

  // -------------------------------------------------------- defaults by name

  /** The first default of that name. */
  ghost predicate DefaultNamed(defaults: seq<DefaultRole>, name: string, def: DefaultRole) {
    exists k :: 0 <= k < |defaults| && defaults[k] == def && FirstNamed(defaults, name, k)
  }

  ghost predicate FirstNamed(defaults: seq<DefaultRole>, name: string, k: nat) {
    k < |defaults| && defaults[k].name == name && forall j :: 0 <= j < k ==> defaults[j].name != name
  }

  ghost predicate HasDefault(defaults: seq<DefaultRole>, name: string) {
    exists k :: 0 <= k < |defaults| && defaults[k].name == name
  }

  lemma {:induction false} DefaultFound(defaults: seq<DefaultRole>, name: string) returns (k: nat)
    ensures match FindDefault(defaults, name)
            case Some(def) => FirstNamed(defaults, name, k) && defaults[k] == def
            case None => forall j :: 0 <= j < |defaults| ==> defaults[j].name != name
  {
    k := 0;
    if |defaults| > 0 && defaults[0].name != name {
      k := DefaultFound(defaults[1..], name);
      k := k + 1;
      assert forall j :: 0 < j < |defaults| ==> defaults[j] == defaults[1..][j - 1];
    }
  }

  lemma FindDefaultIs(defaults: seq<DefaultRole>, name: string, def: DefaultRole)
    ensures FindDefault(defaults, name) == Some(def) <==> DefaultNamed(defaults, name, def)
    ensures FindDefault(defaults, name).Some? <==> HasDefault(defaults, name)
  {
    var k := DefaultFound(defaults, name);
    if j :| 0 <= j < |defaults| && defaults[j] == def && FirstNamed(defaults, name, j) {
      assert j == k;
    }
  }

  // -------------------------------------------------------------- path merge

  /** The path is `head` or lies under it. */
  ghost predicate Under(path: string, head: string) {
    path == head || head + "." <= path
  }

  lemma {:induction false} HeadIs(path: string, head: string)
    requires '.' !in head
    ensures Head(path) == head <==> Under(path, head)
  {
    if |path| == 0 || path[0] == '.' {
      assert head == "" ==> head + "." == ".";
      if |head| > 0 { assert (head + ".")[0] == head[0] != '.'; }
    } else if |head| > 0 {
      HeadIs(path[1..], head[1..]);
      assert head == [head[0]] + head[1..] && path == [path[0]] + path[1..];
      assert head + "." == [head[0]] + (head[1..] + ".");
    }
  }

  ghost predicate UnderNewModules(path: string) {
    Under(path, "attendance") || Under(path, "leave") || Under(path, "regularization")
  }

  /** Some grant of the list names the path at the required scope. */
  ghost predicate GrantsPath(grants: seq<PathGrant>, path: string, required: Option<Scope>) {
    exists i :: 0 <= i < |grants| && grants[i].path == path && (required == Some(All) ==> grants[i].scope == All)
  }

  /** Some stored action is mapped to the path and held at the required scope. */
  ghost predicate ConvertsTo(rows: seq<Row>, table: map<(string, string), seq<string>>, path: string, required: Option<Scope>) {
    exists i: nat, p: nat :: Maps(rows, table, path, i, p) && (required == Some(All) ==> ScopeAt(rows[i], p) == Some(All))
  }

  lemma GrantsPathIs(grants: seq<PathGrant>, path: string, required: Option<Scope>)
    ensures GrantsPath(grants, path, required) <==>
            WidestScope(grants, path).Some? && (required == Some(All) ==> WidestScope(grants, path) == Some(All))
  {
    WidestIs(grants, path);
    assert forall i :: 0 <= i < |grants| ==>
      (grants[i] == PathGrant(path, All) <==> grants[i].path == path && grants[i].scope == All);
  }

  /** With unique stored paths a merge grants what either side grants, however often the added side repeats a path. */
  lemma MergeGrants(existing: seq<PathGrant>, adds: seq<PathGrant>, path: string, required: Option<Scope>)
    requires UniquePaths(existing)
    ensures PathSatisfies(MergedPaths(existing, adds), path, required) <==>
            PathSatisfies(existing, path, required) || GrantsPath(adds, path, required)
  {
    MergedPathsDecide(existing, adds, path, required);
    UniqueLast(existing, path, required);
    GrantsPathIs(adds, path, required);
    MergePathsChanges(LoadPaths(existing), adds);
    if !MergePaths(LoadPaths(existing), adds).changed {
      LoadPathsGet(existing, path);
      CoveredWidest(LastScope(existing, path), adds, path);
    }
  }

  lemma InNewModules(path: string)
    ensures Head(path) in NEW_MODULES <==> UnderNewModules(path)
  {
    HeadIs(path, "attendance");
    HeadIs(path, "leave");
    HeadIs(path, "regularization");
  }

  lemma GrantIn(grants: seq<PathGrant>, path: string, required: Option<Scope>)
    ensures GrantsPath(grants, path, required) <==>
            PathGrant(path, All) in grants || (required != Some(All) && PathGrant(path, Self) in grants)
  {
    if i :| 0 <= i < |grants| && grants[i].path == path && (required == Some(All) ==> grants[i].scope == All) {
      match grants[i].scope
      case Self => assert grants[i] == PathGrant(path, Self);
      case All => assert grants[i] == PathGrant(path, All);
    }
  }

  lemma NewModuleGrants(grants: seq<PathGrant>, path: string, required: Option<Scope>)
    ensures GrantsPath(OfNewModules(grants), path, required) <==> UnderNewModules(path) && GrantsPath(grants, path, required)
  {
    InNewModules(path);
    NewModulesOnly(grants, PathGrant(path, All));
    NewModulesOnly(grants, PathGrant(path, Self));
    GrantIn(grants, path, required);
    GrantIn(OfNewModules(grants), path, required);
  }

  lemma EntriesGrant(m: PathMap, path: string, required: Option<Scope>)
    requires UniqueKeys(m)
    ensures GrantsPath(Entries(m), path, required) <==> PathSatisfies(Entries(m), path, required)
  {
    EntriesSatisfy(m, path, required);
    var grants, k := Entries(m), Find(m, path);
    if k < |m| { assert grants[k].path == path; }
    if i :| 0 <= i < |grants| && grants[i].path == path && (required == Some(All) ==> grants[i].scope == All) {
      GetAt(m, i);
    }
  }

  lemma ConverterGrantsPath(rows: seq<Row>, table: map<(string, string), seq<string>>, path: string, required: Option<Scope>)
    ensures GrantsPath(FlatGrantsToPaths(rows, table), path, required) <==> ConvertsTo(rows, table, path, required)
  {
    var derived := Derived(rows, table);
    ConverterGrants(rows, table, path, required);
    MergePathsGet([], derived, path);
    EntriesGrant(MergePaths([], derived).map_, path, required);
    forall i: nat, p: nat | Maps(rows, table, path, i, p)
      ensures ScopeAt(rows[i], p).GetOr(Self) == All <==> ScopeAt(rows[i], p) == Some(All)
    {
    }
  }

  /** What the merge takes its additions from: the default of a system role's name, else the converted flat rows. */
  ghost predicate Offers(role: Role, presets: Presets, path: string, required: Option<Scope>) {
    if role.isSystem && HasDefault(presets.defaults, role.name)
    then exists def :: DefaultNamed(presets.defaults, role.name, def) && GrantsPath(def.paths, path, required)
    else ConvertsTo(role.permissions, presets.table, path, required)
  }

  /**
   * The attendance path merge: a role that has paths gains, of the paths under
   * attendance, leave and regularization, exactly those its default or its flat
   * rows offer, at the wider scope. Roles without paths and flat rows stay.
   */
  lemma PathMergeDecides(role: Role, presets: Presets, path: string, required: Option<Scope>)
    requires UniquePaths(role.paths)
    ensures var (after, wrote) := Rewrite(AttendancePaths, role, presets);
            && (PathSatisfies(after.paths, path, required) <==>
                  || PathSatisfies(role.paths, path, required)
                  || (|role.paths| > 0 && UnderNewModules(path) && Offers(role, presets, path, required)))
            && after == role.(paths := after.paths) && (|role.paths| == 0 ==> after == role && !wrote)
  {
    MergeGrants(role.paths, Additions(role, presets), path, required);
    var preset := if role.isSystem then FindDefault(presets.defaults, role.name) else None;
    var source := if preset.Some? then preset.value.paths else FlatGrantsToPaths(role.permissions, presets.table);
    NewModuleGrants(source, path, required);
    ConverterGrantsPath(role.permissions, presets.table, path, required);
    AdditionsOffered(role, presets, path, required);
  }

  lemma AdditionsOffered(role: Role, presets: Presets, path: string, required: Option<Scope>)
    ensures var preset := if role.isSystem then FindDefault(presets.defaults, role.name) else None;
            Offers(role, presets, path, required) <==>
              if preset.Some? then GrantsPath(preset.value.paths, path, required)
              else ConvertsTo(role.permissions, presets.table, path, required)
  {
    var found := FindDefault(presets.defaults, role.name);
    FindDefaultIs(presets.defaults, role.name, found.GetOr(DefaultRole("", [], [])));
    if def :| DefaultNamed(presets.defaults, role.name, def) && GrantsPath(def.paths, path, required) {
      FindDefaultIs(presets.defaults, role.name, def);
    }
  }

  // ---------------------------------------------------------------- baseline

  /**
   * The baseline reconcile: a system role with a default of its name ends with the
   * grants of both, in both stores; every other role stays.
   */
  lemma BaselineDecides(role: Role, presets: Presets, def: DefaultRole, m: string, action: string, path: string,
                        required: Option<Scope>)
    requires UniquePairs(role.permissions) && UniquePairs(def.permissions) && UniquePaths(role.paths)
    ensures var (after, wrote) := Rewrite(Baseline, role, presets);
            && (role.isSystem && DefaultNamed(presets.defaults, role.name, def) ==>
                  && (Satisfies(after.permissions, m, action, required) <==>
                        Satisfies(role.permissions, m, action, required) || Satisfies(def.permissions, m, action, required))
                  && (PathSatisfies(after.paths, path, required) <==>
                        PathSatisfies(role.paths, path, required) || GrantsPath(def.paths, path, required)))
            && (!role.isSystem || !HasDefault(presets.defaults, role.name) ==> after == role && !wrote)
            && after.name == role.name && after.isSystem == role.isSystem
  {
    FindDefaultIs(presets.defaults, role.name, def);
    BaselineIsLub(role.permissions, def.permissions, m, action, required);
    MergeGrants(role.paths, def.paths, path, required);
  }

  // ------------------------------------------------------------------ strips

  /** Some entry grants the pair at all scope. */
  ghost predicate HeldAtAll(rows: seq<Row>, m: string, action: string) {
    exists i: nat, p: nat :: Occurs(rows, m, action, i, p) && ScopeAt(rows[i], p) == Some(All)
  }

  lemma HeldIsWidest(rows: seq<Row>, m: string, action: string)
    ensures HeldAtAll(rows, m, action) <==> WidestFlat(rows, m, action) == Some(All)
  {
    var _, _, i, p := FlatOccurs(rows, m, action);
    if i: nat, p: nat :| Occurs(rows, m, action, i, p) && ScopeAt(rows[i], p) == Some(All) {
      WidestInCovers(rows[i], |rows[i].actions|, p);
      WidestFlatAll(rows, m, action);
    }
  }

  /**
   * The mark/edit strip: attendance mark and edit, and their paths, survive where
   * an entry grants them at all scope; every other decision stays.
   */
  lemma StripLeaves(role: Role, presets: Presets, m: string, action: string, path: string, required: Option<Scope>)
    ensures var (after, wrote) := Rewrite(StripSelfMarkEdit, role, presets);
            && (Satisfies(after.permissions, m, action, required) <==>
                  if m == "attendance" && (action == "mark" || action == "edit") then HeldAtAll(role.permissions, m, action)
                  else Satisfies(role.permissions, m, action, required))
            && (PathSatisfies(after.paths, path, required) <==>
                  if path == "attendance.record.mark" || path == "attendance.record.edit"
                  then GrantsPath(role.paths, path, Some(All))
                  else PathSatisfies(role.paths, path, required))
            && after.name == role.name && after.isSystem == role.isSystem && (!wrote ==> after == role)
  {
    StripDecides(role, m, action, required);
    HeldIsWidest(role.permissions, m, action);
    StripPathDecides(role, path, required);
    GrantsPathIs(role.paths, path, Some(All));
  }

  /** `ks` are the places of what stays of an attendance row's first `n` entries, in order. */
  ghost predicate EntriesKept(row: Row, n: nat, kept: (seq<string>, seq<Option<Scope>>), ks: seq<nat>)
    requires n <= |row.actions|
  {
    && |ks| == |kept.0| == |kept.1|
    && (forall j :: 0 <= j < |ks| ==> ks[j] < n && kept.0[j] == row.actions[ks[j]] && kept.1[j] == Some(ScopeAt(row, ks[j]).GetOr(Self)))
    && (forall i, j :: 0 <= i < j < |ks| ==> ks[i] < ks[j])
    && (forall p :: 0 <= p < n ==> (p in ks <==> Stays(row, p)))
  }

  ghost predicate Stays(row: Row, p: nat)
    requires p < |row.actions|
  {
    (row.actions[p] != "mark" && row.actions[p] != "edit") || ScopeAt(row, p) == Some(All)
  }

  lemma StaysIff(row: Row, p: nat)
    requires p < |row.actions| && row.mod == "attendance"
    ensures RetiredEntry(row, p) <==> !Stays(row, p)
  {
    assert row.actions[p] in RETIRED_ACTIONS <==> row.actions[p] == "mark" || row.actions[p] == "edit";
    match ScopeAt(row, p)
    case None =>
    case Some(Self) =>
    case Some(All) =>
  }

  lemma EntryGone(row: Row, n: nat, kept: (seq<string>, seq<Option<Scope>>), ks: seq<nat>)
    requires n < |row.actions| && EntriesKept(row, n, kept, ks) && !Stays(row, n)
    ensures EntriesKept(row, n + 1, kept, ks)
  {
    assert n !in ks;
  }

  lemma EntryStays(row: Row, n: nat, kept: (seq<string>, seq<Option<Scope>>), ks: seq<nat>)
    requires n < |row.actions| && EntriesKept(row, n, kept, ks) && Stays(row, n)
    ensures EntriesKept(row, n + 1, (kept.0 + [row.actions[n]], kept.1 + [Some(ScopeAt(row, n).GetOr(Self))]), ks + [n])
  {
    var more := ks + [n];
    forall p | 0 <= p < n + 1 ensures p in more <==> Stays(row, p) {
      if p == n { assert more[|ks|] == n; }
    }
  }

  /** An attendance row keeps exactly its other entries, in their order, each with an explicit scope. */
  lemma {:induction false} StripKeepsEntries(row: Row, n: nat) returns (ks: seq<nat>)
    requires n <= |row.actions| && row.mod == "attendance"
    ensures EntriesKept(row, n, Kept(row, n), ks)
  {
    if n == 0 {
      ks := [];
    } else {
      ks := StripKeepsEntries(row, n - 1);
      StaysIff(row, n - 1);
      if RetiredEntry(row, n - 1) {
        EntryGone(row, n - 1, Kept(row, n - 1), ks);
      } else {
        EntryStays(row, n - 1, Kept(row, n - 1), ks);
        ks := ks + [n - 1];
      }
    }
  }

  /** `ks` are the places of the grants that stay, in order. */
  ghost predicate PathsKept(paths: seq<PathGrant>, kept: seq<PathGrant>, ks: seq<nat>) {
    && |ks| == |kept|
    && (forall j :: 0 <= j < |ks| ==> ks[j] < |paths| && kept[j] == paths[ks[j]])
    && (forall i, j :: 0 <= i < j < |ks| ==> ks[i] < ks[j])
    && (forall i :: 0 <= i < |paths| ==> (i in ks <==> PathStays(paths[i])))
  }

  ghost predicate PathStays(g: PathGrant) {
    (g.path != "attendance.record.mark" && g.path != "attendance.record.edit") || g.scope == All
  }

  lemma PathGone(paths: seq<PathGrant>, kept: seq<PathGrant>, ks: seq<nat>, g: PathGrant)
    requires PathsKept(paths, kept, ks) && !PathStays(g)
    ensures PathsKept(paths + [g], kept, ks)
  {
    assert |paths| !in ks;
  }

  lemma PathKept(paths: seq<PathGrant>, kept: seq<PathGrant>, ks: seq<nat>, g: PathGrant)
    requires PathsKept(paths, kept, ks) && PathStays(g)
    ensures PathsKept(paths + [g], kept + [g], ks + [|paths|])
  {
    var more := ks + [|paths|];
    forall i | 0 <= i < |paths + [g]| ensures i in more <==> PathStays((paths + [g])[i]) {
      if i == |paths| { assert more[|ks|] == i; }
    }
  }

  /** The strip keeps exactly the other path grants, in their order. */
  lemma {:induction false} StripKeepsPaths(paths: seq<PathGrant>) returns (ks: seq<nat>)
    ensures PathsKept(paths, StrippedPaths(paths), ks)
  {
    if |paths| == 0 {
      ks := [];
    } else {
      var init, last := paths[..|paths| - 1], paths[|paths| - 1];
      InitAndLast(paths);
      ks := StripKeepsPaths(init);
      assert last.path in RETIRED_PATHS <==> last.path == "attendance.record.mark" || last.path == "attendance.record.edit";
      if RetiredPath(last) {
        PathGone(init, StrippedPaths(init), ks, last);
      } else {
        PathKept(init, StrippedPaths(init), ks, last);
        ks := ks + [|init|];
      }
    }
  }

  /** What the strip rewrites a role to, entry by entry: rows of other modules stay as they are. */
  lemma StripKeepsRest(role: Role, presets: Presets, i: nat) returns (ks: seq<nat>, paths: seq<nat>)
    requires i < |role.permissions| && Rewrite(StripSelfMarkEdit, role, presets).1
    ensures var (row, after) := (role.permissions[i], Rewrite(StripSelfMarkEdit, role, presets).0);
            && |after.permissions| == |role.permissions| && PathsKept(role.paths, after.paths, paths)
            && if row.mod != "attendance" then after.permissions[i] == row
               else var now := after.permissions[i];
                    now.mod == row.mod && now.scopes.Some? &&
                    EntriesKept(row, |row.actions|, (now.actions, now.scopes.value), ks)
  {
    ks := [];
    if role.permissions[i].mod == "attendance" {
      ks := StripKeepsEntries(role.permissions[i], |role.permissions[i].actions|);
    }
    paths := StripKeepsPaths(role.paths);
  }

  /** The tax strip: a system Employee or Accountant loses salary declare_tax and nothing else; no other role moves. */
  lemma WhoLosesTax(role: Role, presets: Presets, m: string, action: string, required: Option<Scope>)
    ensures var (after, wrote) := Rewrite(StripDeclareTax, role, presets);
            var staff := role.isSystem && (role.name == "Employee" || role.name == "Accountant");
            && (Satisfies(after.permissions, m, action, required) <==>
                  !(staff && m == "salary" && action == "declare_tax") && Satisfies(role.permissions, m, action, required))
            && (wrote <==> staff && exists i, p :: Occurs(role.permissions, "salary", "declare_tax", i, p))
            && after == role.(permissions := after.permissions) && (!wrote ==> after == role)
  {
    StripTaxDecides(role, m, action, required);
    var rows := role.permissions;
    if i :| 0 <= i < |rows| && HasDeclareTax(rows[i]) {
      var p :| 0 <= p < |rows[i].actions| && rows[i].actions[p] == "declare_tax";
      assert Occurs(rows, "salary", "declare_tax", i, p);
    }
    if i: nat, p: nat :| Occurs(rows, "salary", "declare_tax", i, p) {
      assert HasDeclareTax(rows[i]);
    }
  }
}
