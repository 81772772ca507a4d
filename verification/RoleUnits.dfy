/**
 * The role passes as units of the ledgered runner: a rerun absorbs whatever an
 * interrupted one left, so any history of deployments ends in the chain applied
 * once per role.
 */
module RoleUnits {
  import opened Prelude
  import opened Permissions
  import opened GrantMerge
  import opened RoleMigrations
  import opened RoleChain
  import opened RoleStrips
  import opened MigrationRunner

  function Number(p: Pass): string {
    match p
    case ScopeBackfill => "0015"
    case WorkerRegularization => "0016"
    case AttendancePaths => "0021"
    case StripSelfMarkEdit => "0023"
    case HrSensitiveView => "0025"
    case SalaryDeclareTax => "0041"
    case Baseline => "0055"
    case StripDeclareTax => "0056"
  }

  function Title(p: Pass): string {
    match p
    case ScopeBackfill => "_rbac_permission_scopes_backfill"
    case WorkerRegularization => "_rbac_worker_regularization_grant"
    case AttendancePaths => "_rbac_role_attendance_permission_paths"
    case StripSelfMarkEdit => "_rbac_strip_attendance_mark_edit_self_scope"
    case HrSensitiveView => "_rbac_hr_salary_sensitive_view"
    case SalaryDeclareTax => "_salary_declare_tax_grant"
    case Baseline => "_rbac_reconcile_system_role_baseline"
    case StripDeclareTax => "_rbac_strip_employee_declare_tax"
  }

  function UnitName(p: Pass): string {
    Number(p) + Title(p)
  }

  /** Which roles' writes fail in which pass. */
  type Failing = (Pass, nat) -> bool

  /**
   * A run writes the roles whose write does not fail, and returns all the same;
   * one that halts at point `k` has come to the roles before the k-th and no other.
   */
  function Unit(p: Pass, presets: Presets, fails: Failing): Migration<seq<Role>> {
    Migration(
      UnitName(p),
      if p.Baseline? then Convergent else Once,
      if p.Baseline? then Some("v4-2026-07-03") else None,
      (roles: seq<Role>) => RunPass(p, roles, presets, (i: nat) => fails(p, i)),
      (roles: seq<Role>, k: nat) => RunPass(p, roles, presets, (i: nat) => fails(p, i) || i >= k))
  }

  function Units(presets: Presets, fails: Failing): seq<Migration<seq<Role>>> {
    seq(|CHAIN|, i requires 0 <= i < |CHAIN| => Unit(CHAIN[i], presets, fails))
  }

  /** The registry lists the units of these passes, in this order. */
  lemma RegistryIs(presets: Presets, fails: Failing)
    ensures CHAIN == [ScopeBackfill, WorkerRegularization, AttendancePaths, StripSelfMarkEdit,
                      HrSensitiveView, SalaryDeclareTax, Pass.Baseline, StripDeclareTax]
    ensures |Units(presets, fails)| == 8
    ensures forall i :: 0 <= i < 8 ==> Units(presets, fails)[i] == Unit(CHAIN[i], presets, fails)
  {
  }

  /** Each runs once; the reconcile runs again whenever its version changes. */
  lemma KindIs(p: Pass, presets: Presets, fails: Failing)
    ensures var u := Unit(p, presets, fails);
            && u.kind == (if p == Pass.Baseline then Convergent else Once)
            && u.checksum == (if p == Pass.Baseline then Some("v4-2026-07-03") else None)
  {
  }

  /** Role by role: a run rewrites those whose write does not fail, and one that stops at point `k` those before the k-th. */
  lemma UnitIs(p: Pass, presets: Presets, fails: Failing, roles: seq<Role>, k: nat, i: nat)
    requires i < |roles|
    ensures var (u, next) := (Unit(p, presets, fails), Rewrite(p, roles[i], presets).0);
            && |u.run(roles)| == |u.halt(roles, k)| == |roles|
            && u.run(roles)[i] == (if fails(p, i) then roles[i] else next)
            && u.halt(roles, k)[i] == if i < k && !fails(p, i) then next else roles[i]
  {
  }

  lemma AppendIdempotent(rows: seq<Row>, mod: string, action: string, scope: Scope, create: bool)
    ensures !Appends(AppendGrant(rows, mod, action, scope, create), mod, action, create)
  {
    var next := AppendGrant(rows, mod, action, scope, create);
    var k := FirstRow(rows, mod);
    if Appends(rows, mod, action, create) {
      assert next[k].mod == mod && action in next[k].actions;
      assert forall j :: 0 <= j < k ==> next[j].mod == rows[j].mod != mod;
      assert FirstRow(next, mod) == k;
    }
  }

  /** Every pass finds nothing to write on a role it has rewritten. */
  lemma {:induction false} RewriteIdempotent(p: Pass, role: Role, presets: Presets)
    ensures var once := Rewrite(p, role, presets).0;
            !Rewrite(p, once, presets).1 && Rewrite(p, once, presets).0 == once
  {
    var rows := role.permissions;
    match p
    case ScopeBackfill => BackfillMakesExplicit(role);
    case WorkerRegularization => AppendIdempotent(rows, ATTENDANCE, "manage_regularizations", Self, false);
    case AttendancePaths => MergePathsRerun(role.paths, Additions(role, presets));
    case StripSelfMarkEdit => StripIsComplete(role);
    case HrSensitiveView => AppendIdempotent(rows, SALARY, "sensitive_view", All, false);
    case SalaryDeclareTax =>
      AppendIdempotent(rows, SALARY, "declare_tax", Self, true);
      AppendIdempotent(rows, SALARY, "declare_tax", All, true);
    case Baseline =>
      var def := FindDefault(presets.defaults, role.name);
      if def.Some? { BaselineRerun(role, def.value); }
    case StripDeclareTax =>
      forall i | 0 <= i < |rows| && HasDeclareTax(rows[i])
        ensures !HasDeclareTax(WithoutAction(rows[i], "declare_tax"))
      {
        KeepIndicesOrder(rows[i].actions, "declare_tax", |rows[i].actions|);
      }
  }

  /** A pass reports a write exactly when it changes the role. */
  lemma WritesIffChanges(p: Pass, role: Role, presets: Presets)
    ensures Rewrite(p, role, presets).1 <==> Rewrite(p, role, presets).0 != role
  {
    RewriteIdempotent(p, role, presets);
  }

  /** A rerun over what any subset of the writes left, its own failing ones included in those that were missing. */
  lemma PassAbsorbs(p: Pass, roles: seq<Role>, presets: Presets, fails: nat -> bool, missing: nat -> bool)
    requires forall i :: fails(i) ==> missing(i)
    ensures RunPass(p, RunPass(p, roles, presets, missing), presets, fails) == RunPass(p, roles, presets, fails)
  {
    var part, whole := RunPass(p, roles, presets, missing), RunPass(p, roles, presets, fails);
    forall i | 0 <= i < |roles| ensures RunPass(p, part, presets, fails)[i] == whole[i] {
      var role := roles[i];
      assert part[i] == if missing(i) then role else Rewrite(p, role, presets).0;
      RewriteIdempotent(p, role, presets);
    }
  }

  /** Each unit absorbs its own partial runs: the hypothesis of the runner's refinement. */
  lemma {:induction false} UnitRetryable(p: Pass, presets: Presets, fails: Failing)
    ensures Retryable(Unit(p, presets, fails))
  {
    var u := Unit(p, presets, fails);
    forall roles: seq<Role> ensures u.run(u.run(roles)) == u.run(roles) {
      PassAbsorbs(p, roles, presets, (i: nat) => fails(p, i), (i: nat) => fails(p, i));
    }
    forall roles: seq<Role>, k: nat ensures u.run(u.halt(roles, k)) == u.run(roles) {
      PassAbsorbs(p, roles, presets, (i: nat) => fails(p, i), (i: nat) => fails(p, i) || i >= k);
    }
  }

  function Place(p: Pass): nat {
    match p
    case ScopeBackfill => 15
    case WorkerRegularization => 16
    case AttendancePaths => 21
    case StripSelfMarkEdit => 23
    case HrSensitiveView => 25
    case SalaryDeclareTax => 41
    case Baseline => 55
    case StripDeclareTax => 56
  }

  function DigitsOf(name: string): int
    requires |name| > 3
  {
    10 * (name[2] as int - '0' as int) + (name[3] as int - '0' as int)
  }

  lemma NameDigits(p: Pass)
    ensures DigitsOf(UnitName(p)) == Place(p)
  {
    assert UnitName(p)[2] == Number(p)[2] && UnitName(p)[3] == Number(p)[3];
  }

  /** The ledger keys of two different passes differ. */
  lemma NamesDiffer(p: Pass, q: Pass)
    requires p != q
    ensures UnitName(p) != UnitName(q)
  {
    NameDigits(p);
    NameDigits(q);
    assert Place(p) != Place(q);
  }

  lemma {:induction false} ChainAscends(i: nat, j: nat)
    requires i < j < |CHAIN|
    ensures Place(CHAIN[i]) < Place(CHAIN[j])
    decreases j - i
  {
    if i + 1 < j { ChainAscends(i, j - 1); }
  }

  lemma UnitsDistinct(presets: Presets, fails: Failing)
    ensures DistinctNames(Units(presets, fails))
  {
    var units := Units(presets, fails);
    forall i, j | 0 <= i < j < |units|
      ensures units[i].name != units[j].name
    {
      ChainAscends(i, j);
      NamesDiffer(CHAIN[i], CHAIN[j]);
    }
  }

  // ------------------------------------------------ histories, role by role

  /** Does the ledger show the `j`-th pass as not yet applied? Failing writes play no part in it. */
  predicate PassPending(ledger: Ledger, j: nat)
    requires j < |CHAIN|
  {
    var name := UnitName(CHAIN[j]);
    !(name in ledger && ledger[name].status.Applied? &&
      (!CHAIN[j].Baseline? || ledger[name].checksum == Some("v4-2026-07-03")))
  }

  /** The passes of `w` among the first `n`, in order. */
  function Written(w: nat -> bool, role: Role, presets: Presets, n: nat): Role
    requires n <= |CHAIN|
  {
    if n == 0 then role
    else
      var before := Written(w, role, presets, n - 1);
      if w(n - 1) then Rewrite(CHAIN[n - 1], before, presets).0 else before
  }

  /** A deployment of the first `n` passes with its own failing writes, or an instance that lost the claim. */
  datatype RoleOp =
    | RoleDeploy(n: nat, fails: Failing, sched: seq<Attempt>, now: nat)
    | RoleLost

  predicate Sensible(op: RoleOp) {
    op.RoleDeploy? ==> op.n <= |CHAIN| && |op.sched| == op.n
  }

  ghost predicate AllSensible(ops: seq<RoleOp>) {
    forall k :: 0 <= k < |ops| ==> Sensible(ops[k])
  }

  function RoleExec(op: RoleOp, presets: Presets, s: State<seq<Role>>): State<seq<Role>>
    requires Sensible(op)
  {
    if op.RoleLost? then s
    else RunOnce(Units(presets, op.fails)[..op.n], s, op.sched, op.now).state
  }

  ghost function RoleAfter(ops: seq<RoleOp>, presets: Presets, s: State<seq<Role>>): State<seq<Role>>
    requires AllSensible(ops)
  {
    if |ops| == 0 then s else RoleAfter(ops[1..], presets, RoleExec(ops[0], presets, s))
  }

  /** Does the attempt write role `i`? */
  predicate Writes1(a: Attempt, p: Pass, fails: Failing, i: nat) {
    !fails(p, i) && !a.ReadThrows? && (a.RunThrows? || a.DiesInRun? ==> i < a.at)
  }

  /** From unit `k` on, does the run write role `i` in pass `j`? */
  function WritesFrom(units: seq<Migration<seq<Role>>>, k: nat, s: State<seq<Role>>, sched: seq<Attempt>, now: nat,
                      fails: Failing, j: nat, i: nat): bool
    requires k <= |units| == |sched| <= |CHAIN|
    decreases |units| - k
  {
    if k == |units| || sched[k].ReadThrows? then false
    else if !IsPending(s.ledger, units[k]) then WritesFrom(units, k + 1, s, sched, now, fails, j, i)
    else
      (j == k && Writes1(sched[k], CHAIN[k], fails, i)) ||
      (sched[k].Completes? && WritesFrom(units, k + 1, Try(units[k], s, sched[k], now), sched, now, fails, j, i))
  }

  predicate OpWrites(op: RoleOp, presets: Presets, s: State<seq<Role>>, j: nat, i: nat)
    requires Sensible(op)
  {
    op.RoleDeploy? && WritesFrom(Units(presets, op.fails)[..op.n], 0, s, op.sched, op.now, op.fails, j, i)
  }

  /** Some attempt of the history wrote role `i` in pass `j`. */
  ghost predicate Wrote(ops: seq<RoleOp>, presets: Presets, s: State<seq<Role>>, j: nat, i: nat)
    requires AllSensible(ops)
  {
    |ops| > 0 &&
    (OpWrites(ops[0], presets, s, j, i) || Wrote(ops[1..], presets, RoleExec(ops[0], presets, s), j, i))
  }

  lemma {:induction false} WrittenSame(w: nat -> bool, w': nat -> bool, role: Role, presets: Presets, n: nat)
    requires n <= |CHAIN| && forall j :: 0 <= j < n ==> w(j) == w'(j)
    ensures Written(w, role, presets, n) == Written(w', role, presets, n)
  {
    if n == 0 {
    } else {
      WrittenSame(w, w', role, presets, n - 1);
    }
  }

  /** Passes that wrote nothing change nothing. */
  lemma {:induction false} WrittenStops(w: nat -> bool, role: Role, presets: Presets, m: nat, n: nat)
    requires m <= n <= |CHAIN| && forall j :: m <= j < n ==> !w(j)
    ensures Written(w, role, presets, n) == Written(w, role, presets, m)
  {
    if m == n {
    } else {
      WrittenStops(w, role, presets, m, n - 1);
    }
  }

  /** One more write of the pass that is under way. */
  lemma WriteOnce(w: nat -> bool, role: Role, presets: Presets, m: nat)
    requires m < |CHAIN| && forall j :: m < j < |CHAIN| ==> !w(j)
    ensures Written((j: nat) => w(j) || j == m, role, presets, |CHAIN|) == Rewrite(CHAIN[m], Written(w, role, presets, |CHAIN|), presets).0
  {
    var w' := (j: nat) => w(j) || j == m;
    var x := Written(w, role, presets, m);
    WrittenSame(w, w', role, presets, m);
    WrittenStops(w, role, presets, m + 1, |CHAIN|);
    WrittenStops(w', role, presets, m + 1, |CHAIN|);
    RewriteIdempotent(CHAIN[m], x, presets);
  }

  /** Role `i` where a history starts: the role, how many there are, and the passes pending. */
  datatype Origin = Origin(role: Role, size: nat, due: nat -> bool)

  /**
   * Between attempts, for role `i`: passes below `m` are settled, pass `m` may be
   * under way, the rest is as at the start; and the role is what the passes that
   * wrote it made of it. `steady`: no write of this role has failed.
   */
  ghost predicate Tracks(presets: Presets, from: Origin, s: State<seq<Role>>, m: nat, w: nat -> bool, i: nat, steady: bool) {
    && m <= |CHAIN| && i < |s.db| == from.size
    && (forall j :: 0 <= j < |CHAIN| ==> (PassPending(s.ledger, j) <==> m <= j && from.due(j)))
    && (forall j: nat :: w(j) ==> j <= m && j < |CHAIN| && from.due(j))
    && s.db[i] == Written(w, from.role, presets, |CHAIN|)
    && (steady ==> forall j :: 0 <= j < m && from.due(j) ==> w(j))
  }

  lemma UnitPending(ledger: Ledger, presets: Presets, fails: Failing, j: nat)
    requires j < |CHAIN|
    ensures IsPending(ledger, Unit(CHAIN[j], presets, fails)) <==> PassPending(ledger, j)
  {
  }

  lemma TryRole(p: Pass, presets: Presets, fails: Failing, s: State<seq<Role>>, a: Attempt, now: nat, i: nat)
    requires i < |s.db|
    ensures var d := Try(Unit(p, presets, fails), s, a, now).db;
            |d| == |s.db| && d[i] == if Writes1(a, p, fails, i) then Rewrite(p, s.db[i], presets).0 else s.db[i]
  {
  }

  lemma OtherPassKept(s: State<seq<Role>>, presets: Presets, fails: Failing, m: nat, a: Attempt, now: nat, j: nat)
    requires m < |CHAIN| && j < |CHAIN| && PassPending(s.ledger, m)
    ensures var s' := Try(Unit(CHAIN[m], presets, fails), s, a, now);
            && (j != m ==> (PassPending(s'.ledger, j) <==> PassPending(s.ledger, j)))
            && (PassPending(s'.ledger, m) <==> !Settles(a))
  {
    UnitPending(s.ledger, presets, fails, m);
    TrySettles(Unit(CHAIN[m], presets, fails), s, a, now);
    var s' := Try(Unit(CHAIN[m], presets, fails), s, a, now);
    UnitPending(s'.ledger, presets, fails, m);
    if j != m {
      if j < m { ChainAscends(j, m); } else { ChainAscends(m, j); }
      NamesDiffer(CHAIN[j], CHAIN[m]);
      assert SameRecord(s.ledger, s'.ledger, UnitName(CHAIN[j]));
    }
  }

  /** What has been written once pass `m` has had one more attempt. */
  function AlsoNow(w: nat -> bool, m: nat, a: Attempt, fails: Failing, i: nat): nat -> bool
    requires m < |CHAIN|
  {
    (j: nat) => w(j) || (j == m && Writes1(a, CHAIN[m], fails, i))
  }

  /** One attempt at the pass under way. */
  lemma AttemptTracks(presets: Presets, from: Origin, s: State<seq<Role>>, m: nat, w: nat -> bool, i: nat,
                      steady: bool, fails: Failing, a: Attempt, now: nat)
    requires Tracks(presets, from, s, m, w, i, steady) && m < |CHAIN| && PassPending(s.ledger, m)
    requires steady ==> !fails(CHAIN[m], i)
    ensures var s' := Try(Unit(CHAIN[m], presets, fails), s, a, now);
            Tracks(presets, from, s', if Settles(a) then m + 1 else m, AlsoNow(w, m, a, fails, i), i, steady)
  {
    var s' := Try(Unit(CHAIN[m], presets, fails), s, a, now);
    var wrote := Writes1(a, CHAIN[m], fails, i);
    var w' := AlsoNow(w, m, a, fails, i);
    TryRole(CHAIN[m], presets, fails, s, a, now, i);
    forall j | 0 <= j < |CHAIN|
      ensures PassPending(s'.ledger, j) <==> (if Settles(a) then m + 1 else m) <= j && from.due(j)
    {
      OtherPassKept(s, presets, fails, m, a, now, j);
    }
    if wrote {
      WriteOnce(w, from.role, presets, m);
      WrittenSame((j: nat) => w(j) || j == m, w', from.role, presets, |CHAIN|);
    } else {
      WrittenSame(w, w', from.role, presets, |CHAIN|);
    }
  }

  lemma TracksSame(presets: Presets, from: Origin, s: State<seq<Role>>, m: nat, w: nat -> bool,
                   w': nat -> bool, i: nat, steady: bool)
    requires Tracks(presets, from, s, m, w, i, steady) && forall j: nat :: w(j) <==> w'(j)
    ensures Tracks(presets, from, s, m, w', i, steady)
  {
    WrittenSame(w, w', from.role, presets, |CHAIN|);
  }

  /** A pass that turns out to be settled: below the one under way, or that one. */
  lemma {:induction false} SettledTracks(presets: Presets, from: Origin, s: State<seq<Role>>, m: nat, w: nat -> bool, i: nat, steady: bool, k: nat)
    requires Tracks(presets, from, s, m, w, i, steady) && k <= m && k < |CHAIN| && !PassPending(s.ledger, k)
    ensures Tracks(presets, from, s, if k == m then m + 1 else m, w, i, steady)
  {
    var m' := if k == m then m + 1 else m;
    assert forall j :: 0 <= j < |CHAIN| ==> (m <= j && from.due(j) <==> m' <= j && from.due(j));
  }

  /** What has been written by the end of a run. */
  function Then(w: nat -> bool, units: seq<Migration<seq<Role>>>, k: nat, s: State<seq<Role>>, sched: seq<Attempt>, now: nat,
                fails: Failing, i: nat): nat -> bool
    requires k <= |units| == |sched| <= |CHAIN|
  {
    (j: nat) => w(j) || WritesFrom(units, k, s, sched, now, fails, j, i)
  }

  /** A prefix of the chain's units. */
  ghost predicate UnitsOf(units: seq<Migration<seq<Role>>>, presets: Presets, fails: Failing) {
    |units| <= |CHAIN| && forall k :: 0 <= k < |units| ==> units[k] == Unit(CHAIN[k], presets, fails)
  }

  /** The run loop from unit `k` on. */
  lemma {:induction false} RunTracks(presets: Presets, from: Origin, s: State<seq<Role>>, m: nat, w: nat -> bool, i: nat,
                                     steady: bool, units: seq<Migration<seq<Role>>>, fails: Failing, sched: seq<Attempt>, now: nat,
                                     k: nat, sum: Summary, ran: seq<string>) returns (m': nat)
    requires UnitsOf(units, presets, fails) && |sched| == |units| && k <= |units|
    requires Tracks(presets, from, s, m, w, i, steady) && k <= m && (steady ==> forall p :: !fails(p, i))
    ensures var r := Apply(units, k, s, sched, now, sum, ran);
            Tracks(presets, from, r.state, m', Then(w, units, k, s, sched, now, fails, i), i, steady) && (r.end.Finished? ==> |units| <= m')
    decreases |units| - k, 1
  {
    if k == |units| || sched[k].ReadThrows? {
      TracksSame(presets, from, s, m, w, Then(w, units, k, s, sched, now, fails, i), i, steady);
      return m;
    }
    UnitPending(s.ledger, presets, fails, k);
    if !IsPending(s.ledger, units[k]) {
      m' := SkippedTracks(presets, from, s, m, w, i, steady, units, fails, sched, now, k, sum, ran);
    } else {
      m' := AttemptedTracks(presets, from, s, m, w, i, steady, units, fails, sched, now, sum, ran);
    }
  }

  /** The same from a unit that is up to date. */
  lemma {:induction false} SkippedTracks(presets: Presets, from: Origin, s: State<seq<Role>>, m: nat, w: nat -> bool, i: nat,
                                         steady: bool, units: seq<Migration<seq<Role>>>, fails: Failing, sched: seq<Attempt>, now: nat,
                                         k: nat, sum: Summary, ran: seq<string>) returns (m': nat)
    requires UnitsOf(units, presets, fails) && |sched| == |units| && k < |units|
    requires Tracks(presets, from, s, m, w, i, steady) && k <= m && (steady ==> forall p :: !fails(p, i))
    requires !sched[k].ReadThrows? && !PassPending(s.ledger, k) && !IsPending(s.ledger, units[k])
    ensures var r := Apply(units, k, s, sched, now, sum, ran);
            Tracks(presets, from, r.state, m', Then(w, units, k, s, sched, now, fails, i), i, steady) && (r.end.Finished? ==> |units| <= m')
    decreases |units| - k, 0
  {
    var sum', m1 := sum.(skipped := sum.skipped + [units[k].name]), if k == m then m + 1 else m;
    SettledTracks(presets, from, s, m, w, i, steady, k);
    m' := RunTracks(presets, from, s, m1, w, i, steady, units, fails, sched, now, k + 1, sum', ran);
    var r := Apply(units, k + 1, s, sched, now, sum', ran);
    assert Apply(units, k, s, sched, now, sum, ran) == r;
    var w1, w' := Then(w, units, k + 1, s, sched, now, fails, i), Then(w, units, k, s, sched, now, fails, i);
    assert forall j: nat :: w1(j) <==> w'(j) by { ThenSkips(w, units, k, s, sched, now, fails, i); }
    TracksSame(presets, from, r.state, m', w1, w', i, steady);
  }

  /** The same from a pending unit, which is the one under way. */
  lemma {:induction false} AttemptedTracks(presets: Presets, from: Origin, s: State<seq<Role>>, m: nat, w: nat -> bool, i: nat,
                                           steady: bool, units: seq<Migration<seq<Role>>>, fails: Failing, sched: seq<Attempt>,
                                           now: nat, sum: Summary, ran: seq<string>) returns (m': nat)
    requires UnitsOf(units, presets, fails) && |sched| == |units| && m < |units|
    requires Tracks(presets, from, s, m, w, i, steady) && (steady ==> forall p :: !fails(p, i))
    requires !sched[m].ReadThrows? && PassPending(s.ledger, m) && IsPending(s.ledger, units[m])
    ensures var r := Apply(units, m, s, sched, now, sum, ran);
            Tracks(presets, from, r.state, m', Then(w, units, m, s, sched, now, fails, i), i, steady) && (r.end.Finished? ==> |units| <= m')
    decreases |units| - m, 0
  {
    AttemptTracks(presets, from, s, m, w, i, steady, fails, sched[m], now);
    var s', w1 := Try(units[m], s, sched[m], now), AlsoNow(w, m, sched[m], fails, i);
    var end, w' := Apply(units, m, s, sched, now, sum, ran).state, Then(w, units, m, s, sched, now, fails, i);
    ThenUnfolds(w, units, m, s, sched, now, fails, i);
    if sched[m].Completes? {
      m' := RunTracks(presets, from, s', m + 1, w1, i, steady, units, fails, sched, now, m + 1,
                      sum.(applied := sum.applied + [units[m].name]), ran + [units[m].name]);
      TracksSame(presets, from, end, m', Then(w1, units, m + 1, s', sched, now, fails, i), w', i, steady);
    } else {
      m' := if Settles(sched[m]) then m + 1 else m;
      TracksSame(presets, from, end, m', w1, w', i, steady);
    }
  }

  lemma ThenUnfolds(w: nat -> bool, units: seq<Migration<seq<Role>>>, m: nat, s: State<seq<Role>>,
                    sched: seq<Attempt>, now: nat, fails: Failing, i: nat)
    requires m < |units| == |sched| <= |CHAIN| && !sched[m].ReadThrows? && IsPending(s.ledger, units[m])
    ensures var w', w1 := Then(w, units, m, s, sched, now, fails, i), AlsoNow(w, m, sched[m], fails, i);
            var next := if sched[m].Completes? then Then(w1, units, m + 1, Try(units[m], s, sched[m], now), sched, now, fails, i) else w1;
            forall j: nat :: next(j) <==> w'(j)
  {
    var s' := Try(units[m], s, sched[m], now);
    forall j: nat
      ensures WritesFrom(units, m, s, sched, now, fails, j, i) <==>
                (j == m && Writes1(sched[m], CHAIN[m], fails, i)) ||
                (sched[m].Completes? && WritesFrom(units, m + 1, s', sched, now, fails, j, i))
    {
    }
  }

  lemma ThenSkips(w: nat -> bool, units: seq<Migration<seq<Role>>>, k: nat, s: State<seq<Role>>,
                  sched: seq<Attempt>, now: nat, fails: Failing, i: nat)
    requires k < |units| == |sched| <= |CHAIN| && !sched[k].ReadThrows? && !IsPending(s.ledger, units[k])
    ensures var w', next := Then(w, units, k, s, sched, now, fails, i), Then(w, units, k + 1, s, sched, now, fails, i);
            forall j: nat :: next(j) <==> w'(j)
  {
    forall j: nat
      ensures WritesFrom(units, k, s, sched, now, fails, j, i) <==> WritesFrom(units, k + 1, s, sched, now, fails, j, i)
    {
    }
  }

  /** No deployment of the history fails to write role `i`. */
  ghost predicate Steady(ops: seq<RoleOp>, i: nat) {
    forall k :: 0 <= k < |ops| && ops[k].RoleDeploy? ==> forall p :: !ops[k].fails(p, i)
  }

  lemma {:induction false} HistoryTracks(presets: Presets, from: Origin, s: State<seq<Role>>, m: nat, w: nat -> bool, i: nat,
                                         steady: bool, ops: seq<RoleOp>) returns (m': nat)
    requires AllSensible(ops)
    requires Tracks(presets, from, s, m, w, i, steady) && (steady ==> Steady(ops, i))
    ensures Tracks(presets, from, RoleAfter(ops, presets, s), m', (j: nat) => w(j) || Wrote(ops, presets, s, j, i), i, steady)
    decreases |ops|
  {
    var w' := (j: nat) => w(j) || Wrote(ops, presets, s, j, i);
    if |ops| == 0 {
      TracksSame(presets, from, s, m, w, w', i, steady);
      return m;
    }
    var op := ops[0];
    var m1 := m;
    var w1 := (j: nat) => w(j) || OpWrites(op, presets, s, j, i);
    if op.RoleDeploy? {
      var units := Units(presets, op.fails)[..op.n];
      m1 := RunTracks(presets, from, s, m, w, i, steady, units, op.fails, op.sched, op.now, 0, NO_SUMMARY, []);
      TracksSame(presets, from, RoleExec(op, presets, s), m1, Then(w, units, 0, s, op.sched, op.now, op.fails, i), w1, i, steady);
    } else {
      TracksSame(presets, from, s, m, w, w1, i, steady);
    }
    m' := HistoryTracks(presets, from, RoleExec(op, presets, s), m1, w1, i, steady, ops[1..]);
    TracksSame(presets, from, RoleAfter(ops, presets, s), m',
               (j: nat) => w1(j) || Wrote(ops[1..], presets, RoleExec(op, presets, s), j, i), w', i, steady);
  }

  // ------------------------------------------------------------ main results

  /** Some attempt of the history, or of the run after it, wrote role `i` in pass `j`. */
  ghost function AllWrote(ops: seq<RoleOp>, presets: Presets, s: State<seq<Role>>, fails: Failing, sched: seq<Attempt>, now: nat,
                          i: nat): nat -> bool
    requires AllSensible(ops) && |sched| == |CHAIN|
  {
    (j: nat) => Wrote(ops, presets, s, j, i) ||
                WritesFrom(Units(presets, fails), 0, RoleAfter(ops, presets, s), sched, now, fails, j, i)
  }

  /**
   * Crash-safety of the whole chain, role by role: after any history of
   * deployments, each cut short at any point and with its own failing role
   * writes, the first finished run leaves each role as the chain of exactly the
   * passes some attempt wrote it in; none is pending, all were at the start; and
   * they are all of those when no write of the role ever failed.
   */
  lemma {:induction false} ChainSurvivesCrashes(presets: Presets, s: State<seq<Role>>, ops: seq<RoleOp>, fails: Failing,
                                                sched: seq<Attempt>, now: nat, i: nat)
    requires AllSensible(ops) && |sched| == |CHAIN| && i < |s.db|
    requires RunOnce(Units(presets, fails), RoleAfter(ops, presets, s), sched, now).end.Finished?
    ensures var w := AllWrote(ops, presets, s, fails, sched, now, i);
            var final := RunOnce(Units(presets, fails), RoleAfter(ops, presets, s), sched, now).state;
            && |final.db| == |s.db| && final.db[i] == Written(w, s.db[i], presets, |CHAIN|)
            && (forall j :: 0 <= j < |CHAIN| ==> !PassPending(final.ledger, j) && (w(j) ==> PassPending(s.ledger, j)))
            && (Steady(ops, i) && (forall p :: !fails(p, i)) ==> forall j :: 0 <= j < |CHAIN| ==> (w(j) <==> PassPending(s.ledger, j)))
  {
    var units, mid := Units(presets, fails), RoleAfter(ops, presets, s);
    var steady := Steady(ops, i) && forall p :: !fails(p, i);
    var none := (j: nat) => false;
    WrittenStops(none, s.db[i], presets, 0, |CHAIN|);
    var from := Origin(s.db[i], |s.db|, (j: nat) => j < |CHAIN| && PassPending(s.ledger, j));
    var m := HistoryTracks(presets, from, s, 0, none, i, steady, ops);
    var w1 := (j: nat) => none(j) || Wrote(ops, presets, s, j, i);
    var m' := RunTracks(presets, from, mid, m, w1, i, steady, units, fails, sched, now, 0, NO_SUMMARY, []);
    var final := RunOnce(units, mid, sched, now).state;
    TracksSame(presets, from, final, m', Then(w1, units, 0, mid, sched, now, fails, i), AllWrote(ops, presets, s, fails, sched, now, i), i, steady);
  }

  /** From the strip on a role stays clean exactly when the strip wrote it, or found nothing retired on it. */
  lemma CleanFromStripIff(presets: Presets, w: nat -> bool, role: Role)
    requires Retired(presets)
    ensures (forall m :: 4 <= m <= |CHAIN| ==> !HasRetired(Written(w, role, presets, m))) <==>
            w(3) || !HasRetired(Written(w, role, presets, 3))
  {
    var before, after := Written(w, role, presets, 3), Written(w, role, presets, 4);
    assert after == if w(3) then Rewrite(CHAIN[3], before, presets).0 else before;
    StripIsComplete(before);
    if w(3) || !HasRetired(before) {
      forall m | 4 <= m <= |CHAIN| ensures !HasRetired(Written(w, role, presets, m)) {
        CleanOnwards(presets, w, role, m);
      }
    }
  }

  lemma {:induction false} CleanOnwards(presets: Presets, w: nat -> bool, role: Role, m: nat)
    requires Retired(presets) && 4 <= m <= |CHAIN| && !HasRetired(Written(w, role, presets, 4))
    ensures !HasRetired(Written(w, role, presets, m))
  {
    if m > 4 {
      CleanOnwards(presets, w, role, m - 1);
      RewriteKeepsClean(CHAIN[m - 1], Written(w, role, presets, m - 1), presets);
    }
  }

  /** From the backfill on all scopes are explicit exactly when it wrote a role without full-length nulls, or they were already. */
  lemma ExplicitFromBackfillIff(presets: Presets, w: nat -> bool, role: Role)
    ensures (forall m :: 1 <= m <= |CHAIN| ==> AllExplicit(Written(w, role, presets, m).permissions)) <==>
            if w(0) then NullFree(role.permissions) else AllExplicit(role.permissions)
  {
    var start := if w(0) then NullFree(role.permissions) else AllExplicit(role.permissions);
    FirstStage(presets, w, role);
    if start {
      forall m | 1 <= m <= |CHAIN| ensures AllExplicit(Written(w, role, presets, m).permissions) {
        ExplicitOnwards(presets, w, role, m);
      }
    }
    if forall m :: 1 <= m <= |CHAIN| ==> AllExplicit(Written(w, role, presets, m).permissions) {
      assert AllExplicit(Written(w, role, presets, 1).permissions);
    }
  }

  lemma FirstStage(presets: Presets, w: nat -> bool, role: Role)
    ensures AllExplicit(Written(w, role, presets, 1).permissions) <==>
            if w(0) then NullFree(role.permissions) else AllExplicit(role.permissions)
  {
    assert Written(w, role, presets, 0) == role && CHAIN[0] == ScopeBackfill;
    if w(0) {
      BackfillMakesExplicit(role);
      assert Written(w, role, presets, 1) == BackfillScopes(role).0;
    } else {
      assert Written(w, role, presets, 1) == role;
    }
  }

  lemma {:induction false} ExplicitOnwards(presets: Presets, w: nat -> bool, role: Role, m: nat)
    requires 1 <= m <= |CHAIN| && AllExplicit(Written(w, role, presets, 1).permissions)
    ensures AllExplicit(Written(w, role, presets, m).permissions)
  {
    if m > 1 {
      ExplicitOnwards(presets, w, role, m - 1);
      RewriteKeepsExplicit(CHAIN[m - 1], Written(w, role, presets, m - 1), presets);
    }
  }

  /**
   * What an upgraded workspace ends with, however often its deployments crashed
   * and whichever role writes failed. Exactly: a role is explicit from the
   * backfill on, and clean from the strip on, under the two conditions below; in
   * particular both hold at the end for a role without nulls on a fresh ledger
   * when its writes never failed.
   */
  lemma {:induction false} UpgradedRolesAreSound(presets: Presets, s: State<seq<Role>>, ops: seq<RoleOp>, fails: Failing,
                                                 sched: seq<Attempt>, now: nat, i: nat)
    requires AllSensible(ops) && |sched| == |CHAIN| && i < |s.db| && Retired(presets)
    requires RunOnce(Units(presets, fails), RoleAfter(ops, presets, s), sched, now).end.Finished?
    ensures var w := AllWrote(ops, presets, s, fails, sched, now, i);
            var role := s.db[i];
            var final := RunOnce(Units(presets, fails), RoleAfter(ops, presets, s), sched, now).state;
            && |final.db| == |s.db| && final.db[i] == Written(w, role, presets, |CHAIN|)
            && ((forall m :: 1 <= m <= |CHAIN| ==> AllExplicit(Written(w, role, presets, m).permissions)) <==>
                  if w(0) then NullFree(role.permissions) else AllExplicit(role.permissions))
            && ((forall m :: 4 <= m <= |CHAIN| ==> !HasRetired(Written(w, role, presets, m))) <==>
                  w(3) || !HasRetired(Written(w, role, presets, 3)))
    ensures var final := RunOnce(Units(presets, fails), RoleAfter(ops, presets, s), sched, now).state;
            NullFree(s.db[i].permissions) && Steady(ops, i) && (forall p :: !fails(p, i)) &&
            (forall j :: 0 <= j < |CHAIN| ==> PassPending(s.ledger, j)) ==>
              |final.db| == |s.db| && AllExplicit(final.db[i].permissions) && !HasRetired(final.db[i])
  {
    ChainSurvivesCrashes(presets, s, ops, fails, sched, now, i);
    var w := AllWrote(ops, presets, s, fails, sched, now, i);
    ExplicitFromBackfillIff(presets, w, s.db[i]);
    CleanFromStripIff(presets, w, s.db[i]);
  }

  /**
   * Exactly when a strip recorded as applied has stripped: no role whose write
   * failed held a retired grant. The record stands either way.
   */
  lemma RecordedMeansStrippedIff(presets: Presets, fails: Failing, s: State<seq<Role>>, now: nat)
    ensures var s' := Try(Unit(StripSelfMarkEdit, presets, fails), s, Completes, now);
            && !PassPending(s'.ledger, 3) && |s'.db| == |s.db|
            && ((forall i :: 0 <= i < |s'.db| ==> !HasRetired(s'.db[i])) <==>
                  forall i :: 0 <= i < |s.db| && fails(StripSelfMarkEdit, i) ==> !HasRetired(s.db[i]))
  {
    var s' := Try(Unit(StripSelfMarkEdit, presets, fails), s, Completes, now);
    forall i | 0 <= i < |s.db|
      ensures HasRetired(s'.db[i]) <==> fails(StripSelfMarkEdit, i) && HasRetired(s.db[i])
    {
      TryRole(StripSelfMarkEdit, presets, fails, s, Completes, now, i);
      StripIsComplete(s.db[i]);
    }
  }

  /** And whatever deployments, crashes, baselines and registries follow, no later run comes back to the roles it missed. */
  lemma {:induction false} SwallowedWriteSticks(presets: Presets, fails: Failing, s: State<seq<Role>>, now: nat, ops: seq<Op<seq<Role>>>)
    requires WellFormedAll(ops) && AlwaysOnce(ops, UnitName(StripSelfMarkEdit))
    ensures var s' := Try(Unit(StripSelfMarkEdit, presets, fails), s, Completes, now);
            UnitName(StripSelfMarkEdit) !in Calls(ops, s')
  {
    OnceNeverRunsAgain(ops, Try(Unit(StripSelfMarkEdit, presets, fails), s, Completes, now), UnitName(StripSelfMarkEdit));
  }

  /** The passes, among the chain's first `n`, that are pending and whose write of role `i` does not fail. */
  predicate Lands(ledger: Ledger, fails: Failing, i: nat, j: nat) {
    j < |CHAIN| && PassPending(ledger, j) && !fails(CHAIN[j], i)
  }

  /** The specification of the runner, role by role: each pending unit once, in order, where its write lands. */
  lemma {:induction false} EachPendingOnceWrites(presets: Presets, fails: Failing, s: State<seq<Role>>, n: nat, i: nat)
    requires n <= |CHAIN| && i < |s.db|
    ensures var d := EachPendingOnce(Units(presets, fails), s.ledger, s.db, n);
            |d| == |s.db| && d[i] == Written((j: nat) => Lands(s.ledger, fails, i, j), s.db[i], presets, n)
  {
    if n == 0 {
    } else {
      var before := EachPendingOnce(Units(presets, fails), s.ledger, s.db, n - 1);
      EachPendingOnceWrites(presets, fails, s, n - 1, i);
      UnitPending(s.ledger, presets, fails, n - 1);
      assert Units(presets, fails)[n - 1] == Unit(CHAIN[n - 1], presets, fails);
      UnitIs(CHAIN[n - 1], presets, fails, before, 0, i);
    }
  }

  /** The refinement of the runner applies: with the same failing writes throughout, crashes and retries change nothing. */
  lemma SameFailuresThroughout(presets: Presets, fails: Failing, s: State<seq<Role>>, ops: seq<Op<seq<Role>>>,
                               sched: seq<Attempt>, now: nat, i: nat)
    requires PrefixDeploys(ops, Units(presets, fails)) && WellFormedAll(ops) && |sched| == |CHAIN| && i < |s.db|
    requires RunOnce(Units(presets, fails), After(ops, s), sched, now).end.Finished?
    ensures var d := RunOnce(Units(presets, fails), After(ops, s), sched, now).state.db;
            |d| == |s.db| && d[i] == Written((j: nat) => Lands(s.ledger, fails, i, j), s.db[i], presets, |CHAIN|)
  {
    var units := Units(presets, fails);
    UnitsDistinct(presets, fails);
    forall j | 0 <= j < |units| ensures Retryable(units[j]) {
      UnitRetryable(CHAIN[j], presets, fails);
    }
    ExactlyOnceInOrder(units, s, ops, sched, now);
    EachPendingOnceWrites(presets, fails, s, |CHAIN|, i);
  }
}
