/**
 * The plan pipeline as units of the ledgered runner: whatever point a unit was
 * cut short at, running it again comes to the same catalogue.
 */
module PlanUnits {
  import opened Prelude
  import opened PlanPipeline
  import opened MigrationRunner

  // ------------------------------------------------------ what a stop leaves

  function HaltedProToGrowth(d: Db, k: nat): Db {
    d.(plans := RenamedPlans(d.plans, k))
  }

  function HaltedSeed(d: Db, k: nat): Db {
    var n := |KEYS|;
    if k <= n then d.(tiers := SeedTiers(d.tiers, k))
    else SeedPlans(d.(tiers := SeedTiers(d.tiers, n)), if k - n <= n then k - n else n)
  }

  /** One update after the other: the first pass, the enterprise tier, the second pass, the third. */
  function HaltedRetire(d: Db, k: nat): Db {
    var n := |d.plans|;
    d.(plans := Removed(Passed(d.plans, k, if k > n then k - n - 1 else 0), d.subs, if k > 2 * n then k - 2 * n - 1 else 0),
       tiers := if k > n then RetiredTiers(d.tiers) else d.tiers)
  }

  /** Key by key: the tier, then the plans of the key. */
  function HaltedReconcile(d: Db, k: nat, j: nat): Db {
    d.(plans := CorrectedPlans(d.plans, k, j),
       tiers := CorrectedTiers(d.tiers, if k >= |KEYS| then |KEYS| else if j > 0 then k + 1 else k))
  }

  function UnitName(i: nat): string
    requires i < 4
  {
    match i
    case 0 => "0012_rbac_migrate_pro_to_growth"
    case 1 => "0028_erp_seed_tiers_and_plans"
    case 2 => "0052_erp_retire_legacy_plans"
    case 3 => "0053_erp_reconcile_plan_entitlements"
  }

  function Unit(i: nat): Migration<Db>
    requires i < 4
  {
    match i
    case 0 => Migration(UnitName(0), Once, None, (d: Db) => ProToGrowth(d), (d: Db, k: nat) => HaltedProToGrowth(d, k))
    case 1 => Migration(UnitName(1), Convergent, Some("v1"), (d: Db) => Seed(d), (d: Db, k: nat) => HaltedSeed(d, k))
    case 2 => Migration(UnitName(2), Once, None, (d: Db) => Retire(d), (d: Db, k: nat) => HaltedRetire(d, k))
    case 3 => Migration(UnitName(3), Once, None, (d: Db) => Reconcile(d),
                        (d: Db, k: nat) => HaltedReconcile(d, k / (|d.plans| + 1), k % (|d.plans| + 1)))
  }

  function Units(): seq<Migration<Db>> {
    [Unit(0), Unit(1), Unit(2), Unit(3)]
  }

  // ----------------------------------------------------------- pro to growth

  lemma ProToGrowthAbsorbs(d: Db, k: nat)
    ensures ProToGrowth(ProToGrowth(d)) == ProToGrowth(d)
    ensures ProToGrowth(HaltedProToGrowth(d, k)) == ProToGrowth(d)
  {
  }

  // -------------------------------------------------------------------- seed

  lemma {:induction false} TiersAbsorb(tiers: map<string, Tier>, k: nat, n: nat)
    requires k <= |KEYS| && n <= |KEYS|
    ensures SeedTiers(SeedTiers(tiers, k), n) == SeedTiers(tiers, if k <= n then n else k)
  {
    if n == 0 {
    } else if n <= k {
      TiersAbsorb(tiers, k, n - 1);
      TiersSeeded(tiers, k);
      assert KEYS[n - 1] in SeedTiers(tiers, k);
    } else {
      TiersAbsorb(tiers, k, n - 1);
    }
  }

  /** Every tier below `k` is covered once `k` tiers have been seeded. */
  lemma {:induction false} CoveredBelow(d: Db, k: nat, i: nat)
    requires i < k <= |KEYS| && KEYS[i] in d.tiers
    ensures HasErpPlan(SeedPlans(d, k).plans, KEYS[i])
  {
    var before := SeedPlans(d, k - 1);
    SeedKeepsSubs(d, k - 1);
    if i < k - 1 {
      CoveredBelow(d, k - 1, i);
    }
    if SeedPlans(d, k) != before {
      var p := NewPlan(before.nextId, k - 1, before.tiers[KEYS[k - 1]].caps);
      MoreCovered(before.plans, p);
    }
  }

  lemma {:induction false} PlansAbsorb(d: Db, k: nat, n: nat)
    requires k <= |KEYS| && n <= |KEYS| && forall i :: 0 <= i < |KEYS| ==> KEYS[i] in d.tiers
    ensures SeedPlans(SeedPlans(d, k), n) == SeedPlans(d, if k <= n then n else k)
  {
    if n == 0 {
    } else if n <= k {
      PlansAbsorb(d, k, n - 1);
      CoveredBelow(d, k, n - 1);
    } else {
      PlansAbsorb(d, k, n - 1);
    }
  }

  lemma SeedAbsorbs(d: Db, k: nat)
    ensures Seed(HaltedSeed(d, k)) == Seed(d)
    ensures Seed(Seed(d)) == Seed(d)
  {
    var n := |KEYS|;
    var full := d.(tiers := SeedTiers(d.tiers, n));
    TiersSeeded(d.tiers, n);
    TiersAbsorb(d.tiers, n, n);
    PlansAbsorb(full, n, n);
    SeedKeepsSubs(full, n);
    if k <= n {
      TiersAbsorb(d.tiers, k, n);
    } else {
      var m := if k - n <= n then k - n else n;
      SeedKeepsSubs(full, m);
      PlansAbsorb(full, m, n);
    }
  }

  // ------------------------------------------------------------------ retire

  function Whole(p: Plan, subs: seq<nat>): seq<Plan> {
    var r := Remove(FlagCustom(HideEnterprise(p)), subs);
    if r.Some? then [r.value] else []
  }

  /** All three passes over a list. */
  function RetiredAll(plans: seq<Plan>, subs: seq<nat>): seq<Plan> {
    Removed(Passed(plans, |plans|, |plans|), subs, |plans|)
  }

  function Part(p: Plan, subs: seq<nat>, a: bool, b: bool, c: bool): seq<Plan> {
    var q := if a then HideEnterprise(p) else p;
    var r := if b then FlagCustom(q) else q;
    var s := if c then Remove(r, subs) else Some(r);
    if s.Some? then [s.value] else []
  }

  lemma PartAbsorbed(p: Plan, subs: seq<nat>, a: bool, b: bool, c: bool)
    ensures var r := Part(p, subs, a, b, c); (if |r| == 0 then [] else Whole(r[0], subs)) == Whole(p, subs) && |r| <= 1
  {
  }

  lemma {:induction false} RemovedMore(plans: seq<Plan>, subs: seq<nat>, n: nat, n': nat)
    requires |plans| <= n <= n'
    ensures Removed(plans, subs, n) == Removed(plans, subs, n')
  {
    if |plans| == 0 {
    } else {
      RemovedMore(plans[..|plans| - 1], subs, n, n');
    }
  }

  lemma RetiredMore(plans: seq<Plan>, p: Plan, subs: seq<nat>)
    ensures RetiredAll(plans + [p], subs) == RetiredAll(plans, subs) + Whole(p, subs)
  {
    var n := |plans|;
    var more := Passed(plans + [p], n + 1, n + 1);
    assert more[..n] == Passed(plans, n, n);
    RemovedMore(Passed(plans, n, n), subs, n, n + 1);
  }

  lemma PartLast(plans: seq<Plan>, subs: seq<nat>, a: nat, b: nat, c: nat)
    requires |plans| > 0
    ensures var n := |plans| - 1;
            Removed(Passed(plans, a, b), subs, c) ==
            Removed(Passed(plans[..n], a, b), subs, c) + Part(plans[n], subs, n < a, n < b, n < c)
  {
    var n := |plans| - 1;
    assert Passed(plans, a, b)[..n] == Passed(plans[..n], a, b);
  }

  lemma {:induction false} RetireAbsorbsPart(plans: seq<Plan>, subs: seq<nat>, a: nat, b: nat, c: nat)
    ensures RetiredAll(Removed(Passed(plans, a, b), subs, c), subs) == RetiredAll(plans, subs)
  {
    if |plans| == 0 {
      assert Passed(plans, a, b) == plans;
    } else {
      var n := |plans| - 1;
      var init, p := plans[..n], plans[n];
      InitAndLast(plans);
      RetireAbsorbsPart(init, subs, a, b, c);
      PartLast(plans, subs, a, b, c);
      RetiredStep(init, Removed(Passed(init, a, b), subs, c), p, subs, n < a, n < b, n < c);
    }
  }

  lemma RetiredStep(init: seq<Plan>, done: seq<Plan>, p: Plan, subs: seq<nat>, a: bool, b: bool, c: bool)
    requires RetiredAll(done, subs) == RetiredAll(init, subs)
    ensures RetiredAll(done + Part(p, subs, a, b, c), subs) == RetiredAll(init + [p], subs)
  {
    RetiredMore(init, p, subs);
    RetiredPart(done, p, subs, a, b, c);
  }

  lemma RetiredPart(done: seq<Plan>, p: Plan, subs: seq<nat>, a: bool, b: bool, c: bool)
    ensures RetiredAll(done + Part(p, subs, a, b, c), subs) == RetiredAll(done, subs) + Whole(p, subs)
  {
    var part := Part(p, subs, a, b, c);
    PartAbsorbed(p, subs, a, b, c);
    if |part| == 0 {
      assert done + part == done;
    } else {
      assert part == [part[0]];
      RetiredMore(done, part[0], subs);
    }
  }

  lemma RetireTwice(d: Db)
    ensures Retire(Retire(d)) == Retire(d)
  {
    var n := |d.plans|;
    RetireAbsorbsPart(d.plans, d.subs, n, n, n);
  }

  lemma RetireAbsorbs(d: Db, k: nat)
    ensures Retire(HaltedRetire(d, k)) == Retire(d)
  {
    var n := |d.plans|;
    RetireAbsorbsPart(d.plans, d.subs, k, if k > n then k - n - 1 else 0, if k > 2 * n then k - 2 * n - 1 else 0);
  }

  // --------------------------------------------------------------- reconcile

  lemma {:induction false} CorrectedTierIs(tiers: map<string, Tier>, n: nat, key: string)
    requires n <= |KEYS|
    ensures var r := CorrectedTiers(tiers, n);
            && (key in r <==> key in tiers)
            && (key in tiers ==> r[key] == if Place(key) < n then tiers[key].(caps := CAPS[Place(key)]) else tiers[key])
  {
    if n == 0 {
    } else {
      CorrectedTierIs(tiers, n - 1, key);
      KeyPlace(n - 1);
    }
  }

  lemma TiersCorrectedTwice(tiers: map<string, Tier>, m: nat)
    requires m <= |KEYS|
    ensures CorrectedTiers(CorrectedTiers(tiers, m), |KEYS|) == CorrectedTiers(tiers, |KEYS|)
  {
    var once, twice := CorrectedTiers(tiers, |KEYS|), CorrectedTiers(CorrectedTiers(tiers, m), |KEYS|);
    forall key: string
      ensures (key in once <==> key in twice) && (key in once ==> once[key] == twice[key])
    {
      CorrectedTierIs(tiers, m, key);
      CorrectedTierIs(tiers, |KEYS|, key);
      CorrectedTierIs(CorrectedTiers(tiers, m), |KEYS|, key);
    }
  }

  lemma ReconcileAbsorbs(d: Db, k: nat, j: nat)
    ensures Reconcile(HaltedReconcile(d, k, j)) == Reconcile(d)
    ensures Reconcile(Reconcile(d)) == Reconcile(d)
  {
    TiersCorrectedTwice(d.tiers, if k >= |KEYS| then |KEYS| else if j > 0 then k + 1 else k);
    TiersCorrectedTwice(d.tiers, |KEYS|);
    CorrectedTwice(d.plans, k, j);
    CorrectedTwice(d.plans, |KEYS|, 0);
  }

  lemma CorrectedTwice(plans: seq<Plan>, k: nat, j: nat)
    ensures CorrectedPlans(CorrectedPlans(plans, k, j), |KEYS|, 0) == CorrectedPlans(plans, |KEYS|, 0)
  {
    forall i | 0 <= i < |plans|
      ensures CorrectedPlans(CorrectedPlans(plans, k, j), |KEYS|, 0)[i] == CorrectedPlans(plans, |KEYS|, 0)[i]
    {
      assert Corrected(plans[i]).tier == plans[i].tier && Corrected(Corrected(plans[i])) == Corrected(plans[i]);
    }
  }

  // ---------------------------------------------------------------- the runner

  lemma {:induction false} UnitRetryable(i: nat)
    requires i < 4
    ensures Retryable(Unit(i))
  {
    var u := Unit(i);
    forall d: Db ensures u.run(u.run(d)) == u.run(d) { Absorbs(i, d, 0); }
    forall d: Db, k: nat ensures u.run(u.halt(d, k)) == u.run(d) { Absorbs(i, d, k); }
  }

  lemma Absorbs(i: nat, d: Db, k: nat)
    requires i < 4
    ensures Unit(i).run(Unit(i).run(d)) == Unit(i).run(d) && Unit(i).run(Unit(i).halt(d, k)) == Unit(i).run(d)
  {
    match i
    case 0 => ProToGrowthAbsorbs(d, k);
    case 1 => SeedAbsorbs(d, k);
    case 2 =>
      RetireTwice(d);
      RetireAbsorbs(d, k);
    case 3 => ReconcileAbsorbs(d, k / (|d.plans| + 1), k % (|d.plans| + 1));
  }

  /**
   * Whatever history of deployments, each cut short anywhere, led from a ledger
   * without these units to the first finished run: the catalogue is the one an
   * undisturbed pipeline would have made, and with it all its guarantees hold.
   */
  lemma {:induction false} PipelineSurvivesCrashes(s: State<Db>, ops: seq<Op<Db>>, sched: seq<Attempt>, now: nat)
    requires PrefixDeploys(ops, Units()) && WellFormedAll(ops) && |sched| == 4
    requires forall i :: 0 <= i < 4 ==> Unit(i).name !in s.ledger
    requires RunOnce(Units(), After(ops, s), sched, now).end.Finished?
    ensures RunOnce(Units(), After(ops, s), sched, now).state.db == Pipeline(s.db)
  {
    var units := Units();
    UnitsDistinct();
    forall i | 0 <= i < 4 ensures Retryable(units[i]) {
      UnitRetryable(i);
    }
    ExactlyOnceInOrder(units, s, ops, sched, now);
    FreshPipeline(s.ledger, s.db);
  }

  function Number(i: nat): (char, char)
    requires i < 4
  {
    if i == 0 then ('1', '2') else if i == 1 then ('2', '8') else if i == 2 then ('5', '2') else ('5', '3')
  }

  lemma NameNumber(i: nat)
    requires i < 4
    ensures |UnitName(i)| > 3 && (UnitName(i)[2], UnitName(i)[3]) == Number(i)
  {
  }

  lemma NamesDiffer(i: nat, j: nat)
    requires i < j < 4
    ensures UnitName(i) != UnitName(j)
  {
    NameNumber(i);
    NameNumber(j);
  }

  lemma UnitsDistinct()
    ensures DistinctNames(Units())
  {
    forall i, j | 0 <= i < j < 4 ensures Units()[i].name != Units()[j].name {
      NamesDiffer(i, j);
    }
  }

  lemma FreshPipeline(ledger: Ledger, d: Db)
    requires forall i :: 0 <= i < 4 ==> Unit(i).name !in ledger
    ensures EachPendingOnce(Units(), ledger, d, 4) == Pipeline(d)
  {
    forall i | 0 <= i < 4 ensures IsPending(ledger, Unit(i)) {
      assert Unit(i).name !in ledger;
    }
    var units := Units();
    assert EachPendingOnce(units, ledger, d, 1) == Unit(0).run(d);
    assert EachPendingOnce(units, ledger, d, 2) == Unit(1).run(Unit(0).run(d));
    assert EachPendingOnce(units, ledger, d, 3) == Unit(2).run(Unit(1).run(Unit(0).run(d)));
    assert EachPendingOnce(units, ledger, d, 4) == Unit(3).run(Unit(2).run(Unit(1).run(Unit(0).run(d))));
  }

  lemma {:induction false} RemovedNone(plans: seq<Plan>, subs: seq<nat>)
    ensures Removed(plans, subs, 0) == plans
  {
    if |plans| > 0 {
      RemovedNone(plans[..|plans| - 1], subs);
      InitAndLast(plans);
    }
  }

  lemma {:induction false} RemovedAll(plans: seq<Plan>, subs: seq<nat>, c: nat)
    requires c >= |plans|
    ensures Removed(plans, subs, c) == Removed(plans, subs, |plans|)
  {
    if |plans| > 0 {
      RemovedAll(plans[..|plans| - 1], subs, c);
      RemovedAll(plans[..|plans| - 1], subs, |plans|);
    }
  }

  lemma RetireSpan(d: Db)
    ensures HaltedRetire(d, 0) == d && HaltedRetire(d, 3 * |d.plans| + 1).plans == Retire(d).plans
  {
    var n := |d.plans|;
    RemovedNone(d.plans, d.subs);
    assert Passed(d.plans, 0, 0) == d.plans;
    assert Passed(d.plans, 3 * n + 1, 2 * n) == Passed(d.plans, n, n);
  }

  lemma ReconcileSpan(d: Db)
    ensures HaltedReconcile(d, 0, 0) == d && HaltedReconcile(d, |KEYS|, 0).plans == Reconcile(d).plans
  {
    assert CorrectedPlans(d.plans, 0, 0) == d.plans;
  }

  /** The points a unit can stop at span it: at the first nothing has happened, and past the last update of a plan all plans are done. */
  lemma HaltsSpan(i: nat, d: Db) returns (last: nat)
    requires i < 4
    ensures Unit(i).halt(d, 0) == d
    ensures Unit(i).halt(d, last).plans == Unit(i).run(d).plans
  {
    var n := |d.plans|;
    match i {
      case 0 => last := n;
      case 1 => last := 2 * |KEYS|;
      case 2 =>
        last := 3 * n + 1;
        RetireSpan(d);
      case 3 =>
        last := |KEYS| * (n + 1);
        Quotient(last, n + 1, |KEYS|);
        Quotient(0, n + 1, 0);
        ReconcileSpan(d);
    }
  }

  lemma OneFewer(r: nat, q: nat, b: nat)
    requires r < q
    ensures r * b + b <= q * b
  {
    assert (q - 1) * b + b == q * b;
    assert r * b <= (q - 1) * b;
  }

  lemma Quotient(a: nat, b: nat, q: nat)
    requires b > 0 && a == q * b
    ensures a / b == q && a % b == 0
  {
    var r := a / b;
    assert a == r * b + a % b;
    if r < q { OneFewer(r, q, b); } else if r > q { OneFewer(q, r, b); }
  }
}
