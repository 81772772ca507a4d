/**
 * The four units that bring the ERP plan catalogue to its canonical form: pro
 * becomes growth, missing tiers and plans are seeded, legacy plans are retired,
 * capacity and prices are force-corrected.
 */
module PlanPipeline {
  import opened Prelude

  const KEYS := ["free", "starter", "growth", "business", "custom"]
  const NAMES := ["Free", "Starter", "Growth", "Business", "Custom"]
  const LEGACY_NAMES := ["Free Forever", "Starter", "Pro Starter", "Enterprise Unlimited"]

  datatype Caps = Caps(members: int, workspaces: int, total: int)

  datatype Price = Price(monthly: int, yearly: int)

  const CAPS := [Caps(5, 1, 5), Caps(25, 1, 25), Caps(100, 2, 200), Caps(500, 5, 2500), Caps(-1, -1, -1)]
  const PRICES := [Price(0, 0), Price(999, 9999), Price(2499, 24999), Price(4999, 49999), Price(0, 0)]

  datatype Plan = Plan(id: nat, name: string, tier: string, product: string, active: bool, visible: bool, custom: bool,
                       default: bool, caps: Caps, price: Price)

  datatype Tier = Tier(name: string, active: bool, caps: Caps)

  /** `subs` lists the plan of every subscription; `nextId` is an identifier nothing refers to yet. */
  datatype Db = Db(plans: seq<Plan>, tiers: map<string, Tier>, subs: seq<nat>, nextId: nat)

  predicate IsErp(p: Plan) {
    p.product != "connect"
  }

  predicate Subscribed(subs: seq<nat>, id: nat) {
    id in subs
  }

  /** The place of a canonical tier key, or the number of keys. */
  function Place(key: string): (i: nat)
    ensures i <= |KEYS| && (i < |KEYS| ==> KEYS[i] == key)
    ensures i == |KEYS| ==> key !in KEYS
  {
    if key == "free" then 0 else if key == "starter" then 1 else if key == "growth" then 2
    else if key == "business" then 3 else if key == "custom" then 4 else 5
  }

  // ----------------------------------------------------------- pro to growth

  function Renamed(p: Plan): Plan {
    if p.tier == "pro" then p.(tier := "growth") else p
  }

  function RenamedPlans(plans: seq<Plan>, n: nat): seq<Plan> {
    seq(|plans|, i requires 0 <= i < |plans| => if i < n then Renamed(plans[i]) else plans[i])
  }

  function RenamedTiers(tiers: map<string, Tier>): map<string, Tier> {
    if "pro" !in tiers then tiers
    else if "growth" in tiers then tiers - {"pro"}
    else (tiers - {"pro"})["growth" := tiers["pro"].(name := "Growth")]
  }

  function ProToGrowth(d: Db): Db {
    d.(plans := RenamedPlans(d.plans, |d.plans|), tiers := RenamedTiers(d.tiers))
  }

  // -------------------------------------------------------------------- seed

  function SeedTiers(tiers: map<string, Tier>, n: nat): map<string, Tier>
    requires n <= |KEYS|
  {
    if n == 0 then tiers
    else
      var before := SeedTiers(tiers, n - 1);
      if KEYS[n - 1] in before then before else before[KEYS[n - 1] := Tier(NAMES[n - 1], true, CAPS[n - 1])]
  }

  predicate HasErpPlan(plans: seq<Plan>, tier: string) {
    exists i :: 0 <= i < |plans| && IsErp(plans[i]) && plans[i].tier == tier
  }

  function NewPlan(id: nat, k: nat, caps: Caps): Plan
    requires k < |KEYS|
  {
    Plan(id, NAMES[k], KEYS[k], "erp", true, KEYS[k] != "custom", KEYS[k] == "custom", KEYS[k] == "free", caps, PRICES[k])
  }

  function SeedPlans(d: Db, n: nat): Db
    requires n <= |KEYS|
  {
    if n == 0 then d
    else
      var before := SeedPlans(d, n - 1);
      if HasErpPlan(before.plans, KEYS[n - 1]) || KEYS[n - 1] !in before.tiers then before
      else before.(plans := before.plans + [NewPlan(before.nextId, n - 1, before.tiers[KEYS[n - 1]].caps)],
                   nextId := before.nextId + 1)
  }

  function Seed(d: Db): Db {
    SeedPlans(d.(tiers := SeedTiers(d.tiers, |KEYS|)), |KEYS|)
  }

  // ------------------------------------------------------------------ retire

  function HideEnterprise(p: Plan): Plan {
    if IsErp(p) && p.tier == "enterprise" then p.(active := false, visible := false) else p
  }

  function FlagCustom(p: Plan): Plan {
    if IsErp(p) && p.tier == "custom" then p.(visible := false, custom := true) else p
  }

  predicate IsLegacy(p: Plan) {
    IsErp(p) && (p.tier == "pro" || p.name in LEGACY_NAMES)
  }

  /** Legacy plans go when nothing subscribes to them, else they are put out of sight. */
  function Remove(p: Plan, subs: seq<nat>): Option<Plan> {
    if !IsLegacy(p) then Some(p)
    else if Subscribed(subs, p.id) then Some(p.(active := false, visible := false))
    else None
  }

  /** The first two passes, the first `a` and `b` of the plans having gone through each. */
  function Passed(plans: seq<Plan>, a: nat, b: nat): seq<Plan> {
    seq(|plans|, i requires 0 <= i < |plans| =>
      var p := if i < a then HideEnterprise(plans[i]) else plans[i];
      if i < b then FlagCustom(p) else p)
  }

  /** The third pass, over the first `c` of the plans. */
  function Removed(plans: seq<Plan>, subs: seq<nat>, c: nat): seq<Plan> {
    if |plans| == 0 then []
    else
      var n := |plans| - 1;
      var r := if n < c then Remove(plans[n], subs) else Some(plans[n]);
      Removed(plans[..n], subs, c) + (if r.Some? then [r.value] else [])
  }

  function RetiredTiers(tiers: map<string, Tier>): map<string, Tier> {
    if "enterprise" in tiers then tiers["enterprise" := tiers["enterprise"].(active := false)] else tiers
  }

  function Retire(d: Db): Db {
    var n := |d.plans|;
    d.(plans := Removed(Passed(d.plans, n, n), d.subs, n), tiers := RetiredTiers(d.tiers))
  }

  // --------------------------------------------------------------- reconcile

  function Corrected(p: Plan): Plan {
    var k := Place(p.tier);
    if IsErp(p) && k < |KEYS| then p.(caps := CAPS[k], price := PRICES[k]) else p
  }

  /** The plans of the first `k` keys corrected, and of key `k` those among the first `j` plans. */
  function CorrectedPlans(plans: seq<Plan>, k: nat, j: nat): seq<Plan> {
    seq(|plans|, i requires 0 <= i < |plans| =>
      if Place(plans[i].tier) < k || (Place(plans[i].tier) == k && i < j) then Corrected(plans[i]) else plans[i])
  }

  function CorrectedTiers(tiers: map<string, Tier>, n: nat): map<string, Tier>
    requires n <= |KEYS|
  {
    if n == 0 then tiers
    else
      var before := CorrectedTiers(tiers, n - 1);
      var key := KEYS[n - 1];
      if key in before then before[key := before[key].(caps := CAPS[n - 1])] else before
  }

  function Reconcile(d: Db): Db {
    d.(plans := CorrectedPlans(d.plans, |KEYS|, 0), tiers := CorrectedTiers(d.tiers, |KEYS|))
  }

  function Pipeline(d: Db): Db {
    Reconcile(Retire(Seed(ProToGrowth(d))))
  }

  // ---------------------------------------------------------------- counting

  function CountIf(plans: seq<Plan>, f: Plan -> bool): nat {
    if |plans| == 0 then 0 else CountIf(plans[..|plans| - 1], f) + (if f(plans[|plans| - 1]) then 1 else 0)
  }

  lemma CountMore(plans: seq<Plan>, i: nat, f: Plan -> bool)
    requires i < |plans|
    ensures CountIf(plans[..i + 1], f) == CountIf(plans[..i], f) + (if f(plans[i]) then 1 else 0)
  {
    assert plans[..i + 1][..i] == plans[..i];
  }

  const IsPro := (p: Plan) => p.tier == "pro"
  const IsEnterprise := (p: Plan) => IsErp(p) && p.tier == "enterprise"
  const IsCustom := (p: Plan) => IsErp(p) && p.tier == "custom"
  const IsLegacyPlan := (p: Plan) => IsLegacy(p)

  lemma {:induction false} PassedKeepsLegacy(plans: seq<Plan>, a: nat, b: nat)
    ensures CountIf(Passed(plans, a, b), IsLegacyPlan) == CountIf(plans, IsLegacyPlan)
  {
    if |plans| == 0 {
    } else {
      var n := |plans| - 1;
      PassedKeepsLegacy(plans[..n], a, b);
      assert Passed(plans, a, b)[..n] == Passed(plans[..n], a, b);
    }
  }

  /** How many plans differ between the two catalogues. */
  function CountChanged(before: seq<Plan>, after: seq<Plan>): nat
    requires |before| == |after|
  {
    if |before| == 0 then 0
    else
      var n := |before| - 1;
      CountChanged(before[..n], after[..n]) + (if before[n] != after[n] then 1 else 0)
  }

  lemma {:induction false} CountNone(plans: seq<Plan>)
    ensures CountChanged(plans, plans) == 0
  {
    if |plans| > 0 { CountNone(plans[..|plans| - 1]); }
  }

  lemma {:induction false} ChangedOn(before: seq<Plan>, after: seq<Plan>, i: nat, p: Plan)
    requires |before| == |after| && i < |after| && after[i] == before[i]
    ensures CountChanged(before, after[i := p]) == CountChanged(before, after) + (if p != before[i] then 1 else 0)
  {
    var n := |before| - 1;
    if i < n {
      assert after[i := p][..n] == after[..n][i := p];
      ChangedOn(before[..n], after[..n], i, p);
    } else {
      assert after[i := p][..n] == after[..n];
    }
  }

  lemma CorrectedStep(plans: seq<Plan>, k: nat, i: nat)
    requires k < |KEYS| && i < |plans|
    ensures var now, p := CorrectedPlans(plans, k, i), plans[i];
            && now[i].product == p.product && now[i].tier == p.tier
            && if IsErp(p) && p.tier == KEYS[k]
               then now[i] == p && CorrectedPlans(plans, k, i + 1) == now[i := p.(caps := CAPS[k], price := PRICES[k])]
               else CorrectedPlans(plans, k, i + 1) == now
  {
    KeyPlace(k);
    var now, next := CorrectedPlans(plans, k, i), CorrectedPlans(plans, k, i + 1);
    assert forall j :: 0 <= j < |plans| && j != i ==> next[j] == now[j];
    if IsErp(plans[i]) && plans[i].tier == KEYS[k] {
      assert next == now[i := plans[i].(caps := CAPS[k], price := PRICES[k])];
    } else {
      assert next == now;
    }
  }

  /** The tiers that are not as they were. */
  function Moved(before: map<string, Tier>, after: map<string, Tier>): set<string> {
    set key | key in after && key in before && after[key] != before[key]
  }

  lemma {:induction false} CorrectedLater(tiers: map<string, Tier>, n: nat)
    requires n <= |KEYS|
    ensures var r := CorrectedTiers(tiers, n);
            r.Keys == tiers.Keys && forall key :: key in tiers && Place(key) >= n ==> r[key] == tiers[key]
  {
    if n > 0 {
      CorrectedLater(tiers, n - 1);
      KeyPlace(n - 1);
    }
  }

  lemma TierMoves(tiers: map<string, Tier>, n: nat)
    requires n < |KEYS|
    ensures var before, after := CorrectedTiers(tiers, n), CorrectedTiers(tiers, n + 1);
            |Moved(tiers, after)| == |Moved(tiers, before)| + (if after != before then 1 else 0)
  {
    var key, before, after := KEYS[n], CorrectedTiers(tiers, n), CorrectedTiers(tiers, n + 1);
    CorrectedLater(tiers, n);
    KeyPlace(n);
    if key in tiers && tiers[key].caps != CAPS[n] {
      assert after[key] != before[key];
      assert Moved(tiers, after) == Moved(tiers, before) + {key};
    } else {
      assert after == before;
    }
  }

  // ------------------------------------------------------------- the services

  class Store {
    var plans: seq<Plan>
    var tiers: map<string, Tier>
    const subs: seq<nat>
    var nextId: nat

    constructor (d: Db)
      ensures Contents() == d
    {
      plans, tiers, subs, nextId := d.plans, d.tiers, d.subs, d.nextId;
    }

    function Contents(): Db
      reads this
    {
      Db(plans, tiers, subs, nextId)
    }

    method RunProToGrowth() returns (plansRenamed: nat, tierRenamed: bool, tierDeleted: bool)
      modifies this
      ensures Contents() == ProToGrowth(old(Contents()))
      ensures tierDeleted <==> "pro" in old(tiers) && "growth" in old(tiers)
      ensures tierRenamed <==> "pro" in old(tiers) && "growth" !in old(tiers)
      ensures plansRenamed == CountIf(old(plans), IsPro)
    {
      ghost var found := plans;
      plansRenamed, tierRenamed, tierDeleted := 0, false, false;
      for i := 0 to |plans|
        invariant plans == RenamedPlans(found, i) && tiers == old(tiers) && nextId == old(nextId)
        invariant plansRenamed == CountIf(found[..i], IsPro)
      {
        CountMore(found, i, IsPro);
        if plans[i].tier == "pro" {
          plans := plans[i := plans[i].(tier := "growth")];
          plansRenamed := plansRenamed + 1;
        }
      }
      assert found[..|found|] == found;
      if "pro" in tiers {
        if "growth" in tiers {
          tiers := tiers - {"pro"};
          tierDeleted := true;
        } else {
          tiers := (tiers - {"pro"})["growth" := tiers["pro"].(name := "Growth")];
          tierRenamed := true;
        }
      }
    }

    method SeedTierDocs() returns (inserted: nat)
      modifies this`tiers
      ensures tiers == SeedTiers(old(tiers), |KEYS|) && |tiers| == |old(tiers)| + inserted
    {
      inserted := 0;
      for k := 0 to |KEYS|
        invariant tiers == SeedTiers(old(tiers), k) && |tiers| == |old(tiers)| + inserted
      {
        if KEYS[k] !in tiers {
          tiers := tiers[KEYS[k] := Tier(NAMES[k], true, CAPS[k])];
          inserted := inserted + 1;
        }
      }
    }

    method SeedPlanDocs() returns (inserted: nat)
      modifies this`plans, this`nextId
      ensures Contents() == SeedPlans(old(Contents()), |KEYS|)
      ensures |plans| == |old(plans)| + inserted && nextId == old(nextId) + inserted
    {
      inserted := 0;
      for k := 0 to |KEYS|
        invariant Contents() == SeedPlans(old(Contents()), k)
        invariant |plans| == |old(plans)| + inserted && nextId == old(nextId) + inserted
      {
        if !HasErpPlan(plans, KEYS[k]) && KEYS[k] in tiers {
          plans := plans + [NewPlan(nextId, k, tiers[KEYS[k]].caps)];
          nextId, inserted := nextId + 1, inserted + 1;
        }
      }
    }

    method RunSeed() returns (tiersInserted: nat, plansInserted: nat)
      modifies this
      ensures Contents() == Seed(old(Contents()))
      ensures |plans| == |old(plans)| + plansInserted && nextId == old(nextId) + plansInserted
      ensures |tiers| == |old(tiers)| + tiersInserted
    {
      tiersInserted := SeedTierDocs();
      plansInserted := SeedPlanDocs();
    }

    /** Step 1 of the retirement: enterprise plans and their tier out of sight. */
    method HideEnterprises() returns (retired: nat)
      modifies this
      ensures plans == Passed(old(plans), |old(plans)|, 0) && tiers == RetiredTiers(old(tiers)) && nextId == old(nextId)
      ensures retired == CountIf(old(plans), IsEnterprise)
    {
      ghost var found := plans;
      retired := 0;
      for i := 0 to |plans|
        invariant plans == Passed(found, i, 0) && tiers == old(tiers) && nextId == old(nextId)
        invariant retired == CountIf(found[..i], IsEnterprise)
      {
        CountMore(found, i, IsEnterprise);
        if IsErp(plans[i]) && plans[i].tier == "enterprise" {
          plans := plans[i := plans[i].(active := false, visible := false)];
          retired := retired + 1;
        }
      }
      assert found[..|found|] == found;
      if "enterprise" in tiers {
        tiers := tiers["enterprise" := tiers["enterprise"].(active := false)];
      }
    }

    /** Step 2: custom plans hidden and flagged. */
    method FlagCustoms(ghost found: seq<Plan>) returns (flagged: nat)
      requires plans == Passed(found, |found|, 0)
      modifies this`plans
      ensures plans == Passed(found, |found|, |found|)
      ensures flagged == CountIf(found, IsCustom)
    {
      flagged := 0;
      for i := 0 to |plans|
        invariant plans == Passed(found, |found|, i)
        invariant flagged == CountIf(found[..i], IsCustom)
      {
        CountMore(found, i, IsCustom);
        if IsErp(plans[i]) && plans[i].tier == "custom" {
          plans := plans[i := plans[i].(visible := false, custom := true)];
          flagged := flagged + 1;
        }
      }
      assert found[..|found|] == found;
    }

    /** Step 3: legacy plans deleted, or put out of sight when something subscribes to them. */
    method RemoveLegacy() returns (deleted: nat, deactivated: nat)
      modifies this`plans
      ensures plans == Removed(old(plans), subs, |old(plans)|)
      ensures |plans| + deleted == |old(plans)| && deleted + deactivated == CountIf(old(plans), IsLegacyPlan)
    {
      ghost var passed := plans;
      var kept: seq<Plan> := [];
      deleted, deactivated := 0, 0;
      for i := 0 to |plans|
        invariant plans == passed && kept == Removed(passed[..i], subs, |passed|) && |kept| + deleted == i
        invariant deleted + deactivated == CountIf(passed[..i], IsLegacyPlan)
      {
        CountMore(passed, i, IsLegacyPlan);
        assert passed[..i + 1][..i] == passed[..i];
        var p := plans[i];
        if !IsLegacy(p) {
          kept := kept + [p];
        } else if Subscribed(subs, p.id) {
          kept, deactivated := kept + [p.(active := false, visible := false)], deactivated + 1;
        } else {
          deleted := deleted + 1;
        }
      }
      assert passed[..|passed|] == passed;
      plans := kept;
    }

    method RunRetire() returns (enterpriseRetired: nat, customFlagged: nat, deleted: nat, deactivated: nat)
      modifies this
      ensures Contents() == Retire(old(Contents()))
      ensures |plans| + deleted == |old(plans)| && deleted + deactivated == CountIf(old(plans), IsLegacyPlan)
      ensures enterpriseRetired == CountIf(old(plans), IsEnterprise) && customFlagged == CountIf(old(plans), IsCustom)
    {
      ghost var found := plans;
      enterpriseRetired := HideEnterprises();
      customFlagged := FlagCustoms(found);
      PassedKeepsLegacy(found, |found|, |found|);
      deleted, deactivated := RemoveLegacy();
    }

    /** One tier document; `changed` unless it had these caps. */
    method CorrectTier(k: nat) returns (changed: bool)
      requires k < |KEYS|
      modifies this`tiers
      ensures tiers == if KEYS[k] in old(tiers) then old(tiers)[KEYS[k] := old(tiers)[KEYS[k]].(caps := CAPS[k])] else old(tiers)
      ensures changed <==> tiers != old(tiers)
    {
      changed := KEYS[k] in tiers && tiers[KEYS[k]].caps != CAPS[k];
      if KEYS[k] in tiers {
        tiers := tiers[KEYS[k] := tiers[KEYS[k]].(caps := CAPS[k])];
      }
    }

    /** The plans of one tier, counting those that had another capacity or price. */
    method CorrectPlansOf(k: nat, ghost found: seq<Plan>) returns (changed: nat)
      requires k < |KEYS| && plans == CorrectedPlans(found, k, 0)
      modifies this`plans
      ensures plans == CorrectedPlans(found, k + 1, 0)
      ensures CountChanged(found, plans) == CountChanged(found, old(plans)) + changed
    {
      changed := 0;
      for i := 0 to |plans|
        invariant plans == CorrectedPlans(found, k, i)
        invariant CountChanged(found, plans) == CountChanged(found, old(plans)) + changed
      {
        CorrectedStep(found, k, i);
        if IsErp(plans[i]) && plans[i].tier == KEYS[k] {
          var p := plans[i].(caps := CAPS[k], price := PRICES[k]);
          ChangedOn(found, plans, i, p);
          if p != plans[i] { changed := changed + 1; }
          plans := plans[i := p];
        }
      }
      assert plans == CorrectedPlans(found, k + 1, 0);
    }

    method RunReconcile() returns (tiersReconciled: nat, plansReconciled: nat)
      modifies this
      ensures Contents() == Reconcile(old(Contents()))
      ensures plansReconciled == CountChanged(old(plans), plans)
      ensures tiersReconciled == |Moved(old(tiers), tiers)|
    {
      ghost var found := plans;
      tiersReconciled, plansReconciled := 0, 0;
      CountNone(found);
      assert Moved(old(tiers), tiers) == {};
      for k := 0 to |KEYS|
        invariant plans == CorrectedPlans(found, k, 0) && tiers == CorrectedTiers(old(tiers), k) && nextId == old(nextId)
        invariant plansReconciled == CountChanged(found, plans)
        invariant tiersReconciled == |Moved(old(tiers), tiers)|
      {
        TierMoves(old(tiers), k);
        var tierChanged := CorrectTier(k);
        var changed := CorrectPlansOf(k, found);
        tiersReconciled := tiersReconciled + (if tierChanged then 1 else 0);
        plansReconciled := plansReconciled + changed;
      }
    }
  }

  lemma KeyPlace(k: nat)
    requires k < |KEYS|
    ensures Place(KEYS[k]) == k
  {
  }

  // -------------------------------------------------------- fate of one plan

  /** What retirement and correction make of a plan. */
  function Fate(p: Plan, subs: seq<nat>): Option<Plan> {
    var r := Remove(FlagCustom(HideEnterprise(p)), subs);
    if r.Some? then Some(Corrected(r.value)) else None
  }

  lemma {:induction false} RemovedIs(plans: seq<Plan>, subs: seq<nat>, c: nat, q: Plan)
    requires c >= |plans|
    ensures q in Removed(plans, subs, c) <==> exists i :: 0 <= i < |plans| && Remove(plans[i], subs) == Some(q)
  {
    if |plans| == 0 {
    } else {
      var n := |plans| - 1;
      RemovedIs(plans[..n], subs, c, q);
      assert forall i :: 0 <= i < n ==> plans[..n][i] == plans[i];
    }
  }

  /** Retirement leaves the plan in the catalogue. */
  predicate Spared(p: Plan, subs: seq<nat>) {
    IsLegacy(p) ==> Subscribed(subs, p.id)
  }

  predicate SamePlan(p: Plan, q: Plan) {
    q.id == p.id && q.tier == p.tier && q.product == p.product
  }

  lemma FateFacts(p: Plan, subs: seq<nat>)
    ensures Fate(p, subs).Some? <==> Spared(p, subs)
    ensures Fate(p, subs).Some? ==> SamePlan(p, Fate(p, subs).value)
  {
    var q := FlagCustom(HideEnterprise(p));
    assert SamePlan(p, q) && q.name == p.name;
  }

  lemma RenamedFacts(p: Plan, subs: seq<nat>)
    ensures SamePlan(Renamed(p).(tier := p.tier), p) && Renamed(p).name == p.name && Renamed(p).tier != "pro"
    ensures Spared(Renamed(p), subs) <==> !(IsErp(p) && p.name in LEGACY_NAMES && !Subscribed(subs, p.id))
  {
  }

  function AfterSeed(d: Db): seq<Plan> {
    Seed(ProToGrowth(d)).plans
  }

  /** Everything from the first retirement pass to the last correction. */
  function Finished(mid: seq<Plan>, subs: seq<nat>): seq<Plan> {
    CorrectedPlans(Removed(Passed(mid, |mid|, |mid|), subs, |mid|), |KEYS|, 0)
  }

  lemma FinishedFrom(mid: seq<Plan>, subs: seq<nat>, j: nat) returns (i: nat)
    requires j < |Finished(mid, subs)|
    ensures i < |mid| && Fate(mid[i], subs) == Some(Finished(mid, subs)[j])
  {
    var n := |mid|;
    var passed := Passed(mid, n, n);
    var retired := Removed(passed, subs, n);
    RemovedIs(passed, subs, n, retired[j]);
    i :| 0 <= i < n && Remove(passed[i], subs) == Some(retired[j]);
  }

  lemma FinishedTo(mid: seq<Plan>, subs: seq<nat>, i: nat) returns (j: nat)
    requires i < |mid| && Fate(mid[i], subs).Some?
    ensures j < |Finished(mid, subs)| && Finished(mid, subs)[j] == Fate(mid[i], subs).value
  {
    var n := |mid|;
    var passed := Passed(mid, n, n);
    var retired, r := Removed(passed, subs, n), Remove(passed[i], subs).value;
    RemovedIs(passed, subs, n, r);
    j :| 0 <= j < |retired| && retired[j] == r;
  }

  lemma PipelineFinishes(d: Db)
    ensures Pipeline(d).plans == Finished(AfterSeed(d), d.subs)
  {
    SeedKeepsSubs(ProToGrowth(d).(tiers := SeedTiers(ProToGrowth(d).tiers, |KEYS|)), |KEYS|);
  }

  /** The plans of the finished pipeline are what became of the plans it had after seeding. */
  lemma PipelineIsFate(d: Db, q: Plan)
    ensures q in Pipeline(d).plans <==> exists i :: 0 <= i < |AfterSeed(d)| && Fate(AfterSeed(d)[i], d.subs) == Some(q)
  {
    var mid, final := AfterSeed(d), Pipeline(d).plans;
    PipelineFinishes(d);
    if q in final {
      var j :| 0 <= j < |final| && final[j] == q;
      var i := FinishedFrom(mid, d.subs, j);
    }
    if i :| 0 <= i < |mid| && Fate(mid[i], d.subs) == Some(q) {
      var j := FinishedTo(mid, d.subs, i);
    }
  }

  /** The final catalogue is the spared part of the seeded one, plan by plan. */
  ghost predicate SparedPart(mid: seq<Plan>, spared: Plan -> bool, final: seq<Plan>) {
    && (forall j :: 0 <= j < |final| ==> Came(mid, spared, final[j]))
    && (forall i :: 0 <= i < |mid| && spared(mid[i]) ==> Stays(mid[i], final))
  }

  lemma SparedSurvive(d: Db)
    ensures SparedPart(AfterSeed(d), p => Spared(p, d.subs), Pipeline(d).plans)
  {
    var mid, final := AfterSeed(d), Pipeline(d).plans;
    var spared := p => Spared(p, d.subs);
    forall j | 0 <= j < |final| ensures Came(mid, spared, final[j]) {
      PipelineIsFate(d, final[j]);
      var i :| 0 <= i < |mid| && Fate(mid[i], d.subs) == Some(final[j]);
      FateFacts(mid[i], d.subs);
      assert spared(mid[i]) && SamePlan(mid[i], final[j]);
    }
    forall i | 0 <= i < |mid| && spared(mid[i]) ensures Stays(mid[i], final) {
      FateFacts(mid[i], d.subs);
      var q := Fate(mid[i], d.subs).value;
      PipelineIsFate(d, q);
      var j :| 0 <= j < |final| && final[j] == q;
    }
  }

  ghost predicate Came(mid: seq<Plan>, spared: Plan -> bool, q: Plan) {
    exists i :: 0 <= i < |mid| && spared(mid[i]) && SamePlan(mid[i], q)
  }

  ghost predicate Stays(p: Plan, final: seq<Plan>) {
    exists j :: 0 <= j < |final| && SamePlan(p, final[j])
  }

  lemma {:induction false} SeedKeepsSubs(d: Db, n: nat)
    requires n <= |KEYS|
    ensures SeedPlans(d, n).subs == d.subs && SeedPlans(d, n).tiers == d.tiers
  {
    if n == 0 {
    } else {
      SeedKeepsSubs(d, n - 1);
    }
  }

  /** New plans, under fresh identifiers, for the first `n` tiers that had none. */
  ghost predicate Seeded(d: Db, news: seq<Plan>, n: nat)
    requires n <= |KEYS|
  {
    && (forall j :: 0 <= j < |news| ==> news[j].id == d.nextId + j && IsNew(d, news[j], n))
    && (forall k :: 0 <= k < n && !HasErpPlan(d.plans, KEYS[k]) ==> HasErpPlan(news, KEYS[k]))
  }

  /** What seeding adds: for each tier without an ERP plan one new plan, under fresh identifiers; nothing else changes. */
  lemma {:induction false} SeedAdds(d: Db, n: nat) returns (news: seq<Plan>)
    requires n <= |KEYS| && forall k :: 0 <= k < n ==> KEYS[k] in d.tiers
    ensures SeedPlans(d, n).plans == d.plans + news && SeedPlans(d, n).nextId == d.nextId + |news|
    ensures Seeded(d, news, n)
  {
    if n == 0 {
      return [];
    }
    var before := SeedPlans(d, n - 1);
    news := SeedAdds(d, n - 1);
    SeedKeepsSubs(d, n - 1);
    if HasErpPlan(before.plans, KEYS[n - 1]) {
      CoveredAlready(d, news, n);
    } else {
      var p := NewPlan(d.nextId + |news|, n - 1, d.tiers[KEYS[n - 1]].caps);
      OneMoreNew(d, news, n, p);
      assert SeedPlans(d, n).plans == before.plans + [p];
      Regroup(d.plans, news, [p]);
      news := news + [p];
    }
  }

  lemma CoveredAlready(d: Db, news: seq<Plan>, n: nat)
    requires 0 < n <= |KEYS| && Seeded(d, news, n - 1) && HasErpPlan(d.plans + news, KEYS[n - 1])
    ensures Seeded(d, news, n)
  {
    ErpPlanSplit(d.plans, news, KEYS[n - 1]);
    NewMonotone(d, news, n);
  }

  lemma OneMoreNew(d: Db, news: seq<Plan>, n: nat, p: Plan)
    requires 0 < n <= |KEYS| && Seeded(d, news, n - 1) && KEYS[n - 1] in d.tiers && !HasErpPlan(d.plans + news, KEYS[n - 1])
    requires p == NewPlan(d.nextId + |news|, n - 1, d.tiers[KEYS[n - 1]].caps)
    ensures Seeded(d, news + [p], n)
  {
    ErpPlanSplit(d.plans, news, KEYS[n - 1]);
    NewMonotone(d, news, n);
    assert IsNew(d, p, n);
    MoreCovered(news, p);
  }

  lemma NewMonotone(d: Db, news: seq<Plan>, n: nat)
    requires 0 < n <= |KEYS| && forall j :: 0 <= j < |news| ==> IsNew(d, news[j], n - 1)
    ensures forall j :: 0 <= j < |news| ==> IsNew(d, news[j], n)
  {
  }

  lemma MoreCovered(news: seq<Plan>, p: Plan)
    ensures forall key :: HasErpPlan(news, key) ==> HasErpPlan(news + [p], key)
    ensures IsErp(p) ==> HasErpPlan(news + [p], p.tier)
  {
    forall key | HasErpPlan(news, key) ensures HasErpPlan(news + [p], key) { ErpPlanSplit(news, [p], key); }
    assert (news + [p])[|news|] == p;
  }

  ghost predicate IsNew(d: Db, p: Plan, n: nat)
    requires n <= |KEYS|
  {
    exists k :: 0 <= k < n && KEYS[k] in d.tiers && p == NewPlan(p.id, k, d.tiers[KEYS[k]].caps) && !HasErpPlan(d.plans, KEYS[k])
  }

  lemma ErpPlanSplit(a: seq<Plan>, b: seq<Plan>, tier: string)
    ensures HasErpPlan(a + b, tier) <==> HasErpPlan(a, tier) || HasErpPlan(b, tier)
  {
    if HasErpPlan(a, tier) {
      var i :| 0 <= i < |a| && IsErp(a[i]) && a[i].tier == tier;
      assert (a + b)[i] == a[i];
    }
    if HasErpPlan(b, tier) {
      var i :| 0 <= i < |b| && IsErp(b[i]) && b[i].tier == tier;
      assert (a + b)[|a| + i] == b[i];
    }
  }

  lemma {:induction false} TiersSeeded(tiers: map<string, Tier>, n: nat)
    requires n <= |KEYS|
    ensures forall k :: 0 <= k < n ==> KEYS[k] in SeedTiers(tiers, n)
    ensures forall key :: key in tiers ==> key in SeedTiers(tiers, n) && SeedTiers(tiers, n)[key] == tiers[key]
    ensures forall key :: key in SeedTiers(tiers, n) ==> key in tiers || Place(key) < n
  {
    if n == 0 {
    } else {
      TiersSeeded(tiers, n - 1);
      KeyPlace(n - 1);
    }
  }

  /** The catalogue after pro became growth and the seed ran. */
  lemma Seeding(d: Db) returns (news: seq<Plan>)
    ensures AfterSeed(d) == RenamedPlans(d.plans, |d.plans|) + news
    ensures forall j :: 0 <= j < |news| ==> news[j].id == d.nextId + j && NewIn(d, news[j])
    ensures forall k :: 0 <= k < |KEYS| && !HasErpPlan(RenamedPlans(d.plans, |d.plans|), KEYS[k]) ==> HasErpPlan(news, KEYS[k])
  {
    var e := ProToGrowth(d);
    var f := e.(tiers := SeedTiers(e.tiers, |KEYS|));
    TiersSeeded(e.tiers, |KEYS|);
    news := SeedAdds(f, |KEYS|);
    forall j | 0 <= j < |news| ensures NewIn(d, news[j]) {
      assert IsNew(f, news[j], |KEYS|);
      var k :| 0 <= k < |KEYS| && KEYS[k] in f.tiers && news[j] == NewPlan(news[j].id, k, f.tiers[KEYS[k]].caps) && !HasErpPlan(f.plans, KEYS[k]);
      assert NewFor(d, news[j], k);
    }
  }

  ghost predicate NewFor(d: Db, p: Plan, k: nat)
    requires k < |KEYS|
  {
    p == NewPlan(p.id, k, p.caps) && !HasErpPlan(RenamedPlans(d.plans, |d.plans|), KEYS[k])
  }

  ghost predicate NewIn(d: Db, p: Plan) {
    exists k :: 0 <= k < |KEYS| && NewFor(d, p, k)
  }

  // ------------------------------------------------------------- main results

  ghost predicate WellKeyed(d: Db) {
    && (forall i, j :: 0 <= i < j < |d.plans| ==> d.plans[i].id != d.plans[j].id)
    && (forall i :: 0 <= i < |d.plans| ==> d.plans[i].id < d.nextId)
    && (forall s :: s in d.subs ==> s < d.nextId)
  }

  ghost predicate HasPlan(plans: seq<Plan>, id: nat) {
    exists i :: 0 <= i < |plans| && plans[i].id == id
  }

  /** The owner's price list: capacity and price of each tier on offer. */
  ghost predicate Canonical(tier: string, caps: Caps, price: Price) {
    || (tier == "free" && caps == Caps(5, 1, 5) && price == Price(0, 0))
    || (tier == "starter" && caps == Caps(25, 1, 25) && price == Price(999, 9999))
    || (tier == "growth" && caps == Caps(100, 2, 200) && price == Price(2499, 24999))
    || (tier == "business" && caps == Caps(500, 5, 2500) && price == Price(4999, 49999))
    || (tier == "custom" && caps == Caps(-1, -1, -1) && price == Price(0, 0))
  }

  ghost predicate OnOffer(tier: string) {
    tier == "free" || tier == "starter" || tier == "growth" || tier == "business" || tier == "custom"
  }

  lemma FateCanonical(p: Plan, subs: seq<nat>)
    requires Fate(p, subs).Some? && IsErp(p)
    ensures var q := Fate(p, subs).value;
            && IsErp(q)
            && (q.tier == "enterprise" ==> !q.active && !q.visible)
            && (q.tier == "custom" ==> q.custom && !q.visible)
            && (q.tier == "pro" || q.name in ["Free Forever", "Starter", "Pro Starter", "Enterprise Unlimited"] ==>
                  !q.active && !q.visible && q.id in subs)
            && (OnOffer(q.tier) ==> Canonical(q.tier, q.caps, q.price))
  {
    CorrectedIs(Remove(FlagCustom(HideEnterprise(p)), subs).value);
  }

  /** No retired or custom ERP plan is for sale, and every surviving plan of a canonical tier has the canonical caps and prices. */
  lemma {:induction false} CatalogueIsCanonical(d: Db, q: Plan)
    requires q in Pipeline(d).plans && IsErp(q)
    ensures q.tier == "enterprise" ==> !q.active && !q.visible
    ensures q.tier == "custom" ==> q.custom && !q.visible
    ensures q.tier == "pro" || q.name in ["Free Forever", "Starter", "Pro Starter", "Enterprise Unlimited"] ==>
              !q.active && !q.visible && q.id in d.subs
    ensures OnOffer(q.tier) ==> Canonical(q.tier, q.caps, q.price)
  {
    PipelineIsFate(d, q);
    var i :| 0 <= i < |AfterSeed(d)| && Fate(AfterSeed(d)[i], d.subs) == Some(q);
    FateFacts(AfterSeed(d)[i], d.subs);
    FateCanonical(AfterSeed(d)[i], d.subs);
  }

  /** The tiers: every canonical one exists with the canonical caps, pro is gone, enterprise is inactive. */
  lemma {:induction false} TiersAreCanonical(d: Db)
    ensures var tiers := Pipeline(d).tiers;
            && (forall key :: OnOffer(key) ==> key in tiers && exists price :: Canonical(key, tiers[key].caps, price))
            && "pro" !in tiers
            && ("enterprise" in tiers ==> !tiers["enterprise"].active)
  {
    var e := ProToGrowth(d);
    var f := e.(tiers := SeedTiers(e.tiers, |KEYS|));
    TiersSeeded(e.tiers, |KEYS|);
    SeedKeepsSubs(f, |KEYS|);
    TiersCorrected(RetiredTiers(f.tiers), |KEYS|);
    var tiers := Pipeline(d).tiers;
    forall key | OnOffer(key) ensures key in tiers && exists price :: Canonical(key, tiers[key].caps, price) {
      var k := Place(key);
      assert KEYS[k] in tiers && tiers[KEYS[k]].caps == CAPS[k];
      assert Canonical(key, CAPS[k], PRICES[k]);
    }
  }

  lemma {:induction false} TiersCorrected(tiers: map<string, Tier>, n: nat)
    requires n <= |KEYS|
    ensures var r := CorrectedTiers(tiers, n);
            && r.Keys == tiers.Keys
            && (forall key :: key in tiers ==> r[key].active == tiers[key].active)
            && (forall k :: 0 <= k < n && KEYS[k] in tiers ==> r[KEYS[k]].caps == CAPS[k])
  {
    if n == 0 {
    } else {
      TiersCorrected(tiers, n - 1);
      forall k | 0 <= k < n - 1 ensures KEYS[k] != KEYS[n - 1] { KeyPlace(k); KeyPlace(n - 1); }
    }
  }

  /**
   * Exactly which plans the pipeline deletes: ERP plans with a legacy name that
   * nothing subscribes to, of whatever tier, enterprise included.
   */
  lemma {:induction false} DeletedIff(d: Db, i: nat)
    requires WellKeyed(d) && i < |d.plans|
    ensures !HasPlan(Pipeline(d).plans, d.plans[i].id) <==>
            IsErp(d.plans[i]) && d.plans[i].name in LEGACY_NAMES && !Subscribed(d.subs, d.plans[i].id)
  {
    var news := Seeding(d);
    SparedSurvive(d);
    var renamed := RenamedPlans(d.plans, |d.plans|);
    assert forall j :: 0 <= j < |d.plans| ==> renamed[j].id == d.plans[j].id;
    RenamedFacts(d.plans[i], d.subs);
    StaysIff(renamed, news, Pipeline(d).plans, p => Spared(p, d.subs), i);
  }

  lemma SameId(renamed: seq<Plan>, news: seq<Plan>, i: nat, m: nat)
    requires i < |renamed| && m < |renamed + news| && (renamed + news)[m].id == renamed[i].id
    requires forall j, k :: 0 <= j < k < |renamed| ==> renamed[j].id != renamed[k].id
    requires forall j :: 0 <= j < |news| ==> news[j].id != renamed[i].id
    ensures m == i
  {
  }

  lemma StaysIff(renamed: seq<Plan>, news: seq<Plan>, final: seq<Plan>, spared: Plan -> bool, i: nat)
    requires SparedPart(renamed + news, spared, final) && i < |renamed|
    requires forall j, k :: 0 <= j < k < |renamed| ==> renamed[j].id != renamed[k].id
    requires forall j :: 0 <= j < |news| ==> news[j].id != renamed[i].id
    ensures HasPlan(final, renamed[i].id) <==> spared(renamed[i])
  {
    var mid := renamed + news;
    assert mid[i] == renamed[i];
    if HasPlan(final, renamed[i].id) {
      var j :| 0 <= j < |final| && final[j].id == renamed[i].id;
      assert Came(mid, spared, final[j]);
      var m :| 0 <= m < |mid| && spared(mid[m]) && SamePlan(mid[m], final[j]);
      SameId(renamed, news, i, m);
    }
    if spared(renamed[i]) {
      assert Stays(mid[i], final);
    }
  }

  /** Every subscription still points at an existing plan. */
  lemma {:induction false} SubscriptionsResolve(d: Db, s: nat)
    requires WellKeyed(d) && s in d.subs && HasPlan(d.plans, s)
    ensures HasPlan(Pipeline(d).plans, s)
  {
    var i :| 0 <= i < |d.plans| && d.plans[i].id == s;
    DeletedIff(d, i);
  }

  lemma OrdinaryFate(p: Plan, subs: seq<nat>)
    requires p.tier !in ["enterprise", "custom", "pro"]
    requires p.name !in ["Free Forever", "Starter", "Pro Starter", "Enterprise Unlimited"]
    ensures Fate(p, subs) == Some(Corrected(p))
  {
  }

  /** A correction moves capacity and price at most, and those to the list. */
  lemma CorrectedIs(p: Plan)
    ensures var q := Corrected(p);
            && q == Plan(p.id, p.name, p.tier, p.product, p.active, p.visible, p.custom, p.default, q.caps, q.price)
            && if p.product != "connect" && OnOffer(p.tier) then Canonical(p.tier, q.caps, q.price) else q == p
  {
    assert Place(p.tier) < |KEYS| ==> Canonical(p.tier, CAPS[Place(p.tier)], PRICES[Place(p.tier)]);
  }

  /**
   * What an undeleted ERP plan of no special kind ends as: itself, pro turned
   * growth, at the canonical caps and price of its tier if that is on offer.
   */
  lemma {:induction false} OrdinaryPlanKept(d: Db, i: nat) returns (q: Plan)
    requires i < |d.plans| && d.plans[i].product != "connect"
    requires d.plans[i].tier !in ["enterprise", "custom"]
    requires d.plans[i].name !in ["Free Forever", "Starter", "Pro Starter", "Enterprise Unlimited"]
    ensures var p := d.plans[i];
            var tier := if p.tier == "pro" then "growth" else p.tier;
            && q in Pipeline(d).plans
            && q == Plan(p.id, p.name, tier, p.product, p.active, p.visible, p.custom, p.default, q.caps, q.price)
            && (if OnOffer(tier) then Canonical(tier, q.caps, q.price) else q.caps == p.caps && q.price == p.price)
  {
    var news := Seeding(d);
    q := Corrected(Renamed(d.plans[i]));
    assert AfterSeed(d)[i] == Renamed(d.plans[i]);
    OrdinaryFate(Renamed(d.plans[i]), d.subs);
    PipelineIsFate(d, q);
    CorrectedIs(Renamed(d.plans[i]));
  }

  /** A Connect plan keeps everything but a pro tier label. */
  lemma {:induction false} ConnectKept(d: Db, i: nat)
    requires i < |d.plans| && d.plans[i].product == "connect"
    ensures var p := d.plans[i];
            Plan(p.id, p.name, if p.tier == "pro" then "growth" else p.tier, "connect", p.active, p.visible, p.custom,
                 p.default, p.caps, p.price) in Pipeline(d).plans
  {
    var news := Seeding(d);
    assert AfterSeed(d)[i] == Renamed(d.plans[i]);
    assert Fate(AfterSeed(d)[i], d.subs) == Some(Renamed(d.plans[i]));
    PipelineIsFate(d, Renamed(d.plans[i]));
  }

  /** An ERP plan sells tier `key` (pro counting as growth) and retirement will not delete it. */
  ghost predicate Keeps(d: Db, i: nat, key: string)
    requires i < |d.plans|
  {
    IsErp(d.plans[i]) && Renamed(d.plans[i]).tier == key &&
    !(d.plans[i].name in LEGACY_NAMES && !Subscribed(d.subs, d.plans[i].id))
  }

  /**
   * Exactly which canonical tiers still have an ERP plan at the end: those with
   * a plan that retirement spares, and of those that had no plan at all every
   * one but starter, whose freshly seeded plan carries a legacy name.
   */
  lemma {:induction false} TierCoveredIff(d: Db, k: nat)
    requires WellKeyed(d) && k < |KEYS|
    ensures HasErpPlan(Pipeline(d).plans, KEYS[k]) <==>
            if exists i :: 0 <= i < |d.plans| && IsErp(d.plans[i]) && Renamed(d.plans[i]).tier == KEYS[k]
            then exists i :: 0 <= i < |d.plans| && Keeps(d, i, KEYS[k])
            else KEYS[k] != "starter"
  {
    var news := Seeding(d);
    SparedSurvive(d);
    var renamed, key := RenamedPlans(d.plans, |d.plans|), KEYS[k];
    forall j | 0 <= j < |news| && news[j].tier == key
      ensures !HasErpPlan(renamed, key) && (Spared(news[j], d.subs) <==> key != "starter")
    {
      NewFate(d, news[j], k);
    }
    CoveredIff(renamed, news, Pipeline(d).plans, p => Spared(p, d.subs), key, key != "starter");
    forall i | 0 <= i < |d.plans|
      ensures IsErp(renamed[i]) == IsErp(d.plans[i])
      ensures Keeps(d, i, key) <==> IsErp(renamed[i]) && renamed[i].tier == key && Spared(renamed[i], d.subs)
    {
      RenamedFacts(d.plans[i], d.subs);
    }
  }

  ghost predicate SparedOf(plans: seq<Plan>, spared: Plan -> bool, key: string) {
    exists i :: 0 <= i < |plans| && IsErp(plans[i]) && plans[i].tier == key && spared(plans[i])
  }

  lemma SparedSplit(renamed: seq<Plan>, news: seq<Plan>, spared: Plan -> bool, key: string)
    ensures SparedOf(renamed + news, spared, key) <==> SparedOf(renamed, spared, key) || SparedOf(news, spared, key)
  {
    var mid := renamed + news;
    if SparedOf(mid, spared, key) {
      var m :| 0 <= m < |mid| && IsErp(mid[m]) && mid[m].tier == key && spared(mid[m]);
      if m < |renamed| { assert mid[m] == renamed[m]; } else { assert mid[m] == news[m - |renamed|]; }
    }
    if i :| 0 <= i < |renamed| && IsErp(renamed[i]) && renamed[i].tier == key && spared(renamed[i]) {
      assert mid[i] == renamed[i];
    }
    if j :| 0 <= j < |news| && IsErp(news[j]) && news[j].tier == key && spared(news[j]) {
      assert mid[|renamed| + j] == news[j];
    }
  }

  lemma SparedCovers(mid: seq<Plan>, final: seq<Plan>, spared: Plan -> bool, key: string)
    requires SparedPart(mid, spared, final)
    ensures HasErpPlan(final, key) <==> SparedOf(mid, spared, key)
  {
    if HasErpPlan(final, key) {
      var j :| 0 <= j < |final| && IsErp(final[j]) && final[j].tier == key;
      assert Came(mid, spared, final[j]);
    }
    if i :| 0 <= i < |mid| && IsErp(mid[i]) && mid[i].tier == key && spared(mid[i]) {
      assert Stays(mid[i], final);
    }
  }

  lemma CoveredIff(renamed: seq<Plan>, news: seq<Plan>, final: seq<Plan>, spared: Plan -> bool,
                   key: string, lasting: bool)
    requires SparedPart(renamed + news, spared, final)
    requires forall j :: 0 <= j < |news| && news[j].tier == key ==> !HasErpPlan(renamed, key) && spared(news[j]) == lasting
    requires !HasErpPlan(renamed, key) ==> HasErpPlan(news, key)
    ensures HasErpPlan(final, key) <==> if HasErpPlan(renamed, key) then SparedOf(renamed, spared, key) else lasting
  {
    SparedCovers(renamed + news, final, spared, key);
    SparedSplit(renamed, news, spared, key);
  }

  lemma NewFate(d: Db, p: Plan, k: nat)
    requires WellKeyed(d) && NewIn(d, p) && p.id >= d.nextId && k < |KEYS| && p.tier == KEYS[k]
    ensures !Subscribed(d.subs, p.id) && !HasErpPlan(RenamedPlans(d.plans, |d.plans|), KEYS[k])
    ensures Spared(p, d.subs) <==> KEYS[k] != "starter"
  {
    var m :| 0 <= m < |KEYS| && NewFor(d, p, m);
    KeyPlace(m);
    KeyPlace(k);
    assert m == k;
    if k == 0 { } else if k == 1 { } else if k == 2 { } else if k == 3 { } else { }
  }

  /** So a fresh database ends without a starter plan. */
  lemma {:induction false} FreshDatabaseLosesStarter(tiers: map<string, Tier>, nextId: nat)
    ensures !HasErpPlan(Pipeline(Db([], tiers, [], nextId)).plans, "starter")
  {
    KeyPlace(1);
    TierCoveredIff(Db([], tiers, [], nextId), 1);
  }

  /** Re-applying the convergent seed after the pipeline covers every tier again. */
  lemma {:induction false} ReseedCoversAll(d: Db, k: nat)
    requires k < |KEYS|
    ensures HasErpPlan(Seed(Pipeline(d)).plans, KEYS[k])
  {
    var e := Pipeline(d);
    var f := e.(tiers := SeedTiers(e.tiers, |KEYS|));
    TiersSeeded(e.tiers, |KEYS|);
    var news := SeedAdds(f, |KEYS|);
    ErpPlanSplit(f.plans, news, KEYS[k]);
  }
}
