/**
 * What each catalogue unit, and the pipeline of them, makes of every plan and
 * tier, with every field written out.
 */
module PlanEffects {
  import opened Prelude
  import opened PlanPipeline

  /** Nothing but the tier label, the flags on sale, and capacity and price ever changes; these are the new flags. */
  ghost predicate Flagged(p: Plan, q: Plan, tier: string, active: bool, visible: bool, custom: bool) {
    q == Plan(p.id, p.name, tier, p.product, active, visible, custom, p.default, q.caps, q.price)
  }

  ghost predicate SamePrice(p: Plan, q: Plan) {
    q.caps == p.caps && q.price == p.price
  }

  // ----------------------------------------------------------- pro to growth

  /** The rename: the label of pro plans, and the pro tier under its new key unless that exists. */
  lemma RenameIs(d: Db, i: nat, key: string)
    requires i < |d.plans|
    ensures var (p, e) := (d.plans[i], ProToGrowth(d));
            && |e.plans| == |d.plans| && e.subs == d.subs && e.nextId == d.nextId
            && Flagged(p, e.plans[i], if p.tier == "pro" then "growth" else p.tier, p.active, p.visible, p.custom)
            && SamePrice(p, e.plans[i])
            && (key in e.tiers <==> key != "pro" && (key in d.tiers || (key == "growth" && "pro" in d.tiers)))
            && (key in e.tiers && key in d.tiers ==> e.tiers[key] == d.tiers[key])
            && (key in e.tiers && key !in d.tiers ==> e.tiers[key] == Tier("Growth", d.tiers["pro"].active, d.tiers["pro"].caps))
  {
  }

  // -------------------------------------------------------------------- seed

  /** The name a tier and its plan are seeded under. */
  ghost predicate NameOf(tier: string, name: string) {
    || (tier == "free" && name == "Free")
    || (tier == "starter" && name == "Starter")
    || (tier == "growth" && name == "Growth")
    || (tier == "business" && name == "Business")
    || (tier == "custom" && name == "Custom")
  }

  /** A plan as it is seeded: on sale, except that the custom one is hidden and flagged, free the default, at list price. */
  ghost predicate Fresh(p: Plan, tiers: map<string, Tier>) {
    && NameOf(p.tier, p.name) && p.product == "erp" && p.active && p.visible == (p.tier != "custom")
    && p.custom == (p.tier == "custom") && p.default == (p.tier == "free")
    && (exists caps :: Canonical(p.tier, caps, p.price))
    && p.tier in tiers && p.caps == tiers[p.tier].caps
  }

  lemma ListIs(k: nat)
    requires k < |KEYS|
    ensures OnOffer(KEYS[k]) && NameOf(KEYS[k], NAMES[k]) && Canonical(KEYS[k], CAPS[k], PRICES[k])
  {
    if k == 0 { } else if k == 1 { } else if k == 2 { } else if k == 3 { } else { }
  }

  lemma FreshIs(id: nat, k: nat, tiers: map<string, Tier>)
    requires k < |KEYS| && KEYS[k] in tiers
    ensures Fresh(NewPlan(id, k, tiers[KEYS[k]].caps), tiers) && NewPlan(id, k, tiers[KEYS[k]].caps).tier == KEYS[k]
  {
    ListIs(k);
  }

  /** A tier that was there stays; a missing one on offer is created active, under its name, with its list capacity. */
  ghost predicate TierSeeded(before: map<string, Tier>, after: map<string, Tier>, key: string) {
    if key in before then key in after && after[key] == before[key]
    else && (key in after <==> OnOffer(key))
         && (key in after ==> after[key].active && NameOf(key, after[key].name) && exists price :: Canonical(key, after[key].caps, price))
  }

  lemma {:induction false} TiersSeededIs(tiers: map<string, Tier>, n: nat, key: string)
    requires n <= |KEYS|
    ensures var after := SeedTiers(tiers, n);
            && (key in tiers ==> key in after && after[key] == tiers[key])
            && (key !in tiers ==> (key in after <==> Place(key) < n))
            && (key !in tiers && key in after ==> after[key] == Tier(NAMES[Place(key)], true, CAPS[Place(key)]))
  {
    if n > 0 {
      TiersSeededIs(tiers, n - 1, key);
      KeyPlace(n - 1);
    }
  }

  lemma SeedTierIs(d: Db, key: string)
    ensures TierSeeded(d.tiers, Seed(d).tiers, key)
  {
    TiersSeededIs(d.tiers, |KEYS|, key);
    SeedKeepsSubs(d.(tiers := SeedTiers(d.tiers, |KEYS|)), |KEYS|);
    if Place(key) < |KEYS| { ListIs(Place(key)); }
  }

  ghost predicate Sold(plans: seq<Plan>, tier: string) {
    exists i :: 0 <= i < |plans| && plans[i].product != "connect" && plans[i].tier == tier
  }

  /** The place of the tier on the list. */
  ghost function Rank(tier: string): nat {
    if tier == "free" then 0 else if tier == "starter" then 1 else if tier == "growth" then 2
    else if tier == "business" then 3 else 4
  }

  /** New plans under consecutive fresh identifiers, in list order, one for each of the first `n` tiers that no ERP plan sells. */
  ghost predicate Added(d: Db, tiers: map<string, Tier>, news: seq<Plan>, n: nat) {
    && (forall j :: 0 <= j < |news| ==> news[j].id == d.nextId + j && Fresh(news[j], tiers) && Rank(news[j].tier) < n)
    && (forall i, j :: 0 <= i < j < |news| ==> Rank(news[i].tier) < Rank(news[j].tier))
    && (forall j :: 0 <= j < |news| ==> !Sold(d.plans, news[j].tier))
    && (forall tier :: OnOffer(tier) && Rank(tier) < n && !Sold(d.plans, tier) ==> Sold(news, tier))
  }

  lemma RankIs(k: nat)
    requires k < |KEYS|
    ensures Rank(KEYS[k]) == k && OnOffer(KEYS[k])
    ensures forall tier :: OnOffer(tier) && Rank(tier) == k ==> tier == KEYS[k]
  {
    ListIs(k);
    if k == 0 { } else if k == 1 { } else if k == 2 { } else if k == 3 { } else { }
  }

  lemma SoldIs(plans: seq<Plan>, tier: string)
    ensures HasErpPlan(plans, tier) <==> Sold(plans, tier)
  {
  }

  lemma SoldSplit(a: seq<Plan>, b: seq<Plan>, tier: string)
    ensures Sold(a + b, tier) <==> Sold(a, tier) || Sold(b, tier)
  {
    SoldIs(a + b, tier);
    SoldIs(a, tier);
    SoldIs(b, tier);
    ErpPlanSplit(a, b, tier);
  }

  lemma SoldMore(a: seq<Plan>, p: Plan)
    ensures forall tier :: Sold(a, tier) ==> Sold(a + [p], tier)
    ensures p.product != "connect" ==> Sold(a + [p], p.tier)
  {
    forall tier | Sold(a, tier) ensures Sold(a + [p], tier) { SoldSplit(a, [p], tier); }
    assert (a + [p])[|a|] == p;
  }

  lemma AddedNone(d: Db, tiers: map<string, Tier>, news: seq<Plan>, n: nat)
    requires n < |KEYS| && Added(d, tiers, news, n) && Sold(d.plans + news, KEYS[n])
    ensures Added(d, tiers, news, n + 1)
  {
    RankIs(n);
    SoldSplit(d.plans, news, KEYS[n]);
  }

  lemma AddedOne(d: Db, tiers: map<string, Tier>, news: seq<Plan>, n: nat, p: Plan)
    requires n < |KEYS| && Added(d, tiers, news, n) && !Sold(d.plans + news, KEYS[n])
    requires p.id == d.nextId + |news| && Fresh(p, tiers) && p.tier == KEYS[n]
    ensures Added(d, tiers, news + [p], n + 1)
  {
    RankIs(n);
    SoldSplit(d.plans, news, KEYS[n]);
    SoldMore(news, p);
    var more := news + [p];
    forall j | 0 <= j < |more|
      ensures more[j].id == d.nextId + j && Fresh(more[j], tiers) && Rank(more[j].tier) < n + 1 && !Sold(d.plans, more[j].tier)
    {
      if j < |news| { assert more[j] == news[j]; }
    }
  }

  lemma SeedOneMore(d: Db, n: nat, news: seq<Plan>) returns (more: seq<Plan>)
    requires n < |KEYS| && KEYS[n] in d.tiers && SeedPlans(d, n).tiers == d.tiers
    requires SeedPlans(d, n).plans == d.plans + news && SeedPlans(d, n).nextId == d.nextId + |news| && Added(d, d.tiers, news, n)
    ensures SeedPlans(d, n + 1).plans == d.plans + more && SeedPlans(d, n + 1).nextId == d.nextId + |more|
    ensures Added(d, d.tiers, more, n + 1)
  {
    SoldIs(d.plans + news, KEYS[n]);
    if HasErpPlan(d.plans + news, KEYS[n]) {
      more := news;
      AddedNone(d, d.tiers, news, n);
    } else {
      var p := NewPlan(d.nextId + |news|, n, d.tiers[KEYS[n]].caps);
      FreshIs(d.nextId + |news|, n, d.tiers);
      AddedOne(d, d.tiers, news, n, p);
      Regroup(d.plans, news, [p]);
      more := news + [p];
    }
  }

  lemma {:induction false} SeedPlansAre(d: Db, n: nat) returns (news: seq<Plan>)
    requires n <= |KEYS| && forall k :: 0 <= k < |KEYS| ==> KEYS[k] in d.tiers
    ensures SeedPlans(d, n).plans == d.plans + news && SeedPlans(d, n).nextId == d.nextId + |news|
    ensures Added(d, d.tiers, news, n)
  {
    news := [];
    if n > 0 {
      news := SeedPlansAre(d, n - 1);
      SeedKeepsSubs(d, n - 1);
      news := SeedOneMore(d, n - 1, news);
    }
  }

  /** The seed: every plan stays, and each tier on offer that no ERP plan sells gets one fresh plan, in list order. */
  lemma SeedIs(d: Db) returns (news: seq<Plan>)
    ensures Seed(d).plans == d.plans + news && Seed(d).nextId == d.nextId + |news| && Seed(d).subs == d.subs
    ensures Added(d, Seed(d).tiers, news, 5)
  {
    var e := d.(tiers := SeedTiers(d.tiers, |KEYS|));
    TiersSeeded(d.tiers, |KEYS|);
    news := SeedPlansAre(e, |KEYS|);
    SeedKeepsSubs(e, |KEYS|);
  }

  // ------------------------------------------------------------------ retire

  ghost predicate Obsolete(p: Plan) {
    p.product != "connect" &&
    (p.tier == "pro" || p.name == "Free Forever" || p.name == "Starter" || p.name == "Pro Starter" || p.name == "Enterprise Unlimited")
  }

  /** What retirement makes of a plan it keeps. */
  ghost predicate RetiredTo(p: Plan, q: Plan) {
    var erp := p.product != "connect";
    && SamePrice(p, q)
    && Flagged(p, q, p.tier,
               p.active && !(erp && p.tier == "enterprise") && !Obsolete(p),
               p.visible && !(erp && (p.tier == "enterprise" || p.tier == "custom")) && !Obsolete(p),
               p.custom || (erp && p.tier == "custom"))
  }

  ghost predicate Kept(p: Plan, subs: seq<nat>) {
    Obsolete(p) ==> p.id in subs
  }

  /** `ks` are the places of the plans that stay, in order. */
  ghost predicate Survive(plans: seq<Plan>, subs: seq<nat>, after: seq<Plan>, ks: seq<nat>) {
    && |ks| == |after|
    && (forall j :: 0 <= j < |ks| ==> ks[j] < |plans| && RetiredTo(plans[ks[j]], after[j]))
    && (forall i, j :: 0 <= i < j < |ks| ==> ks[i] < ks[j])
    && (forall i :: 0 <= i < |plans| ==> (i in ks <==> Kept(plans[i], subs)))
  }

  lemma RetireOne(p: Plan, subs: seq<nat>)
    ensures var r := Remove(FlagCustom(HideEnterprise(p)), subs);
            (r.Some? <==> Kept(p, subs)) && (r.Some? ==> RetiredTo(p, r.value))
  {
    assert p.name in LEGACY_NAMES <==>
      p.name == "Free Forever" || p.name == "Starter" || p.name == "Pro Starter" || p.name == "Enterprise Unlimited";
    var q := FlagCustom(HideEnterprise(p));
    assert IsLegacy(q) <==> Obsolete(p);
  }

  lemma SurviveOn(plans: seq<Plan>, subs: seq<nat>, after: seq<Plan>, ks: seq<nat>, p: Plan, q: Plan)
    requires Survive(plans, subs, after, ks) && Kept(p, subs) && RetiredTo(p, q)
    ensures Survive(plans + [p], subs, after + [q], ks + [|plans|])
  {
    var more := ks + [|plans|];
    forall i | 0 <= i < |plans + [p]| ensures i in more <==> Kept((plans + [p])[i], subs) {
      if i == |plans| { assert more[|ks|] == i; }
    }
  }

  lemma DeleteOn(plans: seq<Plan>, subs: seq<nat>, after: seq<Plan>, ks: seq<nat>, p: Plan)
    requires Survive(plans, subs, after, ks) && !Kept(p, subs)
    ensures Survive(plans + [p], subs, after, ks)
  {
    assert |plans| !in ks;
  }

  lemma {:induction false} RetiredPlans(plans: seq<Plan>, subs: seq<nat>, c: nat) returns (ks: seq<nat>)
    requires c >= |plans|
    ensures Survive(plans, subs, Removed(Passed(plans, c, c), subs, c), ks)
  {
    ks := [];
    if |plans| > 0 {
      var n := |plans| - 1;
      InitAndLast(plans);
      ks := RetiredPlans(plans[..n], subs, c);
      assert Passed(plans, c, c)[..n] == Passed(plans[..n], c, c);
      RetireOne(plans[n], subs);
      var r := Remove(Passed(plans, c, c)[n], subs);
      var before := Removed(Passed(plans[..n], c, c), subs, c);
      if r.Some? {
        SurviveOn(plans[..n], subs, before, ks, plans[n], r.value);
        ks := ks + [n];
      } else {
        DeleteOn(plans[..n], subs, before, ks, plans[n]);
        assert before + [] == before;
      }
    }
  }

  /**
   * The retirement: obsolete ERP plans nothing subscribes to are deleted, the
   * others keep their order; enterprise ones and subscribed obsolete ones go off
   * sale, custom ones are hidden and flagged, and the enterprise tier goes inactive.
   */
  lemma RetireIs(d: Db, key: string) returns (ks: seq<nat>)
    ensures Survive(d.plans, d.subs, Retire(d).plans, ks) && Retire(d).subs == d.subs && Retire(d).nextId == d.nextId
    ensures key in Retire(d).tiers <==> key in d.tiers
    ensures key in d.tiers ==>
              var t := d.tiers[key];
              Retire(d).tiers[key] == Tier(t.name, t.active && key != "enterprise", t.caps)
  {
    ks := RetiredPlans(d.plans, d.subs, |d.plans|);
  }

  // --------------------------------------------------------------- reconcile

  /** The reconcile: capacity and price of the plans on offer, capacity of the tiers on offer, and nothing else. */
  lemma ReconcileIs(d: Db, i: nat, key: string)
    requires i < |d.plans|
    ensures var (p, e) := (d.plans[i], Reconcile(d));
            && |e.plans| == |d.plans| && e.subs == d.subs && e.nextId == d.nextId
            && Flagged(p, e.plans[i], p.tier, p.active, p.visible, p.custom)
            && (if p.product != "connect" && OnOffer(p.tier) then Canonical(p.tier, e.plans[i].caps, e.plans[i].price)
                else SamePrice(p, e.plans[i]))
            && (key in e.tiers <==> key in d.tiers)
            && (key in d.tiers ==>
                  && e.tiers[key].name == d.tiers[key].name && e.tiers[key].active == d.tiers[key].active
                  && if OnOffer(key) then exists price :: Canonical(key, e.tiers[key].caps, price)
                     else e.tiers[key].caps == d.tiers[key].caps)
  {
    CorrectedIs(d.plans[i]);
    TierCorrected(d.tiers, |KEYS|, key);
    if Place(key) < |KEYS| { ListIs(Place(key)); }
  }

  lemma {:induction false} TierCorrected(tiers: map<string, Tier>, n: nat, key: string)
    requires n <= |KEYS|
    ensures var after := CorrectedTiers(tiers, n);
            && (key in after <==> key in tiers)
            && (key in tiers ==>
                  after[key] == if Place(key) < n then Tier(tiers[key].name, tiers[key].active, CAPS[Place(key)]) else tiers[key])
  {
    if n > 0 {
      TierCorrected(tiers, n - 1, key);
      KeyPlace(n - 1);
    }
  }

  // ---------------------------------------------------------------- pipeline

  /** What the four units together make of a plan they keep. */
  ghost predicate EndsAs(p: Plan, q: Plan) {
    var erp := p.product != "connect";
    var tier := if p.tier == "pro" then "growth" else p.tier;
    var dated := erp && (p.name == "Free Forever" || p.name == "Starter" || p.name == "Pro Starter" || p.name == "Enterprise Unlimited");
    && Flagged(p, q, tier,
               p.active && !(erp && p.tier == "enterprise") && !dated,
               p.visible && !(erp && (p.tier == "enterprise" || p.tier == "custom")) && !dated,
               p.custom || (erp && p.tier == "custom"))
    && if erp && OnOffer(tier) then Canonical(tier, q.caps, q.price) else SamePrice(p, q)
  }

  ghost predicate Outlives(p: Plan, subs: seq<nat>) {
    p.product != "connect" && (p.name == "Free Forever" || p.name == "Starter" || p.name == "Pro Starter" || p.name == "Enterprise Unlimited") ==>
      p.id in subs
  }

  lemma FateIs(p: Plan, subs: seq<nat>)
    ensures var r := Fate(Renamed(p), subs);
            (r.Some? <==> Outlives(p, subs)) && (r.Some? ==> EndsAs(p, r.value))
  {
    RetireOne(Renamed(p), subs);
    var r := Remove(FlagCustom(HideEnterprise(Renamed(p))), subs);
    if r.Some? { CorrectedIs(r.value); }
  }

  lemma EndsAsOne(p: Plan, q: Plan, r: Plan)
    requires EndsAs(p, q) && EndsAs(p, r)
    ensures q == r
  {
  }

  lemma FateEnds(p: Plan, subs: seq<nat>, q: Plan)
    ensures Fate(Renamed(p), subs) == Some(q) <==> Outlives(p, subs) && EndsAs(p, q)
  {
    FateIs(p, subs);
    if Outlives(p, subs) && EndsAs(p, q) { EndsAsOne(p, q, Fate(Renamed(p), subs).value); }
  }

  /** A plan of the finished catalogue comes from the plan at place `i` of those found, or from a seeded one. */
  ghost predicate ComesFrom(d: Db, news: seq<Plan>, q: Plan) {
    || (exists i :: 0 <= i < |d.plans| && Outlives(d.plans[i], d.subs) && EndsAs(d.plans[i], q))
    || (exists j :: 0 <= j < |news| && Outlives(news[j], d.subs) && EndsAs(news[j], q))
  }

  /**
   * The finished catalogue, exactly: of the plans found and the plans seeded for
   * the tiers without one, those that are not legacy without a subscription, each
   * as the four units leave it.
   */
  lemma PipelineIs(d: Db) returns (news: seq<Plan>)
    ensures Added(ProToGrowth(d), Seed(ProToGrowth(d)).tiers, news, 5)
    ensures forall q :: q in Pipeline(d).plans <==> ComesFrom(d, news, q)
  {
    news := SeedIs(ProToGrowth(d));
    var mid := AfterSeed(d);
    var found := |d.plans|;
    assert mid == RenamedPlans(d.plans, found) + news;
    forall q ensures q in Pipeline(d).plans <==> ComesFrom(d, news, q) {
      PipelineFrom(d, news, q);
      PipelineTo(d, news, q);
    }
  }

  lemma NewRenamed(news: seq<Plan>, j: nat, tiers: map<string, Tier>)
    requires j < |news| && Fresh(news[j], tiers)
    ensures Renamed(news[j]) == news[j]
  {
  }

  lemma SeededFrom(d: Db, news: seq<Plan>, q: Plan, m: nat)
    requires AfterSeed(d) == RenamedPlans(d.plans, |d.plans|) + news && m < |AfterSeed(d)|
    requires forall j :: 0 <= j < |news| ==> Fresh(news[j], Seed(ProToGrowth(d)).tiers)
    ensures var p := if m < |d.plans| then d.plans[m] else news[m - |d.plans|];
            AfterSeed(d)[m] == Renamed(p) && (Fate(AfterSeed(d)[m], d.subs) == Some(q) <==> Outlives(p, d.subs) && EndsAs(p, q))
  {
    var p := if m < |d.plans| then d.plans[m] else news[m - |d.plans|];
    if m >= |d.plans| { NewRenamed(news, m - |d.plans|, Seed(ProToGrowth(d)).tiers); }
    FateEnds(p, d.subs, q);
  }

  lemma PipelineFrom(d: Db, news: seq<Plan>, q: Plan)
    requires AfterSeed(d) == RenamedPlans(d.plans, |d.plans|) + news
    requires forall j :: 0 <= j < |news| ==> Fresh(news[j], Seed(ProToGrowth(d)).tiers)
    ensures q in Pipeline(d).plans ==> ComesFrom(d, news, q)
  {
    PipelineIsFate(d, q);
    if m :| 0 <= m < |AfterSeed(d)| && Fate(AfterSeed(d)[m], d.subs) == Some(q) {
      SeededFrom(d, news, q, m);
    }
  }

  lemma PipelineTo(d: Db, news: seq<Plan>, q: Plan)
    requires AfterSeed(d) == RenamedPlans(d.plans, |d.plans|) + news
    requires forall j :: 0 <= j < |news| ==> Fresh(news[j], Seed(ProToGrowth(d)).tiers)
    ensures ComesFrom(d, news, q) ==> q in Pipeline(d).plans
  {
    PipelineIsFate(d, q);
    if i :| 0 <= i < |d.plans| && Outlives(d.plans[i], d.subs) && EndsAs(d.plans[i], q) {
      SeededFrom(d, news, q, i);
    }
    if j :| 0 <= j < |news| && Outlives(news[j], d.subs) && EndsAs(news[j], q) {
      SeededFrom(d, news, q, |d.plans| + j);
    }
  }

  /** Where a tier of the finished catalogue comes from: found, found as pro, or seeded. */
  lemma TierIs(d: Db, key: string)
    ensures var tiers := Pipeline(d).tiers;
            && (key in tiers <==> key != "pro" && (key in d.tiers || OnOffer(key)))
            && (key in tiers && key in d.tiers ==>
                  tiers[key].name == d.tiers[key].name && tiers[key].active == (d.tiers[key].active && key != "enterprise"))
            && (key in tiers && key !in d.tiers ==>
                  NameOf(key, tiers[key].name) && tiers[key].active == (key != "growth" || "pro" !in d.tiers || d.tiers["pro"].active))
            && (key in tiers ==> if OnOffer(key) then exists price :: Canonical(key, tiers[key].caps, price)
                                 else tiers[key].caps == d.tiers[key].caps)
  {
    var a := ProToGrowth(d);
    var b := Seed(a);
    var c := Retire(b);
    SeedTierIs(a, key);
    var _ := RetireIs(b, key);
    TierCorrected(c.tiers, |KEYS|, key);
    if Place(key) < |KEYS| { ListIs(Place(key)); }
  }
}
