/** The fixed catalog of mining plans and its lookup by id. */
module Plans {
  import opened Wrappers

  type PlanId = string

  /** One mining tier. Prices and earnings are in US dollars, durations in days. */
  datatype Plan = Plan(
    id: PlanId,
    name: string,
    price: real,
    dailyEarnings: real,
    hashRate: string,
    duration: int,
    popular: bool,
    features: seq<string>)

  /** The four plans the dashboard ships, in display order. */
  const MiningPlans: seq<Plan> := [
    Plan("free", "Free Starter", 0.0, 0.10, "1 TH/s", 30, false,
         ["Basic mining power", "30-day contract", "Email support", "Real-time stats"]),
    Plan("basic", "Basic Miner", 45.0, 17.2, "25 TH/s", 90, false,
         ["Enhanced mining power", "90-day contract", "Priority support", "Advanced analytics", "Mobile app access"]),
    Plan("pro", "Pro Miner", 100.0, 37.0, "87.5 TH/s", 180, true,
         ["High-performance mining", "180-day contract", "24/7 support", "Premium analytics", "API access", "Compound earnings"]),
    Plan("enterprise", "Enterprise", 250.0, 115.4, "350 TH/s", 365, false,
         ["Maximum mining power", "365-day contract", "Dedicated support", "Custom analytics", "White-label access", "Auto-reinvestment"])
  ]

  /** `Array.prototype.find` on a plan list: the first plan whose id is `id`. */
  function FindPlan(plans: seq<Plan>, id: PlanId): (r: Option<Plan>)
    ensures r.None? <==> forall i :: 0 <= i < |plans| ==> plans[i].id != id
    ensures r.Some? ==> r.value in plans && r.value.id == id
  {
    if plans == [] then None
    else if plans[0].id == id then Some(plans[0])
    else
      var r := FindPlan(plans[1..], id);
      assert forall i :: 1 <= i < |plans| ==> plans[i] == plans[1..][i - 1];
      r
  }

  /** What `find` returns is the first plan with that id. */
  lemma {:induction false} FindPlanFirst(plans: seq<Plan>, id: PlanId)
    requires FindPlan(plans, id).Some?
    ensures exists i :: 0 <= i < |plans| && plans[i] == FindPlan(plans, id).value &&
                        forall j :: 0 <= j < i ==> plans[j].id != id
  {
    if plans[0].id != id {
      FindPlanFirst(plans[1..], id);
      var i :| 0 <= i < |plans[1..]| && plans[1..][i] == FindPlan(plans[1..], id).value &&
               forall j :: 0 <= j < i ==> plans[1..][j].id != id;
      assert plans[i + 1] == FindPlan(plans, id).value;
      assert forall j :: 1 <= j < i + 1 ==> plans[j] == plans[1..][j - 1];
    } else {
      assert plans[0] == FindPlan(plans, id).value;
    }
  }

  /** What the ledger's arithmetic relies on about a plan. */
  predicate Sane(p: Plan) {
    p.dailyEarnings >= 0.0 && p.duration > 0
  }

  /** A catalog whose plans all satisfy `Sane` and have distinct ids. */
  predicate SaneCatalog(plans: seq<Plan>) {
    && (forall i :: 0 <= i < |plans| ==> Sane(plans[i]))
    && (forall i, j :: 0 <= i < j < |plans| ==> plans[i].id != plans[j].id)
  }

  /** In a sane catalog, whatever is found is sane. */
  lemma FindPlanSane(plans: seq<Plan>, id: PlanId)
    requires SaneCatalog(plans)
    ensures FindPlan(plans, id).Some? ==> Sane(FindPlan(plans, id).value)
  {
  }

  /** With distinct ids, every plan is found by its own id. */
  lemma {:induction false} FindPlanMember(plans: seq<Plan>, k: nat)
    requires SaneCatalog(plans) && k < |plans|
    ensures FindPlan(plans, plans[k].id) == Some(plans[k])
  {
    var r := FindPlan(plans, plans[k].id);
    FindPlanFirst(plans, plans[k].id);
    var i :| 0 <= i < |plans| && plans[i] == r.value && r.value.id == plans[k].id &&
             forall j :: 0 <= j < i ==> plans[j].id != plans[k].id;
    assert !(k < i) && !(i < k);
  }

  lemma ShippedCatalogSane()
    ensures SaneCatalog(MiningPlans)
  {
  }

  /** The catalog has four plans with distinct ids, and the first one is the only free one. */
  lemma CatalogShape()
    ensures |MiningPlans| == 4
    ensures forall i, j :: 0 <= i < j < |MiningPlans| ==> MiningPlans[i].id != MiningPlans[j].id
    ensures MiningPlans[0].price == 0.0
    ensures forall i :: 1 <= i < |MiningPlans| ==> MiningPlans[i].price > 0.0
  {
  }

  /** Lookups of the four shipped ids. */
  lemma CatalogLookups()
    ensures FindPlan(MiningPlans, "free") == Some(MiningPlans[0])
    ensures FindPlan(MiningPlans, "basic") == Some(MiningPlans[1])
    ensures FindPlan(MiningPlans, "pro") == Some(MiningPlans[2])
    ensures FindPlan(MiningPlans, "enterprise") == Some(MiningPlans[3])
  {
  }

  /** Every id other than the four shipped ones finds nothing. */
  lemma UnknownIdFindsNothing(id: PlanId)
    requires id != "free" && id != "basic" && id != "pro" && id != "enterprise"
    ensures FindPlan(MiningPlans, id).None?
  {
  }
}
