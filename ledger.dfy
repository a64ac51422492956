/**
 * The mining ledger: contracts, the closed-form earnings formula, the
 * periodic accrual tick and the dashboard aggregates.
 */
module Ledger {
  import opened Wrappers
  import opened Plans

  /** Milliseconds in a day (1000 * 60 * 60 * 24). */
  const DayMs: int := 86_400_000

  /** The accrual interval fires every 3000 ms. */
  const TickPeriodMs: int := 3000

  /** One user's instance of a plan; dates are epoch milliseconds. `totalEarned`
      is `None` when the stored record lacks the field. */
  datatype Contract = Contract(
    id: string,
    planId: PlanId,
    userId: string,
    startDate: int,
    endDate: int,
    totalEarned: Option<real>,
    isActive: bool)

  /** `mining.totalEarned || 0`. */
  function Earned(c: Contract): real {
    if c.totalEarned.Some? then c.totalEarned.value else 0.0
  }

  function Min(a: real, b: real): real {
    if a <= b then a else b
  }

  /** Whole days from `start` to `now`, rounded down (also for `now < start`). */
  function DaysElapsed(start: int, now: int): (d: int)
    ensures d * DayMs <= now - start < d * DayMs + DayMs
  {
    (now - start) / DayMs
  }

  /** The base term: elapsed days times the daily rate, clamped at the whole contract value. */
  function BaseEarnings(p: Plan, start: int, now: int): real {
    Min(DaysElapsed(start, now) as real * p.dailyEarnings, p.dailyEarnings * p.duration as real)
  }

  /** `calculateEarnings`: 0 for an unknown plan, else the clamped base term plus the
      (unclamped) incremental counter. */
  function CalculateEarnings(plans: seq<Plan>, c: Contract, now: int): real {
    match FindPlan(plans, c.planId)
    case None => 0.0
    case Some(p) => BaseEarnings(p, c.startDate, now) + Earned(c)
  }

  /** The contract that starting `p` at `now` creates. */
  function NewContract(id: string, p: Plan, userId: string, now: int): Contract {
    Contract(id, p.id, userId, now, now + p.duration * DayMs, Some(0.0), true)
  }

  // ---------------------------------------------------------------- earnings

  lemma DaysElapsedMonotone(start: int, a: int, b: int)
    requires a <= b
    ensures DaysElapsed(start, a) <= DaysElapsed(start, b)
  {
    var da, db := DaysElapsed(start, a), DaysElapsed(start, b);
    assert (da - db) * DayMs < DayMs;
  }

  lemma DaysElapsedExact(start: int, n: int)
    ensures DaysElapsed(start, start + n * DayMs) == n
  {
    var d := DaysElapsed(start, start + n * DayMs);
    assert (d - n) * DayMs <= 0 < (d - n) * DayMs + DayMs;
  }

  lemma MulMonotone(x: real, y: real, k: real)
    requires x <= y && k >= 0.0
    ensures x * k <= y * k
  {
    assert y * k - x * k == (y - x) * k;
  }

  /** Unknown plan: nothing is earned, whatever the counter says. */
  lemma EarningsUnknownPlan(plans: seq<Plan>, c: Contract, now: int)
    requires FindPlan(plans, c.planId).None?
    ensures CalculateEarnings(plans, c, now) == 0.0
  {
  }

  /** The base term is the smaller of the two candidates: it never exceeds the whole
      contract value nor elapsed days times the daily rate, and equals one of them. */
  lemma BaseEarningsClamp(p: Plan, start: int, now: int)
    ensures var base := BaseEarnings(p, start, now);
      var cap := p.dailyEarnings * p.duration as real;
      var byDays := DaysElapsed(start, now) as real * p.dailyEarnings;
      base <= cap && base <= byDays && (base == cap || base == byDays)
  {
  }

  /** Known plan: the result less the counter never exceeds the whole contract value nor
      elapsed days times the daily rate, and equals one of the two. */
  lemma EarningsKnownPlan(plans: seq<Plan>, c: Contract, now: int)
    requires FindPlan(plans, c.planId).Some?
    ensures var p := FindPlan(plans, c.planId).value;
      var base := CalculateEarnings(plans, c, now) - Earned(c);
      var cap := p.dailyEarnings * p.duration as real;
      var byDays := DaysElapsed(c.startDate, now) as real * p.dailyEarnings;
      base <= cap && base <= byDays && (base == cap || base == byDays)
  {
    var p := FindPlan(plans, c.planId).value;
    BaseEarningsClamp(p, c.startDate, now);
    assert CalculateEarnings(plans, c, now) == BaseEarnings(p, c.startDate, now) + Earned(c);
  }

  lemma BaseEarningsMonotone(p: Plan, start: int, now1: int, now2: int)
    requires Sane(p) && now1 <= now2
    ensures BaseEarnings(p, start, now1) <= BaseEarnings(p, start, now2)
  {
    DaysElapsedMonotone(start, now1, now2);
    MulMonotone(DaysElapsed(start, now1) as real, DaysElapsed(start, now2) as real, p.dailyEarnings);
  }

  /** For a fixed contract, earnings never go down as time passes. */
  lemma EarningsMonotone(plans: seq<Plan>, c: Contract, now1: int, now2: int)
    requires SaneCatalog(plans)
    requires now1 <= now2
    ensures CalculateEarnings(plans, c, now1) <= CalculateEarnings(plans, c, now2)
  {
    if FindPlan(plans, c.planId).Some? {
      var p := FindPlan(plans, c.planId).value;
      FindPlanSane(plans, c.planId);
      BaseEarningsMonotone(p, c.startDate, now1, now2);
      assert CalculateEarnings(plans, c, now1) == BaseEarnings(p, c.startDate, now1) + Earned(c);
      assert CalculateEarnings(plans, c, now2) == BaseEarnings(p, c.startDate, now2) + Earned(c);
    }
  }

  /** At the start date only the counter counts. */
  lemma EarningsAtStart(plans: seq<Plan>, c: Contract)
    requires SaneCatalog(plans)
    requires FindPlan(plans, c.planId).Some?
    ensures CalculateEarnings(plans, c, c.startDate) == Earned(c)
  {
    FindPlanSane(plans, c.planId);
    var p := FindPlan(plans, c.planId).value;
    assert DaysElapsed(c.startDate, c.startDate) == 0;
    assert p.dailyEarnings * p.duration as real >= 0.0 by {
      MulMonotone(0.0, p.duration as real, p.dailyEarnings);
    }
  }

  /** Once the whole duration has elapsed the base term is the full contract value. */
  lemma EarningsAfterDuration(plans: seq<Plan>, c: Contract, now: int)
    requires SaneCatalog(plans)
    requires FindPlan(plans, c.planId).Some?
    requires DaysElapsed(c.startDate, now) >= FindPlan(plans, c.planId).value.duration
    ensures var p := FindPlan(plans, c.planId).value;
      CalculateEarnings(plans, c, now) == p.dailyEarnings * p.duration as real + Earned(c)
  {
    FindPlanSane(plans, c.planId);
    var p := FindPlan(plans, c.planId).value;
    MulMonotone(p.duration as real, DaysElapsed(c.startDate, now) as real, p.dailyEarnings);
  }

  /** The counter is added on top of the clamp: a positive counter past the end pushes
      earnings above the contract's whole value. */
  lemma EarningsExceedContractValue(plans: seq<Plan>, c: Contract, now: int)
    requires SaneCatalog(plans)
    requires FindPlan(plans, c.planId).Some?
    requires DaysElapsed(c.startDate, now) >= FindPlan(plans, c.planId).value.duration
    requires Earned(c) > 0.0
    ensures var p := FindPlan(plans, c.planId).value;
      CalculateEarnings(plans, c, now) > p.dailyEarnings * p.duration as real
  {
    EarningsAfterDuration(plans, c, now);
  }

  /** A new contract ends exactly `duration` days after it starts, with nothing earned. */
  lemma NewContractShape(plans: seq<Plan>, id: string, k: nat, userId: string, now: int)
    requires SaneCatalog(plans) && k < |plans|
    ensures var p := plans[k];
      var c := NewContract(id, p, userId, now);
      && c.isActive && Earned(c) == 0.0
      && DaysElapsed(c.startDate, c.endDate) == p.duration
      && CalculateEarnings(plans, c, now) == 0.0
      && CalculateEarnings(plans, c, c.endDate) == p.dailyEarnings * p.duration as real
  {
    var p := plans[k];
    var c := NewContract(id, p, userId, now);
    DaysElapsedExact(now, p.duration);
    FindPlanMember(plans, k);
    EarningsAtStart(plans, c);
    EarningsAfterDuration(plans, c, c.endDate);
  }

  /** The basic plan ($45, $17.20 a day for 90 days): 0 on creation, 172 after ten days,
      and 1548 (= 17.2 * 90) after two hundred. */
  lemma BasicPlanScenario(id: string, userId: string, now: int)
    ensures var c := NewContract(id, MiningPlans[1], userId, now);
      && CalculateEarnings(MiningPlans, c, now) == 0.0
      && CalculateEarnings(MiningPlans, c, now + 10 * DayMs) == 172.0
      && CalculateEarnings(MiningPlans, c, now + 200 * DayMs) == 1548.0
  {
    var p := MiningPlans[1];
    var c := NewContract(id, p, userId, now);
    ShippedCatalogSane();
    FindPlanMember(MiningPlans, 1);
    assert FindPlan(MiningPlans, c.planId) == Some(p);
    EarningsAtStart(MiningPlans, c);
    DaysElapsedExact(now, 10);
    BaseBeforeEnd(p, now, now + 10 * DayMs);
    assert CalculateEarnings(MiningPlans, c, now + 10 * DayMs) == BaseEarnings(p, now, now + 10 * DayMs) + 0.0;
    DaysElapsedExact(now, 200);
    EarningsAfterDuration(MiningPlans, c, now + 200 * DayMs);
  }

  // ------------------------------------------------------------ accrual tick

  /** What one tick adds for plan `p`: a day's earnings split into 24 * 60 * 20 parts. */
  function Increment(p: Plan): real {
    p.dailyEarnings / 24.0 / 60.0 / 20.0
  }

  /** What one tick adds to contract `c` (0 for an inactive or unknown-plan contract). */
  function TickGain(plans: seq<Plan>, c: Contract): real {
    if c.isActive && FindPlan(plans, c.planId).Some? then Increment(FindPlan(plans, c.planId).value) else 0.0
  }

  /** The callback the tick maps over a contract list. */
  function TickContract(plans: seq<Plan>, c: Contract): (r: Contract)
    ensures r.(totalEarned := c.totalEarned) == c
    ensures Earned(r) == Earned(c) + TickGain(plans, c)
    ensures !(c.isActive && FindPlan(plans, c.planId).Some?) ==> r == c
  {
    if c.isActive then
      match FindPlan(plans, c.planId)
      case Some(p) => c.(totalEarned := Some(Earned(c) + Increment(p)))
      case None => c
    else c
  }

  /** `r` is `cs` with every contract passed through one tick. */
  ghost predicate Ticked(plans: seq<Plan>, cs: seq<Contract>, r: seq<Contract>) {
    |r| == |cs| && forall i :: 0 <= i < |cs| ==> r[i] == TickContract(plans, cs[i])
  }

  /** The interval body's `.map`: one tick over a whole contract list. */
  method TickList(plans: seq<Plan>, cs: seq<Contract>) returns (r: seq<Contract>)
    ensures Ticked(plans, cs, r)
  {
    r := [];
    var i := 0;
    while i < |cs|
      invariant 0 <= i <= |cs|
      invariant Ticked(plans, cs[..i], r)
    {
      r := r + [TickContract(plans, cs[i])];
      i := i + 1;
    }
    assert cs[..i] == cs;
  }

  /** 20 ticks a minute: the 3-second interval fires 28,800 times a day, and 28,800
      increments make exactly one day's earnings. */
  lemma TicksPerDay(p: Plan)
    ensures DayMs / TickPeriodMs == 28_800
    ensures Increment(p) * 28_800.0 == p.dailyEarnings
  {
  }

  /** The counter never goes down under a tick. */
  lemma TickNeverDecreases(plans: seq<Plan>, c: Contract)
    requires SaneCatalog(plans)
    ensures Earned(c) <= Earned(TickContract(plans, c))
  {
    FindPlanSane(plans, c.planId);
  }

  /** A tick raises the displayed earnings by exactly its gain, at every instant. */
  lemma TickRaisesEarnings(plans: seq<Plan>, c: Contract, now: int)
    ensures CalculateEarnings(plans, TickContract(plans, c), now) == CalculateEarnings(plans, c, now) + TickGain(plans, c)
  {
  }

  /** `n` consecutive ticks of one contract. */
  function Ticks(plans: seq<Plan>, c: Contract, n: nat): Contract {
    if n == 0 then c else TickContract(plans, Ticks(plans, c, n - 1))
  }

  lemma {:induction false} TicksEarned(plans: seq<Plan>, c: Contract, n: nat)
    ensures Ticks(plans, c, n).(totalEarned := c.totalEarned) == c
    ensures Earned(Ticks(plans, c, n)) == Earned(c) + n as real * TickGain(plans, c)
  {
    if n > 0 {
      TicksEarned(plans, c, n - 1);
      assert TickGain(plans, Ticks(plans, c, n - 1)) == TickGain(plans, c);
    }
  }

  /** Within the duration the base term is not clamped yet. */
  lemma BaseBeforeEnd(p: Plan, start: int, now: int)
    requires Sane(p) && DaysElapsed(start, now) <= p.duration
    ensures BaseEarnings(p, start, now) == DaysElapsed(start, now) as real * p.dailyEarnings
  {
    MulMonotone(DaysElapsed(start, now) as real, p.duration as real, p.dailyEarnings);
  }

  /** The double counting of the two accrual mechanisms: over one day of ticks an
      active contract's displayed earnings grow by twice its daily rate, the elapsed-day
      term contributing one and the counter another, as long as the day is within the
      contract's duration. */
  lemma DayOfTicksCountsTwice(plans: seq<Plan>, c: Contract, now: int, n: nat)
    requires SaneCatalog(plans)
    requires c.isActive && FindPlan(plans, c.planId).Some?
    requires DaysElapsed(c.startDate, now) + 1 <= FindPlan(plans, c.planId).value.duration
    requires n == DayMs / TickPeriodMs
    ensures var p := FindPlan(plans, c.planId).value;
      CalculateEarnings(plans, Ticks(plans, c, n), now + DayMs) == CalculateEarnings(plans, c, now) + 2.0 * p.dailyEarnings
  {
    var p := FindPlan(plans, c.planId).value;
    FindPlanSane(plans, c.planId);
    var c' := Ticks(plans, c, n);
    TicksEarned(plans, c, n);
    TicksPerDay(p);
    assert Earned(c') == Earned(c) + p.dailyEarnings;
    assert c'.planId == c.planId && c'.startDate == c.startDate;
    var d := DaysElapsed(c.startDate, now);
    assert DaysElapsed(c.startDate, now + DayMs) == d + 1;
    BaseBeforeEnd(p, c.startDate, now + DayMs);
    BaseBeforeEnd(p, c.startDate, now);
    var before, after := BaseEarnings(p, c.startDate, now), BaseEarnings(p, c.startDate, now + DayMs);
    assert after == before + p.dailyEarnings by {
      assert (d + 1) as real * p.dailyEarnings == d as real * p.dailyEarnings + p.dailyEarnings;
    }
    assert CalculateEarnings(plans, c', now + DayMs) == after + Earned(c');
    assert CalculateEarnings(plans, c, now) == before + Earned(c);
  }

  /** Past the end of the duration the elapsed-day term stays at its cap, so a day of
      ticks raises the displayed earnings by one daily rate, all of it from the counter. */
  lemma DayOfTicksAfterEnd(plans: seq<Plan>, c: Contract, now: int, n: nat)
    requires SaneCatalog(plans)
    requires c.isActive && FindPlan(plans, c.planId).Some?
    requires DaysElapsed(c.startDate, now) >= FindPlan(plans, c.planId).value.duration
    requires n == DayMs / TickPeriodMs
    ensures var p := FindPlan(plans, c.planId).value;
      CalculateEarnings(plans, Ticks(plans, c, n), now + DayMs) == CalculateEarnings(plans, c, now) + p.dailyEarnings
  {
    var p := FindPlan(plans, c.planId).value;
    FindPlanSane(plans, c.planId);
    var c' := Ticks(plans, c, n);
    TicksEarned(plans, c, n);
    TicksPerDay(p);
    assert Earned(c') == Earned(c) + p.dailyEarnings;
    assert c'.planId == c.planId && c'.startDate == c.startDate;
    DaysElapsedMonotone(c.startDate, now, now + DayMs);
    EarningsAfterDuration(plans, c, now);
    EarningsAfterDuration(plans, c', now + DayMs);
  }

  // -------------------------------------------------------------- aggregates

  /** Left-to-right sum, as `reduce((total, x) => total + x, 0)`. */
  function Sum(xs: seq<real>): real {
    if xs == [] then 0.0 else Sum(xs[..|xs| - 1]) + xs[|xs| - 1]
  }

  /** `plan?.dailyEarnings || 0` */
  function DailyRate(plans: seq<Plan>, c: Contract): real {
    match FindPlan(plans, c.planId)
    case Some(p) => p.dailyEarnings
    case None => 0.0
  }

  /** `filter(m => m.isActive)` */
  function ActiveOnly(cs: seq<Contract>): (r: seq<Contract>)
    ensures |r| <= |cs|
    ensures forall i :: 0 <= i < |r| ==> r[i].isActive
  {
    if cs == [] then []
    else if cs[|cs| - 1].isActive then ActiveOnly(cs[..|cs| - 1]) + [cs[|cs| - 1]]
    else ActiveOnly(cs[..|cs| - 1])
  }

  function DailyRates(plans: seq<Plan>, cs: seq<Contract>): (r: seq<real>)
    ensures |r| == |cs|
  {
    if cs == [] then [] else DailyRates(plans, cs[..|cs| - 1]) + [DailyRate(plans, cs[|cs| - 1])]
  }

  /** `getTotalDailyEarnings`: the daily rate of the active contracts, summed. */
  function TotalDailyEarnings(plans: seq<Plan>, cs: seq<Contract>): real {
    Sum(DailyRates(plans, ActiveOnly(cs)))
  }

  /** Reference definition: every contract contributes its plan's rate if active, 0 otherwise. */
  function ActiveRateSum(plans: seq<Plan>, cs: seq<Contract>): real {
    if cs == [] then 0.0
    else ActiveRateSum(plans, cs[..|cs| - 1]) + (if cs[|cs| - 1].isActive then DailyRate(plans, cs[|cs| - 1]) else 0.0)
  }

  lemma {:induction false} DailyRatesAppend(plans: seq<Plan>, cs: seq<Contract>, c: Contract)
    ensures DailyRates(plans, cs + [c]) == DailyRates(plans, cs) + [DailyRate(plans, c)]
  {
    assert (cs + [c])[..|cs|] == cs;
  }

  lemma {:induction false} TotalDailyEarningsIsActiveRateSum(plans: seq<Plan>, cs: seq<Contract>)
    ensures TotalDailyEarnings(plans, cs) == ActiveRateSum(plans, cs)
  {
    if cs != [] {
      var init, last := cs[..|cs| - 1], cs[|cs| - 1];
      TotalDailyEarningsIsActiveRateSum(plans, init);
      if last.isActive {
        DailyRatesAppend(plans, ActiveOnly(init), last);
        var xs := DailyRates(plans, ActiveOnly(init)) + [DailyRate(plans, last)];
        assert xs[..|xs| - 1] == DailyRates(plans, ActiveOnly(init));
      }
    }
  }

  /** Appending a contract adds its rate when it is active and nothing when it is not. */
  lemma TotalDailyEarningsAppend(plans: seq<Plan>, cs: seq<Contract>, c: Contract)
    ensures TotalDailyEarnings(plans, cs + [c]) == TotalDailyEarnings(plans, cs) + (if c.isActive then DailyRate(plans, c) else 0.0)
  {
    TotalDailyEarningsIsActiveRateSum(plans, cs + [c]);
    TotalDailyEarningsIsActiveRateSum(plans, cs);
    assert (cs + [c])[..|cs|] == cs;
  }

  lemma {:induction false} ActiveRateSumNonNegative(plans: seq<Plan>, cs: seq<Contract>)
    requires SaneCatalog(plans)
    ensures ActiveRateSum(plans, cs) >= 0.0
  {
    if cs != [] {
      ActiveRateSumNonNegative(plans, cs[..|cs| - 1]);
      FindPlanSane(plans, cs[|cs| - 1].planId);
    }
  }

  lemma TotalDailyEarningsNonNegative(plans: seq<Plan>, cs: seq<Contract>)
    requires SaneCatalog(plans)
    ensures TotalDailyEarnings(plans, cs) >= 0.0
  {
    TotalDailyEarningsIsActiveRateSum(plans, cs);
    ActiveRateSumNonNegative(plans, cs);
  }

  /** Deactivating one contract removes exactly its rate from the total. */
  lemma {:induction false} DeactivateRemovesRate(plans: seq<Plan>, cs: seq<Contract>, k: nat)
    requires k < |cs| && cs[k].isActive
    ensures ActiveRateSum(plans, cs[k := cs[k].(isActive := false)]) == ActiveRateSum(plans, cs) - DailyRate(plans, cs[k])
  {
    var cs' := cs[k := cs[k].(isActive := false)];
    if k < |cs| - 1 {
      DeactivateRemovesRate(plans, cs[..|cs| - 1], k);
      assert cs'[..|cs'| - 1] == cs[..|cs| - 1][k := cs[k].(isActive := false)];
    } else {
      assert cs'[..|cs'| - 1] == cs[..|cs| - 1];
    }
  }

  /** A tick changes counters only, so the total daily rate is the same afterwards. */
  lemma {:induction false} TickKeepsActiveRateSum(plans: seq<Plan>, cs: seq<Contract>, r: seq<Contract>)
    requires Ticked(plans, cs, r)
    ensures ActiveRateSum(plans, r) == ActiveRateSum(plans, cs)
  {
    if cs != [] {
      assert Ticked(plans, cs[..|cs| - 1], r[..|r| - 1]);
      TickKeepsActiveRateSum(plans, cs[..|cs| - 1], r[..|r| - 1]);
      assert r[|r| - 1].(totalEarned := cs[|cs| - 1].totalEarned) == cs[|cs| - 1];
    }
  }

  lemma TickKeepsTotalDailyEarnings(plans: seq<Plan>, cs: seq<Contract>, r: seq<Contract>)
    requires Ticked(plans, cs, r)
    ensures TotalDailyEarnings(plans, r) == TotalDailyEarnings(plans, cs)
  {
    TotalDailyEarningsIsActiveRateSum(plans, cs);
    TotalDailyEarningsIsActiveRateSum(plans, r);
    TickKeepsActiveRateSum(plans, cs, r);
  }

  /** "Total Earned (USD)": `calculateEarnings` summed over every contract, active or not. */
  function TotalEarned(plans: seq<Plan>, cs: seq<Contract>, now: int): real {
    if cs == [] then 0.0 else TotalEarned(plans, cs[..|cs| - 1], now) + CalculateEarnings(plans, cs[|cs| - 1], now)
  }

  lemma TotalEarnedAppend(plans: seq<Plan>, cs: seq<Contract>, c: Contract, now: int)
    ensures TotalEarned(plans, cs + [c], now) == TotalEarned(plans, cs, now) + CalculateEarnings(plans, c, now)
  {
    assert (cs + [c])[..|cs|] == cs;
  }

  lemma {:induction false} TotalEarnedMonotone(plans: seq<Plan>, cs: seq<Contract>, now1: int, now2: int)
    requires SaneCatalog(plans)
    requires now1 <= now2
    ensures TotalEarned(plans, cs, now1) <= TotalEarned(plans, cs, now2)
  {
    if cs != [] {
      TotalEarnedMonotone(plans, cs[..|cs| - 1], now1, now2);
      EarningsMonotone(plans, cs[|cs| - 1], now1, now2);
    }
  }

  /** A tick never lowers the total earned. */
  lemma {:induction false} TickNeverLowersTotalEarned(plans: seq<Plan>, cs: seq<Contract>, r: seq<Contract>, now: int)
    requires SaneCatalog(plans)
    requires Ticked(plans, cs, r)
    ensures TotalEarned(plans, cs, now) <= TotalEarned(plans, r, now)
  {
    if cs != [] {
      assert Ticked(plans, cs[..|cs| - 1], r[..|r| - 1]);
      TickNeverLowersTotalEarned(plans, cs[..|cs| - 1], r[..|r| - 1], now);
      TickRaisesEarnings(plans, cs[|cs| - 1], now);
      TickNeverDecreases(plans, cs[|cs| - 1]);
    }
  }

  /** Creating a contract for a catalog plan adds that plan's rate to the daily total and,
      at the creation instant, nothing to the total earned. */
  lemma NewContractAggregates(plans: seq<Plan>, cs: seq<Contract>, id: string, k: nat, userId: string, now: int)
    requires SaneCatalog(plans) && k < |plans|
    ensures var c := NewContract(id, plans[k], userId, now);
      && TotalDailyEarnings(plans, cs + [c]) == TotalDailyEarnings(plans, cs) + plans[k].dailyEarnings
      && TotalEarned(plans, cs + [c], now) == TotalEarned(plans, cs, now)
  {
    var c := NewContract(id, plans[k], userId, now);
    NewContractShape(plans, id, k, userId, now);
    FindPlanMember(plans, k);
    TotalDailyEarningsAppend(plans, cs, c);
    TotalEarnedAppend(plans, cs, c, now);
  }

  /** The progress ratio reaches 100 exactly when `d` reaches `duration`, and is not
      negative for non-negative `d`. */
  lemma ProgressRatio(d: real, duration: real)
    requires duration > 0.0
    ensures d / duration * 100.0 >= 100.0 <==> d >= duration
    ensures d >= 0.0 ==> d / duration * 100.0 >= 0.0
    ensures d / duration * 100.0 * duration == d * 100.0
  {
    assert d / duration * 100.0 == d * 100.0 / duration;
  }

  lemma DaysElapsedNonNegative(start: int, now: int)
    requires start <= now
    ensures DaysElapsed(start, now) >= 0
  {
    DaysElapsedExact(start, 0);
    DaysElapsedMonotone(start, start, now);
  }

  /** A contract's progress bar: `min(daysElapsed / duration * 100, 100)`; `None` when
      the plan is unknown and the contract is not rendered. */
  function Progress(plans: seq<Plan>, c: Contract, now: int): (r: Option<real>)
    requires SaneCatalog(plans)
    ensures r.Some? <==> FindPlan(plans, c.planId).Some?
    ensures r.Some? ==> r.value <= 100.0
    ensures r.Some? && now >= c.startDate ==> 0.0 <= r.value
    ensures r.Some? ==> (r.value == 100.0 <==> DaysElapsed(c.startDate, now) >= FindPlan(plans, c.planId).value.duration)
    ensures r.Some? && DaysElapsed(c.startDate, now) <= FindPlan(plans, c.planId).value.duration ==>
      r.value * FindPlan(plans, c.planId).value.duration as real == DaysElapsed(c.startDate, now) as real * 100.0
  {
    match FindPlan(plans, c.planId)
    case None => None
    case Some(p) =>
      FindPlanSane(plans, c.planId);
      var d := DaysElapsed(c.startDate, now);
      ProgressRatio(d as real, p.duration as real);
      assert now >= c.startDate ==> d >= 0 by {
        if now >= c.startDate { DaysElapsedNonNegative(c.startDate, now); }
      }
      var q := d as real / p.duration as real * 100.0;
      Some(if q <= 100.0 then q else 100.0)
  }

  /** The progress bar never moves back as time passes. */
  lemma ProgressMonotone(plans: seq<Plan>, c: Contract, now1: int, now2: int)
    requires SaneCatalog(plans) && now1 <= now2
    ensures Progress(plans, c, now1).Some? ==> Progress(plans, c, now1).value <= Progress(plans, c, now2).value
  {
    if FindPlan(plans, c.planId).Some? {
      var p := FindPlan(plans, c.planId).value;
      FindPlanSane(plans, c.planId);
      var d1, d2 := DaysElapsed(c.startDate, now1), DaysElapsed(c.startDate, now2);
      DaysElapsedMonotone(c.startDate, now1, now2);
      var q1, q2 := d1 as real / p.duration as real * 100.0, d2 as real / p.duration as real * 100.0;
      assert q1 <= q2 by {
        assert q1 == d1 as real * (100.0 / p.duration as real);
        assert q2 == d2 as real * (100.0 / p.duration as real);
        MulMonotone(d1 as real, d2 as real, 100.0 / p.duration as real);
      }
      assert Progress(plans, c, now1) == Some(if q1 <= 100.0 then q1 else 100.0);
      assert Progress(plans, c, now2) == Some(if q2 <= 100.0 then q2 else 100.0);
    }
  }
}
