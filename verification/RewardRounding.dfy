/**
 What one cashout pays at least: three roundings take little away from a report's exact share, so that all
 reports together get the content reward but for a few units each.
 */
module RewardRounding {
  import opened Sums
  import opened ListeningSpec
  import opened RewardBound
  import opened Rounding

  const TWO_63 := 0x8000_0000_0000_0000
  const TWO_96 := 0x1_0000_0000_0000_0000_0000_0000

  /** No product of `calculate_report_reward` reaches 128 bits, and no result 64. */
  predicate Unwrapped(payout: nat, time: nat, stake: nat, v: nat, listening: nat, full: nat)
    requires v > 0 && listening > 0 && full > 0
  {
    var reserve := payout * time;
    var staked := Scaled(reserve, stake, v);
    var shared := Scaled(staked, Capped(listening), full);
    && reserve < TWO_128 && reserve * stake < TWO_128 && staked * Capped(listening) < TWO_128
    && shared / listening < TWO_64
  }

  /** What the three roundings can take away from a report: less than one unit each, the first two scaled on. */
  ghost function Loss(listening: nat, full: nat): real
    requires listening > 0 && full > 0
  {
    Part(Part(1.0, Capped(listening) as real, full as real) + 1.0, 1.0, listening as real) + 1.0
  }

  /** Rounding down takes less than one away. */
  lemma {:induction false} FlooredLittle(a: nat, b: nat)
    requires b > 0
    ensures (a / b) as real > a as real / b as real - 1.0
  {
    var q := a / b;
    assert a < (q + 1) * b;
    assert a as real < ((q + 1) * b) as real == (q + 1) as real * b as real;
    assert ((q + 1) as real * b as real) / b as real == (q + 1) as real;
    Smaller(a as real, (q + 1) as real * b as real, b as real);
  }

  lemma {:induction false} Smaller(a: real, b: real, c: real)
    requires a < b && c > 0.0
    ensures a / c < b / c
  {
  }

  lemma {:induction false} PartSum(a: real, b: real, factor: real, divisor: real)
    requires divisor > 0.0
    ensures Part(a + b, factor, divisor) == Part(a, factor, divisor) + Part(b, factor, divisor)
  {
    assert (a + b) * factor == a * factor + b * factor;
  }

  /** One step of the reward: what was lost before is scaled, and less than one more is lost. */
  lemma {:induction false} StepLoses(a: nat, exact: real, lost: real, factor: nat, divisor: nat)
    requires divisor > 0 && exact - lost <= a as real && a * factor < TWO_128 && 0.0 <= lost
    ensures Scaled(a, factor, divisor) as real
      > Part(exact, factor as real, divisor as real) - (Part(lost, factor as real, divisor as real) + 1.0)
  {
    NotWrapped(a * factor, TWO_128);
    FloorOfPart(a, factor, divisor);
    hide Part;
    PartSum(a as real, lost, factor as real, divisor as real);
    PartsOrdered(exact, a as real + lost, factor as real, divisor as real);
  }

  lemma {:induction false} NotWrapped(a: nat, b: nat)
    requires a < b
    ensures a % b == a
  {
  }

  lemma {:induction false} FloorOfPart(a: nat, factor: nat, divisor: nat)
    requires divisor > 0
    ensures (a * factor / divisor) as real > Part(a as real, factor as real, divisor as real) - 1.0
  {
    var product := a * factor;
    FlooredLittle(product, divisor);
    RealProduct(a, factor);
    assert Part(a as real, factor as real, divisor as real) == product as real / divisor as real;
  }

  lemma {:induction false} PartsOrdered(a: real, b: real, factor: real, divisor: real)
    requires divisor > 0.0 && factor >= 0.0 && a <= b
    ensures Part(a, factor, divisor) <= Part(b, factor, divisor)
  {
    PartOrdered(0.0, b - a, factor, divisor);
    PartSum(a, b - a, factor, divisor);
  }

  lemma {:induction false} RewardUnwrapped(payout: nat, time: nat, stake: nat, v: nat, listening: nat, full: nat)
    requires v > 0 && listening > 0 && full > 0 && Unwrapped(payout, time, stake, v, listening, full)
    requires stake > 0 && payout > 0
    ensures ReportReward(payout, time, stake, v, listening, full)
      == Scaled(Scaled(payout * time, stake, v), Capped(listening), full) / listening
  {
    hide Capped, Scaled;
    NotWrapped(payout * time, TWO_128);
    NotWrapped(Scaled(Scaled(payout * time, stake, v), Capped(listening), full) / listening, TWO_64);
  }

  /** As long as nothing wraps around, a report gets its exact share but for the roundings. */
  lemma {:induction false} RewardAbove(payout: nat, time: nat, stake: nat, v: nat, listening: nat, full: nat)
    requires v > 0 && listening > 0 && full > 0 && Unwrapped(payout, time, stake, v, listening, full)
    ensures ReportReward(payout, time, stake, v, listening, full) as real
      > Part(Part(Part((payout * time) as real, stake as real, v as real), Capped(listening) as real, full as real),
        1.0, listening as real) - Loss(listening, full)
  {
    hide Part, ReportReward, Scaled, Capped;
    var cap := Capped(listening);
    var e0 := (payout * time) as real;
    var e1 := Part(e0, stake as real, v as real);
    var e2 := Part(e1, cap as real, full as real);
    var lost := Part(1.0, cap as real, full as real);
    PartOrdered(0.0, 1.0, cap as real, full as real);
    NoPart(stake as real, v as real);
    if stake == 0 || payout == 0 {
      NothingToPay(payout, time, stake, v);
      NoPart(cap as real, full as real);
      NoPart(1.0, listening as real);
      PartOrdered(0.0, lost + 1.0, 1.0, listening as real);
    } else {
      var staked := Scaled(payout * time, stake, v);
      var shared := Scaled(staked, cap, full);
      RewardUnwrapped(payout, time, stake, v, listening, full);
      NotWrapped(shared / listening, TWO_64);
      hide Unwrapped;
      StepLoses(payout * time, e0, 0.0, stake, v);
      StepLoses(staked, e1, 1.0, cap, full);
      LastStepLoses(shared, e2, lost + 1.0, listening);
    }
  }

  lemma {:induction false} NoPart(factor: real, divisor: real)
    requires divisor > 0.0
    ensures Part(0.0, factor, divisor) == 0.0
  {
  }

  lemma {:induction false} NothingToPay(payout: nat, time: nat, stake: nat, v: nat)
    requires v > 0 && (stake == 0 || payout == 0)
    ensures Part((payout * time) as real, stake as real, v as real) == 0.0
  {
    if payout == 0 {
      assert payout * time == 0;
    }
  }

  lemma {:induction false} LastStepLoses(a: nat, exact: real, lost: real, divisor: nat)
    requires divisor > 0 && exact - lost <= a as real && a / divisor < TWO_64 && lost >= 0.0
    ensures (a / divisor % TWO_64) as real > Part(exact, 1.0,
      divisor as real) - (Part(lost, 1.0, divisor as real) + 1.0)
  {
    FlooredLittle(a, divisor);
    PartSum(a as real, lost, 1.0, divisor as real);
    PartsOrdered(exact, a as real + lost, 1.0, divisor as real);
  }

  lemma {:induction false} RewardAboveShare(t: Terms, r: Report, payout: nat)
    requires t.totalVested > 0 && r.spinner < |t.stakes|
    requires PlayedOn(t.all, r.listener, r.spinner) > 0 && Local(t.all, r.spinner).capped > 0
    requires Unwrapped(payout, r.playTime, t.stakes[r.spinner], t.totalVested,
                       PlayedOn(t.all, r.listener, r.spinner), Local(t.all, r.spinner).capped)
    ensures ReportReward(payout, r.playTime, t.stakes[r.spinner], t.totalVested,
      PlayedOn(t.all, r.listener, r.spinner), Local(t.all, r.spinner).capped) as real
      > Mul(payout as real, Share(t, r)) - Loss(PlayedOn(t.all, r.listener, r.spinner), Local(t.all, r.spinner).capped)
  {
    hide ReportReward, Capped, Part, Share, Unwrapped, Loss;
    var listening, full := PlayedOn(t.all, r.listener, r.spinner), Local(t.all, r.spinner).capped;
    TallyIsPlayed(Select(t.all, r.spinner), r.listener);
    RewardAbove(payout, r.playTime, t.stakes[r.spinner], t.totalVested, listening, full);
    RealProduct(payout, r.playTime);
    SameShare((payout * r.playTime) as real, payout as real, r.playTime as real, t.stakes[r.spinner] as real,
      t.totalVested as real, Capped(listening) as real, full as real, listening as real);
    ShareIs(t, r, listening, full);
  }

  lemma {:induction false} ScaledAtMost(a: nat, factor: nat, divisor: nat)
    requires 0 < divisor && factor <= divisor
    ensures Scaled(a, factor, divisor) <= a
  {
    var product := a * factor % TWO_128;
    Truncated(a * factor, TWO_128);
    Scale(factor, divisor, a);
    DivisionMonotone(product, a * divisor, divisor);
    Cancel(a, divisor);
  }

  lemma {:induction false} ProductBelow(a: nat, b: nat, aMax: nat, bMax: nat)
    requires a < aMax && b < bMax
    ensures a * b < aMax * bMax
  {
    Scale(a, aMax - 1, b);
    Scale(b, bMax, aMax - 1);
    assert (aMax - 1) * bMax == aMax * bMax - bMax;
  }

  lemma {:induction false} ResultFits(payout: nat, time: nat, shared: nat, listening: nat)
    requires 0 < time <= listening && shared <= payout * time
    ensures shared / listening <= payout
  {
    Scale(time, listening, payout);
    DivisionMonotone(shared, payout * listening, listening);
    Cancel(payout, listening);
  }

  lemma {:induction false} StakeFits(payout: nat, time: nat, stake: nat, v: nat)
    requires stake <= v && payout * v < TWO_96 && time < TWO_32
    ensures payout * time * stake < TWO_128
  {
    Scale(stake, v, payout);
    ProductBelow(payout * stake, time, TWO_96, TWO_32);
    assert payout * time * stake == payout * stake * time;
  }

  /** Rewards of an ordinary size do not wrap around. */
  lemma {:induction false} SmallEnough(payout: nat, time: nat, stake: nat, v: nat, listening: nat, full: nat)
    requires 0 < time <= listening && time < TWO_32 && stake <= v && 0 < v && 0 < full && Capped(listening) <= full
    requires payout < TWO_63 && payout * v < TWO_96
    ensures Unwrapped(payout, time, stake, v, listening, full)
  {
    hide Scaled;
    ProductBelow(payout, time, TWO_63, TWO_32);
    StakeFits(payout, time, stake, v);
    ScaledAtMost(payout * time, stake, v);
    var staked := Scaled(payout * time, stake, v);
    var cap: nat := Capped(listening);
    assert cap < 4096;
    hide Capped;
    ScaledAtMost(staked, cap, full);
    ProductBelow(staked, cap, TWO_63 * TWO_32, 4096);
    ResultFits(payout, time, Scaled(staked, cap, full), listening);
  }

  /** Less than three units of a report's share are lost. */
  lemma {:induction false} LittleIsLost(listening: nat, full: nat)
    requires listening > 0 && full > 0 && Capped(listening) <= full
    ensures 1.0 <= Loss(listening, full) <= 3.0
  {
    var part := Part(1.0, Capped(listening) as real, full as real);
    AtMostOne(Capped(listening), full);
    NonNegativePart(Capped(listening), full);
    AtMostTwo(part + 1.0, listening);
  }

  lemma {:induction false} AtMostTwo(a: real, b: nat)
    requires 0.0 <= a <= 2.0 && b > 0
    ensures 0.0 <= Part(a, 1.0, b as real) <= 2.0
  {
  }

  /** The amounts are such that nothing wraps around. */
  ghost predicate Moderate(t: Terms, payout: nat) {
    payout < TWO_63 && payout * t.totalVested < TWO_96 && TotalTime(t.all) < TWO_32
  }

  lemma {:induction false} TimeAtMost(rs: seq<Report>, r: Report)
    requires r in rs
    ensures r.playTime <= TotalTime(rs)
  {
    if rs[|rs| - 1] != r {
      TimeAtMost(rs[..|rs| - 1], r);
    }
  }

  /** A listener's capped time is part of the full-users time. */
  lemma {:induction false} CappedAtMost(rs: seq<Report>, l: Listener, p: nat)
    ensures Capped(PlayedOn(rs, l, p)) <= Local(rs, p).capped
  {
    TallyIsPlayed(Select(rs, p), l);
    PartOfCount(Tally(Select(rs, p)), l);
  }

  /** What is lost of a report's share. */
  ghost function LossOf(t: Terms, r: Report): real
    requires r in t.all && r.playTime > 0
  {
    ReportCounts(t.all, r);
    Loss(PlayedOn(t.all, r.listener, r.spinner), Local(t.all, r.spinner).capped)
  }

  /** A report gets its exact share of the payout but for less than three units. */
  lemma {:induction false} RewardIsNearShare(t: Terms, r: Report, payout: nat)
    requires Fixed(t) && Moderate(t, payout) && r in t.all && t.stakes[r.spinner] <= t.totalVested
    ensures RewardOf(t, r, payout) as real > Mul(payout as real, Share(t, r)) - LossOf(t, r)
    ensures 1.0 <= LossOf(t, r) <= 3.0
  {
    hide Unwrapped, ReportReward, Share, Loss, Capped, PlayedOn, Local, Mul;
    ReportCounts(t.all, r);
    TimeAtMost(t.all, r);
    CappedAtMost(t.all, r.listener, r.spinner);
    var listening, full := PlayedOn(t.all, r.listener, r.spinner), Local(t.all, r.spinner).capped;
    SmallEnough(payout, r.playTime, t.stakes[r.spinner], t.totalVested, listening, full);
    RewardAboveShare(t, r, payout);
    LittleIsLost(listening, full);
  }

  /** What is lost of the first `n` reports' shares. */
  ghost function Losses(t: Terms, n: nat): real
    requires Fixed(t) && n <= |t.all|
  {
    if n == 0 then 0.0 else Losses(t, n - 1) + LossOf(t, t.all[n - 1])
  }

  lemma {:induction false} RewardsAboveShares(t: Terms, n: nat, payout: nat)
    requires Fixed(t) && n <= |t.all| && Moderate(t, payout)
    requires forall p :: 0 <= p < |t.stakes| ==> t.stakes[p] <= t.totalVested
    ensures Rewards(t, n, payout) as real >= Mul(payout as real, Shares(t, t.all[..n], |t.stakes|)) - Losses(t, n)
    ensures Losses(t, n) <= 3.0 * n as real
  {
    hide Share, Mul, Shares, RewardOf, LossOf, Moderate;
    if n > 0 {
      var r := t.all[n - 1];
      RewardsAboveShares(t, n - 1, payout);
      RewardIsNearShare(t, r, payout);
      assert t.all[..n] == t.all[..n - 1] + [r];
      SharesOne(t, t.all[..n - 1], r, |t.stakes|);
      MulDistributes(Shares(t, t.all[..n - 1], |t.stakes|), Share(t, r), payout as real);
    } else {
      MulZero(payout as real);
      NoReports(t);
    }
  }

  lemma {:induction false} NoReports(t: Terms)
    requires Fixed(t)
    ensures Shares(t, t.all[..0], |t.stakes|) == 0.0
  {
  }

  /** Every platform with a stake has a report, and the stakes make up the total. */
  ghost predicate AllPlayed(t: Terms) {
    && Sum(|t.stakes|, StakeTerm(t.stakes)) == t.totalVested
    && forall p :: 0 <= p < |t.stakes| && t.stakes[p] > 0 ==> exists r :: r in t.all && r.spinner == p
  }

  /**
   When all reports are cashed and every platform with a stake has some, they get the whole payout, but for
   what rounding takes away: less than three units a report.
   */
  lemma {:induction false} RewardsNearly(t: Terms, payout: nat)
    requires Fixed(t) && Moderate(t, payout) && AllPlayed(t)
    ensures Rewards(t, |t.all|, payout) as real >= payout as real - Losses(t, |t.all|)
    ensures Rewards(t, |t.all|, payout) + 3 * |t.all| >= payout
  {
    hide Shares, Rewards, Losses, Mul, Moderate;
    var n := |t.all|;
    forall p | 0 <= p < |t.stakes|
      ensures t.stakes[p] <= t.totalVested
      ensures t.stakes[p] == 0 || Local(t.all, p).capped > 0
    {
      PartOfSum(|t.stakes|, StakeTerm(t.stakes), p);
      if t.stakes[p] > 0 {
        var r :| r in t.all && r.spinner == p;
        ReportCounts(t.all, r);
      }
    }
    RewardsAboveShares(t, n, payout);
    AllShares(t, |t.stakes|);
    assert t.all[..n] == t.all;
    WholeOf(payout, t.totalVested);
  }

  lemma {:induction false} WholeOf(payout: nat, v: nat)
    requires v > 0
    ensures Mul(payout as real, v as real / v as real) == payout as real
  {
  }
}
