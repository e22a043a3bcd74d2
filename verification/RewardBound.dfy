/**
 What one cashout can pay: rewards of reports, each rounded down three times, against the content reward.
 */
module RewardBound {
  import opened Sums
  import opened ListeningSpec

  const TWO_64 := 0x1_0000_0000_0000_0000
  const TWO_128 := 0x1_0000_0000_0000_0000_0000_0000_0000_0000

  /** `calculate_report_reward`; products are 128 bits wide, the result 64. */
  function ReportReward(payout: nat, playTime: nat, stake: nat, totalVested: nat, listening: nat,
                        fullUsersTime: nat): (reward: nat)
    requires totalVested > 0 && listening > 0 && fullUsersTime > 0
  {
    if stake == 0 || payout == 0 then 0
    else
      var reserve := payout * playTime % TWO_128;
      var shared := Scaled(Scaled(reserve, stake, totalVested), Capped(listening), fullUsersTime);
      shared / listening % TWO_64
  }

  /** A 128-bit product, divided. */
  function Scaled(a: nat, factor: nat, divisor: nat): nat
    requires divisor > 0
  {
    a * factor % TWO_128 / divisor
  }

  /** Everything that stays fixed while a cashout computes its rewards. */
  datatype Terms = Terms(all: seq<Report>, stakes: seq<nat>, totalVested: nat)

  ghost predicate Fixed(t: Terms) {
    && t.totalVested > 0
    && forall r :: r in t.all ==> r.spinner < |t.stakes| && r.playTime > 0
  }

  /** A product, named so that proofs can treat it as a whole. */
  ghost function Mul(a: real, b: real): real {
    a * b
  }

  /** How much of the time of `l` counts. */
  ghost function Rate(times: Times, l: Listener): real {
    if Get(times, l) == 0 then 0.0 else Capped(Get(times, l)) as real / Get(times, l) as real
  }

  ghost function Times(t: Terms, p: nat): Times {
    Tally(Select(t.all, p))
  }

  /** What one second that counts on platform `p` is worth of the payout. */
  ghost function Price(t: Terms, p: nat): real
    requires t.totalVested > 0 && p < |t.stakes|
  {
    var full := Local(t.all, p).capped;
    if full <= 0 then 0.0 else t.stakes[p] as real / t.totalVested as real / full as real
  }

  ghost predicate Within(t: Terms, rs: seq<Report>) {
    t.totalVested > 0 && forall r :: r in rs ==> r.spinner < |t.stakes|
  }

  /** The exact share of the payout that a report is worth. */
  ghost function Share(t: Terms, r: Report): real
    requires t.totalVested > 0 && r.spinner < |t.stakes|
  {
    Mul(Price(t, r.spinner), Mul(r.playTime as real, Rate(Times(t, r.spinner), r.listener)))
  }

  /** The shares of all reports of platforms with ids below `n`. */
  ghost function Shares(t: Terms, rs: seq<Report>, n: nat): real
    requires Within(t, rs)
  {
    if rs == [] then 0.0
    else
      var r := rs[|rs| - 1];
      Shares(t, rs[..|rs| - 1], n) + if r.spinner < n then Share(t, r) else 0.0
  }

  /** The play time of the listeners in `keys` as far as it counts. */
  ghost function Weighed(rs: seq<Report>, times: Times, keys: set<Listener>): real {
    if rs == [] then 0.0
    else
      var r := rs[|rs| - 1];
      Weighed(rs[..|rs| - 1], times, keys)
        + if r.listener in keys then Mul(r.playTime as real, Rate(times, r.listener)) else 0.0
  }

  lemma {:induction false} MulDistributes(a: real, b: real, c: real)
    ensures Mul(a + b, c) == Mul(a, c) + Mul(b, c) && Mul(c, a + b) == Mul(c, a) + Mul(c, b)
  {
  }

  lemma {:induction false} MulZero(c: real)
    ensures Mul(0.0, c) == 0.0 && Mul(c, 0.0) == 0.0
  {
  }

  lemma {:induction false} WeighedOneMore(rs: seq<Report>, times: Times, keys: set<Listener>, x: Listener)
    requires x in keys
    ensures Weighed(rs, times, keys) == Weighed(rs, times, keys - {x}) + Mul(Played(rs, x) as real, Rate(times, x))
  {
    hide Rate, Mul;
    if rs != [] {
      var b, r := rs[..|rs| - 1], rs[|rs| - 1];
      WeighedOneMore(b, times, keys, x);
      MulDistributes(Played(b, x) as real, r.playTime as real, Rate(times, x));
    } else {
      MulZero(Rate(times, x));
    }
  }

  lemma {:induction false} WeighedNothing(rs: seq<Report>, times: Times)
    ensures Weighed(rs, times, {}) == 0.0
  {
    if rs != [] {
      WeighedNothing(rs[..|rs| - 1], times);
    }
  }

  /** Over all of a listener's time, what counts is the capped time. */
  lemma {:induction false} RateIsCapped(times: Times, l: Listener)
    ensures Mul(Get(times, l) as real, Rate(times, l)) == Capped(Get(times, l)) as real
  {
  }

  /** Over all listeners in `m`, the play time that counts is the full-users time. */
  lemma {:induction false} WeighedIsCapped(rs: seq<Report>, times: Times, m: Times)
    requires forall l :: l in m ==> l in times && times[l] == m[l] == Played(rs, l)
    ensures Weighed(rs, times, m.Keys) == Recount(m).capped as real
    decreases |m|
  {
    hide Rate, Weighed, Recount, Played, Mul;
    if m == map[] {
      NothingCounted(rs, times, m);
    } else {
      var x := Pick(m);
      WeighedOneMore(rs, times, m.Keys, x);
      assert m.Keys - {x} == (m - {x}).Keys;
      WeighedIsCapped(rs, times, m - {x});
      RateIsCapped(times, x);
      RecountAny(m, x);
    }
  }

  lemma {:induction false} NothingCounted(rs: seq<Report>, times: Times, m: Times)
    requires m == map[]
    ensures Weighed(rs, times, m.Keys) == Recount(m).capped as real
  {
    WeighedNothing(rs, times);
    assert m.Keys == {};
  }

  lemma {:induction false} TallyHasAll(rs: seq<Report>)
    ensures forall r :: r in rs ==> r.listener in Tally(rs)
  {
    if rs != [] {
      TallyHasAll(rs[..|rs| - 1]);
    }
  }

  lemma {:induction false} SharesOne(t: Terms, b: seq<Report>, r: Report, n: nat)
    requires Within(t, b + [r]) && Within(t, b) && r.spinner < |t.stakes|
    ensures Shares(t, b + [r], n) == Shares(t, b, n) + if r.spinner < n then Share(t, r) else 0.0
  {
    assert (b + [r])[..|b|] == b;
  }

  lemma {:induction false} WeighedOne(b: seq<Report>, r: Report, times: Times, keys: set<Listener>)
    ensures Weighed(b + [r], times, keys)
         == Weighed(b, times, keys) + if r.listener in keys then Mul(r.playTime as real, Rate(times, r.listener))
           else 0.0
  {
    assert (b + [r])[..|b|] == b;
  }

  /** The reports of platform `p` share what is paid for it by the time of theirs that counts. */
  lemma {:induction false} SharesOfPlatform(t: Terms, rs: seq<Report>, p: nat)
    requires p < |t.stakes| && Within(t, rs) && forall r :: r in rs && r.spinner == p ==> r.listener in Times(t, p)
    ensures Shares(t, rs, p + 1) - Shares(t, rs, p) ==
      Mul(Price(t, p), Weighed(Select(rs, p), Times(t, p), Times(t, p).Keys))
  {
    hide Rate, Price, Times, Mul;
    if rs != [] {
      hide Weighed, Shares, Select;
      var b, r := rs[..|rs| - 1], rs[|rs| - 1];
      var times := Times(t, p);
      assert rs == b + [r] && r in rs;
      assert forall x :: x in b ==> x in rs;
      SharesOfPlatform(t, b, p);
      SelectOne(b, r, p);
      SharesOne(t, b, r, p);
      SharesOne(t, b, r, p + 1);
      if r.spinner == p {
        WeighedOne(Select(b, p), r, times, times.Keys);
        MulDistributes(Weighed(Select(b, p), times, times.Keys), Mul(r.playTime as real, Rate(times, r.listener)),
          Price(t, p));
      } else {
        assert Select(b, p) + [] == Select(b, p);
      }
    } else {
      MulZero(Price(t, p));
    }
  }

  ghost function StakeTerm(stakes: seq<nat>): nat -> int {
    (p: nat) => if p < |stakes| then stakes[p] else 0
  }

  lemma {:induction false} PlatformShares(t: Terms, p: nat)
    requires p < |t.stakes| && Within(t, t.all)
    ensures Shares(t, t.all, p + 1) - Shares(t, t.all, p) <= t.stakes[p] as real / t.totalVested as real
    ensures t.stakes[p] == 0 || Local(t.all, p).capped > 0 ==>
      Shares(t, t.all, p + 1) - Shares(t, t.all, p) == t.stakes[p] as real / t.totalVested as real
  {
    hide Shares, Weighed, Rate, Played, Recount, Tally;
    var sel, times := Select(t.all, p), Times(t, p);
    forall r | r in t.all && r.spinner == p
      ensures r.listener in times
    {
      Selected(t.all, r, p);
      TallyHasAll(sel);
    }
    SharesOfPlatform(t, t.all, p);
    forall l | l in times
      ensures times[l] == Played(sel, l)
    {
      TallyIsPlayed(sel, l);
    }
    WeighedIsCapped(sel, times, times);
    PriceOfAll(t, p);
  }

  lemma {:induction false} Selected(rs: seq<Report>, r: Report, p: nat)
    requires r in rs && r.spinner == p
    ensures r in Select(rs, p)
  {
    if rs[|rs| - 1] != r {
      Selected(rs[..|rs| - 1], r, p);
    }
  }

  /** All that counts on a platform together is worth the platform's part of the stakes, if anything counts there. */
  lemma {:induction false} PriceOfAll(t: Terms, p: nat)
    requires t.totalVested > 0 && p < |t.stakes|
    ensures Mul(Price(t, p), Local(t.all, p).capped as real) <= t.stakes[p] as real / t.totalVested as real
    ensures t.stakes[p] == 0 || Local(t.all, p).capped > 0 ==>
      Mul(Price(t, p), Local(t.all, p).capped as real) == t.stakes[p] as real / t.totalVested as real
  {
    CountersFit(Tally(Select(t.all, p)));
    hide Mul, Tally, Select;
    PartOfAll(t.stakes[p], t.totalVested, Local(t.all, p).capped);
  }

  lemma {:induction false} PartOfAll(stake: nat, v: nat, full: int)
    requires v > 0 && full >= 0
    ensures Mul(if full <= 0 then 0.0 else stake as real / v as real / full as real, full as real)
      <= stake as real / v as real
    ensures stake == 0 || full > 0 ==>
      Mul(if full <= 0 then 0.0 else stake as real / v as real / full as real, full as real) ==
        stake as real / v as real
  {
    if full > 0 {
      PartOfFull(stake as real / v as real, full as real);
    } else {
      NonNegativePart(stake, v);
    }
  }

  lemma {:induction false} PartOfFull(part: real, full: real)
    requires full > 0.0
    ensures part / full * full == part
  {
  }

  lemma {:induction false} NonNegativePart(a: nat, b: nat)
    requires b > 0
    ensures a as real / b as real >= 0.0
  {
  }

  lemma {:induction false} AllShares(t: Terms, n: nat)
    requires n <= |t.stakes| && Within(t, t.all)
    ensures Shares(t, t.all, n) <= Sum(n, StakeTerm(t.stakes)) as real / t.totalVested as real
    ensures (forall p :: 0 <= p < n ==> t.stakes[p] == 0 || Local(t.all, p).capped > 0) ==>
      Shares(t, t.all, n) == Sum(n, StakeTerm(t.stakes)) as real / t.totalVested as real
  {
    if n == 0 {
      NoShares(t, t.all);
    } else {
      hide Shares, Price, Share;
      AllShares(t, n - 1);
      PlatformShares(t, n - 1);
      AddedParts(Sum(n - 1, StakeTerm(t.stakes)), t.stakes[n - 1], t.totalVested);
    }
  }

  lemma {:induction false} AddedParts(a: int, b: int, v: int)
    requires v > 0
    ensures (a + b) as real / v as real == a as real / v as real + b as real / v as real
  {
  }

  lemma {:induction false} NoShares(t: Terms, rs: seq<Report>)
    requires Within(t, rs)
    ensures Shares(t, rs, 0) == 0.0
  {
    if rs != [] {
      NoShares(t, rs[..|rs| - 1]);
    }
  }

  lemma {:induction false} ShareNonNegative(t: Terms, r: Report)
    requires t.totalVested > 0 && r.spinner < |t.stakes|
    ensures Share(t, r) >= 0.0
  {
    hide Mul, Price, Rate;
    var p := r.spinner;
    PriceNonNegative(t, p);
    RateNonNegative(Times(t, p), r.listener);
    Positive(r.playTime as real, Rate(Times(t, p), r.listener));
    Positive(Price(t, p), Mul(r.playTime as real, Rate(Times(t, p), r.listener)));
  }

  lemma {:induction false} PriceNonNegative(t: Terms, p: nat)
    requires t.totalVested > 0 && p < |t.stakes|
    ensures Price(t, p) >= 0.0
  {
    NonNegativePart(t.stakes[p], t.totalVested);
    var full, part := Local(t.all, p).capped, t.stakes[p] as real / t.totalVested as real;
    if full > 0 {
      Ratio(part, full as real);
    }
  }

  lemma {:induction false} RateNonNegative(times: Times, l: Listener)
    ensures Rate(times, l) >= 0.0
  {
    if Get(times, l) > 0 {
      Ratio(Capped(Get(times, l)) as real, Get(times, l) as real);
    }
  }

  lemma {:induction false} Ratio(a: real, b: real)
    requires a >= 0.0 && b > 0.0
    ensures a / b >= 0.0
  {
  }

  lemma {:induction false} Positive(a: real, b: real)
    requires a >= 0.0 && b >= 0.0
    ensures Mul(a, b) >= 0.0
  {
  }

  /** The reports that are cashed out share no more than all reports do. */
  lemma {:induction false} SharesGrow(t: Terms, rs: seq<Report>, k: nat, n: nat)
    requires Within(t, rs) && k <= |rs|
    ensures Shares(t, rs[..k], n) <= Shares(t, rs, n)
  {
    if k == |rs| {
      assert rs[..k] == rs;
    } else {
      var b := rs[..|rs| - 1];
      SharesGrow(t, b, k, n);
      assert b[..k] == rs[..k];
      ShareNonNegative(t, rs[|rs| - 1]);
    }
  }

  /** Rounding down does not exceed the fraction. */
  lemma {:induction false} Floored(a: nat, b: nat)
    requires b > 0
    ensures (a / b) as real <= a as real / b as real
  {
    assert a / b * b <= a;
    assert (a / b * b) as real / b as real == (a / b) as real;
  }

  /** A fraction of `a`, without rounding. */
  ghost function Part(a: real, factor: real, divisor: real): real
    requires divisor > 0.0
  {
    a * factor / divisor
  }

  lemma {:induction false} PartOrdered(a: real, b: real, factor: real, divisor: real)
    requires divisor > 0.0 && factor >= 0.0 && 0.0 <= a <= b
    ensures 0.0 <= Part(a, factor, divisor) <= Part(b, factor, divisor)
  {
    ProductsOrdered(a, b, factor);
    ProductsOrdered(a * factor, b * factor, 1.0 / divisor);
  }

  lemma {:induction false} ProductsOrdered(a: real, b: real, c: real)
    requires 0.0 <= a <= b && c >= 0.0
    ensures 0.0 <= a * c <= b * c
  {
  }

  /** One step of the reward: a product, possibly wrapped, divided and rounded down. */
  lemma {:induction false} Step(a: nat, exact: real, factor: nat, divisor: nat)
    requires divisor > 0 && a as real <= exact
    ensures Scaled(a, factor, divisor) as real <= Part(exact, factor as real, divisor as real)
  {
    var wrapped := a * factor % TWO_128;
    Truncated(a * factor, TWO_128);
    Floored(wrapped, divisor);
    ProductsOrdered(wrapped as real, (a * factor) as real, 1.0 / divisor as real);
    PartOrdered(a as real, exact, factor as real, divisor as real);
  }

  lemma {:induction false} Truncated(a: nat, b: nat)
    requires b > 0
    ensures a % b <= a
  {
  }

  /** Three roundings and three wrap-arounds only take away from the exact share. */
  lemma {:induction false} RewardBelow(payout: nat, time: nat, stake: nat, v: nat, listening: nat, full: nat)
    requires v > 0 && listening > 0 && full > 0
    ensures ReportReward(payout, time, stake, v, listening, full) as real
      <= Part(Part(Part((payout * time) as real, stake as real, v as real), Capped(listening) as real, full as real),
        1.0, listening as real)
  {
    hide Part, Capped, Scaled;
    var e0 := (payout * time) as real;
    var e1 := Part(e0, stake as real, v as real);
    var e2 := Part(e1, Capped(listening) as real, full as real);
    if stake == 0 || payout == 0 {
      PartOrdered(e0, e0, stake as real, v as real);
      PartOrdered(e1, e1, Capped(listening) as real, full as real);
      PartOrdered(e2, e2, 1.0, listening as real);
    } else {
      var reserve := payout * time % TWO_128;
      Truncated(payout * time, TWO_128);
      Step(reserve, e0, stake, v);
      var staked := Scaled(reserve, stake, v);
      Step(staked, e1, Capped(listening), full);
      var shared := Scaled(staked, Capped(listening), full);
      LastStep(shared, e2, listening);
    }
  }

  lemma {:induction false} LastStep(a: nat, exact: real, divisor: nat)
    requires divisor > 0 && a as real <= exact
    ensures (a / divisor % TWO_64) as real <= Part(exact, 1.0, divisor as real)
  {
    Truncated(a / divisor, TWO_64);
    Floored(a, divisor);
    PartOrdered(a as real, exact, 1.0, divisor as real);
  }

  lemma {:induction false} RealProduct(a: nat, b: nat)
    ensures (a * b) as real == a as real * b as real
  {
  }

  lemma {:induction false} SameShare(played: real, payout: real, time: real, stake: real, v: real, capped: real,
                                     full: real, listening: real)
    requires v > 0.0 && full > 0.0 && listening > 0.0 && played == payout * time
    ensures Part(Part(Part(played, stake, v), capped, full), 1.0, listening)
         == payout * (stake / v / full * (time * (capped / listening)))
  {
    var a, b, c := stake / v, capped / listening, 1.0 / full;
    assert Part(played, stake, v) == played * a;
    assert Part(played * a, capped, full) == played * a * capped * c;
    assert Part(played * a * capped * c, 1.0, listening) == played * a * c * b;
    assert a / full == a * c;
    assert payout * (a * c * (time * b)) == payout * time * a * c * b;
  }

  lemma {:induction false} RewardBelowShare(t: Terms, r: Report, payout: nat)
    requires t.totalVested > 0 && r.spinner < |t.stakes|
    requires PlayedOn(t.all, r.listener, r.spinner) > 0 && Local(t.all, r.spinner).capped > 0
    ensures ReportReward(payout, r.playTime, t.stakes[r.spinner], t.totalVested,
      PlayedOn(t.all, r.listener, r.spinner), Local(t.all, r.spinner).capped)
      as real <= Mul(payout as real, Share(t, r))
  {
    hide ReportReward, Capped, Part, Share;
    var listening, full := PlayedOn(t.all, r.listener, r.spinner), Local(t.all, r.spinner).capped;
    TallyIsPlayed(Select(t.all, r.spinner), r.listener);
    RewardBelow(payout, r.playTime, t.stakes[r.spinner], t.totalVested, listening, full);
    RealProduct(payout, r.playTime);
    SameShare((payout * r.playTime) as real, payout as real, r.playTime as real, t.stakes[r.spinner] as real,
      t.totalVested as real,
              Capped(listening) as real, full as real, listening as real);
    ShareIs(t, r, listening, full);
  }

  lemma {:induction false} ShareIs(t: Terms, r: Report, listening: nat, full: int)
    requires t.totalVested > 0 && r.spinner < |t.stakes| && full > 0 && listening > 0
    requires listening == Get(Times(t, r.spinner), r.listener) && full == Local(t.all, r.spinner).capped
    ensures Share(t, r) == t.stakes[r.spinner] as real / t.totalVested as real / full as real
      * (r.playTime as real * (Capped(listening) as real / listening as real))
  {
    hide Capped, Local, Times;
  }

  /** Every report counts on its platform. */
  lemma {:induction false} ReportCounts(rs: seq<Report>, r: Report)
    requires r in rs && r.playTime > 0
    ensures PlayedOn(rs, r.listener, r.spinner) >= r.playTime && Local(rs, r.spinner).capped > 0
  {
    var sel := Select(rs, r.spinner);
    Selected(rs, r, r.spinner);
    PlayedPart(sel, r);
    TallyIsPlayed(sel, r.listener);
    PartOfCount(Tally(sel), r.listener);
  }

  lemma {:induction false} PlayedPart(rs: seq<Report>, r: Report)
    requires r in rs
    ensures Played(rs, r.listener) >= r.playTime
  {
    if rs[|rs| - 1] != r {
      PlayedPart(rs[..|rs| - 1], r);
    }
  }

  ghost function RewardOf(t: Terms, r: Report, payout: nat): nat
    requires t.totalVested > 0 && r.spinner < |t.stakes| && r in t.all && r.playTime > 0
  {
    ReportCounts(t.all, r);
    ReportReward(payout, r.playTime, t.stakes[r.spinner], t.totalVested, PlayedOn(t.all, r.listener, r.spinner),
      Local(t.all, r.spinner).capped)
  }

  /** What the first `n` reports are paid. */
  ghost function Rewards(t: Terms, n: nat, payout: nat): nat
    requires Fixed(t) && n <= |t.all|
  {
    if n == 0 then 0 else Rewards(t, n - 1, payout) + RewardOf(t, t.all[n - 1], payout)
  }

  lemma {:induction false} RewardsBelowShares(t: Terms, n: nat, payout: nat)
    requires Fixed(t) && n <= |t.all|
    ensures Rewards(t, n, payout) as real <= Mul(payout as real, Shares(t, t.all[..n], |t.stakes|))
  {
    if n > 0 {
      hide Share, ReportReward, Mul, Shares, PlayedOn;
      var r := t.all[n - 1];
      RewardsBelowShares(t, n - 1, payout);
      ReportCounts(t.all, r);
      RewardBelowShare(t, r, payout);
      assert t.all[..n] == t.all[..n - 1] + [r];
      SharesOne(t, t.all[..n - 1], r, |t.stakes|);
      MulDistributes(Shares(t, t.all[..n - 1], |t.stakes|), Share(t, r), payout as real);
    } else {
      MulZero(payout as real);
    }
  }

  /** However many reports are cashed out, they are not paid more than there is, if the stakes are part of the total. */
  lemma {:induction false} RewardsWithin(t: Terms, n: nat, payout: nat)
    requires Fixed(t) && n <= |t.all| && Sum(|t.stakes|, StakeTerm(t.stakes)) <= t.totalVested
    ensures Rewards(t, n, payout) <= payout
  {
    hide Rewards, Shares;
    var shares := Shares(t, t.all[..n], |t.stakes|);
    RewardsBelowShares(t, n, payout);
    SharesGrow(t, t.all, n, |t.stakes|);
    AllShares(t, |t.stakes|);
    AtMostOne(Sum(|t.stakes|, StakeTerm(t.stakes)), t.totalVested);
    ScaledDown(payout as real, shares);
  }

  lemma {:induction false} AtMostOne(a: int, b: nat)
    requires a <= b && b > 0
    ensures a as real / b as real <= 1.0
  {
  }

  lemma {:induction false} ScaledDown(a: real, b: real)
    requires a >= 0.0 && b <= 1.0
    ensures Mul(a, b) <= a
  {
  }
}
