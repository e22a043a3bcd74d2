/**
 Listening reports and the statistics kept along with them, changed in place by reports and cashouts.
 */
module Listening {
  import opened Sums
  import opened ListeningSpec
  import opened ListeningSteps
  import opened RewardBound
  import opened RewardRounding

  const SECONDS_PER_DAY := 86400

  /** `listened` holds the time of every listener with an expired report, platform by platform. */
  ghost predicate Collected(listened: map<nat, Times>, expired: seq<Report>) {
    && (forall p, l :: p in listened && l in listened[p] ==> listened[p][l] == PlayedOn(expired, l, p) > 0)
    && (forall r :: r in expired ==> r.spinner in listened && r.listener in listened[r.spinner])
  }

  ghost predicate InOrder(rs: seq<Report>) {
    forall i, j :: 0 <= i < j < |rs| ==> rs[i].created <= rs[j].created
  }

  lemma {:induction false} RestKept(rs: seq<Report>, n: nat, platformCount: nat, now: nat)
    requires n <= |rs| && AllProper(rs, platformCount) && InOrder(rs)
    ensures rs == rs[..n] + rs[n..] && AllProper(rs[n..], platformCount) && InOrder(rs[n..])
    ensures TotalTime(rs[n..]) <= TotalTime(rs)
    ensures n < |rs| && rs[n].created + SECONDS_PER_DAY > now ==> forall r :: r in rs[n..] ==>
      r.created + SECONDS_PER_DAY > now
  {
    assert rs == rs[..n] + rs[n..];
    TimeSplit(rs[..n], rs[n..]);
  }

  lemma {:induction false} LastInOrder(rs: seq<Report>, r: Report, platformCount: nat)
    requires AllProper(rs, platformCount) && InOrder(rs) && Proper(r) && r.spinner < platformCount
    requires forall x :: x in rs ==> x.created <= r.created
    ensures AllProper(rs + [r], platformCount) && InOrder(rs + [r])
  {
  }

  lemma {:induction false} FixedTerms(t: Terms)
    requires t.totalVested > 0 && AllProper(t.all, |t.stakes|)
    ensures Fixed(t)
    ensures forall payout: nat :: Rewards(t, 0, payout) == 0
  {
  }

  lemma {:induction false} RewardsOne(t: Terms, n: nat, payout: nat)
    requires Fixed(t) && n < |t.all|
    ensures t.all[n].spinner < |t.stakes| && t.all[n].playTime > 0 && t.totalVested > 0
    ensures Rewards(t, n + 1, payout) == Rewards(t, n, payout) + RewardOf(t, t.all[n], payout)
  {
  }

  lemma {:induction false} NothingCollected()
    ensures Collected(map[], [])
  {
  }

  lemma {:induction false} NotCollected(listened: map<nat, Times>, expired: seq<Report>, l: Listener, p: nat)
    requires Collected(listened, expired)
    ensures PlayedOn(expired, l, p) == if p in listened then Get(listened[p], l) else 0
  {
    if !(p in listened && l in listened[p]) {
      NotPlayed(expired, l, p);
    }
  }

  lemma {:induction false} NotPlayed(rs: seq<Report>, l: Listener, p: nat)
    requires forall r :: r in rs ==> !(r.listener == l && r.spinner == p)
    ensures PlayedOn(rs, l, p) == 0
  {
    if rs != [] {
      var b, r := rs[..|rs| - 1], rs[|rs| - 1];
      assert rs == b + [r] && r in rs;
      NotPlayed(b, l, p);
      PlayedOnOne(b, r, l, p);
    }
  }

  ghost predicate CountersOf(platforms: seq<Counters>, rs: seq<Report>) {
    forall p :: 0 <= p < |platforms| ==> platforms[p] == Local(rs, p)
  }

  lemma {:induction false} Lessened(before: seq<Report>, after: seq<Report>, l: Listener, p: nat, seconds: nat)
    requires OneLess(before, after, l, p, seconds)
    ensures Played(after, l) == Played(before, l) - seconds && PlayedOn(after, l, p) == PlayedOn(before, l, p) - seconds
  {
  }

  lemma {:induction false} PlusZero(c: Counters)
    ensures Plus(c, ZERO) == c
  {
  }

  lemma {:induction false} LessDelta(all: Counters, left: Counters, d: Counters)
    requires Plus(left, d) == all && Fits(d)
    ensures Fits(left) ==>
      left == if d.total > 0 || d.capped > 0 || d.full > 0 || d.active > 0 then Wrap(Minus(all, d)) else all
    ensures Fits(left) ==> d.total >= 0
  {
  }

  class Statistics {
    /** All live reports, oldest first. */
    var reports: seq<Report>
    var times: Times
    /** `total_time_by_platform`, by account and platform. */
    var named: Named
    var platforms: seq<Counters>
    var global: Counters

    ghost predicate Kept()
      reads this
    {
      AllProper(reports, |platforms|) && TimesMatch(times, reports) && NamedMatch(named, reports) && InOrder(reports)
    }

    ghost predicate Valid()
      reads this
    {
      Kept() && CountersMatch(global, platforms, reports) && TotalTime(reports) < TWO_32
    }

    constructor (platformCount: nat)
      ensures Valid() && reports == [] && |platforms| == platformCount
    {
      reports, times, named := [], map[], map[];
      platforms, global := seq(platformCount, _ => ZERO), ZERO;
    }

    /** The time of a listener on platform `p`. */
    function TimeOn(l: Listener, p: nat): nat
      reads this
    {
      if l.Named? then Get(named, (l.account, p)) else Get(times, l)
    }

    /** Takes or adds time of one listener on one platform. */
    method SetTimes(l: Listener, p: nat, time: nat, timeOn: nat)
      modifies this`times, this`named
      ensures forall x :: Get(times, x) == if x == l then time else Get(old(times), x)
      ensures forall a: nat, q: nat :: Get(named, (a, q)) == if l == Named(a) && q == p then timeOn
        else Get(old(named), (a, q))
    {
      times := if time == 0 then times - {l} else times[l := time];
      if l.Named? {
        named := if timeOn == 0 then named - {(l.account, p)} else named[(l.account, p) := timeOn];
      }
    }

    lemma {:induction false} TimeIsPlayed(l: Listener, rs: seq<Report>)
      requires TimesMatch(times, rs)
      ensures Get(times, l) == Played(rs, l)
    {
    }

    lemma {:induction false} TimeOnIsPlayed(l: Listener, p: nat, rs: seq<Report>)
      requires TimesMatch(times, rs) && NamedMatch(named, rs) && AllProper(rs, |platforms|)
      requires (l.Named? || l.platform == p)
      ensures TimeOn(l, p) == PlayedOn(rs, l, p)
    {
      if !l.Named? {
        PlayedOnOwn(rs, l, p);
      }
    }

    /**
     A platform reports that a listener played something on platform `spinner`, its own or another one
     that asked it to report.  `accepted` stands for the checks on platforms and contents.
     */
    method StreamingPlatformReport(l: Listener, spinner: nat, playTime: nat, now: nat,
                                   accepted: bool) returns (ok: bool)
      requires Valid() && spinner < |platforms| && playTime < TWO_32 && (l.Named? || l.platform == spinner)
      requires forall r :: r in reports ==> r.created <= now
      modifies this
      ensures ok ==
        (accepted && playTime > 0 && (l.Anonymous? || playTime + Played(old(reports), l) <= SECONDS_PER_DAY))
      ensures reports == old(reports) + if ok then [Report(l, spinner, playTime, now)] else []
      ensures Kept() && (Valid() <==> TotalTime(reports) < TWO_32)
      ensures !ok ==> Valid() && global == old(global) && platforms == old(platforms)
    {
      hide Played, PlayedOn, Select, Recount, Tally, Raised, TimesMatch, NamedMatch, CountersMatch, Local, Global,
        AllProper, InOrder, TotalTime;
      TimeIsPlayed(l, reports);
      ok := accepted && playTime > 0 && (l.Anonymous? || playTime + Get(times, l) <= SECONDS_PER_DAY);
      if !ok {
        return;
      }
      var r := Report(l, spinner, playTime, now);
      var previous, previousOn := Get(times, l), TimeOn(l, spinner);
      TimeOnIsPlayed(l, spinner, reports);
      ReportCounted(global, platforms, reports, r);
      SetTimes(l, spinner, previous + playTime, previousOn + playTime);
      MatchOneMore(old(times), old(named), times, named, reports, r);
      LastInOrder(reports, r, |platforms|);
      global := Raised(global, previous, playTime);
      platforms := platforms[spinner := Raised(platforms[spinner], previousOn, playTime)];
      reports := reports + [r];
    }

    /**
     Takes what was listened to in the expired reports, by platform and listener, out of all times
     and counters.
     */
    method AdjustStatistics(listened: map<nat, Times>, ghost expired: seq<Report>, ghost rest: seq<Report>)
      requires AllProper(expired + rest, |platforms|) && TotalTime(expired + rest) < TWO_32
      requires TimesMatch(times, expired + rest) && NamedMatch(named, expired + rest)
      requires CountersMatch(global, platforms, expired + rest)
      requires Collected(listened, expired) && forall p :: p in listened ==> p < |platforms|
      modifies this`times, this`named, this`platforms, this`global
      ensures TimesMatch(times, rest) && NamedMatch(named, rest)
      ensures CountersMatch(global, platforms, rest) && |platforms| == |old(platforms)|
    {
      hide Played, PlayedOn, Select, Recount, Tally, Without, TimesMatch, NamedMatch, Local, Global;
      ghost var all, done := expired + rest, {};
      WithoutNothing(expired);
      CountersOfReportsFit(all, 0);
      var gd := ZERO;
      PlusZero(Global(all));
      var todo := listened.Keys;
      while todo != {}
        invariant todo <= listened.Keys && |platforms| == |old(platforms)|
        invariant forall l, q :: (l, q) in done <==> q in listened && q !in todo && l in listened[q]
        invariant TimesMatch(times, Without(expired, done) + rest) && NamedMatch(named, Without(expired, done) + rest)
        invariant Plus(Global(Without(expired, done) + rest), gd) == Global(all) && Fits(gd)
        invariant CountersOf(platforms, Without(expired, done) + rest)
        modifies this`times, this`named, this`platforms
      {
        var p :| p in todo;
        gd, done := AdjustPlatform(p, listened[p], gd, expired, rest, done);
        todo := todo - {p};
      }
      WithoutAll(expired, done);
      assert [] + rest == rest;
      if gd.total > 0 || gd.capped > 0 || gd.full > 0 || gd.active > 0 {
        global := Wrap(Minus(global, gd));
      }
      LessDelta(Global(all), Global(rest), gd);
      TimeSplit(expired, rest);
      CountersOfReportsFit(rest, 0);
    }

    /** The part of `adjust_statistics` for one platform. */
    method AdjustPlatform(p: nat, listened: Times, gd0: Counters, ghost expired: seq<Report>, ghost rest: seq<Report>,
                          ghost done0: set<(Listener, nat)>)
      returns (gd: Counters, ghost done: set<(Listener, nat)>)
      requires AllProper(expired + rest, |platforms|) && TotalTime(expired + rest) < TWO_32 && p < |platforms|
      requires TimesMatch(times, Without(expired, done0) + rest) && NamedMatch(named, Without(expired, done0) + rest)
      requires Plus(Global(Without(expired, done0) + rest), gd0) == Global(expired + rest) && Fits(gd0)
      requires CountersOf(platforms, Without(expired, done0) + rest)
      requires forall l :: (l, p) !in done0
      requires forall l :: l in listened ==> listened[l] == PlayedOn(expired, l, p) > 0
      modifies this`times, this`named, this`platforms
      ensures done == done0 + set l | l in listened :: (l, p)
      ensures |platforms| == |old(platforms)|
      ensures TimesMatch(times, Without(expired, done) + rest) && NamedMatch(named, Without(expired, done) + rest)
      ensures Plus(Global(Without(expired, done) + rest), gd) == Global(expired + rest) && Fits(gd)
      ensures CountersOf(platforms, Without(expired, done) + rest)
    {
      hide Played, PlayedOn, Select, Recount, Tally, AdjustDelta, Without, TimesMatch, NamedMatch, Local, Global, Plus;
      ghost var live0 := Without(expired, done0) + rest;
      WithoutProper(expired, rest, done0, |platforms|);
      gd, done := gd0, done0;
      var pd := ZERO;
      PlusZero(Local(live0, p));
      var todo := listened.Keys;
      while todo != {}
        invariant todo <= listened.Keys && done == done0 + set l | l in listened && l !in todo :: (l, p)
        invariant TimesMatch(times, Without(expired, done) + rest) && NamedMatch(named, Without(expired, done) + rest)
        invariant Plus(Global(Without(expired, done) + rest), gd) == Global(expired + rest) && Fits(gd)
        invariant Plus(Local(Without(expired, done) + rest, p), pd) == Local(live0, p) && Fits(pd)
        invariant forall q: nat :: q != p ==> Local(Without(expired, done) + rest, q) == Local(live0, q)
        modifies this`times, this`named
      {
        var l: Listener :| l in todo;
        ghost var before, after := Without(expired, done) + rest, Without(expired, done + {(l, p)}) + rest;
        WithoutMore(expired, rest, done, l, p);
        WithoutProper(expired, rest, done, |platforms|);
        OwnPlatform(expired, l, p);
        TimeIsPlayed(l, before);
        TimeOnIsPlayed(l, p, before);
        var seconds := listened[l];
        var time, timeOn := Get(times, l), TimeOn(l, p);
        Lessened(before, after, l, p, seconds);
        label Before:
        SetTimes(l, p, time - seconds, timeOn - seconds);
        MatchOneLess(old@Before(times), old@Before(named), times, named, before, after, l, p, seconds);
        DeltasOneMore(expired + rest, live0, before, after, l, p, seconds, gd, pd);
        gd := AdjustDelta(time, time - seconds, gd);
        pd := AdjustDelta(timeOn, timeOn - seconds, pd);
        todo, done := todo - {l}, done + {(l, p)};
      }
      if pd.total > 0 || pd.capped > 0 || pd.full > 0 || pd.active > 0 {
        platforms := platforms[p := Wrap(Minus(platforms[p], pd))];
      }
      WithoutProper(expired, rest, done, |platforms|);
      CountersOfReportsFit(Without(expired, done) + rest, p);
      LessDelta(Local(live0, p), Local(Without(expired, done) + rest, p), pd);
    }

    /** Counts a report's play time towards what is listened to on its platform. */
    method AdjustListeningTimes(listened: map<nat, Times>, r: Report,
                                ghost expired: seq<Report>) returns (more: map<nat, Times>)
      requires Collected(listened, expired) && r.playTime > 0
      ensures Collected(more, expired + [r]) && more.Keys == listened.Keys + {r.spinner}
    {
      hide PlayedOn;
      var on: Times := if r.spinner in listened then listened[r.spinner] else map[];
      more := listened[r.spinner := on[r.listener := Get(on, r.listener) + r.playTime]];
      forall p, l | p in more && l in more[p]
        ensures more[p][l] == PlayedOn(expired + [r], l, p) > 0
      {
        PlayedOnOne(expired, r, l, p);
        NotCollected(listened, expired, l, p);
      }
    }

    method CalculateReportReward(r: Report, payout: nat, stakes: seq<nat>, totalVested: nat,
                                 ghost all: seq<Report>) returns (reward: nat)
      requires r in all && AllProper(all, |platforms|) && TimesMatch(times, all) && NamedMatch(named, all)
      requires CountersMatch(global, platforms, all) && |stakes| == |platforms| && totalVested > 0
      ensures reward == RewardOf(Terms(all, stakes, totalVested), r, payout)
    {
      hide Played, PlayedOn, Select, Recount, Tally, Local, Global, ReportReward;
      ReportCounts(all, r);
      TimeOnIsPlayed(r.listener, r.spinner, all);
      reward := ReportReward(payout, r.playTime, stakes[r.spinner], totalVested, TimeOn(r.listener, r.spinner),
        platforms[r.spinner].capped);
    }

    /** Pays the reports that are a day old, one by one, and collects what was listened to in them. */
    method PayExpired(now: nat, payout: nat, stakes: seq<nat>, totalVested: nat)
      returns (paid: nat, ghost n: nat, listened: map<nat, Times>)
      requires Valid() && |stakes| == |platforms| && totalVested > 0
      modifies this`reports
      ensures n <= |old(reports)| && reports == old(reports)[n..]
      ensures forall i :: 0 <= i < n ==> old(reports)[i].created + SECONDS_PER_DAY <= now
      ensures n < |old(reports)| ==> old(reports)[n].created + SECONDS_PER_DAY > now
      ensures Collected(listened, old(reports)[..n]) && forall p :: p in listened ==> p < |platforms|
      ensures var t := Terms(old(reports), stakes, totalVested); Fixed(t) && paid == Rewards(t, n, payout)
    {
      hide Played, PlayedOn, Select, Recount, Tally, TimesMatch, NamedMatch, CountersMatch, Collected, RewardOf,
        TotalTime, InOrder, Rewards, Fixed;
      ghost var t := Terms(reports, stakes, totalVested);
      FixedTerms(t);
      listened, paid, n := map[], 0, 0;
      NothingCollected();
      while reports != [] && reports[0].created + SECONDS_PER_DAY <= now
        invariant n <= |t.all| && reports == t.all[n..] && Fixed(t) && AllProper(t.all, |platforms|)
        invariant forall i :: 0 <= i < n ==> t.all[i].created + SECONDS_PER_DAY <= now
        invariant Collected(listened, t.all[..n]) && forall p :: p in listened ==> p < |platforms|
        invariant paid == Rewards(t, n, payout)
      {
        var r := reports[0];
        assert r == t.all[n];
        var reward := CalculateReportReward(r, payout, stakes, totalVested, t.all);
        RewardsOne(t, n, payout);
        paid := paid + reward;
        listened := AdjustListeningTimes(listened, r, t.all[..n]);
        assert t.all[..n] + [r] == t.all[..n + 1];
        reports, n := reports[1..], n + 1;
      }
    }

    /**
     Pays all reports that are a day old and takes them out of the statistics.  The rewards go by the
     times and counters from before the cashout.
     */
    method ProcessContentCashout(now: nat, payout: nat, stakes: seq<nat>, totalVested: nat)
      returns (paid: nat, ghost n: nat)
      requires Valid() && |stakes| == |platforms| && totalVested > 0
      modifies this
      ensures Valid() && n <= |old(reports)| && reports == old(reports)[n..]
      ensures forall i :: 0 <= i < n ==> old(reports)[i].created + SECONDS_PER_DAY <= now
      ensures forall r :: r in reports ==> r.created + SECONDS_PER_DAY > now
      ensures var t := Terms(old(reports), stakes, totalVested); Fixed(t) && paid == Rewards(t, n, payout)
      ensures Sum(|stakes|, StakeTerm(stakes)) <= totalVested ==> paid <= payout
      ensures var t := Terms(old(reports), stakes, totalVested);
        n == |old(reports)| && AllPlayed(t) && Moderate(t, payout) ==>
          paid as real >= payout as real - Losses(t, n) && paid + 3 * n >= payout
    {
      hide Played, PlayedOn, Select, Recount, Tally, TimesMatch, NamedMatch, CountersMatch, Collected, RewardOf,
        TotalTime, StakeTerm, InOrder,
        Sum, Rewards, Fixed, AllProper, AllPlayed, Moderate, Losses;
      ghost var all := reports;
      var listened;
      paid, n, listened := PayExpired(now, payout, stakes, totalVested);
      RestKept(all, n, |platforms|, now);
      AdjustStatistics(listened, all[..n], reports);
      if Sum(|stakes|, StakeTerm(stakes)) <= totalVested {
        RewardsWithin(Terms(all, stakes, totalVested), n, payout);
      }
      if n == |all| && AllPlayed(Terms(all, stakes, totalVested)) && Moderate(Terms(all, stakes, totalVested), payout) {
        RewardsNearly(Terms(all, stakes, totalVested), payout);
      }
    }
  }
}
