/**
 How the statistics change when reports come and go.
 */
module ListeningSteps {
  import opened ListeningSpec

  type Named = map<(nat, nat), nat>

  /** Every listener's `total_listening_time` is the time of the reports `rs`. */
  ghost predicate TimesMatch(times: Times, rs: seq<Report>) {
    forall l :: Get(times, l) == Played(rs, l)
  }

  /** Every account's `total_time_by_platform` is the time of the reports `rs`. */
  ghost predicate NamedMatch(named: Named, rs: seq<Report>) {
    forall a: nat, p: nat :: Get(named, (a, p)) == PlayedOn(rs, Named(a), p)
  }

  /** All counters are what a count over the reports `rs` gives. */
  ghost predicate CountersMatch(global: Counters, platforms: seq<Counters>, rs: seq<Report>) {
    global == Global(rs) && forall p :: 0 <= p < |platforms| ==> platforms[p] == Local(rs, p)
  }

  ghost predicate AllProper(rs: seq<Report>, platformCount: nat) {
    forall r :: r in rs ==> Proper(r) && r.spinner < platformCount
  }

  function Wrap(c: Counters): Counters {
    Counters(c.active % TWO_32, c.full % TWO_32, c.total % TWO_32, c.capped % TWO_32)
  }

  /** The counters after `playTime` more seconds of somebody who had `previous`; 32-bit counters wrap around. */
  function Raised(c: Counters, previous: nat, playTime: nat): Counters {
    var active := if previous == 0 then c.active + 1 else c.active;
    Wrap(
      if previous >= FULL_TIME then c.(total := c.total + playTime)
      else if FULL_TIME - previous > playTime then Counters(active, c.full, c.total + playTime, c.capped + playTime)
      else Counters(active, c.full + 1, c.total + playTime, c.capped + FULL_TIME - previous))
  }

  lemma {:induction false} RaisedIs(c: Counters, previous: nat, playTime: nat)
    requires playTime > 0
    ensures Raised(c, previous, playTime) == Wrap(Plus(Minus(c, Of(previous)), Of(previous + playTime)))
  {
  }

  /** `adjust_delta`: both times are cut to 32 bits, and so are the sums. */
  function AdjustDelta(before: nat, after: nat, d: Counters): Counters {
    var b, a := before % TWO_32, after % TWO_32;
    Wrap(Counters(
      if a == 0 then d.active + 1 else d.active,
      if a < FULL_TIME && b >= FULL_TIME then d.full + 1 else d.full,
      d.total + b - a,
      if a >= FULL_TIME then d.capped else if b >= FULL_TIME then d.capped + FULL_TIME - a else d.capped + b - a))
  }

  ghost predicate Fits(c: Counters) {
    0 <= c.active < TWO_32 && 0 <= c.full < TWO_32 && 0 <= c.total < TWO_32 && 0 <= c.capped < TWO_32
  }

  lemma {:induction false} FitsUnwrapped(c: Counters)
    ensures Fits(c) ==> Wrap(c) == c
  {
  }

  lemma {:induction false} AdjustDeltaIs(before: nat, after: nat, d: Counters)
    requires after < before < TWO_32
    ensures var sum := Plus(d, Minus(Of(before), Of(after))); Fits(sum) ==> AdjustDelta(before, after, d) == sum
  {
    assert before % TWO_32 == before && after % TWO_32 == after;
    hide Wrap;
    FitsUnwrapped(Plus(d, Minus(Of(before), Of(after))));
  }

  /** The counters of reports that take less than 2^32 seconds fit 32 bits. */
  lemma {:induction false} CountersOfReportsFit(rs: seq<Report>, p: nat)
    requires TotalTime(rs) < TWO_32
    ensures Fits(Global(rs)) && Fits(Local(rs, p))
  {
    TotalIsTime(rs);
    CountersFit(Tally(rs));
    TotalIsTime(Select(rs, p));
    SelectedTime(rs, p);
    CountersFit(Tally(Select(rs, p)));
  }

  /** The reports of `rs` that are not by the listener and on the platform of one of the pairs. */
  ghost function Without(rs: seq<Report>, done: set<(Listener, nat)>): seq<Report> {
    if rs == [] then []
    else
      var r := rs[|rs| - 1];
      Without(rs[..|rs| - 1], done) + if (r.listener, r.spinner) in done then [] else [r]
  }

  lemma {:induction false} WithoutNothing(rs: seq<Report>)
    ensures Without(rs, {}) == rs
  {
    if rs != [] {
      WithoutNothing(rs[..|rs| - 1]);
    }
  }

  lemma {:induction false} WithoutAll(rs: seq<Report>, done: set<(Listener, nat)>)
    requires forall r :: r in rs ==> (r.listener, r.spinner) in done
    ensures Without(rs, done) == []
  {
    if rs != [] {
      assert rs[|rs| - 1] in rs;
      WithoutAll(rs[..|rs| - 1], done);
    }
  }

  lemma {:induction false} WithoutTime(rs: seq<Report>, done: set<(Listener, nat)>)
    ensures TotalTime(Without(rs, done)) <= TotalTime(rs)
  {
    if rs != [] {
      var b, r := rs[..|rs| - 1], rs[|rs| - 1];
      WithoutTime(b, done);
      if (r.listener, r.spinner) in done {
        assert Without(b, done) + [] == Without(b, done);
      } else {
        assert (Without(b, done) + [r])[..|Without(b, done)|] == Without(b, done);
      }
    }
  }

  lemma {:induction false} WithoutStep(b: seq<Report>, r: Report, done: set<(Listener, nat)>)
    ensures Without(b + [r], done) == if (r.listener, r.spinner) in done then Without(b, done)
      else Without(b, done) + [r]
  {
    assert (b + [r])[..|b|] == b;
    assert Without(b, done) + [] == Without(b, done);
  }

  lemma {:induction false} WithoutPlayedStep(b: seq<Report>, r: Report, done: set<(Listener, nat)>, l: Listener,
                                          p: nat, x: Listener)
    requires (l, p) !in done
    requires Played(Without(b, done + {(l, p)}), x) == Played(Without(b, done), x) - if x ==
      l then PlayedOn(b, l, p) else 0
    ensures Played(Without(b + [r], done + {(l, p)}), x)
         == Played(Without(b + [r], done), x) - if x == l then PlayedOn(b + [r], l, p) else 0
  {
    hide Played, PlayedOn, Without;
    PlayedOnOne(b, r, l, p);
    WithoutStep(b, r, done);
    WithoutStep(b, r, done + {(l, p)});
    PlayedOne(Without(b, done), r, x);
    PlayedOne(Without(b, done + {(l, p)}), r, x);
  }

  lemma {:induction false} WithoutPlayed(rs: seq<Report>, done: set<(Listener, nat)>, l: Listener, p: nat, x: Listener)
    requires (l, p) !in done
    ensures Played(Without(rs, done + {(l, p)}), x) == Played(Without(rs, done), x) - if x ==
      l then PlayedOn(rs, l, p) else 0
  {
    if rs != [] {
      var b, r := rs[..|rs| - 1], rs[|rs| - 1];
      assert rs == b + [r];
      WithoutPlayed(b, done, l, p, x);
      WithoutPlayedStep(b, r, done, l, p, x);
    }
  }

  lemma {:induction false} WithoutPlayedOnStep(b: seq<Report>, r: Report, done: set<(Listener, nat)>, l: Listener,
                                          p: nat, x: Listener, q: nat)
    requires (l, p) !in done
    requires PlayedOn(Without(b, done + {(l, p)}), x, q)
          == PlayedOn(Without(b, done), x, q) - if x == l && q == p then PlayedOn(b, l, p) else 0
    ensures PlayedOn(Without(b + [r], done + {(l, p)}), x, q)
         == PlayedOn(Without(b + [r], done), x, q) - if x == l && q == p then PlayedOn(b + [r], l, p) else 0
  {
    hide Played, PlayedOn, Without;
    PlayedOnOne(b, r, l, p);
    WithoutStep(b, r, done);
    WithoutStep(b, r, done + {(l, p)});
    PlayedOnOne(Without(b, done), r, x, q);
    PlayedOnOne(Without(b, done + {(l, p)}), r, x, q);
  }

  lemma {:induction false} WithoutPlayedOn(rs: seq<Report>, done: set<(Listener, nat)>, l: Listener, p: nat,
                                          x: Listener, q: nat)
    requires (l, p) !in done
    ensures PlayedOn(Without(rs, done + {(l, p)}), x, q)
         == PlayedOn(Without(rs, done), x, q) - if x == l && q == p then PlayedOn(rs, l, p) else 0
  {
    if rs != [] {
      var b, r := rs[..|rs| - 1], rs[|rs| - 1];
      assert rs == b + [r];
      WithoutPlayedOn(b, done, l, p, x, q);
      WithoutPlayedOnStep(b, r, done, l, p, x, q);
    }
  }

  /** `before` and `after` differ in the time of one listener on one platform. */
  ghost predicate OneLess(before: seq<Report>, after: seq<Report>, l: Listener, p: nat, seconds: nat) {
    && (forall x :: Played(after, x) == Played(before, x) - if x == l then seconds else 0)
    && (forall x, q: nat :: PlayedOn(after, x, q) == PlayedOn(before, x, q) - if x == l && q == p then seconds else 0)
  }

  lemma {:induction false} WithoutMore(rs: seq<Report>, rest: seq<Report>, done: set<(Listener, nat)>,
                                       l: Listener, p: nat)
    requires (l, p) !in done
    ensures OneLess(Without(rs, done) + rest, Without(rs, done + {(l, p)}) + rest, l, p, PlayedOn(rs, l, p))
  {
    var w, w' := Without(rs, done), Without(rs, done + {(l, p)});
    forall x
      ensures Played(w' + rest, x) == Played(w + rest, x) - if x == l then PlayedOn(rs, l, p) else 0
    {
      WithoutPlayed(rs, done, l, p, x);
      PlayedSplit(w, rest, x);
      PlayedSplit(w', rest, x);
    }
    forall x, q: nat
      ensures PlayedOn(w' + rest, x, q) == PlayedOn(w + rest, x, q) - if x == l && q == p then PlayedOn(rs, l, p) else 0
    {
      WithoutPlayedOn(rs, done, l, p, x, q);
      PlayedOnSplit(w, rest, x, q);
      PlayedOnSplit(w', rest, x, q);
    }
  }

  /** Taking time from one listener changes the counters by what that listener adds to them. */
  lemma {:induction false} CountersOneLess(before: seq<Report>, after: seq<Report>, l: Listener, p: nat, seconds: nat)
    requires OneLess(before, after, l, p, seconds)
    ensures Plus(Global(after), Minus(Of(Played(before, l)), Of(Played(after, l)))) == Global(before)
    ensures Plus(Local(after, p), Minus(Of(PlayedOn(before, l, p)), Of(PlayedOn(after, l, p)))) == Local(before, p)
    ensures forall q: nat :: q != p ==> Local(after, q) == Local(before, q)
  {
    hide Played, PlayedOn, Recount;
    RecountOneLess(before, after, l);
    forall x
      ensures Played(Select(after, p), x) == Played(Select(before, p), x) - if x == l then seconds else 0
    {
      SelectedPlay(after, x, p);
      SelectedPlay(before, x, p);
    }
    RecountOneLess(Select(before, p), Select(after, p), l);
    SelectedPlay(after, l, p);
    SelectedPlay(before, l, p);
    forall q: nat | q != p
      ensures Local(after, q) == Local(before, q)
    {
      forall x
        ensures Get(Tally(Select(after, q)), x) == Get(Tally(Select(before, q)), x)
      {
        TallyIsPlayed(Select(after, q), x);
        TallyIsPlayed(Select(before, q), x);
        SelectedPlay(after, x, q);
        SelectedPlay(before, x, q);
      }
      RecountSame(Tally(Select(after, q)), Tally(Select(before, q)));
    }
  }

  lemma {:induction false} SelectedPlay(rs: seq<Report>, l: Listener, p: nat)
    ensures PlayedOn(rs, l, p) == Played(Select(rs, p), l)
  {
  }

  lemma {:induction false} RecountOneLess(before: seq<Report>, after: seq<Report>, l: Listener)
    requires forall x :: x != l ==> Played(after, x) == Played(before, x)
    ensures Plus(Recount(Tally(after)), Minus(Of(Played(before, l)), Of(Played(after, l)))) == Recount(Tally(before))
  {
    hide Played, Recount, Tally;
    var m, time := Tally(before), Played(after, l);
    TallyIsPlayed(before, l);
    RecountUpdate(m, l, time);
    forall x
      ensures Get(Tally(after), x) == Get(m[l := time], x)
    {
      TallyIsPlayed(after, x);
      TallyIsPlayed(before, x);
    }
    RecountSame(Tally(after), m[l := time]);
  }

  lemma {:induction false} PlayedAtMost(rs: seq<Report>, l: Listener, p: nat)
    ensures Played(rs, l) <= TotalTime(rs) && PlayedOn(rs, l, p) <= TotalTime(rs)
  {
    TallyIsPlayed(rs, l);
    PartOfCount(Tally(rs), l);
    TotalIsTime(rs);
    var sel := Select(rs, p);
    TallyIsPlayed(sel, l);
    PartOfCount(Tally(sel), l);
    TotalIsTime(sel);
    SelectedTime(rs, p);
  }

  /** The deltas `gd` and `pd` that were taken so far, with one listener's time on one platform added to them. */
  lemma {:induction false} DeltasOneMore(all: seq<Report>, start: seq<Report>, before: seq<Report>, after: seq<Report>,
                                         l: Listener, p: nat, seconds: nat, gd: Counters, pd: Counters)
    requires TotalTime(all) < TWO_32 && TotalTime(start) < TWO_32 && TotalTime(before) < TWO_32 && seconds > 0
    requires OneLess(before, after, l, p, seconds)
    requires Plus(Global(before), gd) == Global(all) && Plus(Local(before, p), pd) == Local(start, p)
    requires Fits(gd) && Fits(pd)
    ensures var gd' := AdjustDelta(Played(before, l), Played(after, l), gd);
      Plus(Global(after), gd') == Global(all) && Fits(gd')
    ensures var pd' := AdjustDelta(PlayedOn(before, l, p), PlayedOn(after, l, p), pd);
      Plus(Local(after, p), pd') == Local(start, p) && Fits(pd')
    ensures forall q: nat :: q != p ==> Local(after, q) == Local(before, q)
  {
    hide Recount, Tally, AdjustDelta, Select, Plus, Minus, Fits;
    CountersOneLess(before, after, l, p, seconds);
    PlayedAtMost(before, l, p);
    CountersOfReportsFit(all, p);
    CountersOfReportsFit(start, p);
    CountersFit(Tally(after));
    CountersFit(Tally(Select(after, p)));
    DeltaOneMore(Global(all), Global(before), Global(after), Played(before, l), Played(after, l), gd);
    DeltaOneMore(Local(start, p), Local(before, p), Local(after, p), PlayedOn(before, l, p), PlayedOn(after, l, p), pd);
  }

  lemma {:induction false} DeltaOneMore(start: Counters, before: Counters, after: Counters, time: nat, less: nat,
                                        d: Counters)
    requires less < time < TWO_32 && Fits(start) && Fits(d) && Plus(before, d) == start
    requires Plus(after, Minus(Of(time), Of(less))) == before
    requires after.active >= 0 && after.full >= 0 && after.total >= 0 && after.capped >= 0
    ensures Plus(after, AdjustDelta(time, less, d)) == start && Fits(AdjustDelta(time, less, d))
  {
    hide AdjustDelta, Of;
    AdjustDeltaIs(time, less, d);
    Falling(less, time);
    assert Fits(Plus(d, Minus(Of(time), Of(less))));
  }

  /** Who is not named listens on its own platform only. */
  lemma {:induction false} OwnPlatform(rs: seq<Report>, l: Listener, p: nat)
    requires PlayedOn(rs, l, p) > 0 && forall r :: r in rs ==> Proper(r)
    ensures l.Named? || l.platform == p
  {
    if !l.Named? {
      PlayedOnOwn(rs, l, p);
    }
  }

  lemma {:induction false} Falling(after: nat, before: nat)
    requires after <= before
    ensures var d := Minus(Of(before), Of(after)); d.active >= 0 && d.full >= 0 && d.total >= 0 && d.capped >= 0
  {
  }

  /**
   One more report is counted in all counters if and only if the time of all live reports fits 32 bits:
   from there on `total_listening_time` itself cannot hold it.
   */
  lemma {:induction false} ReportCounted(global: Counters, platforms: seq<Counters>, rs: seq<Report>, r: Report)
    requires CountersMatch(global, platforms, rs) && r.playTime > 0 && r.spinner < |platforms|
    ensures var global' := Raised(global, Played(rs, r.listener), r.playTime);
      var platforms' := platforms[r.spinner := Raised(platforms[r.spinner], PlayedOn(rs, r.listener, r.spinner),
        r.playTime)];
      CountersMatch(global', platforms', rs + [r]) <==> TotalTime(rs + [r]) < TWO_32
  {
    hide Recount, Tally, Select, Raised, Wrap;
    var l, p := r.listener, r.spinner;
    GlobalOne(rs, r);
    RaisedIs(global, Played(rs, l), r.playTime);
    RaisedIs(platforms[p], PlayedOn(rs, l, p), r.playTime);
    TotalIsTime(rs + [r]);
    forall q: nat
      ensures TotalTime(rs + [r]) < TWO_32 ==> Fits(Local(rs + [r], q))
      ensures q != p ==> Local(rs + [r], q) == Local(rs, q)
    {
      LocalOne(rs, r, q);
      if TotalTime(rs + [r]) < TWO_32 {
        CountersOfReportsFit(rs + [r], q);
      }
    }
    LocalOne(rs, r, p);
    if TotalTime(rs + [r]) < TWO_32 {
      CountersOfReportsFit(rs + [r], p);
    }
    FitsUnwrapped(Global(rs + [r]));
    FitsUnwrapped(Local(rs + [r], p));
    Wrapped(Global(rs + [r]));
  }

  lemma {:induction false} NoReports(l: Listener, p: nat)
    ensures CountersMatch(ZERO, [ZERO], []) && TotalTime([]) == 0 && Played([], l) == 0 && PlayedOn([], l, p) == 0
  {
    assert Tally([]) == map[] && Select([], p) == [];
    assert Select([], 0) == [];
  }

  lemma {:induction false} TotalOne(rs: seq<Report>, r: Report)
    ensures TotalTime(rs + [r]) == TotalTime(rs) + r.playTime
  {
    assert (rs + [r])[..|rs|] == rs;
  }

  /**
   Two reports of 2^31 seconds by the anonymous users of a platform: the counters are exact after the first
   one, and wrong after both.
   */
  lemma {:induction false} TwoLongReports(r: Report)
    requires r.listener == Anonymous(0) && r.spinner == 0 && r.playTime == 0x8000_0000
    ensures var once := Raised(ZERO, 0, r.playTime);
      var twice := Raised(once, r.playTime, r.playTime);
      CountersMatch(once, [once], [r]) && !CountersMatch(twice, [twice], [r] + [r])
  {
    hide Recount, Tally, Select, Raised, Wrap, CountersMatch, Played, PlayedOn, TotalTime;
    var l, once := r.listener, Raised(ZERO, 0, r.playTime);
    NoReports(l, 0);
    assert [] + [r] == [r];
    TotalOne([], r);
    TotalOne([r], r);
    PlayedOne([], r, l);
    PlayedOnOne([], r, l, 0);
    ReportCounted(ZERO, [ZERO], [], r);
    assert [ZERO][0 := once] == [once];
    ReportCounted(once, [once], [r], r);
    var twice := Raised(once, r.playTime, r.playTime);
    assert [once][0 := twice] == [twice];
  }

  lemma {:induction false} Wrapped(c: Counters)
    ensures Wrap(c).total < TWO_32
  {
  }

  /** What is left after some of the expired reports are taken out is proper and takes no more time. */
  lemma {:induction false} WithoutProper(rs: seq<Report>, rest: seq<Report>, done: set<(Listener, nat)>, n: nat)
    requires AllProper(rs + rest, n)
    ensures AllProper(Without(rs, done) + rest, n) && TotalTime(Without(rs, done) + rest) <= TotalTime(rs + rest)
  {
    forall r | r in Without(rs, done)
      ensures r in rs
    {
      WithoutMember(rs, done, r);
    }
    assert forall r :: r in rs || r in rest ==> r in rs + rest;
    WithoutTime(rs, done);
    TimeSplit(rs, rest);
    TimeSplit(Without(rs, done), rest);
  }

  lemma {:induction false} WithoutMember(rs: seq<Report>, done: set<(Listener, nat)>, r: Report)
    requires r in Without(rs, done)
    ensures r in rs
  {
    var b, last := rs[..|rs| - 1], rs[|rs| - 1];
    assert rs == b + [last];
    WithoutStep(b, last, done);
    if r != last {
      WithoutMember(b, done, r);
    }
  }

  /** One more report moves one listener's times. */
  lemma {:induction false} MatchOneMore(times: Times, named: Named, times': Times, named': Named, rs: seq<Report>,
                                        r: Report)
    requires TimesMatch(times, rs) && NamedMatch(named, rs)
    requires forall x :: Get(times', x) == if x == r.listener then Played(rs, x) + r.playTime else Get(times, x)
    requires forall a: nat, q: nat ::
      Get(named', (a, q)) == if r.listener == Named(a) && q == r.spinner then PlayedOn(rs, r.listener, q) + r.playTime
        else Get(named, (a, q))
    ensures TimesMatch(times', rs + [r]) && NamedMatch(named', rs + [r])
  {
    hide Played, PlayedOn;
    forall x
      ensures Get(times', x) == Played(rs + [r], x)
    {
      PlayedOne(rs, r, x);
      assert Get(times, x) == Played(rs, x);
    }
    forall a: nat, q: nat
      ensures Get(named', (a, q)) == PlayedOn(rs + [r], Named(a), q)
    {
      PlayedOnOne(rs, r, Named(a), q);
      assert Get(named, (a, q)) == PlayedOn(rs, Named(a), q);
    }
  }

  lemma {:induction false} MatchOneLess(times: Times, named: Named, times': Times, named': Named,
                                        before: seq<Report>, after: seq<Report>, l: Listener, p: nat, seconds: nat)
    requires TimesMatch(times, before) && NamedMatch(named, before) && OneLess(before, after, l, p, seconds)
    requires forall x :: Get(times', x) == if x == l then Played(after, l) else Get(times, x)
    requires forall a: nat, q: nat :: Get(named', (a, q)) == if l == Named(a) && q == p then PlayedOn(after, l, p)
      else Get(named, (a, q))
    ensures TimesMatch(times', after) && NamedMatch(named', after)
  {
    hide Played, PlayedOn;
    forall x
      ensures Get(times', x) == Played(after, x)
    {
      assert Get(times, x) == Played(before, x);
    }
    forall a: nat, q: nat
      ensures Get(named', (a, q)) == PlayedOn(after, Named(a), q)
    {
      assert Get(named, (a, q)) == PlayedOn(before, Named(a), q);
    }
  }
}
