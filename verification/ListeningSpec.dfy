/**
 Listening reports, and the statistics that a count over all live reports gives.
 */
module ListeningSpec {

  const TWO_32 := 0x1_0000_0000
  /** Seconds that make a full-time user. */
  const FULL_TIME := 3600

  /** Who listened: an account, a pseudonymous user of a platform, or all anonymous users of a platform. */
  datatype Listener = Named(account: nat) | Pseudonym(platform: nat, user: nat) | Anonymous(platform: nat)

  /** `spinner` is the platform on which the content was played. */
  datatype Report = Report(listener: Listener, spinner: nat, playTime: nat, created: nat)

  predicate Proper(r: Report) {
    r.playTime > 0 && (r.listener.Named? || r.listener.platform == r.spinner)
  }

  /** `active_users`, `full_time_users`, `total_listening_time` and `full_users_time`. */
  datatype Counters = Counters(active: int, full: int, total: int, capped: int)

  const ZERO := Counters(0, 0, 0, 0)

  function Plus(a: Counters, b: Counters): Counters {
    Counters(a.active + b.active, a.full + b.full, a.total + b.total, a.capped + b.capped)
  }

  function Minus(a: Counters, b: Counters): Counters {
    Counters(a.active - b.active, a.full - b.full, a.total - b.total, a.capped - b.capped)
  }

  function Capped(time: nat): nat {
    if time < FULL_TIME then time else FULL_TIME
  }

  /** What one listener with `time` seconds adds to the counters. */
  function Of(time: nat): Counters {
    Counters(if time > 0 then 1 else 0, if time >= FULL_TIME then 1 else 0, time, Capped(time))
  }

  /** Entries that are not there count as zero. */
  function Get<K>(m: map<K, nat>, k: K): nat {
    if k in m then m[k] else 0
  }

  type Times = map<Listener, nat>

  ghost function Pick(m: Times): Listener
    requires m != map[]
    ensures Pick(m) in m
  {
    assert m.Keys != {} by {
      assert m.Keys == {} ==> m == map[];
    }
    var l :| l in m.Keys;
    l
  }

  /** The counters, counted from scratch over everybody's time. */
  ghost function Recount(m: Times): Counters
    decreases |m|
  {
    if m == map[] then ZERO else Plus(Of(m[Pick(m)]), Recount(m - {Pick(m)}))
  }

  lemma {:induction false} RecountAny(m: Times, l: Listener)
    requires l in m
    ensures Recount(m) == Plus(Of(m[l]), Recount(m - {l}))
    decreases |m|
  {
    var x := Pick(m);
    if x != l {
      RecountAny(m - {x}, l);
      RecountAny(m - {l}, x);
      assert m - {x} - {l} == m - {l} - {x};
    }
  }

  lemma {:induction false} NothingAdded(a: Counters)
    ensures Plus(Of(0), a) == a
  {
  }

  lemma {:induction false} RecountNothing(m: Times)
    requires forall l :: l in m ==> m[l] == 0
    ensures Recount(m) == ZERO
    decreases |m|
  {
    if m != map[] {
      var x := Pick(m);
      RecountNothing(m - {x});
      NothingAdded(Recount(m - {x}));
    }
  }

  ghost predicate SameTimes(m: Times, m': Times) {
    forall l :: Get(m, l) == Get(m', l)
  }

  lemma {:induction false} SameWithout(m: Times, m': Times, x: Listener)
    requires SameTimes(m, m')
    ensures SameTimes(m - {x}, m' - {x})
    ensures Get(m, x) == Get(m', x)
    ensures x !in m' ==> m' - {x} == m'
  {
    forall l
      ensures Get(m - {x}, l) == Get(m' - {x}, l)
    {
      assert Get(m, l) == Get(m', l);
    }
  }

  lemma {:induction false} NothingLike(m: Times, m': Times)
    requires SameTimes(m, m') && m == map[]
    ensures Recount(m') == ZERO
  {
    forall l | l in m'
      ensures m'[l] == 0
    {
      assert Get(m, l) == Get(m', l);
    }
    RecountNothing(m');
  }

  lemma {:induction false} RecountSame(m: Times, m': Times)
    requires SameTimes(m, m')
    ensures Recount(m) == Recount(m')
    decreases |m|
  {
    hide SameTimes;
    if m == map[] {
      NothingLike(m, m');
    } else {
      hide Recount;
      var x := Pick(m);
      RecountAny(m, x);
      SameWithout(m, m', x);
      RecountSame(m - {x}, m' - {x});
      if x in m' {
        RecountAny(m', x);
      } else {
        NothingAdded(Recount(m - {x}));
      }
    }
  }

  /** Changing one listener's time changes the counters by what that listener adds to them. */
  lemma {:induction false} RecountUpdate(m: Times, l: Listener, time: nat)
    ensures Recount(m[l := time]) == Plus(Minus(Recount(m), Of(Get(m, l))), Of(time))
  {
    RecountAny(m[l := time], l);
    assert m[l := time] - {l} == m - {l};
    if l in m {
      RecountAny(m, l);
    } else {
      assert m - {l} == m;
    }
  }

  /** No counter exceeds the total time, and none is negative. */
  lemma {:induction false} CountersFit(m: Times)
    ensures var c := Recount(m); 0 <= c.active <= c.total && 0 <= c.full <= c.active && 0 <= c.capped <= c.total
    decreases |m|
  {
    if m != map[] {
      CountersFit(m - {Pick(m)});
    }
  }

  /** A listener's time is part of the counters. */
  lemma {:induction false} PartOfCount(m: Times, l: Listener)
    ensures Of(Get(m, l)).total <= Recount(m).total && Of(Get(m, l)).capped <= Recount(m).capped
  {
    CountersFit(m);
    if l in m {
      RecountAny(m, l);
      CountersFit(m - {l});
    }
  }

  /** How long `l` played altogether. */
  ghost function Played(rs: seq<Report>, l: Listener): nat {
    if rs == [] then 0
    else Played(rs[..|rs| - 1], l) + if rs[|rs| - 1].listener == l then rs[|rs| - 1].playTime else 0
  }

  lemma {:induction false} PlayedSplit(a: seq<Report>, b: seq<Report>, l: Listener)
    ensures Played(a + b, l) == Played(a, l) + Played(b, l)
  {
    if b == [] {
      assert a + b == a;
    } else {
      var c := b[..|b| - 1];
      assert (a + b)[..|a + b| - 1] == a + c;
      PlayedSplit(a, c, l);
    }
  }

  /** The reports of one platform. */
  ghost function Select(rs: seq<Report>, p: nat): seq<Report> {
    if rs == [] then []
    else Select(rs[..|rs| - 1], p) + if rs[|rs| - 1].spinner == p then [rs[|rs| - 1]] else []
  }

  lemma {:induction false} SelectSplit(a: seq<Report>, b: seq<Report>, p: nat)
    ensures Select(a + b, p) == Select(a, p) + Select(b, p)
  {
    if b == [] {
      assert a + b == a;
    } else {
      var c := b[..|b| - 1];
      assert (a + b)[..|a + b| - 1] == a + c;
      SelectSplit(a, c, p);
    }
  }

  ghost function PlayedOn(rs: seq<Report>, l: Listener, p: nat): nat {
    Played(Select(rs, p), l)
  }

  lemma {:induction false} PlayedOnSplit(a: seq<Report>, b: seq<Report>, l: Listener, p: nat)
    ensures PlayedOn(a + b, l, p) == PlayedOn(a, l, p) + PlayedOn(b, l, p)
  {
    SelectSplit(a, b, p);
    PlayedSplit(Select(a, p), Select(b, p), l);
  }

  lemma {:induction false} PlayedOne(rs: seq<Report>, r: Report, l: Listener)
    ensures Played(rs + [r], l) == Played(rs, l) + if r.listener == l then r.playTime else 0
  {
    assert (rs + [r])[..|rs|] == rs;
  }

  lemma {:induction false} SelectOne(rs: seq<Report>, r: Report, p: nat)
    ensures Select(rs + [r], p) == Select(rs, p) + if r.spinner == p then [r] else []
  {
    assert (rs + [r])[..|rs|] == rs;
  }

  lemma {:induction false} PlayedOnOne(rs: seq<Report>, r: Report, l: Listener, p: nat)
    ensures PlayedOn(rs + [r], l, p) == PlayedOn(rs, l, p) + if r.listener == l && r.spinner == p then r.playTime else 0
  {
    SelectOne(rs, r, p);
    if r.spinner == p {
      PlayedOne(Select(rs, p), r, l);
    } else {
      assert Select(rs, p) + [] == Select(rs, p);
    }
  }

  /** What is not anonymous or pseudonymous elsewhere was played on the platform it names. */
  lemma {:induction false} PlayedOnOwn(rs: seq<Report>, l: Listener, p: nat)
    requires !l.Named? && forall r :: r in rs ==> Proper(r)
    ensures PlayedOn(rs, l, p) == if p == l.platform then Played(rs, l) else 0
  {
    if rs != [] {
      var b, r := rs[..|rs| - 1], rs[|rs| - 1];
      assert rs == b + [r];
      assert r in rs && forall x :: x in b ==> x in rs;
      PlayedOnOwn(b, l, p);
      PlayedOne(b, r, l);
      PlayedOnOne(b, r, l, p);
    }
  }

  /** Everybody's time. */
  ghost function Tally(rs: seq<Report>): Times {
    if rs == [] then map[]
    else
      var m, r := Tally(rs[..|rs| - 1]), rs[|rs| - 1];
      m[r.listener := Get(m, r.listener) + r.playTime]
  }

  lemma {:induction false} TallyIsPlayed(rs: seq<Report>, l: Listener)
    ensures Get(Tally(rs), l) == Played(rs, l)
  {
    if rs != [] {
      TallyIsPlayed(rs[..|rs| - 1], l);
    }
  }

  /** The global counters that the live reports call for. */
  ghost function Global(rs: seq<Report>): Counters {
    Recount(Tally(rs))
  }

  /** The counters of one platform. */
  ghost function Local(rs: seq<Report>, p: nat): Counters {
    Recount(Tally(Select(rs, p)))
  }

  ghost function TotalTime(rs: seq<Report>): nat {
    if rs == [] then 0 else TotalTime(rs[..|rs| - 1]) + rs[|rs| - 1].playTime
  }

  /** One more report moves one listener's share of the counters. */
  lemma {:induction false} GlobalOne(rs: seq<Report>, r: Report)
    ensures Global(rs + [r]) ==
      Plus(Minus(Global(rs), Of(Played(rs, r.listener))), Of(Played(rs, r.listener) + r.playTime))
    ensures TotalTime(rs + [r]) == TotalTime(rs) + r.playTime
  {
    assert (rs + [r])[..|rs|] == rs;
    TallyIsPlayed(rs, r.listener);
    RecountUpdate(Tally(rs), r.listener, Played(rs, r.listener) + r.playTime);
  }

  lemma {:induction false} LocalOne(rs: seq<Report>, r: Report, p: nat)
    ensures Local(rs + [r], p) ==
      if r.spinner == p
      then Plus(Minus(Local(rs, p), Of(PlayedOn(rs, r.listener, p))), Of(PlayedOn(rs, r.listener, p) + r.playTime))
      else Local(rs, p)
  {
    SelectOne(rs, r, p);
    if r.spinner == p {
      GlobalOne(Select(rs, p), r);
    } else {
      assert Select(rs, p) + [] == Select(rs, p);
    }
  }

  lemma {:induction false} TotalIsTime(rs: seq<Report>)
    ensures Global(rs).total == TotalTime(rs)
  {
    if rs != [] {
      var b, r := rs[..|rs| - 1], rs[|rs| - 1];
      assert rs == b + [r];
      TotalIsTime(b);
      GlobalOne(b, r);
    }
  }

  lemma {:induction false} SelectedTime(rs: seq<Report>, p: nat)
    ensures TotalTime(Select(rs, p)) <= TotalTime(rs)
  {
    if rs != [] {
      var b, r := rs[..|rs| - 1], rs[|rs| - 1];
      SelectedTime(b, p);
      if r.spinner == p {
        assert (Select(b, p) + [r])[..|Select(b, p)|] == Select(b, p);
      } else {
        assert Select(b, p) + [] == Select(b, p);
      }
    }
  }

  lemma {:induction false} TimeSplit(a: seq<Report>, b: seq<Report>)
    ensures TotalTime(a + b) == TotalTime(a) + TotalTime(b)
  {
    if b == [] {
      assert a + b == a;
    } else {
      assert (a + b)[..|a + b| - 1] == a + b[..|b| - 1];
      TimeSplit(a, b[..|b| - 1]);
    }
  }
}
