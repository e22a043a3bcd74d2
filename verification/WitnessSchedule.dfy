/**
 Scheduling witnesses: the most voted ones in every round, the others in turn by virtual time.
 */
module WitnessSchedule {
  import opened Rounding
  import opened WitnessOrder

  const MAX_VOTED_WITNESSES := 20
  const MAX_MINERS := 21
  const TWO_128 := 0x1_0000_0000_0000_0000_0000_0000_0000_0000
  /** `VIRTUAL_SCHEDULE_LAP_LENGTH2` */
  const LAP := TWO_128 - 1

  /** `name` stands for the place of the owner's name in their order; `keyed` for a valid signing key. */
  datatype Witness = Witness(name: nat, votes: nat, keyed: bool, lastUpdate: nat, position: nat, scheduled: nat)

  function VoteKey(w: Witness): Key {
    var votes: int := w.votes;
    (-votes, w.name)
  }

  function VoteKeys(ws: seq<Witness>): (ks: seq<Key>)
    ensures |ks| == |ws| && forall i :: 0 <= i < |ws| ==> ks[i] == VoteKey(ws[i])
  {
    seq(|ws|, i requires 0 <= i < |ws| => VoteKey(ws[i]))
  }

  function TimeKeys(ws: seq<Witness>): (ks: seq<Key>)
    ensures |ks| == |ws| && forall i :: 0 <= i < |ws| ==> ks[i] == (ws[i].scheduled, i)
  {
    seq(|ws|, i requires 0 <= i < |ws| => (ws[i].scheduled, i))
  }

  /** More votes, or the same and the name comes first. */
  predicate Better(a: Witness, b: Witness) {
    Less(VoteKey(a), VoteKey(b))
  }

  /** The place of a witness in the index by virtual time. */
  function Turn(ws: seq<Witness>, w: nat): Key
    requires w < |ws|
  {
    (ws[w].scheduled, w)
  }

  /** `top` are the most voted witnesses with a key, as many as there is room for, the best first. */
  ghost predicate TopVoted(ws: seq<Witness>, top: seq<nat>) {
    && Distinct(top) && |top| <= MAX_VOTED_WITNESSES
    && (forall i :: 0 <= i < |top| ==> top[i] < |ws| && ws[top[i]].keyed)
    && (forall i, j :: 0 <= i < j < |top| ==> Better(ws[top[i]], ws[top[j]]))
    && forall w :: 0 <= w < |ws| && ws[w].keyed && w !in top ==>
         |top| == MAX_VOTED_WITNESSES && forall i :: 0 <= i < |top| ==> Better(ws[top[i]], ws[w])
  }

  /** `runners` are the next in line by virtual time, as many as there is room for. */
  ghost predicate InLead(ws: seq<Witness>, top: seq<nat>, runners: seq<nat>) {
    && Distinct(top + runners) && |top + runners| <= MAX_MINERS
    && (forall i :: 0 <= i < |runners| ==> runners[i] < |ws| && ws[runners[i]].keyed)
    && forall w :: 0 <= w < |ws| && ws[w].keyed && w !in top && w !in runners ==>
         |top + runners| == MAX_MINERS && forall i :: 0 <= i < |runners| ==> Less(Turn(ws, runners[i]), Turn(ws, w))
  }

  /** Witness `w` is looked at for a full schedule: its turn is not after that of the last runner. */
  ghost predicate Passed(ws: seq<Witness>, top: seq<nat>, runners: seq<nat>, w: nat)
    requires w < |ws| && forall i :: 0 <= i < |runners| ==> runners[i] < |ws|
  {
    |top + runners| < MAX_MINERS || runners == [] || !Less(Turn(ws, runners[|runners| - 1]), Turn(ws, w))
  }

  ghost predicate NamesDiffer(ws: seq<Witness>) {
    forall i, j :: 0 <= i < j < |ws| ==> ws[i].name != ws[j].name
  }

  lemma {:induction false} EarlierIsLess(order: seq<nat>, keys: seq<Key>, i: nat, w: nat)
    requires Lists(order, keys, |keys|) && i < |order| && w in order[..i]
    ensures order[i] < |keys| && w < |keys| && Less(keys[w], keys[order[i]])
  {
    var q :| 0 <= q < i && order[q] == w;
    assert Less(keys[order[q]], keys[order[i]]);
  }

  method SelectVoted(ws: seq<Witness>) returns (top: seq<nat>)
    requires NamesDiffer(ws)
    ensures TopVoted(ws, top)
  {
    var keys := VoteKeys(ws);
    var order := Order(keys);
    ListsIsDistinct(order, keys, |ws|);
    top := [];
    var i := 0;
    while i < |order| && |top| < MAX_VOTED_WITNESSES
      invariant i <= |order| && |top| <= MAX_VOTED_WITNESSES && Distinct(top)
      invariant forall k :: 0 <= k < |top| ==> top[k] < |ws| && ws[top[k]].keyed && top[k] in order[..i]
      invariant forall k, l :: 0 <= k < l < |top| ==> Better(ws[top[k]], ws[top[l]])
      invariant forall k :: 0 <= k < i && ws[order[k]].keyed ==> order[k] in top
    {
      if ws[order[i]].keyed {
        assert order[i] !in order[..i];
        forall k | 0 <= k < |top|
          ensures Better(ws[top[k]], ws[order[i]])
        {
          EarlierIsLess(order, keys, i, top[k]);
        }
        top := top + [order[i]];
      }
      i := i + 1;
    }
    forall w | 0 <= w < |ws| && ws[w].keyed && w !in top
      ensures |top| == MAX_VOTED_WITNESSES && forall k :: 0 <= k < |top| ==> Better(ws[top[k]], ws[w])
    {
      assert w in order;
      var p :| 0 <= p < |order| && order[p] == w;
      assert p >= i;
      assert order[..i] <= order[..p];
      forall k | 0 <= k < |top|
        ensures Better(ws[top[k]], ws[w])
      {
        EarlierIsLess(order, keys, p, top[k]);
      }
    }
  }

  /** The witness in the lead, and how many of the index by virtual time were looked at for them. */
  method SelectRunners(ws: seq<Witness>, top: seq<nat>, order: seq<nat>) returns (runners: seq<nat>, processed: nat)
    requires TopVoted(ws, top) && Lists(order, TimeKeys(ws), |ws|)
    ensures InLead(ws, top, runners) && |runners| <= 1 && processed <= |order|
    ensures forall w :: 0 <= w < |ws| ==> (w in order[..processed] <==> Passed(ws, top, runners, w))
  {
    hide Less;
    ListsIsDistinct(order, TimeKeys(ws), |ws|);
    runners, processed := [], 0;
    while processed < |order| && |top| + |runners| < MAX_MINERS
      invariant processed <= |order| && |top| + |runners| <= MAX_MINERS && Distinct(top + runners)
      invariant runners != [] ==> |top| == MAX_VOTED_WITNESSES
      invariant forall k :: 0 <= k < |runners| ==>
        runners[k] < |ws| && ws[runners[k]].keyed && runners[k] in order[..processed]
      invariant forall k :: 0 <= k < processed && ws[order[k]].keyed ==> order[k] in top || order[k] in runners
      invariant |top| + |runners| == MAX_MINERS ==>
        processed > 0 && runners != [] && order[processed - 1] == runners[|runners| - 1]
    {
      var w := order[processed];
      if ws[w].keyed && w !in top {
        assert w !in order[..processed];
        assert top + (runners + [w]) == top + runners + [w];
        runners := runners + [w];
      }
      processed := processed + 1;
    }
    LookedAtInTurn(ws, top, runners, order, processed);
  }

  lemma {:induction false} LookedAtInTurn(ws: seq<Witness>, top: seq<nat>, runners: seq<nat>, order: seq<nat>,
                                          processed: nat)
    requires Lists(order, TimeKeys(ws), |ws|) && processed <= |order| && |top + runners| <= MAX_MINERS
    requires Distinct(top + runners)
    requires forall k :: 0 <= k < |runners| ==>
      runners[k] < |ws| && ws[runners[k]].keyed && runners[k] in order[..processed]
    requires forall k :: 0 <= k < processed && ws[order[k]].keyed ==> order[k] in top || order[k] in runners
    requires processed < |order| ==> |top + runners| == MAX_MINERS
    requires |top + runners| == MAX_MINERS ==>
      processed > 0 && runners != [] && order[processed - 1] == runners[|runners| - 1]
    ensures InLead(ws, top, runners)
    ensures forall w :: 0 <= w < |ws| ==> (w in order[..processed] <==> Passed(ws, top, runners, w))
  {
    hide Less, Distinct;
    forall w | 0 <= w < |ws|
      ensures w in order[..processed] <==> Passed(ws, top, runners, w)
      ensures w !in order[..processed] ==>
        |top + runners| == MAX_MINERS && forall k :: 0 <= k < |runners| ==> Less(Turn(ws, runners[k]), Turn(ws, w))
      ensures ws[w].keyed && w !in top && w !in runners ==> w !in order[..processed]
    {
      assert w in order;
      var p :| 0 <= p < |order| && order[p] == w;
      if w in order[..processed] {
        var q :| 0 <= q < processed && order[q] == w;
        NotAfterLast(ws, order, processed, w);
      } else {
        assert order[..processed] <= order[..p];
        forall k | 0 <= k < |runners|
          ensures Less(Turn(ws, runners[k]), Turn(ws, w))
        {
          EarlierIsLess(order, TimeKeys(ws), p, runners[k]);
        }
      }
    }
  }

  lemma {:induction false} NotAfterLast(ws: seq<Witness>, order: seq<nat>, processed: nat, w: nat)
    requires Lists(order, TimeKeys(ws), |ws|) && 0 < processed <= |order| && w in order[..processed]
    ensures w < |ws| && order[processed - 1] < |ws| && !Less(Turn(ws, order[processed - 1]), Turn(ws, w))
  {
    if w != order[processed - 1] {
      assert w in order[..processed - 1];
      EarlierIsLess(order, TimeKeys(ws), processed - 1, w);
    }
  }

  /** 64-bit pseudo-random number for position `i` at block time `time`. */
  function Random(time: bv64, i: bv64): bv64 {
    var k0 := (time << 32) + i * 2685821657736338717;
    var k1 := k0 ^ (k0 >> 12);
    var k2 := k1 ^ (k1 << 25);
    var k3 := k2 ^ (k2 >> 27);
    k3 * 2685821657736338717
  }

  /** Fisher-Yates from position `i` on, `bits` being `i` in 64 bits. */
  function ShuffledFrom(s: seq<nat>, time: bv64, i: nat, bits: bv64): seq<nat>
    decreases |s| - i
  {
    if i >= |s| then s
    else
      var j := i + Random(time, bits) as nat % (|s| - i);
      ShuffledFrom(s[i := s[j]][j := s[i]], time, i + 1, bits + 1)
  }

  lemma {:induction false} SwapPermutes(s: seq<nat>, i: nat, j: nat)
    requires i < |s| && j < |s|
    ensures multiset(s[i := s[j]][j := s[i]]) == multiset(s)
  {
  }

  lemma {:induction false} ShufflePermutes(s: seq<nat>, time: bv64, i: nat, bits: bv64)
    ensures multiset(ShuffledFrom(s, time, i, bits)) == multiset(s) && |ShuffledFrom(s, time, i, bits)| == |s|
    decreases |s| - i
  {
    hide Random;
    if i < |s| {
      var j := i + Random(time, bits) as nat % (|s| - i);
      SwapPermutes(s, i, j);
      ShufflePermutes(s[i := s[j]][j := s[i]], time, i + 1, bits + 1);
    }
  }

  /** No witness is scheduled for a time that has passed. */
  ghost predicate InTime(ws: seq<Witness>, time: nat) {
    && time < TWO_128
    && forall w :: 0 <= w < |ws| ==>
         ws[w].lastUpdate <= time <= ws[w].scheduled < TWO_128 && ws[w].position < TWO_128
  }

  /** When a witness with these votes will have run a whole lap, in 128 bits. */
  function NextLap(time: nat, votes: nat): nat {
    (time + LAP / (votes + 1)) % TWO_128
  }

  /** A witness at the start of a lap. */
  function NewLap(w: Witness, time: nat): Witness {
    w.(position := 0, lastUpdate := time, scheduled := NextLap(time, w.votes))
  }

  /** A witness when virtual time starts again. */
  function Restarted(w: Witness): Witness {
    w.(position := 0, lastUpdate := 0, scheduled := LAP / (w.votes + 1))
  }

  /** How far a witness has come in its lap at `time`. */
  function Progress(w: Witness, time: nat): nat {
    (w.position + w.votes * ((time - w.lastUpdate) % TWO_128)) % TWO_128
  }

  /** When it will finish the lap with `votes`, or the end of time if that does not fit. */
  function Finish(position: nat, votes: nat, time: nat): nat {
    var scheduled := (time + (LAP - position) % TWO_128 / (votes + 1)) % TWO_128;
    if scheduled < time then TWO_128 - 1 else scheduled
  }

  /** At `time`, a witness with these votes will have `left` behind it by `scheduled`, and not before. */
  ghost predicate RunsUntil(left: int, votes: nat, time: nat, scheduled: nat) {
    (scheduled - time) * (votes + 1) <= left < (scheduled - time + 1) * (votes + 1)
  }

  /**
   As long as 128 bits hold it, the distance covered in the lap is kept when the votes change, and what is left
   of the lap is run at the new rate; a time that does not fit becomes the end of time.
   */
  lemma {:induction false} DistanceIsKept(w: Witness, votes: nat, time: nat)
    requires w.lastUpdate <= time < TWO_128 && w.position + w.votes * (time - w.lastUpdate) < TWO_128
    ensures var position := Progress(w, time); var scheduled := Finish(position, votes, time);
      && position == w.position + w.votes * (time - w.lastUpdate)
      && if (TWO_128 - time) * (votes + 1) <= LAP - position then scheduled == LAP
         else scheduled < TWO_128 && RunsUntil(LAP - position, votes, time, scheduled)
  {
    Unwrapped(time - w.lastUpdate);
    Unwrapped(w.position + w.votes * (time - w.lastUpdate));
    assert Progress(w, time) == w.position + w.votes * (time - w.lastUpdate);
    hide Progress;
    FinishIs(Progress(w, time), votes, time);
  }

  lemma {:induction false} Unwrapped(a: int)
    requires 0 <= a < TWO_128
    ensures a % TWO_128 == a
  {
  }

  lemma {:induction false} WrappedOnce(a: int)
    requires TWO_128 <= a < 2 * TWO_128
    ensures a % TWO_128 == a - TWO_128
  {
  }

  lemma {:induction false} FinishIs(position: nat, votes: nat, time: nat)
    requires position < TWO_128 && time < TWO_128
    ensures var scheduled := Finish(position, votes, time);
      if (TWO_128 - time) * (votes + 1) <= LAP - position then scheduled == LAP
      else scheduled < TWO_128 && RunsUntil(LAP - position, votes, time, scheduled)
  {
    var left := LAP - position;
    Unwrapped(left);
    RunIs(left, votes);
    AtLeast(left, votes + 1, TWO_128 - time);
    assert (TWO_128 - time) * (votes + 1) <= left <==> TWO_128 - time <= left / (votes + 1);
    var run := left / (votes + 1);
    if time + run < TWO_128 {
      Unwrapped(time + run);
    } else {
      WrappedOnce(time + run);
    }
  }

  lemma {:induction false} RunIs(left: nat, votes: nat)
    ensures 0 <= left / (votes + 1) <= left
    ensures left / (votes + 1) * (votes + 1) <= left < (left / (votes + 1) + 1) * (votes + 1)
  {
    DivisionBounds(left, votes + 1);
    LessAfterDivision(left, votes);
  }

  lemma {:induction false} LessAfterDivision(left: nat, votes: nat)
    ensures 0 <= left / (votes + 1) <= left
  {
  }

  /** A new lap is run from start to end, and a restart is a new lap at time 0. */
  lemma {:induction false} WholeLap(w: Witness, time: nat)
    requires time < TWO_128
    ensures !RunsOver(time, w.votes) ==> RunsUntil(LAP, w.votes, time, NewLap(w, time).scheduled)
    ensures NewLap(w, time).lastUpdate == time && NewLap(w, time).position == 0
    ensures Restarted(w) == NewLap(w, 0)
  {
    RunIs(LAP, w.votes);
    if !RunsOver(time, w.votes) {
      Unwrapped(time + LAP / (w.votes + 1));
    }
    Unwrapped(LAP / (w.votes + 1));
  }

  /** A lap from `time` on ends beyond what 128 bits can hold. */
  predicate RunsOver(time: nat, votes: nat) {
    time + LAP / (votes + 1) >= TWO_128
  }

  lemma {:induction false} LapFits(time: nat, votes: nat)
    requires time < TWO_128
    ensures LAP / (votes + 1) <= LAP && (RunsOver(time, votes) <==> NextLap(time, votes) < time)
  {
    RunIs(LAP, votes);
    if RunsOver(time, votes) {
      assert NextLap(time, votes) == time + LAP / (votes + 1) - TWO_128;
    }
  }

  /** The same witnesses at another time. */
  ghost predicate SameWitnesses(ws: seq<Witness>, after: seq<Witness>) {
    && |after| == |ws|
    && forall w :: 0 <= w < |ws| ==>
       after[w].name == ws[w].name && after[w].votes == ws[w].votes && after[w].keyed == ws[w].keyed
  }

  /** What is left unprocessed comes later than all that is processed. */
  lemma {:induction false} RestIsLater(ws: seq<Witness>, order: seq<nat>, processed: nat, time: nat)
    requires Lists(order, TimeKeys(ws), |ws|) && 0 < processed <= |order| && time == ws[order[processed - 1]].scheduled
    ensures forall w :: 0 <= w < |ws| && w !in order[..processed] ==> time <= ws[w].scheduled
    ensures forall k :: 0 <= k < processed ==> ws[order[k]].scheduled <= time
  {
    forall w | 0 <= w < |ws| && w !in order[..processed]
      ensures time <= ws[w].scheduled
    {
      assert w in order;
      var p :| 0 <= p < |order| && order[p] == w;
      assert Less(TimeKeys(ws)[order[processed - 1]], TimeKeys(ws)[order[p]]);
    }
    forall k | 0 <= k < processed
      ensures ws[order[k]].scheduled <= time
    {
      if k < processed - 1 {
        assert Less(TimeKeys(ws)[order[k]], TimeKeys(ws)[order[processed - 1]]);
      }
    }
  }

  /** If there are witnesses, some are looked at, and the last of them is one of those. */
  lemma {:induction false} SomeAreLookedAt(ws: seq<Witness>, top: seq<nat>, runners: seq<nat>, order: seq<nat>,
                                          processed: nat)
    requires TopVoted(ws, top) && InLead(ws, top, runners) && Lists(order, TimeKeys(ws), |ws|) && processed <= |order|
    requires forall w :: 0 <= w < |ws| ==> (w in order[..processed] <==> Passed(ws, top, runners, w))
    ensures processed == 0 <==> ws == []
    ensures processed > 0 ==> order[processed - 1] < |ws| && Passed(ws, top, runners, order[processed - 1])
  {
    if processed == 0 && ws != [] {
      var w := if |top + runners| == MAX_MINERS then runners[|runners| - 1] else 0;
      assert Passed(ws, top, runners, w);
    }
    if processed > 0 {
      assert order[processed - 1] in order[..processed];
    }
  }

  lemma {:induction false} LeadIsDistinct(ws: seq<Witness>, top: seq<nat>, runners: seq<nat>)
    requires InLead(ws, top, runners)
    ensures Distinct(top + runners) && |top + runners| <= MAX_MINERS
  {
  }

  lemma {:induction false} NamesKept(ws: seq<Witness>, after: seq<Witness>)
    requires NamesDiffer(ws) && |after| == |ws| && forall w :: 0 <= w < |ws| ==> after[w].name == ws[w].name
    ensures NamesDiffer(after)
  {
  }

  /** Those that start a new lap and those that still wait are all scheduled for later. */
  lemma {:induction false} LapsInTime(ws: seq<Witness>, after: seq<Witness>, before: nat, order: seq<nat>,
                                      processed: nat, time: nat)
    requires InTime(ws, before) && before <= time < TWO_128 && processed <= |order| && |after| == |ws|
    requires forall w :: 0 <= w < |ws| && w !in order[..processed] ==> time <= ws[w].scheduled
    requires forall i :: 0 <= i < |order| ==> order[i] < |ws|
    requires forall k :: 0 <= k < processed ==> !RunsOver(time, ws[order[k]].votes)
    requires forall w :: 0 <= w < |ws| ==>
      after[w] == if w in order[..processed] then NewLap(ws[w], time) else ws[w]
    ensures InTime(after, time)
  {
    forall w | 0 <= w < |ws|
      ensures time <= after[w].scheduled < TWO_128
    {
      if w in order[..processed] {
        LapFits(time, ws[w].votes);
      }
    }
  }

  class Schedule {
    var witnesses: seq<Witness>
    /** `current_virtual_time` */
    var currentTime: nat
    /** `current_shuffled_witnesses` */
    var shuffled: seq<nat>
    var nextShuffle: nat

    ghost predicate Valid()
      reads this
    {
      InTime(witnesses, currentTime) && NamesDiffer(witnesses)
    }

    constructor ()
      ensures Valid() && witnesses == [] && currentTime == 0
    {
      witnesses, currentTime, shuffled, nextShuffle := [], 0, [], 1;
    }

    /** A new witness waits at the end of time until somebody votes for it. */
    method CreateWitness(name: nat, keyed: bool)
      requires Valid() && forall w :: 0 <= w < |witnesses| ==> witnesses[w].name != name
      modifies this`witnesses
      ensures Valid() && witnesses == old(witnesses) + [Witness(name, 0, keyed, 0, 0, TWO_128 - 1)]
    {
      witnesses := witnesses + [Witness(name, 0, keyed, 0, 0, TWO_128 - 1)];
    }

    /** `witness_update` and lost blocks change the key. */
    method SetKeyed(w: nat, keyed: bool)
      requires Valid() && w < |witnesses|
      modifies this`witnesses
      ensures Valid() && witnesses == old(witnesses)[w := old(witnesses)[w].(keyed := keyed)]
    {
      witnesses := witnesses[w := witnesses[w].(keyed := keyed)];
    }

    /**
     Votes change between rounds: the witness keeps its place in the lap, and a time that would not fit
     or would have passed becomes the end of time.  Fails with more votes than vests.
     */
    method AdjustWitnessVote(w: nat, delta: int, totalVests: int) returns (ok: bool)
      requires Valid() && w < |witnesses| && witnesses[w].votes + delta >= 0
      modifies this`witnesses
      ensures Valid() && ok == (old(witnesses)[w].votes + delta <= totalVests)
      ensures !ok ==> witnesses == old(witnesses)
      ensures ok ==> var x, votes := old(witnesses)[w], old(witnesses)[w].votes + delta;
        witnesses ==
          old(witnesses)[w := x.(votes := votes, position := Progress(x, currentTime), lastUpdate := currentTime,
                                            scheduled := Finish(Progress(x, currentTime), votes, currentTime))]
      ensures ok ==> var x, y := old(witnesses)[w], witnesses[w];
        x.position + x.votes * (currentTime - x.lastUpdate) < TWO_128 ==>
          && y.position == x.position + x.votes * (currentTime - x.lastUpdate) && y.lastUpdate == currentTime
          && if (TWO_128 - currentTime) * (y.votes + 1) <= LAP - y.position then y.scheduled == LAP
             else RunsUntil(LAP - y.position, y.votes, currentTime, y.scheduled)
    {
      hide NamesDiffer;
      var x := witnesses[w];
      var position := (x.position + x.votes * ((currentTime - x.lastUpdate) % TWO_128)) % TWO_128;
      var votes := x.votes + delta;
      if votes > totalVests {
        return false;
      }
      var scheduled := (currentTime + (LAP - position) % TWO_128 / (votes + 1)) % TWO_128;
      if scheduled < currentTime {
        scheduled := TWO_128 - 1;
      }
      assert position == Progress(x, currentTime) && scheduled == Finish(position, votes, currentTime);
      if x.position + x.votes * (currentTime - x.lastUpdate) < TWO_128 {
        DistanceIsKept(x, votes, currentTime);
      }
      hide Progress, Finish, RunsUntil;
      witnesses := witnesses[w := x.(votes := votes, position := position, lastUpdate := currentTime,
        scheduled := scheduled)];
      NamesKept(old(witnesses), witnesses);
      ok := true;
    }

    /** Starts virtual time again at 0 for everybody. */
    method ResetVirtualScheduleTime()
      modifies this`currentTime, this`witnesses
      ensures currentTime == 0 && SameWitnesses(old(witnesses), witnesses) && InTime(witnesses, 0)
      ensures forall w :: 0 <= w < |witnesses| ==>
        witnesses[w] == Restarted(old(witnesses)[w])
    {
      currentTime := 0;
      for w := 0 to |witnesses|
        invariant |witnesses| == |old(witnesses)|
        invariant forall v :: 0 <= v < w ==>
          witnesses[v] == Restarted(old(witnesses)[v])
        invariant forall v :: w <= v < |witnesses| ==> witnesses[v] == old(witnesses)[v]
        modifies this`witnesses
      {
        witnesses := witnesses[w := witnesses[w].(position := 0, lastUpdate := 0,
          scheduled := LAP / (witnesses[w].votes + 1))];
      }
    }

    /** A new lap for all that were looked at; tells whether a time ran over the end of 128 bits. */
    method StartLaps(order: seq<nat>, processed: nat, time: nat) returns (overflow: bool)
      requires Distinct(order) && processed <= |order| && forall i :: 0 <= i < |order| ==> order[i] < |witnesses|
      requires time < TWO_128
      modifies this`witnesses
      ensures SameWitnesses(old(witnesses), witnesses)
      ensures overflow <==> exists k :: 0 <= k < processed && RunsOver(time, old(witnesses)[order[k]].votes)
      ensures !overflow ==> forall w :: 0 <= w < |witnesses| ==>
        witnesses[w] == if w in order[..processed]
          then NewLap(old(witnesses)[w], time) else old(witnesses)[w]
    {
      for k := 0 to processed
        invariant SameWitnesses(old(witnesses), witnesses)
        invariant forall i :: 0 <= i < k ==> !RunsOver(time, old(witnesses)[order[i]].votes)
        invariant forall w :: 0 <= w < |witnesses| ==>
          witnesses[w] == if w in order[..k]
            then NewLap(old(witnesses)[w], time) else old(witnesses)[w]
      {
        var w := order[k];
        assert w !in order[..k];
        var scheduled := NextLap(time, witnesses[w].votes);
        LapFits(time, witnesses[w].votes);
        if scheduled < time {
          return true;
        }
        witnesses := witnesses[w := witnesses[w].(position := 0, lastUpdate := time, scheduled := scheduled)];
        assert order[..k + 1] == order[..k] + [w];
      }
      overflow := false;
    }

    /** Fisher-Yates with numbers drawn from the block time. */
    method Shuffle(time: bv64)
      modifies this`shuffled
      ensures shuffled == ShuffledFrom(old(shuffled), time, 0, 0)
    {
      hide Random;
      var bits: bv64 := 0;
      for i := 0 to |shuffled|
        invariant |shuffled| == |old(shuffled)|
        invariant ShuffledFrom(shuffled, time, i, bits) == ShuffledFrom(old(shuffled), time, 0, 0)
      {
        var j := i + Random(time, bits) as nat % (|shuffled| - i);
        shuffled := shuffled[i := shuffled[j]][j := shuffled[i]];
        bits := bits + 1;
      }
    }

    /**
     A new round: the most voted witnesses and the next in line, shuffled.  Virtual time goes on to the
     time of the last one looked at, and all that were looked at start a new lap.  Virtual time starts
     again exactly when the next time of one of them does not fit.
     */
    method UpdateWitnessSchedule(headBlock: nat, time: bv64)
      returns (reset: bool, ghost top: seq<nat>, ghost runners: seq<nat>, ghost reached: nat)
      requires Valid()
      modifies this
      ensures Valid() && SameWitnesses(old(witnesses), witnesses)
      ensures TopVoted(old(witnesses), top) && InLead(old(witnesses), top, runners) && |runners| <= 1
      ensures Distinct(shuffled) && |shuffled| <= MAX_MINERS && multiset(shuffled) == multiset(top + runners)
      ensures shuffled == ShuffledFrom(top + runners, time, 0, 0) && nextShuffle == headBlock + |shuffled|
      ensures reached >= old(currentTime) && currentTime == if reset then 0 else reached
      ensures var ws := old(witnesses);
        && (forall w :: 0 <= w < |ws| && Passed(ws, top, runners, w) ==> ws[w].scheduled <= reached)
        && (if ws == [] then reached == old(currentTime)
            else exists w :: 0 <= w < |ws| && Passed(ws, top, runners, w) && ws[w].scheduled == reached)
        && (reset <==> exists w :: 0 <= w < |ws| && Passed(ws, top, runners, w) && RunsOver(reached, ws[w].votes))
        && forall w :: 0 <= w < |ws| ==>
             witnesses[w] == if reset then Restarted(ws[w])
               else if Passed(ws, top, runners, w) then NewLap(ws[w], reached) else ws[w]
    {
      hide TopVoted, InLead, InTime, RunsOver, Lists, NamesDiffer, Distinct, Passed, Restarted, NewLap, Random;
      var voted := SelectVoted(witnesses);
      var keys := TimeKeys(witnesses);
      var order := Order(keys);
      var others, processed := SelectRunners(witnesses, voted, order);
      top, runners := voted, others;
      SomeAreLookedAt(witnesses, top, runners, order, processed);
      reset, reached := AdvanceTime(order, processed);
      NamesKept(old(witnesses), witnesses);
      shuffled := voted + others;
      Shuffle(time);
      ShufflePermutes(top + runners, time, 0, 0);
      LeadIsDistinct(old(witnesses), top, runners);
      ShuffledIsDistinct(top + runners, shuffled);
      nextShuffle := headBlock + |shuffled|;
    }

    /** Moves virtual time on to the last witness looked at, or back to 0 when somebody's next lap does not fit. */
    method AdvanceTime(order: seq<nat>, processed: nat) returns (reset: bool, ghost reached: nat)
      requires InTime(witnesses, currentTime) && Lists(order, TimeKeys(witnesses), |witnesses|) && processed <= |order|
      modifies this`witnesses, this`currentTime
      ensures InTime(witnesses, currentTime) && SameWitnesses(old(witnesses), witnesses)
      ensures reached >= old(currentTime) && currentTime == if reset then 0 else reached
      ensures var ws := old(witnesses);
        && (forall w :: 0 <= w < |ws| && w in order[..processed] ==> ws[w].scheduled <= reached)
        && (if processed == 0 then reached == old(currentTime)
           else order[processed - 1] < |ws| && ws[order[processed - 1]].scheduled == reached)
        && (reset <==> exists w :: 0 <= w < |ws| && w in order[..processed] && RunsOver(reached, ws[w].votes))
        && forall w :: 0 <= w < |ws| ==>
             witnesses[w] == if reset then Restarted(ws[w]) else if w in order[..processed] then NewLap(ws[w], reached)
               else ws[w]
    {
      hide Lists, RunsOver, NextLap;
      ListsIsDistinct(order, TimeKeys(witnesses), |witnesses|);
      var newTime := currentTime;
      if processed > 0 {
        newTime := witnesses[order[processed - 1]].scheduled;
        RestIsLater(witnesses, order, processed, newTime);
      }
      reached := newTime;
      reset := StartLaps(order, processed, newTime);
      if reset {
        newTime := 0;
        ResetVirtualScheduleTime();
      } else {
        LapsInTime(old(witnesses), witnesses, old(currentTime), order, processed, newTime);
      }
      currentTime := newTime;
    }
  }
}
