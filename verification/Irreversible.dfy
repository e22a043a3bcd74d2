/**
 The last irreversible block: raised when enough scheduled witnesses have confirmed a block.
 */
module Irreversible {

  const MAX_MINERS := 21
  const START_MINER_VOTING_BLOCK := 28800
  const HUNDRED_PERCENT := 10000
  const IRREVERSIBLE_THRESHOLD := 5100

  /** How many of the numbers are at least `v`. */
  ghost function AtLeast(s: seq<nat>, v: int): nat {
    if s == [] then 0 else AtLeast(s[..|s| - 1], v) + if s[|s| - 1] >= v then 1 else 0
  }

  lemma {:induction false} AtLeastSplit(a: seq<nat>, b: seq<nat>, v: int)
    ensures AtLeast(a + b, v) == AtLeast(a, v) + AtLeast(b, v)
  {
    if b == [] {
      assert a + b == a;
    } else {
      assert (a + b)[..|a + b| - 1] == a + b[..|b| - 1];
      AtLeastSplit(a, b[..|b| - 1], v);
    }
  }

  lemma {:induction false} AtLeastBounds(s: seq<nat>, v: int)
    ensures AtLeast(s, v) <= |s|
    ensures (forall i :: 0 <= i < |s| ==> s[i] >= v) ==> AtLeast(s, v) == |s|
    ensures (forall i :: 0 <= i < |s| ==> s[i] < v) ==> AtLeast(s, v) == 0
  {
    if s != [] {
      AtLeastBounds(s[..|s| - 1], v);
    }
  }

  ghost predicate Sorted(s: seq<nat>) {
    forall i, j :: 0 <= i < j < |s| ==> s[i] <= s[j]
  }

  /**
   `n` numbers of which the one at `offset` in sorted order is `v`: exactly those up to `v` are
   reached by `n - offset` of them.
   */
  lemma {:induction false} NthIsHighest(s: seq<nat>, offset: nat, b: int)
    requires Sorted(s) && offset < |s|
    ensures AtLeast(s, b) >= |s| - offset <==> b <= s[offset]
  {
    assert s == s[..offset] + s[offset..] && s == s[..offset + 1] + s[offset + 1..];
    if b <= s[offset] {
      AtLeastSplit(s[..offset], s[offset..], b);
      AtLeastBounds(s[offset..], b);
    } else {
      AtLeastSplit(s[..offset + 1], s[offset + 1..], b);
      AtLeastBounds(s[..offset + 1], b);
      AtLeastBounds(s[offset + 1..], b);
    }
  }

  /** How many witnesses must have confirmed a block: the threshold of `n`, rounded up. */
  function Quorum(n: nat): nat {
    (IRREVERSIBLE_THRESHOLD * n + HUNDRED_PERCENT - 1) / HUNDRED_PERCENT
  }

  lemma {:induction false} OffsetLeavesQuorum(n: nat)
    ensures n - (HUNDRED_PERCENT - IRREVERSIBLE_THRESHOLD) * n / HUNDRED_PERCENT == Quorum(n)
  {
  }

  /** The number that `nth_element` leaves at position `k`. */
  method NthElement(values: seq<nat>, k: nat) returns (v: nat)
    requires k < |values|
    ensures forall b: int :: AtLeast(values, b) >= |values| - k <==> b <= v
  {
    var sorted: seq<nat> := [];
    for i := 0 to |values|
      invariant |sorted| == i && Sorted(sorted)
      invariant forall b: int :: AtLeast(sorted, b) == AtLeast(values[..i], b)
    {
      var p := 0;
      while p < i && sorted[p] <= values[i]
        invariant p <= i && forall q :: 0 <= q < p ==> sorted[q] <= values[i]
      {
        p := p + 1;
      }
      ghost var before := sorted;
      sorted := sorted[..p] + [values[i]] + sorted[p..];
      forall b: int
        ensures AtLeast(sorted, b) == AtLeast(values[..i + 1], b)
      {
        assert values[..i + 1] == values[..i] + [values[i]] && before == before[..p] + before[p..];
        AtLeastSplit(values[..i], [values[i]], b);
        AtLeastSplit(before[..p], before[p..], b);
        AtLeastSplit(before[..p] + [values[i]], before[p..], b);
        AtLeastSplit(before[..p], [values[i]], b);
      }
    }
    assert values[..|values|] == values;
    v := sorted[k];
    forall b: int
      ensures AtLeast(values, b) >= |values| - k <==> b <= v
    {
      NthIsHighest(sorted, k, b);
    }
  }

  lemma {:induction false} NoneAbove(s: seq<nat>, high: nat, v: nat, enough: nat)
    requires (forall i :: 0 <= i < |s| ==> s[i] <= high) && enough > 0 && AtLeast(s, v) >= enough
    ensures v <= high
  {
    if v > high {
      AtLeastBounds(s, v);
    }
  }

  class BlockFinality {
    var head: nat
    var lastIrreversible: nat
    /** `last_confirmed_block_num`, by witness id. */
    var lastConfirmed: seq<nat>
    /** `current_shuffled_witnesses` */
    var scheduled: seq<nat>

    ghost predicate Valid()
      reads this
    {
      && lastIrreversible <= head && (forall w :: 0 <= w < |lastConfirmed| ==> lastConfirmed[w] <= head)
      && (head < START_MINER_VOTING_BLOCK ==> lastIrreversible == if head > MAX_MINERS then head - MAX_MINERS else 0)
      && scheduled != [] && forall i :: 0 <= i < |scheduled| ==> scheduled[i] < |lastConfirmed|
    }

    /** What the scheduled witnesses have last confirmed. */
    ghost function Confirmations(): (s: seq<nat>)
      requires Valid()
      reads this
      ensures |s| == |scheduled|
    {
      seq(|scheduled|, i requires 0 <= i < |scheduled| reads this requires Valid() => lastConfirmed[scheduled[i]])
    }

    constructor (witnessCount: nat, schedule: seq<nat>)
      requires schedule != [] && forall i :: 0 <= i < |schedule| ==> schedule[i] < witnessCount
      ensures Valid() && head == 0 && lastIrreversible == 0
    {
      head, lastIrreversible, lastConfirmed, scheduled := 0, 0, seq(witnessCount, _ => 0), schedule;
    }

    /**
     A block by `signer` is applied.  The last irreversible block never goes back and never passes the
     head; once witnesses are voted for it is the highest block that a quorum has confirmed, or the
     one from before if that is higher.
     */
    method ApplyBlock(signer: nat)
      requires Valid() && signer < |lastConfirmed|
      modifies this`head, this`lastConfirmed, this`lastIrreversible
      ensures Valid() && head == old(head) + 1 && lastConfirmed == old(lastConfirmed)[signer := head]
      ensures old(lastIrreversible) <= lastIrreversible <= head
      ensures head >= START_MINER_VOTING_BLOCK ==>
        && (lastIrreversible > old(lastIrreversible) ==>
           AtLeast(Confirmations(), lastIrreversible) >= Quorum(|scheduled|))
        && (forall b :: b > lastIrreversible ==> AtLeast(Confirmations(), b) < Quorum(|scheduled|))
    {
      head := head + 1;
      lastConfirmed := lastConfirmed[signer := head];
      if head < START_MINER_VOTING_BLOCK {
        if head > MAX_MINERS {
          lastIrreversible := head - MAX_MINERS;
        }
        return;
      }
      var confirmed: seq<nat> := [];
      for i := 0 to |scheduled|
        invariant |confirmed| == i && forall k :: 0 <= k < i ==> confirmed[k] == lastConfirmed[scheduled[k]]
      {
        confirmed := confirmed + [lastConfirmed[scheduled[i]]];
      }
      var offset := (HUNDRED_PERCENT - IRREVERSIBLE_THRESHOLD) * |confirmed| / HUNDRED_PERCENT;
      OffsetLeavesQuorum(|confirmed|);
      var block := NthElement(confirmed, offset);
      NoneAbove(confirmed, head, block, |confirmed| - offset);
      if block > lastIrreversible {
        lastIrreversible := block;
      }
      assert confirmed == Confirmations();
      assert AtLeast(confirmed, block) >= Quorum(|scheduled|);
    }

    /** A new schedule of witnesses. */
    method SetSchedule(schedule: seq<nat>)
      requires Valid() && schedule != [] && forall i :: 0 <= i < |schedule| ==> schedule[i] < |lastConfirmed|
      modifies this`scheduled
      ensures Valid() && scheduled == schedule
    {
      scheduled := schedule;
    }
  }
}
