/**
 Answering a summary, and what a node does with the answer.
 */
module SyncPeers {
  import opened Wrappers
  import opened ForkTree
  import opened SynopsisSpec
  import opened Synopsis

  /** A block that the answering node knows and has in its chain. */
  predicate Recognised(c: seq<BlockId>, known: set<BlockId>, id: BlockId) {
    id == NULL_ID || (id in known && OnChain(c, id))
  }

  /** The answer of an honest peer goes on from entry `k` of the summary, the last one that is part of its chain. */
  ghost predicate Answers(c: seq<BlockId>, known: set<BlockId>, synopsis: seq<BlockId>, limit: nat, reply: Reply,
                          k: nat) {
    && k < |synopsis| && Recognised(c, known, synopsis[k]) && synopsis[k] != NULL_ID
    && reply == ReplyFrom(c, Num(synopsis[k]), limit)
    && forall j :: k < j < |synopsis| ==> !Recognised(c, known, synopsis[j])
  }

  /** Looking up whether a known block is part of the chain throws if its number is not. */
  predicate Throws(c: seq<BlockId>, known: set<BlockId>, id: BlockId) {
    id != NULL_ID && id in known && !(1 <= Num(id) <= |c|)
  }

  /** Going through the summary from its end, entry `k` is the first that is recognised, and nothing throws before. */
  ghost predicate FoundAt(c: seq<BlockId>, known: set<BlockId>, synopsis: seq<BlockId>, k: nat) {
    && k < |synopsis| && Recognised(c, known, synopsis[k])
    && forall j :: k < j < |synopsis| ==> !Recognised(c, known, synopsis[j]) && !Throws(c, known, synopsis[j])
  }

  /** A summary of a node without blocks; old versions send the null id. */
  predicate SaysNothing(synopsis: seq<BlockId>) {
    synopsis == [] || (|synopsis| == 1 && synopsis[0] == NULL_ID)
  }

  /**
   `get_block_ids`: the ids from the last block of the summary that is part of chain `c`.  `known`
   are all blocks the node knows, also of forks.  Nothing is returned where the source throws.
   */
  method GetBlockIds(c: seq<BlockId>, known: set<BlockId>, synopsis: seq<BlockId>,
                     limit: nat) returns (reply: Option<Reply>)
    requires IsChain(c) && limit > 0
    ensures c == [] ==> reply == Some(Reply([], 0))
    ensures c != [] && synopsis != [] && NULL_ID !in synopsis && reply.Some? ==>
      exists k: nat :: Answers(c, known, synopsis, limit, reply.value, k)
    ensures reply.Some? <==> c == [] || SaysNothing(synopsis) || exists k: nat :: FoundAt(c, known, synopsis, k)
    ensures forall k: nat :: c != [] && !SaysNothing(synopsis) && FoundAt(c, known, synopsis, k) ==>
      reply == Some(ReplyFrom(c, if synopsis[k] == NULL_ID then 1 else Num(synopsis[k]), limit))
    ensures c != [] && SaysNothing(synopsis) ==> reply == Some(ReplyFrom(c, 1, limit))
  {
    if c == [] {
      return Some(Reply([], 0));
    }
    var num := 0;
    ghost var at := 0;
    if !(synopsis == [] || (|synopsis| == 1 && synopsis[0] == NULL_ID)) {
      var k := |synopsis|;
      var found := false;
      while k > 0 && !found
        invariant 0 <= k <= |synopsis|
        invariant if found then k < |synopsis| && Recognised(c, known, synopsis[k]) && num == Num(synopsis[k])
                  && FoundAt(c, known, synopsis, k)
                  else forall j :: k <= j < |synopsis| ==>
                    !Recognised(c, known, synopsis[j]) && !Throws(c, known, synopsis[j])
        decreases k, !found
      {
        k := k - 1;
        var id := synopsis[k];
        if id == NULL_ID {
          found, num := true, 0;
        } else if id in known {
          if !(1 <= Num(id) <= |c|) {
            assert Throws(c, known, synopsis[k]);
            return None;
          }
          if c[Num(id) - 1] == id {
            found, num := true, Num(id);
          }
        }
      }
      if !found {
        return None;
      }
      at := k;
    }
    var ids := ListIds(c, num, limit);
    var remaining := 0;
    ReplyStarts(c, if num == 0 then 1 else num, limit);
    if ids != [] && Num(ids[|ids| - 1]) < |c| {
      remaining := |c| - Num(ids[|ids| - 1]);
    }
    reply := Some(Reply(ids, remaining));
    if synopsis != [] && NULL_ID !in synopsis {
      assert Answers(c, known, synopsis, limit, reply.value, at);
    }
  }

  method ListIds(c: seq<BlockId>, start: nat, limit: nat) returns (ids: seq<BlockId>)
    requires limit > 0
    ensures ids == ReplyFrom(c, if start == 0 then 1 else start, limit).ids
  {
    var num, first := start, if start == 0 then 1 else start;
    ids := [];
    while num <= |c| && |ids| < limit
      invariant if num == 0 then ids == [] && start == 0 else first <= num && (num <= |c| + 1 || num == first)
      invariant num > 0 && num > first ==> num <= |c| + 1 && ids == c[first - 1..num - 1] && |ids| <= limit
      invariant num > 0 && num == first ==> ids == []
      decreases |c| + 1 - num
    {
      if num > 0 {
        assert c[first - 1..num] == c[first - 1..num - 1] + [c[num - 1]];
        ids := ids + [c[num - 1]];
      }
      num := num + 1;
    }
  }

  /** A summary names no block twice, no null block, and ends with the last block there is. */
  lemma {:induction false} SummaryOfChain(ids: seq<BlockId>, low: nat)
    requires Contiguous(ids, 1) && 1 <= low <= |ids|
    ensures var s := Summary(ids, low);
      && |s| == BitLength(|ids| - low + 1) && s[0] == ids[low - 1] && s[|s| - 1] == ids[|ids| - 1]
      && NULL_ID !in s && forall i, j :: 0 <= i < j < |s| ==> Num(s[i]) < Num(s[j])
  {
    PositionsSummarise(low, |ids|);
  }

  /** An honest answer passes every check of the node that sent the summary. */
  lemma {:induction false} HonestReplyAccepted(c: seq<BlockId>, known: set<BlockId>, synopsis: seq<BlockId>,
                                          limit: nat, reply: Reply)
    requires IsChain(c) && limit > 0
    requires if c == [] then reply == Reply([], 0)
             else if synopsis == [] then reply == ReplyFrom(c, 1, limit)
             else exists k: nat :: Answers(c, known, synopsis, limit, reply, k)
    ensures Acceptable(synopsis, reply)
  {
    if c == [] {
    } else if synopsis == [] {
      ReplyStarts(c, 1, limit);
    } else {
      var k: nat :| Answers(c, known, synopsis, limit, reply, k);
      ReplyStarts(c, Num(synopsis[k]), limit);
    }
  }

  datatype Outcome = Disconnected | InSync | Implausible | Continues

  /** The last block of a peer that the node has processed, and the ids to get after it. */
  datatype View = View(lastSeen: BlockId, pending: seq<BlockId>)

  function Spliced(v: View, ids: seq<BlockId>, has: set<BlockId>, firstForOther: bool): View {
    if ids == [] then v
    else if v.pending == [] then
      var k := if firstForOther then 0 else SeenPrefix(ids, has);
      View(if k > 0 then ids[k - 1] else v.lastSeen, ids[k..])
    else
      var left := BackTo(v.pending, ids[0]);
      if left == [] then View(ids[0], ids[1..]) else View(v.lastSeen, left[..|left| - 1] + ids)
  }

  /**
   After an acceptable answer the ids to get still follow each other and the last processed block, which
   the next summary relies on, with one exception.  When there was nothing to get and the first id is the
   next one for another peer, blocks that were processed are not skipped: then the ids follow if and only
   if the first of them is the block after the last processed one.
   */
  lemma {:induction false} SpliceKeepsJoined(v: View, synopsis: seq<BlockId>, reply: Reply, has: set<BlockId>,
                                          firstForOther: bool)
    requires Joined(v.lastSeen, v.pending) && Acceptable(synopsis, reply)
    requires v.pending == [] ==> if synopsis == [] then v.lastSeen == NULL_ID else forall id :: id in synopsis ==>
      id in has
    ensures var after := Spliced(v, reply.ids, has, firstForOther);
      Joined(after.lastSeen, after.pending)
      <==> (v.pending == [] && synopsis != [] && firstForOther && reply.ids != [] ==>
        Num(reply.ids[0]) == Num(v.lastSeen) + 1)
  {
    if reply.ids != [] && v.pending != [] {
      BackToPrefix(v.pending, reply.ids[0]);
      var left := BackTo(v.pending, reply.ids[0]);
      if left != [] {
        assert v.pending[|left| - 1] == left[|left| - 1];
      }
    }
  }

  /** An answer that goes on from the last pending id is appended to the ids to get. */
  lemma {:induction false} SpliceAppends(v: View, ids: seq<BlockId>, has: set<BlockId>, firstForOther: bool)
    requires v.pending != [] && ids != [] && ids[0] == v.pending[|v.pending| - 1]
    ensures Spliced(v, ids, has, firstForOther) == View(v.lastSeen, v.pending + ids[1..])
  {
  }

  /**
   As long as the peer stays on the chain it has told about, every answer but the last adds `limit - 1`
   of its ids to the list.
   */
  lemma {:induction false} HonestReplyLengthens(c: seq<BlockId>, known: set<BlockId>, v: View, synopsis: seq<BlockId>,
                                          reply: Reply,
                                                limit: nat, has: set<BlockId>, firstForOther: bool)
    requires IsChain(c) && c != [] && limit >= 2 && v.pending != [] && synopsis != []
    requires synopsis[|synopsis| - 1] == v.pending[|v.pending| - 1]
    requires Recognised(c, known, v.pending[|v.pending| - 1])
    requires exists k: nat :: Answers(c, known, synopsis, limit, reply, k)
    ensures reply.ids != [] && Spliced(v, reply.ids, has, firstForOther) == View(v.lastSeen, v.pending + reply.ids[1..])
    ensures reply.remaining > 0 ==> |Spliced(v, reply.ids, has, firstForOther).pending| == |v.pending| + limit - 1
    ensures reply.remaining == 0 ==> reply.ids[|reply.ids| - 1] == c[|c| - 1]
  {
    hide BackTo, ReplyFrom;
    var k: nat :| Answers(c, known, synopsis, limit, reply, k);
    var last := synopsis[|synopsis| - 1];
    assert k == |synopsis| - 1;
    ReplyStarts(c, Num(last), limit);
    SpliceAppends(v, reply.ids, has, firstForOther);
  }

  /** The last id that is known of the peer's chain. */
  function EndOf(v: View): BlockId {
    if v.pending == [] then v.lastSeen else v.pending[|v.pending| - 1]
  }

  /**
   The same for a peer of which nothing is to be got yet: every honest answer takes the end of what is
   known further up its chain, by a full answer less the block that was known, until its head is reached.
   */
  lemma {:induction false} HonestReplyAdvances(c: seq<BlockId>, known: set<BlockId>, v: View, synopsis: seq<BlockId>,
                                          reply: Reply,
                                               limit: nat, has: set<BlockId>, firstForOther: bool)
    requires IsChain(c) && c != [] && limit > 0
    requires if synopsis == [] then v == View(NULL_ID, []) && reply == ReplyFrom(c, 1, limit)
             else synopsis[|synopsis| - 1] == EndOf(v) && Recognised(c, known, EndOf(v))
                  && exists k: nat :: Answers(c, known, synopsis, limit, reply, k)
    ensures var after := Spliced(v, reply.ids, has, firstForOther);
      && reply.ids != [] && EndOf(after) == reply.ids[|reply.ids| - 1]
      && Num(EndOf(after)) == Num(EndOf(v)) + |reply.ids| - (if synopsis == [] then 0 else 1)
      && (if reply.remaining > 0 then |reply.ids| == limit else EndOf(after) == c[|c| - 1])
  {
    hide BackTo, ReplyFrom, Spliced, IsChain;
    if synopsis == [] {
      ReplyStarts(c, 1, limit);
    } else {
      var k: nat :| Answers(c, known, synopsis, limit, reply, k);
      assert k == |synopsis| - 1;
      ReplyStarts(c, Num(EndOf(v)), limit);
    }
    SpliceEnds(v, reply.ids, has, firstForOther);
  }

  /** What is known of a peer's chain ends with the last id of an answer that goes on from its end. */
  lemma {:induction false} SpliceEnds(v: View, ids: seq<BlockId>, has: set<BlockId>, firstForOther: bool)
    requires ids != [] && (v.pending != [] ==> ids[0] == EndOf(v))
    ensures EndOf(Spliced(v, ids, has, firstForOther)) == ids[|ids| - 1]
  {
    if v.pending != [] {
      SpliceAppends(v, ids, has, firstForOther);
    }
  }

  const BLOCK_INTERVAL := 3
  /** `GRAPHENE_NET_FUTURE_SYNC_BLOCKS_GRACE_PERIOD_SEC` */
  const GRACE_PERIOD := 3600
  const TWO_32 := 0x1_0000_0000

  /** The earliest time of the last block that is offered lies too far ahead, in 32-bit seconds. */
  predicate TooFarAhead(seenTime: nat, remaining: nat, now: nat) {
    (seenTime + remaining * BLOCK_INTERVAL % TWO_32) % TWO_32 > (now + GRACE_PERIOD) % TWO_32
  }

  /** The id is the next one to get from some other peer. */
  ghost predicate NextOfOther(others: seq<seq<BlockId>>, id: BlockId) {
    exists p :: p in others && p != [] && p[0] == id
  }

  ghost predicate ForOther(others: seq<seq<BlockId>>, ids: seq<BlockId>) {
    ids != [] && NextOfOther(others, ids[0])
  }

  /** Splicing the answer finds blocks that the node has processed already. */
  predicate FindsSeen(v: View, ids: seq<BlockId>, has: set<BlockId>, firstForOther: bool) {
    ids != [] && if v.pending == [] then !firstForOther && ids[0] in has else BackTo(v.pending, ids[0]) == []
  }

  /** Only blocks that the node has processed become the last one seen. */
  lemma {:induction false} SeenOnlyIfFound(v: View, ids: seq<BlockId>, has: set<BlockId>, firstForOther: bool)
    ensures !FindsSeen(v, ids, has, firstForOther) ==> Spliced(v, ids, has, firstForOther).lastSeen == v.lastSeen
    ensures FindsSeen(v, ids, has, firstForOther) ==> Spliced(v, ids, has, firstForOther).lastSeen in ids
  {
  }

  /**
   A peer whose blocks are at least an interval apart, the last of them not later than the grace period
   allows, is never taken for one that lies.  `seen` is not later than the last block of the answer.
   */
  lemma {:induction false} HonestIsPlausible(times: seq<nat>, seen: nat, last: nat, now: nat)
    requires forall i, j :: 0 <= i <= j < |times| ==> times[i] + BLOCK_INTERVAL * (j - i) <= times[j]
    requires last < |times| && seen <= times[last] && times[|times| - 1] <= now + GRACE_PERIOD < TWO_32
    ensures !TooFarAhead(seen, |times| - 1 - last, now)
  {
    Small(seen + (|times| - 1 - last) * BLOCK_INTERVAL);
    Small((|times| - 1 - last) * BLOCK_INTERVAL);
    Small(now + GRACE_PERIOD);
  }

  lemma {:induction false} Small(a: nat)
    requires a < TWO_32
    ensures a % TWO_32 == a
  {
  }

  /** The peer has nothing after the block it was asked about, which is known. */
  predicate NoNews(reply: Reply, has: set<BlockId>) {
    reply.remaining == 0 && |reply.ids| <= 1 && forall id :: id in reply.ids ==> id in has
  }

  /** What a node keeps for one peer it fetches blocks from. */
  class SyncPeer {
    /** `last_block_delegate_has_seen` */
    var lastSeen: BlockId
    /** `last_block_time_delegate_has_seen` */
    var lastSeenTime: nat
    /** `ids_of_items_to_get` */
    var pending: seq<BlockId>
    /** `number_of_unfetched_item_ids` */
    var unfetched: nat

    constructor ()
      ensures lastSeen == NULL_ID && pending == [] && unfetched == 0 && Joined(lastSeen, pending)
    {
      lastSeen, lastSeenTime, pending, unfetched := NULL_ID, 0, [], 0;
    }

    /** The checks on an answer. */
    method IsValidReply(synopsis: seq<BlockId>, reply: Reply) returns (ok: bool)
      ensures ok == Acceptable(synopsis, reply)
    {
      if reply.ids == [] {
        return true;
      }
      var first := Num(reply.ids[0]);
      for i := 1 to |reply.ids|
        invariant Contiguous(reply.ids[..i], first)
      {
        if Num(reply.ids[i]) != first + i {
          return false;
        }
      }
      assert reply.ids[..|reply.ids|] == reply.ids;
      ok := if synopsis == [] then Num(reply.ids[0]) == 1 else reply.ids[0] in synopsis;
    }

    method IsNextOfOther(others: seq<seq<BlockId>>, id: BlockId) returns (found: bool)
      ensures found == NextOfOther(others, id)
    {
      for i := 0 to |others|
        invariant forall p :: p in others[..i] ==> p == [] || p[0] != id
      {
        if others[i] != [] && others[i][0] == id {
          assert others[i] in others;
          return true;
        }
      }
      assert others[..|others|] == others;
      found := false;
    }

    /**
     Takes the answer to a summary.  `has` are the blocks the node has and `times` their times, `others`
     the ids to get from the other peers, `now` the time of the chain.
     */
    method OnBlockchainItemIds(synopsis: seq<BlockId>, reply: Reply, has: set<BlockId>, times: BlockId -> nat,
                               others: seq<seq<BlockId>>, now: nat)
      returns (outcome: Outcome)
      modifies this
      ensures outcome == Disconnected <==> !Acceptable(synopsis, reply)
      ensures outcome == Disconnected || outcome == InSync ==> unchanged(this)
      ensures outcome == InSync <==>
        Acceptable(synopsis, reply) && NoNews(reply, has) && old(pending) == [] && old(unfetched) == 0
      ensures outcome == Implausible || outcome == Continues ==>
        var v, forOther := View(old(lastSeen), old(pending)), ForOther(others, reply.ids);
        && unfetched == reply.remaining && lastSeen == Spliced(v, reply.ids, has, forOther).lastSeen
        && lastSeenTime == (if FindsSeen(v, reply.ids, has, forOther) then times(lastSeen) else old(lastSeenTime))
        && (outcome == Implausible <==> TooFarAhead(lastSeenTime, unfetched, now))
        && (outcome == Continues ==> pending == Spliced(v, reply.ids, has, forOther).pending)
      ensures old(lastSeenTime) == times(old(lastSeen)) ==> lastSeenTime == times(lastSeen)
    {
      var valid := IsValidReply(synopsis, reply);
      if !valid {
        return Disconnected;
      }
      if reply.remaining == 0 && (reply.ids == [] || (|reply.ids| == 1 && reply.ids[0] in has)) && pending == []
        && unfetched == 0 {
        return InSync;
      }
      SeenOnlyIfFound(View(lastSeen, pending), reply.ids, has, ForOther(others, reply.ids));
      unfetched := reply.remaining;
      var received := TakeIds(reply.ids, has, times, others);
      var minimumTime := (lastSeenTime + unfetched * BLOCK_INTERVAL % TWO_32) % TWO_32;
      if minimumTime > (now + GRACE_PERIOD) % TWO_32 {
        return Implausible;
      }
      pending := pending + received;
      outcome := Continues;
    }

    /** Fits the ids of an answer to the end of the list of ids to get; what is returned is to be appended to it. */
    method TakeIds(ids: seq<BlockId>, has: set<BlockId>, times: BlockId -> nat,
                   others: seq<seq<BlockId>>) returns (received: seq<BlockId>)
      modifies this`lastSeen, this`lastSeenTime, this`pending
      ensures var v, forOther := View(old(lastSeen), old(pending)), ForOther(others, ids);
        && View(lastSeen, pending + received) == Spliced(v, ids, has, forOther)
        && lastSeenTime == if FindsSeen(v, ids, has, forOther) then times(lastSeen) else old(lastSeenTime)
    {
      hide NextOfOther;
      received := ids;
      if received != [] && pending == [] {
        var firstForOther := IsNextOfOther(others, ids[0]);
        if !firstForOther {
          var k := 0;
          while received != [] && received[0] in has
            invariant k <= |ids| && received == ids[k..] && k + SeenPrefix(received, has) == SeenPrefix(ids, has)
            invariant lastSeen == if k > 0 then ids[k - 1] else old(lastSeen)
            invariant lastSeenTime == if k > 0 then times(lastSeen) else old(lastSeenTime)
            modifies this`lastSeen, this`lastSeenTime
          {
            lastSeen := received[0];
            lastSeenTime := times(lastSeen);
            received, k := received[1..], k + 1;
          }
        }
      } else if received != [] {
        while pending != [] && received[0] != pending[|pending| - 1]
          invariant BackTo(pending, received[0]) == BackTo(old(pending), received[0])
          decreases |pending|
          modifies this`pending
        {
          pending := pending[..|pending| - 1];
        }
        if pending == [] {
          lastSeen := received[0];
          lastSeenTime := times(lastSeen);
          received := received[1..];
        } else {
          pending := pending[..|pending| - 1];
        }
      }
    }
  }
}
