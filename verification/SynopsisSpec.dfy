/**
 The summary of a chain that a node sends to a peer: which block numbers it names, and what a peer
 answers to it.
 */
module SynopsisSpec {
  import opened Wrappers
  import opened ForkTree

  /** The step from one block of a summary to the next: half of what remains, rounded up. */
  function Next(low: nat, high: nat): nat
    requires low <= high
  {
    low + (high - low + 2) / 2
  }

  /** The block numbers of one summary of the blocks `low` to `high`. */
  function Positions(low: nat, high: nat): seq<nat>
    requires low <= high
    decreases high - low
  {
    [low] + if Next(low, high) <= high then Positions(Next(low, high), high) else []
  }

  function BitLength(n: nat): nat {
    if n == 0 then 0 else 1 + BitLength(n / 2)
  }

  /** A summary starts at `low`, ends exactly at `high`, grows, and is as long as the block count has bits. */
  lemma {:induction false} PositionsSummarise(low: nat, high: nat)
    requires low <= high
    ensures var ps := Positions(low, high);
      && |ps| == BitLength(high - low + 1) && ps[0] == low && ps[|ps| - 1] == high
      && (forall i :: 0 <= i < |ps| ==> low <= ps[i] <= high)
      && (forall i, j :: 0 <= i < j < |ps| ==> ps[i] < ps[j])
    decreases high - low
  {
    var next := Next(low, high);
    if next <= high {
      PositionsSummarise(next, high);
      assert high - next + 1 == (high - low + 1) / 2;
    }
  }

  /** The entries from `low` to `high`. */
  function Slice(ps: seq<nat>, low: nat, high: nat): seq<nat> {
    if ps == [] then []
    else (if low <= ps[0] <= high then [ps[0]] else []) + Slice(ps[1..], low, high)
  }

  lemma {:induction false} SliceAll(ps: seq<nat>, low: nat, high: nat)
    requires forall i :: 0 <= i < |ps| ==> low <= ps[i] <= high
    ensures Slice(ps, low, high) == ps
  {
    if ps != [] {
      SliceAll(ps[1..], low, high);
    }
  }

  lemma {:induction false} SliceNone(ps: seq<nat>, low: nat, high: nat)
    requires forall i :: 0 <= i < |ps| ==> !(low <= ps[i] <= high)
    ensures Slice(ps, low, high) == []
  {
    if ps != [] {
      SliceNone(ps[1..], low, high);
    }
  }

  lemma {:induction false} SliceStep(ps: seq<nat>, low: nat, high: nat)
    requires ps != []
    ensures Slice(ps, low, high) == if low <= ps[0] <= high then [ps[0]] + Slice(ps[1..], low, high)
      else Slice(ps[1..], low, high)
  {
  }

  /** The two halves of a growing list make up the list. */
  lemma {:induction false} SlicesJoin(ps: seq<nat>, low: nat, mid: nat, high: nat)
    requires forall i :: 0 <= i < |ps| ==> low <= ps[i] <= high
    requires forall i, j :: 0 <= i < j < |ps| ==> ps[i] < ps[j]
    ensures Slice(ps, low, mid) + Slice(ps, mid + 1, high) == ps
  {
    if ps != [] {
      hide Slice;
      if ps[0] <= mid {
        SliceStep(ps, low, mid);
        SliceStep(ps, mid + 1, high);
        SlicesJoin(ps[1..], low, mid, high);
        var a, b := Slice(ps[1..], low, mid), Slice(ps[1..], mid + 1, high);
        assert [ps[0]] + a + b == [ps[0]] + (a + b);
      } else {
        SliceNone(ps, low, mid);
        SliceAll(ps, mid + 1, high);
      }
    }
  }

  /** The blocks of a chain from number 1 on. */
  ghost predicate IsChain(c: seq<BlockId>) {
    forall i :: 0 <= i < |c| ==> c[i].Child? && c[i].parent == Previous(c, i)
  }

  function Previous(c: seq<BlockId>, i: nat): BlockId
    requires i <= |c|
  {
    if i == 0 then NULL_ID else c[i - 1]
  }

  lemma {:induction false} ChainNumber(c: seq<BlockId>, i: nat)
    requires IsChain(c) && i < |c|
    ensures Num(c[i]) == i + 1
  {
    assert Num(c[i]) == Num(c[i].parent) + 1 && Num(NULL_ID) == 0;
    if i > 0 {
      ChainNumber(c, i - 1);
    }
  }

  /** The chain that ends in `id`. */
  function ChainTo(id: BlockId): seq<BlockId> {
    match id
    case Root(_, _) => []
    case Child(parent, _) => ChainTo(parent) + [id]
  }

  /** A chain is determined by its last block. */
  lemma {:induction false} ChainIsToLast(c: seq<BlockId>)
    requires IsChain(c)
    ensures c == if c == [] then ChainTo(NULL_ID) else ChainTo(c[|c| - 1])
  {
    if c != [] {
      var b, last := c[..|c| - 1], c[|c| - 1];
      ChainIsToLast(b);
      assert last.parent == Previous(c, |c| - 1);
      assert c == b + [last];
    }
  }

  /** Consecutive block numbers from `first` on. */
  ghost predicate Contiguous(ids: seq<BlockId>, first: nat) {
    forall i :: 0 <= i < |ids| ==> Num(ids[i]) == first + i
  }

  /** The ids of the blocks numbered `ps`. */
  function IdsAt(ids: seq<BlockId>, ps: seq<nat>): (r: seq<BlockId>)
    ensures |r| == |ps| && forall i :: 0 <= i < |ps| && 1 <= ps[i] <= |ids| ==> r[i] == ids[ps[i] - 1]
  {
    seq(|ps|, i requires 0 <= i < |ps| => if 1 <= ps[i] <= |ids| then ids[ps[i] - 1] else NULL_ID)
  }

  /** One summary of all of `ids`, the blocks from number 1 on, that begins at `low`. */
  function Summary(ids: seq<BlockId>, low: nat): seq<BlockId>
    requires low <= |ids|
  {
    IdsAt(ids, Positions(low, |ids|))
  }

  /** The part of the summary that names the blocks from `low` to `high`. */
  function Part(ids: seq<BlockId>, start: nat, end: nat, low: nat, high: nat): seq<BlockId>
    requires start <= end
  {
    IdsAt(ids, Slice(Positions(start, end), low, high))
  }

  /** One step of the loops that build a summary. */
  lemma {:induction false} PartStep(ids: seq<BlockId>, start: nat, end: nat, low: nat, high: nat)
    requires start <= end && 1 <= start
    ensures Part(ids, start, end, low, high) ==
      (if low <= start <= high then IdsAt(ids, [start]) else [])
      + if Next(start, end) <= end then Part(ids, Next(start, end), end, low, high) else []
  {
    hide IdsAt;
    var ps := Positions(start, end);
    var here: seq<nat> := if low <= start <= high then [start] else [];
    assert ps[1..] == if Next(start, end) <= end then Positions(Next(start, end), end) else [];
    assert Slice(ps, low, high) == here + Slice(ps[1..], low, high);
    IdsJoin(ids, here, Slice(ps[1..], low, high));
    NoIds(ids);
  }

  lemma {:induction false} NoIds(ids: seq<BlockId>)
    ensures IdsAt(ids, []) == []
  {
  }

  lemma {:induction false} PartStarts(ids: seq<BlockId>, low: nat, end: nat, high: nat)
    requires 1 <= low <= high <= |ids| && low <= end
    ensures Part(ids, low, end, low, high) != [] && Part(ids, low, end, low, high)[0] == ids[low - 1]
  {
    PartStep(ids, low, end, low, high);
    OneId(ids, low);
  }

  lemma {:induction false} PartOfNone(ids: seq<BlockId>, start: nat, end: nat, low: nat, high: nat)
    requires start <= end && high < low
    ensures Part(ids, start, end, low, high) == []
  {
    SliceNone(Positions(start, end), low, high);
  }

  lemma {:induction false} PartBeyond(ids: seq<BlockId>, start: nat, end: nat, low: nat, high: nat)
    requires high < start <= end
    ensures Part(ids, start, end, low, high) == []
  {
    PositionsSummarise(start, end);
    SliceNone(Positions(start, end), low, high);
  }

  /** The two parts of a summary are the summary. */
  lemma {:induction false} PartsJoin(ids: seq<BlockId>, low: nat, mid: nat)
    requires low <= |ids|
    ensures Part(ids, low, |ids|, low, mid) + Part(ids, low, |ids|, mid + 1, |ids|) == Summary(ids, low)
  {
    hide Positions, Slice, IdsAt;
    PositionsSummarise(low, |ids|);
    SlicesJoin(Positions(low, |ids|), low, mid, |ids|);
    IdsJoin(ids, Slice(Positions(low, |ids|), low, mid), Slice(Positions(low, |ids|), mid + 1, |ids|));
  }

  lemma {:induction false} IdsJoin(ids: seq<BlockId>, a: seq<nat>, b: seq<nat>)
    ensures IdsAt(ids, a) + IdsAt(ids, b) == IdsAt(ids, a + b)
  {
  }

  lemma {:induction false} OneId(ids: seq<BlockId>, n: nat)
    requires 1 <= n <= |ids|
    ensures IdsAt(ids, [n]) == [ids[n - 1]]
  {
  }

  /** A peer's answer: consecutive ids of its chain, and how many more there are. */
  datatype Reply = Reply(ids: seq<BlockId>, remaining: nat)

  /** The answer of a peer with chain `c` that starts at block `start`. */
  function ReplyFrom(c: seq<BlockId>, start: nat, limit: nat): Reply
    requires 1 <= start
  {
    var end := if start + limit - 1 <= |c| then start + limit - 1 else |c|;
    if start <= end then Reply(c[start - 1..end], |c| - end) else Reply([], 0)
  }

  /** What a node checks before it takes an answer to the summary it sent. */
  ghost predicate Acceptable(synopsis: seq<BlockId>, reply: Reply) {
    reply.ids != [] ==>
      && Contiguous(reply.ids, Num(reply.ids[0]))
      && if synopsis == [] then Num(reply.ids[0]) == 1 else reply.ids[0] in synopsis
  }

  /** A chain without its last blocks names the lower blocks of a summary as well. */
  lemma {:induction false} PartOfPrefix(ids: seq<BlockId>, k: nat, start: nat, end: nat, low: nat)
    requires k <= |ids| && 1 <= low && start <= end
    ensures Part(ids[..k], start, end, low, k) == Part(ids, start, end, low, k)
  {
    SliceWithin(Positions(start, end), low, k);
  }

  lemma {:induction false} SliceWithin(ps: seq<nat>, low: nat, high: nat)
    ensures forall i :: 0 <= i < |Slice(ps, low, high)| ==> low <= Slice(ps, low, high)[i] <= high
  {
    if ps != [] {
      SliceWithin(ps[1..], low, high);
    }
  }

  /** A block of chain `c`. */
  predicate OnChain(c: seq<BlockId>, id: BlockId) {
    1 <= Num(id) <= |c| && c[Num(id) - 1] == id
  }

  /** The answer to a summary whose last known block is `id`: it starts with that block. */
  lemma {:induction false} ReplyStarts(c: seq<BlockId>, start: nat, limit: nat)
    requires IsChain(c) && 1 <= start && limit > 0
    ensures var r := ReplyFrom(c, start, limit);
      && Contiguous(r.ids, start) && |r.ids| <= limit
      && (start <= |c| ==> r.ids != [] && r.ids[0] == c[start - 1])
      && (r.remaining > 0 ==> |r.ids| == limit)
      && (r.ids != [] ==>
         Num(r.ids[|r.ids| - 1]) + r.remaining == |c| && r.ids[|r.ids| - 1] == c[|c| - 1 - r.remaining])
  {
    forall i | 0 <= i < |ReplyFrom(c, start, limit).ids|
      ensures Num(ReplyFrom(c, start, limit).ids[i]) == start + i
    {
      ChainNumber(c, start - 1 + i);
    }
  }

  /** The ids left when the last ones are dropped until `first` is the last one. */
  function BackTo(pending: seq<BlockId>, first: BlockId): seq<BlockId> {
    if pending == [] || pending[|pending| - 1] == first then pending else BackTo(pending[..|pending| - 1], first)
  }

  lemma {:induction false} BackToPrefix(pending: seq<BlockId>, first: BlockId)
    ensures BackTo(pending, first) <= pending && (BackTo(pending, first) == [] <==> first !in pending)
    ensures BackTo(pending, first) != [] ==> BackTo(pending, first)[|BackTo(pending, first)| - 1] == first
  {
    if pending != [] && pending[|pending| - 1] != first {
      var rest := pending[..|pending| - 1];
      assert pending == rest + [pending[|pending| - 1]];
      BackToPrefix(rest, first);
    }
  }

  /** How many ids at the front are in `has`. */
  function SeenPrefix(ids: seq<BlockId>, has: set<BlockId>): (k: nat)
    ensures k <= |ids| && (forall i :: 0 <= i < k ==> ids[i] in has) && (k < |ids| ==> ids[k] !in has)
  {
    if ids != [] && ids[0] in has then 1 + SeenPrefix(ids[1..], has) else 0
  }

  /** What a node knows of a peer's chain: the last block it has processed, and the ids after it. */
  ghost predicate Joined(lastSeen: BlockId, pending: seq<BlockId>) {
    Contiguous(pending, Num(lastSeen) + 1)
  }
}
