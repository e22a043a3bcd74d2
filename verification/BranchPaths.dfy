/**
 Branches of the fork tree as paths of block ids, and what replaying such paths does.
 */
module BranchPaths {
  import opened Wrappers
  import opened ForkTree
  import opened ChainSpec

  /** The id `n` blocks below. */
  ghost function Below(id: BlockId, n: nat): Option<BlockId>
    decreases n
  {
    if n == 0 then Some(id) else if id.Root? then None else Below(id.parent, n - 1)
  }

  lemma {:induction false} BelowNumber(id: BlockId, n: nat)
    requires Below(id, n).Some?
    ensures Num(Below(id, n).value) + n == Num(id)
    decreases n
  {
    if n > 0 {
      BelowNumber(id.parent, n - 1);
    }
  }

  /** The ids of a branch, oldest block first. */
  function Reverse(items: seq<ForkItem>): (r: seq<BlockHash>)
    ensures |r| == |items|
    ensures forall i :: 0 <= i < |items| ==> r[i] == items[|items| - 1 - i].id
  {
    if items == [] then [] else Reverse(items[1..]) + [items[0].id]
  }

  /** The last `n` blocks of the chain that ends in `id`, oldest block first. */
  ghost function PathTo(id: BlockId, n: nat): (r: seq<BlockHash>)
    requires Below(id, n).Some?
    ensures |r| == n && (n > 0 ==> id.Child? && r[n - 1] == id)
    decreases n
  {
    if n == 0 then [] else PathTo(id.parent, n - 1) + [id]
  }

  /** The items of a branch are the blocks below its start. */
  lemma {:induction false} BranchItem(f: Forks, start: ForkItem, branch: seq<ForkItem>, i: nat)
    requires WellFormed(f) && IsBranch(f, start, branch) && i < |branch|
    ensures Below(start.id, i) == Some(branch[i].id)
    ensures Below(start.id, i + 1) == Some(branch[i].id.parent)
    ensures Num(branch[i].id) + i == Num(start.id)
  {
    if i > 0 {
      BranchItem(f, start, branch, i - 1);
      ParentOf(f, start, i);
    }
    BelowStep(start.id, i);
  }

  lemma {:induction false} BelowStep(id: BlockId, i: nat)
    requires Below(id, i).Some? && Below(id, i).value.Child?
    ensures Below(id, i + 1) == Some(Below(id, i).value.parent)
    decreases i
  {
    if i > 0 {
      BelowStep(id.parent, i - 1);
    } else {
      assert Below(id.parent, 0) == Some(id.parent);
    }
  }

  lemma {:induction false} ReverseIsPath(f: Forks, start: ForkItem, branch: seq<ForkItem>, n: nat)
    requires WellFormed(f) && IsBranch(f, start, branch) && n < |branch|
    ensures Below(branch[n].id, |branch| - n).Some?
    ensures Reverse(branch[n..]) == PathTo(branch[n].id, |branch| - n)
    decreases |branch| - n
  {
    if n + 1 < |branch| {
      ReverseIsPath(f, start, branch, n + 1);
      ParentOf(f, start, n + 1);
      assert branch[n..][1..] == branch[n + 1..];
    } else {
      assert branch[n..] == [branch[n]];
    }
  }

  lemma {:induction false} TryAppend<D>(exec: Exec<D>, s: Chain<D>, ids: seq<BlockHash>, id: BlockHash)
    requires Try(exec, s, ids).refused.None? && Apply(exec, End(s, Try(exec, s, ids)), id).Applied?
    ensures Try(exec, s, ids + [id]).refused.None?
    ensures End(s, Try(exec, s, ids + [id])) == Apply(exec, End(s, Try(exec, s, ids)), id).next
    decreases ids
  {
    if ids == [] {
      assert ids + [id] == [id];
    } else {
      var r := Apply(exec, s, ids[0]);
      TryAppend(exec, r.next, ids[1..], id);
      assert (ids + [id])[1..] == ids[1..] + [id];
    }
  }

  /** Replaying the last blocks of a chain on the snapshot taken before them gives the chain's state again. */
  lemma {:induction false} ReplayRestores<D>(exec: Exec<D>, history: seq<Chain<D>>, now: Chain<D>, n: nat)
    requires Linked(exec, history, now) && n <= |history|
    ensures Below(now.headId, n).Some?
    ensures var base := if n == 0 then now else history[|history| - n];
      var t := Try(exec, base, PathTo(now.headId, n));
      t.refused.None? && End(base, t) == now && base.headId == Below(now.headId, n).value
    decreases n
  {
    if n > 0 {
      var last := history[|history| - 1];
      ReplayRestores(exec, history[..|history| - 1], last, n - 1);
      var base := history[|history| - n];
      TryAppend(exec, base, PathTo(last.headId, n - 1), now.headId);
    }
  }

  /** The head after a partly accepted path is the last block that was accepted. */
  lemma {:induction false} TryHead<D>(exec: Exec<D>, s: Chain<D>, ids: seq<BlockHash>)
    ensures var t := Try(exec, s, ids);
      End(s, t).headId == if t.states == [] then s.headId else ids[|t.states| - 1]
    decreases ids
  {
    if ids != [] && Apply(exec, s, ids[0]).Applied? {
      TryHead(exec, Apply(exec, s, ids[0]).next, ids[1..]);
    }
  }

  /** Two block databases agree on all numbers up to `top`. */
  ghost predicate SameUpTo(a: map<nat, BlockId>, b: map<nat, BlockId>, top: nat) {
    forall k: nat :: k <= top ==> (k in a <==> k in b) && (k in a ==> a[k] == b[k])
  }

  lemma {:induction false} HigherBlocks(blocks: map<nat, BlockId>, ids: seq<BlockHash>, top: nat)
    requires forall i :: 0 <= i < |ids| ==> Num(ids[i]) > top
    ensures SameUpTo(WithBlocks(blocks, ids), blocks, top)
    decreases ids
  {
    if ids != [] {
      HigherBlocks(blocks[Num(ids[0]) := ids[0]], ids[1..], top);
    }
  }

  lemma {:induction false} WithBlocksAppend(blocks: map<nat, BlockId>, ids: seq<BlockHash>, id: BlockHash)
    ensures WithBlocks(blocks, ids + [id]) == WithBlocks(blocks, ids)[Num(id) := id]
    decreases ids
  {
    if ids == [] {
      assert ids + [id] == [id];
      assert [id][1..] == [];
    } else {
      assert (ids + [id])[1..] == ids[1..] + [id];
      WithBlocksAppend(blocks[Num(ids[0]) := ids[0]], ids[1..], id);
    }
  }

  /** Storing the last blocks of the old chain again puts the block database back up to the old head. */
  lemma {:induction false} StoringRestores<D>(exec: Exec<D>, history: seq<Chain<D>>, now: Chain<D>,
                                              blocks: map<nat, BlockId>, changed: map<nat, BlockId>, n: nat)
    requires Linked(exec, history, now) && Stored(history, now, blocks) && n <= |history|
    requires Below(now.headId, n).Some?
    requires SameUpTo(changed, blocks, Num(Below(now.headId, n).value))
    ensures SameUpTo(WithBlocks(changed, PathTo(now.headId, n)), blocks, Num(now.headId))
    decreases n
  {
    if n > 0 {
      var last := history[|history| - 1];
      StoringRestores(exec, history[..|history| - 1], last, blocks, changed, n - 1);
      WithBlocksAppend(changed, PathTo(last.headId, n - 1), now.headId);
    }
  }

  lemma {:induction false} StartsAppend<D>(exec: Exec<D>, s: Chain<D>, ids: seq<BlockHash>, id: BlockHash)
    requires Try(exec, s, ids).refused.None? && Apply(exec, End(s, Try(exec, s, ids)), id).Applied?
    ensures Starts(s, Try(exec, s, ids + [id])) == Starts(s, Try(exec, s, ids)) + [End(s, Try(exec, s, ids))]
    decreases ids
  {
    if ids == [] {
      assert ids + [id] == [id];
    } else {
      var s1 := Apply(exec, s, ids[0]).next;
      StartsAppend(exec, s1, ids[1..], id);
      assert (ids + [id])[1..] == ids[1..] + [id];
      TryAppend(exec, s1, ids[1..], id);
      StartsCons(s, Try(exec, s1, ids[1..]), s1);
      StartsCons(s, Try(exec, s1, ids[1..] + [id]), s1);
    }
  }

  lemma {:induction false} StartsCons<D>(s: Chain<D>, t: Trial<D>, s1: Chain<D>)
    ensures forall ds, r :: Starts(s, Trial([s1] + t.states, ds, r)) == [s] + Starts(s1, t)
  {
  }

  /** Replaying the last blocks of a chain passes through the snapshots that were kept of it. */
  lemma {:induction false} StartsAreHistory<D>(exec: Exec<D>, history: seq<Chain<D>>, now: Chain<D>, n: nat)
    requires Linked(exec, history, now) && n <= |history| && Below(now.headId, n).Some?
    ensures var base := if n == 0 then now else history[|history| - n];
      Starts(base, Try(exec, base, PathTo(now.headId, n))) == history[|history| - n..]
    decreases n
  {
    if n > 0 {
      var last := history[|history| - 1];
      ReplayRestores(exec, history[..|history| - 1], last, n - 1);
      StartsAreHistory(exec, history[..|history| - 1], last, n - 1);
      var base := history[|history| - n];
      StartsAppend(exec, base, PathTo(last.headId, n - 1), now.headId);
    }
  }
}
