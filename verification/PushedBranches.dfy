/**
 What pushing does to the links between blocks, and what follows for a fork that comes in block by block.
 */
module PushedBranches {
  import opened Wrappers
  import opened ForkTree
  import opened ForkDb
  import opened ChainSpec
  import opened BranchPaths
  import opened ChainDb

  /** The fork database after blocks were pushed one after the other. */
  function PushedAll(f: Forks, maxSize: nat, ids: seq<BlockHash>): Forks {
    if ids == [] then f else AfterPush(PushedAll(f, maxSize, ids[..|ids| - 1]), maxSize, ids[|ids| - 1])
  }

  /** Each block names the one before it. */
  ghost predicate IsPath(ids: seq<BlockHash>) {
    forall i :: 0 < i < |ids| ==> ids[i].parent == ids[i - 1]
  }

  /** A branch of new blocks on an indexed block (or on the null id) that the fork database has room for. */
  ghost predicate NewBranch(f: Forks, maxSize: nat, ids: seq<BlockHash>) {
    && WellFormed(f) && f.head.Some? && IsPath(ids) && 0 < |ids| <= maxSize + 1
    && (forall i :: 0 <= i < |ids| ==> ids[i] !in f.index)
    && Num(ids[0]) > Num(f.head.value.id) - maxSize
    && (ids[0].parent == NULL_ID || (ids[0].parent in f.index && !f.index[ids[0].parent].invalid))
  }

  /** A new block is indexed with a link to its parent unless that is the null id; only lower blocks are dropped. */
  lemma {:induction false} PushedIsLinked(f: Forks, maxSize: nat, id: BlockHash)
    requires WellFormed(f) && f.head.Some? && id !in f.index && Accepts(f, maxSize, id)
    ensures var g, item := AfterPush(f, maxSize, id), ForkItem(id, id.parent != NULL_ID, false);
      && WellFormed(g) && id in g.index && g.index[id] == item
      && (forall x :: x in g.index && x != id ==> x in f.index)
      && (forall x :: x in f.index && Num(x) >= Num(id) - maxSize ==> x in g.index && g.index[x] == f.index[x])
      && g.head == (if Num(id) > Num(f.head.value.id) then Some(item) else f.head)
      && (Num(id) > Num(f.head.value.id) ==> forall x :: x in g.index ==> Num(x) >= Num(id) - maxSize)
      && (id.parent in g.index ==>
           Lock(g, g.index[id]) == if id.parent == NULL_ID then None else Some(g.index[id.parent]))
  {
  }

  /** The branch is in the index, linked, and nothing as high as it was lost; a highest block is the head. */
  ghost predicate Pushed(f: Forks, g: Forks, ids: seq<BlockHash>)
    requires ids != [] && f.head.Some?
  {
    && WellFormed(g)
    && (forall id :: id in g.index && id !in f.index ==> id in ids)
    && (forall i :: 0 <= i < |ids| ==>
         ids[i] in g.index && g.index[ids[i]] == ForkItem(ids[i], ids[i].parent != NULL_ID, false))
    && (forall id :: id in f.index && Num(id) >= Num(ids[0]) ==> id in g.index && g.index[id] == f.index[id])
    && g.head == var tip := ids[|ids| - 1];
                 if Num(tip) > Num(f.head.value.id) then Some(g.index[tip]) else f.head
  }

  lemma {:induction false} NextIsAccepted(f: Forks, g: Forks, maxSize: nat, ids: seq<BlockHash>)
    requires NewBranch(f, maxSize, ids) && |ids| > 1 && Pushed(f, g, ids[..|ids| - 1])
    ensures var tip := ids[|ids| - 1];
      && g.head.Some? && tip !in g.index && Accepts(g, maxSize, tip) && tip.parent == ids[|ids| - 2]
      && Num(tip) - maxSize <= Num(ids[0]) && (Num(g.head.value.id) == Num(tip) - 1 || g.head == f.head)
      && (g.head == f.head || Num(tip) > Num(f.head.value.id))
  {
    var n := |ids| - 1;
    PathNumber(ids, n);
    PathNumber(ids, n - 1);
    assert ids[..n][n - 1] == ids[n - 1];
    forall i | 0 <= i < n
      ensures ids[i] != ids[n]
    {
      PathNumber(ids, i);
    }
  }

  lemma {:induction false} OneMorePushed(f: Forks, g: Forks, maxSize: nat, ids: seq<BlockHash>)
    requires NewBranch(f, maxSize, ids) && |ids| > 1 && Pushed(f, g, ids[..|ids| - 1])
    ensures var tip := ids[|ids| - 1]; Accepts(g, maxSize, tip) && Pushed(f, AfterPush(g, maxSize, tip), ids)
  {
    NextIsAccepted(f, g, maxSize, ids);
    hide AfterPush, Num, Lock, Accepts, NewBranch;
    var n := |ids| - 1;
    assert IsPath(ids) && f.head.Some?;
    PushedIsLinked(g, maxSize, ids[n]);
    StillPushed(f, g, AfterPush(g, maxSize, ids[n]), ids);
  }

  lemma {:induction false} StillPushed(f: Forks, g: Forks, h: Forks, ids: seq<BlockHash>)
    requires IsPath(ids) && |ids| > 1 && f.head.Some? && Pushed(f, g, ids[..|ids| - 1])
    requires var tip := ids[|ids| - 1];
      && WellFormed(h) && tip in h.index && h.index[tip] == ForkItem(tip, tip.parent != NULL_ID, false)
      && (forall x :: x in h.index && x != tip ==> x in g.index)
      && (forall x :: x in g.index && Num(x) >= Num(ids[0]) ==> x in h.index && h.index[x] == g.index[x])
      && h.head == if Num(tip) > Num(f.head.value.id) then Some(h.index[tip]) else f.head
    ensures Pushed(f, h, ids)
  {
    var before := ids[..|ids| - 1];
    hide Num;
    assert before[0] == ids[0];
    forall i | 0 <= i < |ids|
      ensures ids[i] in h.index && h.index[ids[i]] == ForkItem(ids[i], ids[i].parent != NULL_ID, false)
    {
      if i < |before| {
        assert before[i] == ids[i];
        PathNumber(ids, i);
      }
    }
  }

  /** All blocks of the branch are accepted and linked to their parents, and nothing as high as them is dropped. */
  lemma {:induction false} BranchIsPushed(f: Forks, maxSize: nat, ids: seq<BlockHash>)
    requires NewBranch(f, maxSize, ids)
    ensures forall i :: 0 <= i < |ids| ==> Accepts(PushedAll(f, maxSize, ids[..i]), maxSize, ids[i])
    ensures Pushed(f, PushedAll(f, maxSize, ids), ids)
  {
    hide AfterPush, Pushed;
    var n := |ids| - 1;
    var before := ids[..n];
    if n == 0 {
      assert before == [] && ids[..0] == [];
      FirstPushed(f, maxSize, ids);
    } else {
      BranchIsPushed(f, maxSize, before);
      OneMorePushed(f, PushedAll(f, maxSize, before), maxSize, ids);
      forall i | 0 <= i <= n
        ensures Accepts(PushedAll(f, maxSize, ids[..i]), maxSize, ids[i])
      {
        if i < n {
          assert before[..i] == ids[..i] && before[i] == ids[i];
        }
      }
    }
  }

  lemma {:induction false} FirstPushed(f: Forks, maxSize: nat, ids: seq<BlockHash>)
    requires NewBranch(f, maxSize, ids) && |ids| == 1
    ensures Accepts(f, maxSize, ids[0]) && Pushed(f, AfterPush(f, maxSize, ids[0]), ids)
  {
    hide AfterPush;
    PushedIsLinked(f, maxSize, ids[0]);
  }

  lemma {:induction false} PathNumber(ids: seq<BlockHash>, i: nat)
    requires IsPath(ids) && i < |ids|
    ensures Num(ids[i]) == Num(ids[0]) + i
  {
    if i > 0 {
      PathNumber(ids, i - 1);
    }
  }

  /** The links of the pushed blocks lead down to the first of them. */
  lemma {:induction false} LinksAlong(index: map<BlockId, ForkItem>, ids: seq<BlockHash>, i: nat, k: nat)
    requires IsPath(ids) && k <= i < |ids|
    requires forall j :: 0 <= j < |ids| ==>
      ids[j] in index && index[ids[j]] == ForkItem(ids[j], ids[j].parent != NULL_ID, false)
    ensures Up(Forks(index, None), index[ids[i]], k) == Some(index[ids[i - k]])
    decreases k
  {
    if k > 0 {
      LinksAlong(index, ids, i - 1, k - 1);
    }
  }

  /** Links between blocks that stay indexed stay. */
  lemma {:induction false} LinksKept(a: map<BlockId, ForkItem>, b: map<BlockId, ForkItem>, item: ForkItem, k: nat,
                                     low: nat)
    requires Indexed(a) && Up(Forks(a, None), item, k).Some? && Num(Up(Forks(a, None), item, k).value.id) >= low
    requires forall id :: id in a && Num(id) >= low ==> id in b && b[id] == a[id]
    ensures Up(Forks(b, None), item, k) == Up(Forks(a, None), item, k)
    decreases k
  {
    if k > 0 {
      var p := Lock(Forks(a, None), item).value;
      LockNumber(Forks(a, None), item);
      UpNumber(Forks(a, None), p, k - 1);
      LinksKept(a, b, p, k - 1, low);
    }
  }

  /** A pushed branch and the chain part at the block that the branch was built on. */
  lemma {:induction false} PushedBranchParts(f: Forks, maxSize: nat, ids: seq<BlockHash>, headId: BlockId, k: nat)
    requires NewBranch(f, maxSize, ids) && headId in f.index
    requires var y := Up(Forks(f.index, None), f.index[headId], k); y.Some? && y.value.id.parent == ids[0].parent
    ensures var index, tip := PushedAll(f, maxSize, ids).index, ids[|ids| - 1];
      && Parting(index, tip, headId) && index[headId] == f.index[headId]
      && MeetAt(Forks(index, None), index[tip], index[headId], |ids| - 1, k)
  {
    BranchIsPushed(f, maxSize, ids);
    var index, n := PushedAll(f, maxSize, ids).index, |ids| - 1;
    var bare := Forks(f.index, None);
    UpNumber(bare, f.index[headId], k);
    LinksKept(f.index, index, f.index[headId], k, Num(ids[0]));
    LinksAlong(index, ids, n, n);
    assert MeetAt(Forks(index, None), index[ids[n]], index[headId], n, k);
  }

  /** Links lead to indexed blocks only. */
  lemma {:induction false} LinksAreIndexed(index: map<BlockId, ForkItem>, item: ForkItem, k: nat)
    requires Indexed(index) && k > 0 && Up(Forks(index, None), item, k).Some?
    ensures Up(Forks(index, None), item, k).value.id in index
    decreases k
  {
    var p := Lock(Forks(index, None), item).value;
    if k > 1 {
      LinksAreIndexed(index, p, k - 1);
    }
  }

  /** A new block has no place on the chain that was there before. */
  lemma {:induction false} NotOnOldChain(f: Forks, maxSize: nat, ids: seq<BlockHash>, headId: BlockId, k: nat, j: nat)
    requires NewBranch(f, maxSize, ids) && headId in f.index && j < k
    requires var y := Up(Forks(f.index, None), f.index[headId], k); y.Some? && y.value.id.parent == ids[0].parent
    ensures var index := PushedAll(f, maxSize, ids).index;
      && headId in index && Up(Forks(index, None), index[headId], j).Some?
      && Up(Forks(index, None), index[headId], j).value.id.parent !in ids
  {
    hide PushedAll, Accepts;
    BranchIsPushed(f, maxSize, ids);
    var before, index := Forks(f.index, None), PushedAll(f, maxSize, ids).index;
    var b := f.index[headId];
    if Up(before, b, j + 1).None? {
      UpNone(before, b, j + 1, k);
    }
    ParentOf(before, b, j + 1);
    UpNumber(before, b, k);
    UpNumber(before, b, j);
    LinksAreIndexed(f.index, b, j + 1);
    LinksKept(f.index, index, b, j, Num(ids[0]));
  }

  /** The pushed branch meets the chain only where it was built on it. */
  lemma {:induction false} MeetsAtItsStart(f: Forks, maxSize: nat, ids: seq<BlockHash>, headId: BlockId, k: nat,
                                           i: nat, j: nat)
    requires NewBranch(f, maxSize, ids) && headId in f.index
    requires var y := Up(Forks(f.index, None), f.index[headId], k); y.Some? && y.value.id.parent == ids[0].parent
    requires var index, tip := PushedAll(f, maxSize, ids).index, ids[|ids| - 1];
      tip in index && headId in index && MeetAt(Forks(index, None), index[tip], index[headId], i, j)
    ensures i >= |ids| - 1 && Num(ids[|ids| - 1]) - i == Num(headId) - j
    ensures Num(ids[|ids| - 1]) - (|ids| - 1) == Num(headId) - k
  {
    hide PushedAll, Accepts;
    BranchIsPushed(f, maxSize, ids);
    PushedBranchParts(f, maxSize, ids, headId, k);
    var index, n := PushedAll(f, maxSize, ids).index, |ids| - 1;
    MeetNumber(Forks(index, None), index[ids[n]], index[headId], i, j);
    MeetNumber(Forks(index, None), index[ids[n]], index[headId], n, k);
    if i < n {
      LinksAlong(index, ids, n, i);
      assert ids[n - i].parent == ids[n - i - 1];
      NotOnOldChain(f, maxSize, ids, headId, k, j);
    }
  }

  /** Going up from the tip of a pushed branch passes its blocks. */
  lemma {:induction false} BranchOfTip(index: map<BlockId, ForkItem>, ids: seq<BlockHash>, branch: seq<ForkItem>)
    requires IsPath(ids) && ids != [] && |branch| == |ids|
    requires forall j :: 0 <= j < |ids| ==>
      ids[j] in index && index[ids[j]] == ForkItem(ids[j], ids[j].parent != NULL_ID, false)
    requires IsBranch(Forks(index, None), index[ids[|ids| - 1]], branch)
    ensures Reverse(branch) == ids
  {
    var n := |ids| - 1;
    forall m | 0 <= m <= n
      ensures Reverse(branch)[m] == ids[m]
    {
      LinksAlong(index, ids, n, n - m);
    }
  }

  /** Nothing but the index decides about branches below the head. */
  lemma {:induction false} DivergeIrrelevant(f: Forks, a: ForkItem, b: ForkItem, first: seq<ForkItem>,
                                             second: seq<ForkItem>)
    requires WellFormed(f) && f.head.Some? && Num(a.id) <= Num(f.head.value.id) && Num(b.id) <= Num(f.head.value.id)
    requires Diverge(f, a, b, first, second)
    ensures Diverge(Forks(f.index, None), a, b, first, second)
  {
    hide Up;
    var bare := Forks(f.index, None);
    forall i: nat
      ensures Up(f, a, i) == Up(bare, a, i) && Up(f, b, i) == Up(bare, b, i)
    {
      HeadIrrelevant(f.index, f.head, a, i);
      HeadIrrelevant(f.index, f.head, b, i);
    }
    assert IsBranch(bare, a, first) && IsBranch(bare, b, second);
    forall i, j | 0 <= i < |first| && 0 <= j < |second| && MeetAt(bare, a, b, i, j)
      ensures i == |first| - 1 && j == |second| - 1
    {
      assert MeetAt(f, a, b, i, j);
    }
  }

  /** The branches of a switch to the pushed branch: that branch and the chain down to the block it is built on. */
  lemma {:induction false} BranchesArePushed(f: Forks, maxSize: nat, ids: seq<BlockHash>, headId: BlockId, k: nat,
                                             br: Branches)
    requires NewBranch(f, maxSize, ids) && headId in f.index
    requires var y := Up(Forks(f.index, None), f.index[headId], k); y.Some? && y.value.id.parent == ids[0].parent
    requires var tip := ids[|ids| - 1]; Num(tip) > Num(f.head.value.id) && Num(tip) > Num(headId)
    requires BranchesOf(PushedAll(f, maxSize, ids), ids[|ids| - 1], headId, br)
    ensures Reverse(br.first) == ids && |br.second| == k + 1
  {
    hide PushedAll, Accepts, Up;
    BranchIsPushed(f, maxSize, ids);
    PushedBranchParts(f, maxSize, ids, headId, k);
    var g, n := PushedAll(f, maxSize, ids), |ids| - 1;
    var bare, a, b := Forks(g.index, None), g.index[ids[n]], g.index[headId];
    DivergeIrrelevant(g, a, b, br.first, br.second);
    assert MeetAt(bare, a, b, |br.first| - 1, |br.second| - 1);
    MeetsAtItsStart(f, maxSize, ids, headId, k, |br.first| - 1, |br.second| - 1);
    assert |br.first| == |ids|;
    BranchOfTip(g.index, ids, br.first);
  }

  /**
   A fork that comes in block by block is switched to with the block that makes it the longest, provided
   that the undo history reaches the block it is built on and each of its blocks can be applied.
   */
  lemma {:induction false} LongerForkSwitches<D>(exec: Exec<D>, f: Forks, maxSize: nat, ids: seq<BlockHash>,
                                                 headId: BlockId, k: nat, undo: seq<Chain<D>>, br: Branches,
                                                 status: Status)
    requires NewBranch(f, maxSize, ids) && headId in f.index
    requires var y := Up(Forks(f.index, None), f.index[headId], k); y.Some? && y.value.id.parent == ids[0].parent
    requires var tip := ids[|ids| - 1]; Num(tip) > Num(f.head.value.id) && Num(tip) > Num(headId)
    requires k < |undo| && Try(exec, undo[|undo| - k - 1], ids).refused.None?
    requires var g := PushedAll(f, maxSize, ids); g.head.Some? && Decided(exec, g, undo, headId, br, status)
    ensures status.Switched? && Reverse(br.first) == ids && |br.second| == k + 1
  {
    hide PushedAll, Accepts, Try, Parting, BranchesOf, Up, CanReturn, Num, Pushed;
    BranchIsPushed(f, maxSize, ids);
    PushedBranchParts(f, maxSize, ids, headId, k);
    HeadIsLinked(f, PushedAll(f, maxSize, ids), ids, headId, k);
    BranchesArePushed(f, maxSize, ids, headId, k, br);
    SwitchIsPossible(exec, PushedAll(f, maxSize, ids), headId, undo, br, status);
  }

  lemma {:induction false} SwitchIsPossible<D>(exec: Exec<D>, f: Forks, headId: BlockId, undo: seq<Chain<D>>,
                                               br: Branches, status: Status)
    requires f.head.Some? && f.head.value.linked && Parting(f.index, f.head.value.id, headId)
    requires 0 < |br.second| <= |undo| && Try(exec, ForkPoint(undo, br), Reverse(br.first)).refused.None?
    requires Decided(exec, f, undo, headId, br, status)
    ensures status.Switched?
  {
    hide Parting, BranchesOf, CanReturn, Try, Reverse;
  }

  lemma {:induction false} HeadIsLinked(f: Forks, g: Forks, ids: seq<BlockHash>, headId: BlockId, k: nat)
    requires ids != [] && IsPath(ids) && WellFormed(f) && f.head.Some? && Pushed(f, g, ids) && headId in f.index
    requires var y := Up(Forks(f.index, None), f.index[headId], k); y.Some? && y.value.id.parent == ids[0].parent
    requires var tip := ids[|ids| - 1]; Num(tip) > Num(f.head.value.id) && Num(tip) > Num(headId)
    ensures g.head.Some? && g.head.value.linked && g.head.value.id == ids[|ids| - 1]
  {
    UpNumber(Forks(f.index, None), f.index[headId], k);
    PathNumber(ids, |ids| - 1);
    assert |ids| > 1 && ids[|ids| - 1].parent == ids[|ids| - 2];
  }
}
