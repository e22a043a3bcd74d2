/**
 The tree of blocks that the fork database keeps: blocks linked to their parents by weak
 pointers, and what it means for two branches of the tree to meet.
 */
module ForkTree {
  import opened Wrappers

  /**
   A block id is a hash of the block, which includes the id of the block before it; hashes do
   not collide, so an id determines its block.  `Root` stands for ids of no known block, among
   them the null id.
   */
  datatype BlockId = Root(num: nat, hash: nat) | Child(parent: BlockId, salt: nat)

  const NULL_ID := Root(0, 0)

  /** `num_from_id`: a block is one higher than the block before it. */
  function Num(id: BlockId): nat {
    match id
    case Root(num, _) => num
    case Child(parent, _) => Num(parent) + 1
  }

  /** The id of an actual block: every block names the one before it. */
  type BlockHash = id: BlockId | id.Child? witness Child(NULL_ID, 0)

  /** `linked` says whether the weak pointer to the parent was set when the block came in. */
  datatype ForkItem = ForkItem(id: BlockHash, linked: bool, invalid: bool)

  /** The blocks by id, and the head, which stays alive even when it is no longer indexed. */
  datatype Forks = Forks(index: map<BlockId, ForkItem>, head: Option<ForkItem>)

  function Max(a: int, b: int): int {
    if a > b then a else b
  }

  /** The blocks numbered `low` or higher. */
  function From(index: map<BlockId, ForkItem>, low: int): map<BlockId, ForkItem> {
    map id | id in index && Num(id) >= low :: index[id]
  }

  /** Items are indexed by their own id. */
  ghost predicate Indexed(index: map<BlockId, ForkItem>) {
    forall id :: id in index ==> index[id].id == id
  }

  ghost predicate WellFormed(f: Forks) {
    Indexed(f.index)
  }

  /** The item behind a weak pointer to block `id`, if something still owns it. */
  function Alive(f: Forks, id: BlockId): Option<ForkItem> {
    if id in f.index then Some(f.index[id])
    else if f.head.Some? && f.head.value.id == id then f.head
    else None
  }

  /** The blocks that are indexed or that some local variable still owns. */
  function Owned(index: map<BlockId, ForkItem>, held: seq<ForkItem>): map<BlockId, ForkItem> {
    if held == [] then index
    else
      var rest := Owned(index, held[1..]);
      if held[0].id in rest then rest else rest[held[0].id := held[0]]
  }

  lemma {:induction false} OwnedIs(index: map<BlockId, ForkItem>, held: seq<ForkItem>)
    ensures forall id :: id in index ==> id in Owned(index, held) && Owned(index, held)[id] == index[id]
    ensures forall id :: id in Owned(index, held) && id !in index ==>
      Owned(index, held)[id] in held && Owned(index, held)[id].id == id
    ensures forall x :: x in held ==> x.id in Owned(index, held)
    ensures Indexed(index) ==> Indexed(Owned(index, held))
  {
    if held != [] {
      OwnedIs(index, held[1..]);
    }
  }

  /** `prev.lock()`. */
  function Lock(f: Forks, item: ForkItem): Option<ForkItem> {
    if item.linked then Alive(f, item.id.parent) else None
  }

  lemma {:induction false} LockNumber(f: Forks, item: ForkItem)
    requires WellFormed(f)
    ensures Lock(f, item).Some? ==>
      var p := Lock(f, item).value;
      p.id == item.id.parent && Num(p.id) + 1 == Num(item.id)
  {
  }

  /** The head does not keep its own parent alive. */
  lemma {:induction false} HeadNotBelow(index: map<BlockId, ForkItem>, head: ForkItem)
    ensures Lock(Forks(index, Some(head)), head) == Lock(Forks(index, None), head)
  {
    assert Num(head.id.parent) + 1 == Num(head.id);
  }

  /** The ancestor `k` links up. */
  ghost function Up(f: Forks, item: ForkItem, k: nat): Option<ForkItem>
    decreases k
  {
    if k == 0 then Some(item)
    else
      var p := Lock(f, item);
      if p.None? then None else Up(f, p.value, k - 1)
  }

  lemma {:induction false} UpNumber(f: Forks, item: ForkItem, k: nat)
    requires WellFormed(f) && Up(f, item, k).Some?
    ensures Num(Up(f, item, k).value.id) + k == Num(item.id)
    decreases k
  {
    if k > 0 {
      LockNumber(f, item);
      UpNumber(f, Lock(f, item).value, k - 1);
    }
  }

  lemma {:induction false} UpUp(f: Forks, item: ForkItem, j: nat, k: nat)
    requires Up(f, item, j).Some?
    ensures Up(f, item, j + k) == Up(f, Up(f, item, j).value, k)
    decreases j
  {
    if j > 0 {
      UpUp(f, Lock(f, item).value, j - 1, k);
    }
  }

  /** Once the links have run out they stay out. */
  lemma {:induction false} UpNone(f: Forks, item: ForkItem, j: nat, k: nat)
    requires Up(f, item, j).None? && j <= k
    ensures Up(f, item, k).None?
    decreases j
  {
    var p := Lock(f, item);
    if p.Some? {
      UpNone(f, p.value, j - 1, k - 1);
    }
  }

  /** A list of blocks in which each is the parent of the one before. */
  ghost predicate IsBranch(f: Forks, start: ForkItem, branch: seq<ForkItem>) {
    && branch != [] && branch[0] == start
    && forall i :: 0 <= i < |branch| ==> Up(f, start, i) == Some(branch[i])
  }

  ghost predicate IsAncestor(f: Forks, anc: ForkItem, item: ForkItem) {
    exists k: nat :: Up(f, item, k) == Some(anc)
  }

  /** Going up `i` links from `a` and `j` from `b` reaches two blocks with the same parent id. */
  ghost predicate MeetAt(f: Forks, a: ForkItem, b: ForkItem, i: nat, j: nat) {
    var x, y := Up(f, a, i), Up(f, b, j);
    x.Some? && y.Some? && x.value.id.parent == y.value.id.parent
  }

  ghost predicate Meet(f: Forks, a: ForkItem, b: ForkItem) {
    exists i: nat, j: nat :: MeetAt(f, a, b, i, j)
  }

  function Last(branch: seq<ForkItem>): ForkItem
    requires branch != []
  {
    branch[|branch| - 1]
  }

  ghost predicate NoCommonBlock(first: seq<ForkItem>, second: seq<ForkItem>) {
    forall i, j :: 0 <= i < |first| && 0 <= j < |second| ==> first[i].id != second[j].id
  }

  /** What `fetch_branch_from` promises about two branches: they lead back to where the forks part. */
  ghost predicate Diverge(f: Forks, a: ForkItem, b: ForkItem, first: seq<ForkItem>, second: seq<ForkItem>) {
    && IsBranch(f, a, first) && IsBranch(f, b, second)
    && Last(first).id.parent == Last(second).id.parent
    && (forall i, j :: 0 <= i < |first| && 0 <= j < |second| && MeetAt(f, a, b, i, j) ==>
          i == |first| - 1 && j == |second| - 1)
  }

  /** No block lies on both branches, unless one starting block is an ancestor of the other. */
  lemma {:induction false} BranchesAreDisjoint(f: Forks, a: ForkItem, b: ForkItem, first: seq<ForkItem>,
                                          second: seq<ForkItem>)
    requires WellFormed(f) && Diverge(f, a, b, first, second)
    requires a.id in f.index && f.index[a.id] == a && b.id in f.index && f.index[b.id] == b
    requires !IsAncestor(f, a, b) && !IsAncestor(f, b, a)
    ensures NoCommonBlock(first, second)
  {
    forall i, j | 0 <= i < |first| && 0 <= j < |second|
      ensures first[i].id != second[j].id
    {
      if first[i].id == second[j].id {
        SameIdSameItem(f, a, i);
        SameIdSameItem(f, b, j);
        if i > 0 && j > 0 {
          ParentOf(f, a, i);
          ParentOf(f, b, j);
          assert MeetAt(f, a, b, i - 1, j - 1);
        }
      }
    }
  }

  /** The block that both branches build on is a common ancestor as soon as a link to it is alive. */
  lemma {:induction false} SharedParentIsCommon(f: Forks, a: ForkItem, b: ForkItem, first: seq<ForkItem>,
                                          second: seq<ForkItem>)
    requires WellFormed(f) && Diverge(f, a, b, first, second)
    requires Last(first).linked && Last(second).linked && Alive(f, Last(first).id.parent).Some?
    ensures var common := Alive(f, Last(first).id.parent).value;
      IsAncestor(f, common, a) && IsAncestor(f, common, b) && common.id == Last(first).id.parent
  {
    var common := Alive(f, Last(first).id.parent).value;
    UpUp(f, a, |first| - 1, 1);
    UpUp(f, b, |second| - 1, 1);
    assert Up(f, common, 0) == Some(common);
    assert Up(f, a, |first|) == Some(common) && Up(f, b, |second|) == Some(common);
  }

  /** The parent id at the ends of the two branches is that of the highest common ancestor. */
  lemma {:induction false} HighestCommonAncestor(f: Forks, a: ForkItem, b: ForkItem, first: seq<ForkItem>,
                                          second: seq<ForkItem>,
                              common: ForkItem)
    requires WellFormed(f) && Diverge(f, a, b, first, second)
    requires a.id in f.index && f.index[a.id] == a && b.id in f.index && f.index[b.id] == b
    requires !IsAncestor(f, a, b) && !IsAncestor(f, b, a)
    requires IsAncestor(f, common, a) && IsAncestor(f, common, b)
    ensures Num(common.id) <= Num(Last(first).id.parent)
    ensures Num(common.id) == Num(Last(first).id.parent) ==> common.id == Last(first).id.parent
  {
    BranchesAreDisjoint(f, a, b, first, second);
    var i: nat :| Up(f, a, i) == Some(common);
    var j: nat :| Up(f, b, j) == Some(common);
    UpNumber(f, a, i);
    UpNumber(f, b, j);
    UpNumber(f, a, |first| - 1);
    UpNumber(f, b, |second| - 1);
    if i == |first| {
      ParentOf(f, a, i);
    }
  }

  /** If `b` is an ancestor of `a` (or `a` itself), both branches end in `b`. */
  lemma {:induction false} AncestorEndsBoth(f: Forks, a: ForkItem, b: ForkItem, first: seq<ForkItem>,
                                          second: seq<ForkItem>)
    requires WellFormed(f) && Diverge(f, a, b, first, second)
    requires IsAncestor(f, b, a)
    ensures second == [b] && Last(first) == b
  {
    var k: nat :| Up(f, a, k) == Some(b);
    UpNumber(f, a, k);
    UpNumber(f, a, |first| - 1);
    UpNumber(f, b, |second| - 1);
    assert MeetAt(f, a, b, k, 0);
  }

  /** A block reached from an indexed block is the one that its id stands for. */
  lemma {:induction false} SameIdSameItem(f: Forks, item: ForkItem, k: nat)
    requires WellFormed(f) && item.id in f.index && f.index[item.id] == item
    requires Up(f, item, k).Some?
    ensures Alive(f, Up(f, item, k).value.id) == Up(f, item, k)
    decreases k
  {
    if k > 0 {
      ParentOf(f, item, k);
      LockNumber(f, Up(f, item, k - 1).value);
    }
  }

  lemma {:induction false} ParentOf(f: Forks, item: ForkItem, k: nat)
    requires WellFormed(f) && k > 0 && Up(f, item, k).Some?
    ensures Up(f, item, k - 1).Some?
    ensures Up(f, item, k) == Lock(f, Up(f, item, k - 1).value)
    ensures Up(f, item, k - 1).value.id.parent == Up(f, item, k).value.id
  {
    if Up(f, item, k - 1).None? {
      UpNone(f, item, k - 1, k);
    }
    UpUp(f, item, k - 1, 1);
    UpNumber(f, item, k - 1);
    var q := Up(f, item, k - 1).value;
    assert Lock(f, q).Some? ==> Up(f, Lock(f, q).value, 0) == Lock(f, q);
    assert Up(f, q, 1) == Lock(f, q);
  }

  /** Two blocks with the same parent have the same number. */
  lemma {:induction false} MeetNumber(f: Forks, a: ForkItem, b: ForkItem, i: nat, j: nat)
    requires WellFormed(f) && MeetAt(f, a, b, i, j)
    ensures Num(a.id) - i == Num(b.id) - j
  {
    UpNumber(f, a, i);
    UpNumber(f, b, j);
  }
}
