/**
 The part of the chain database that decides which blocks make up the chain: applying a block
 inside an undo session, popping a block, and switching to a longer fork.  What a block does to
 the rest of the chain state is a parameter, `exec`; the undo stack appears as the snapshots it
 stands for (module `Undo`).
 */
module ChainDb {
  import opened Wrappers
  import opened ForkTree
  import opened ForkDb
  import opened ChainSpec
  import opened BranchPaths
  import opened UndoSpec

  class Database<D> {
    const exec: Exec<D>
    const forks: ForkDatabase
    var state: Chain<D>
    var undo: seq<Chain<D>>
    var undoDepth: nat
    var blocks: map<nat, BlockId>

    function View(): Store<D>
      reads this, forks
    {
      Store(state, undo, undoDepth, blocks, forks.index)
    }

    ghost predicate Valid()
      reads this, forks
    {
      Sound(exec, View())
    }

    /** A chain that has only its initial state. */
    constructor (exec: Exec<D>, data: D)
      ensures Valid() && fresh(forks) && this.exec == exec
      ensures View() == Store(Chain(data, NULL_ID), [], 256, map[], map[]) && forks.head == None
    {
      this.exec := exec;
      forks := new ForkDatabase();
      state, undo, undoDepth, blocks := Chain(data, NULL_ID), [], 256, map[];
    }

    method ApplyBlock(id: BlockHash) returns (ok: bool)
      requires forks.head.Some?
      modifies this`state, this`undoDepth, forks`index, forks`maxSize
      ensures var r := Apply(exec, old(state), id);
        && ok == r.Applied?
        && View() == WithDepth(old(View()), Num(forks.head.value.id), NewDepth(r))
                       .(state := if ok then r.next else r.partial)
    {
      var r := Apply(exec, state, id);
      match r
      case Applied(next, depth) =>
        undoDepth := depth;
        forks.SetMaxSize(depth);
        state := next;
        ok := true;
      case Rejected(partial, newDepth) =>
        if newDepth.Some? {
          undoDepth := newDepth.value;
          forks.SetMaxSize(newDepth.value);
        }
        state := partial;
        ok := false;
    }

    /** One block inside an undo session of its own: all of it, or nothing but the new depth. */
    method TryBlock(id: BlockHash) returns (ok: bool)
      requires Valid() && forks.head.Some?
      modifies this`state, this`undo, this`undoDepth, this`blocks, forks`index, forks`maxSize
      ensures Valid()
      ensures ok == Apply(exec, old(state), id).Applied?
      ensures View() == Tried(exec, Num(forks.head.value.id), old(View()), id)
    {
      hide Sound;
      TriedSound(exec, Num(forks.head.value.id), View(), id);
      undo := Newest(undo, undoDepth) + [state];
      ok := ApplyBlock(id);
      if ok {
        blocks := blocks[Num(id) := id];
      } else {
        state := undo[|undo| - 1];
        undo := undo[..|undo| - 1];
        assert undo == Newest(old(undo), old(undoDepth));
      }
    }

    /** Applies blocks one after the other, each in its own session, until one is rejected. */
    method ApplyBranch(ids: seq<BlockHash>) returns (good: nat)
      requires Valid() && forks.head.Some?
      modifies this`state, this`undo, this`undoDepth, this`blocks, forks`index, forks`maxSize
      ensures Valid()
      ensures good == |Try(exec, old(state), ids).states|
      ensures View() == TriedAll(exec, Num(forks.head.value.id), old(View()), ids)
    {
      hide Sound, Tried;
      good := 0;
      var rest := ids;
      ghost var n := Num(forks.head.value.id);
      while rest != []
        modifies this`state, this`undo, this`undoDepth, this`blocks, forks`index, forks`maxSize
        invariant Valid() && forks.head.Some? && Num(forks.head.value.id) == n
        invariant TriedAll(exec, n, View(), rest) == TriedAll(exec, n, old(View()), ids)
        invariant good + |Try(exec, state, rest).states| == |Try(exec, old(state), ids).states|
        decreases rest
      {
        TriedState(exec, n, View(), rest[0]);
        var ok := TryBlock(rest[0]);
        if !ok {
          return;
        }
        good := good + 1;
        rest := rest[1..];
      }
    }

    /** The parent of the fork database's head is indexed or owned by a local variable. */
    ghost predicate HeadMovable(held: seq<ForkItem>)
      reads this, forks
    {
      forks.head.Some? && Lock(Forks(Owned(forks.index, held), None), forks.head.value).Some?
    }

    /**
     Gives up the head block.  The fork database's head moves first, so a failure to pop the
     undo state leaves it moved.
     */
    method PopBlock(held: seq<ForkItem>) returns (ok: bool)
      requires Valid()
      modifies this`state, this`undo, forks`head
      ensures Valid()
      ensures ok == (old(undo) != [] && old(HeadMovable(held)))
      ensures ok ==> state == old(undo)[|old(undo)| - 1] && undo == old(undo)[..|old(undo)| - 1]
      ensures ok ==> forks.head == Lock(Forks(Owned(forks.index, held), None), old(forks.head).value)
      ensures !ok ==> state == old(state) && undo == old(undo) && (forks.head.Some? <==> old(forks.head).Some?)
    {
      var id := state.headId;
      if !(id in forks.index || (Num(id) in blocks && blocks[Num(id)] == id && id.Child?)) {
        return false;
      }
      var moved := forks.PopBlock(held);
      if !moved {
        return false;
      }
      if undo == [] {
        return false;
      }
      state, undo := undo[|undo| - 1], undo[..|undo| - 1];
      ok := true;
    }

    /** Pops blocks until the head is `target`, which lies `n` blocks below it. */
    method PopTo(target: BlockId, held: seq<ForkItem>, ghost n: nat) returns (ok: bool)
      requires Valid() && Below(state.headId, n) == Some(target)
      requires forks.head.Some?
      modifies this`state, this`undo, forks`head
      ensures Valid() && forks.head.Some?
      ensures ok == (n <= |old(undo)| && Up(Forks(Owned(forks.index, held), None), old(forks.head).value, n).Some?)
      ensures ok ==> undo == old(undo)[..|old(undo)| - n]
      ensures ok ==> state == Back(old(undo), old(state), n)
      ensures ok ==> forks.head == Up(Forks(Owned(forks.index, held), None), old(forks.head).value, n)
      ensures !ok ==> exists k :: 0 <= k < n && k <= |old(undo)| && state == Back(old(undo), old(state), k)
    {
      hide Owned, Sound;
      ghost var k := 0;
      BelowNumber(state.headId, n);
      while state.headId != target
        invariant Valid() && forks.head.Some? && k <= n && Below(state.headId, n - k) == Some(target)
        invariant k <= |old(undo)| && undo == old(undo)[..|old(undo)| - k]
        invariant state == Back(old(undo), old(state), k)
        invariant Up(Forks(Owned(forks.index, held), None), old(forks.head).value, k) == forks.head
        decreases n - k
      {
        BelowNumber(state.headId, n - k);
        StepUpNone(Owned(forks.index, held), old(forks.head).value, k);
        if undo != [] {
          ParentIsNewest(exec, View());
        }
        ok := PopBlock(held);
        if !ok {
          if Up(Forks(Owned(forks.index, held), None), old(forks.head).value, k + 1).None? {
            UpNone(Forks(Owned(forks.index, held), None), old(forks.head).value, k + 1, n);
          }
          return false;
        }
        k := k + 1;
      }
      BelowNumber(state.headId, n - k);
      ok := true;
    }

    /**
     Switches to the fork that ends in `tip`: pops the blocks of the current fork, applies those
     of the new one and, if one of them is rejected, removes it and its successors from the fork
     database, pops again and applies the old blocks once more.

     The outcome is settled by `Parting`, `CanLeave` and `CanReturn`, which speak of the state
     before the call only.
     */
    method SwitchFork(tip: BlockId) returns (status: Status, br: Branches)
      requires Valid() && forks.head.Some? && forks.head.value.id == tip && Num(tip) > Num(state.headId)
      modifies this`state, this`undo, this`undoDepth, this`blocks, forks
      ensures Valid()
      ensures status in {NotLinked, Switched, RolledBack, Stuck}
      ensures Decided(exec, old(forks.View()), old(undo), old(state).headId, br, status)
      ensures status.NotLinked? ==> View() == old(View()) && forks.head == old(forks.head)
      ensures status.Stuck? ==> StuckAt(exec, old(forks.View()), old(undo), old(state), br, state)
      ensures status.Switched? ==> var t := TrialOf(exec, old(undo), br);
        && state.headId == tip && state == End(ForkPoint(old(undo), br), t)
        && undo == Newest(old(undo)[..|old(undo)| - |br.second|] + Starts(ForkPoint(old(undo), br), t), |undo|)
      ensures status.RolledBack? ==>
        && state == old(state) && undo == Newest(old(undo), |undo|)
        && SameUpTo(blocks, old(blocks), Num(state.headId))
        && forks.index.Keys <= old(forks.index).Keys - RefusedIds(br, TrialOf(exec, old(undo), br))
    {
      hide Linked, Stored, Meet, TriedAll, Try, Starts, CanReturn, End, Newest, Diverge, RefusedIds, SameUpTo, Up, Lock;
      ghost var f, db0 := forks.View(), View();
      PartingIrrelevant(forks.index, forks.head, tip, state.headId);
      var branches := forks.FetchBranchFrom(tip, state.headId);
      if branches.None? {
        return NotLinked, Branches([], []);
      }
      br := branches.value;
      BranchShape(f, tip, state.headId, br);
      var held := br.first + br.second;
      LeaveLinks(f, tip, db0.state.headId, br);
      var ok := PopTo(Last(br.second).id.parent, held, |br.second|);
      if !ok {
        return Stuck, br;
      }
      status := ReplaceBranch(br, f, tip, db0);
    }

    /**
     Adds a block to the fork database and then to the chain: on top of the head, or by switching
     to the fork that it makes the longest.  Nothing is changed below a head that stays.
     */
    method PushBlock(id: BlockHash) returns (status: Status, ghost br: Branches)
      requires Valid()
      modifies this`state, this`undo, this`undoDepth, this`blocks, forks
      ensures Valid()
      ensures var f, now := AfterPush(old(forks.View()), old(forks.maxSize), id), old(state);
        var tip := f.head.value.id;
        if !Accepts(old(forks.View()), old(forks.maxSize), id) then
          status == NotLinked && View() == old(View()) && forks.head == old(forks.head)
        else if tip.parent == now.headId then
          && status == (if Apply(exec, now, id).Applied? then Extended else Refused)
          && View() ==
             Dropping(Tried(exec, Num(tip), old(View()).(index := f.index), id), if status == Refused then {id} else {})
        else if Num(tip) <= Num(now.headId) then
          && status == SideBranch && View() == old(View()).(index := f.index)
          && forks.head == f.head && forks.maxSize == old(forks.maxSize)
        else
          && Decided(exec, f, old(undo), now.headId, br, status)
          && (status == Switched ==> var t := TrialOf(exec, old(undo), br);
               && state.headId == tip && state == End(ForkPoint(old(undo), br), t)
               && undo == Newest(old(undo)[..|old(undo)| - |br.second|] + Starts(ForkPoint(old(undo), br), t), |undo|))
          && (status == RolledBack ==> forks.index.Keys <= f.index.Keys - RefusedIds(br, TrialOf(exec, old(undo), br)))
          && (status == Stuck ==> StuckAt(exec, f, old(undo), now, br, state))
      ensures status in {NotLinked, Refused, SideBranch, RolledBack} ==>
        state == old(state) && undo == Newest(old(undo), |undo|) && SameUpTo(blocks, old(blocks), Num(state.headId))
      ensures status == Switched ==> Num(state.headId) > Num(old(state).headId)
    {
      hide Linked, Stored, Parting, CanLeave, CanReturn, TrialOf, BranchesOf, Up, Lock, Try, From, Starts, ForkPoint,
        RefusedIds;
      hide End, TriedAll, AfterPush, Decided, StuckAt;
      br := Branches([], []);
      var pushed := forks.PushBlock(id);
      if !pushed.Pushed? {
        return NotLinked, br;
      }
      if pushed.head.id.parent != state.headId {
        if Num(pushed.head.id) > Num(state.headId) {
          status, br := SwitchFork(pushed.head.id);
        } else {
          status := SideBranch;
        }
        return;
      }
      var ok := TryBlock(id);
      if !ok {
        forks.Remove(id);
      }
      status := if ok then Extended else Refused;
    }

    /** The part of a fork switch that starts at the fork point. */
    method ReplaceBranch(br: Branches, ghost f: Forks, ghost tip: BlockId, ghost db0: Store<D>) returns (status: Status)
      requires Valid() && 0 < |br.second| < |br.first| && |br.second| <= |db0.undo|
      requires WellFormed(f) && BranchesOf(f, tip, db0.state.headId, br)
      requires forks.head.Some? && forks.head.value.id == br.first[|br.second|].id
      requires View() == AtForkPoint(db0, br) && f.index == db0.index && Sound(exec, db0)
      modifies this`state, this`undo, this`undoDepth, this`blocks, forks
      ensures Valid()
      ensures var t := TrialOf(exec, db0.undo, br);
        status == if t.refused.None? then Switched else if CanReturn(f.index, br, t) then RolledBack else Stuck
      ensures status.Stuck? ==> state in TrialOf(exec, db0.undo, br).states
      ensures status.Switched? ==> var t := TrialOf(exec, db0.undo, br);
        && state.headId == tip && state == End(ForkPoint(db0.undo, br), t)
        && undo == Newest(db0.undo[..|db0.undo| - |br.second|] + Starts(ForkPoint(db0.undo, br), t), |undo|)
      ensures status.RolledBack? ==>
        && state == db0.state && undo == Newest(db0.undo, |undo|)
        && SameUpTo(blocks, db0.blocks, Num(state.headId))
        && forks.index.Keys <= db0.index.Keys - RefusedIds(br, TrialOf(exec, db0.undo, br))
    {
      hide Linked, Stored, TriedAll, Try, Starts, CanReturn, End, Newest, Diverge, SameUpTo, Up, Lock;
      var first, second := br.first, br.second;
      ghost var t := TrialOf(exec, db0.undo, br);
      var good := ApplyBranch(Reverse(first));
      AfterTrial(exec, f, tip, db0, br, View());
      if good == |first| {
        return Switched;
      }
      ghost var db2 := View();
      IndexShrinks(exec, Num(forks.head.value.id), AtForkPoint(db0, br), Reverse(first));
      ReadyToReturn(exec, f, tip, db0, br, db2);
      forks.RemoveAll(Reverse(first)[good..]);
      assert forks.index == db2.index - RefusedIds(br, t);
      forks.SetHead(second[0]);
      ReturnIsPossible(f, tip, db0.state.headId, br, t, db2);
      var ok := PopTo(Last(second).id.parent, first + second, good);
      if !ok {
        ghost var k: nat :| k < good && k <= |db2.undo| && state == Back(db2.undo, db2.state, k);
        BackOnBranch(ForkPoint(db0.undo, br), t, db0.undo[..|db0.undo| - |second|], db2, k);
        return Stuck;
      }
      ghost var db3 := View();
      ghost var n := Num(forks.head.value.id);
      var _ := ApplyBranch(Reverse(second));
      AfterReturn(exec, f, tip, db0, br, db3, n, View());
      status := RolledBack;
    }
  }

  datatype Status = Extended | SideBranch | NotLinked | Refused | Switched | RolledBack | Stuck

  ghost predicate Parting(index: map<BlockId, ForkItem>, tip: BlockId, headId: BlockId) {
    tip in index && headId in index && Meet(Forks(index, None), index[tip], index[headId])
  }

  /** `br` leads from the new tip and from the current head back to where they part. */
  ghost predicate BranchesOf(f: Forks, tip: BlockId, headId: BlockId, br: Branches) {
    tip in f.index && headId in f.index && Diverge(f, f.index[tip], f.index[headId], br.first, br.second)
  }

  /** The undo database reaches back to the fork point, and the head came in with a link to its parent. */
  ghost predicate CanLeave<D>(f: Forks, undo: seq<Chain<D>>, br: Branches) {
    |br.second| <= |undo| && f.head.Some? && f.head.value.linked
  }

  /** Which way a switch to the head of the fork database goes, before anything is done. */
  ghost predicate Decided<D>(exec: Exec<D>, f: Forks, undo: seq<Chain<D>>, headId: BlockId, br: Branches,
                             status: Status)
    requires f.head.Some?
  {
    var tip, t := f.head.value.id, TrialOf(exec, undo, br);
    && status in {NotLinked, Switched, RolledBack, Stuck}
    && (status.NotLinked? <==> !Parting(f.index, tip, headId))
    && (!status.NotLinked? ==>
         && BranchesOf(f, tip, headId, br)
         && (status.Switched? <==> CanLeave(f, undo, br) && t.refused.None?)
         && (status.RolledBack? <==> CanLeave(f, undo, br) && t.refused.Some? && CanReturn(f.index, br, t)))
  }

  /**
   A switch that is not finished stops at a state of the new branch, or of the old one if that
   cannot even be left.
   */
  ghost predicate StuckAt<D>(exec: Exec<D>, f: Forks, undo: seq<Chain<D>>, now: Chain<D>, br: Branches,
                             state: Chain<D>) {
    if CanLeave(f, undo, br) then state in TrialOf(exec, undo, br).states
    else exists k: nat :: k < |br.second| && k <= |undo| && state == Back(undo, now, k)
  }

  /** Without some blocks in the fork database. */
  function Dropping<D>(db: Store<D>, ids: set<BlockId>): Store<D> {
    db.(index := db.index - ids)
  }

  /** The state from which the two branches part. */
  ghost function ForkPoint<D>(undo: seq<Chain<D>>, br: Branches): Chain<D>
    requires 0 < |br.second| <= |undo|
  {
    undo[|undo| - |br.second|]
  }

  /** The new branch replayed from the state at the fork point. */
  ghost function TrialOf<D>(exec: Exec<D>, undo: seq<Chain<D>>, br: Branches): Trial<D>
  {
    if 0 < |br.second| <= |undo| then Try(exec, ForkPoint(undo, br), Reverse(br.first)) else Trial([], [], None)
  }

  /** The rejected block and its successors on the new branch. */
  ghost function RefusedIds<D>(br: Branches, t: Trial<D>): set<BlockId> {
    if |t.states| <= |br.first| then set id | id in Reverse(br.first)[|t.states|..] else {}
  }

  /**
   After a rejected block the old branch can be restored: at every block the depth covered what
   had been applied by then, and the fork database's head can be moved down once for every block
   that was applied.  The blocks of both branches are owned while the switch lasts, so only moves
   below the fork point depend on what the fork database has kept.
   */
  ghost predicate CanReturn<D>(index: map<BlockId, ForkItem>, br: Branches, t: Trial<D>) {
    && 0 < |br.second| < |br.first|
    && Deep(t.depths, 0)
    && (|t.states| < |br.second|
        || Up(Forks(From(index, Lowest(Num(br.first[|br.second|].id), AllDepths(t))), None),
              Last(br.second), |t.states| + 1 - |br.second|).Some?)
  }

  /** The state `k` blocks back. */
  ghost function Back<D>(undo: seq<Chain<D>>, now: Chain<D>, k: nat): Chain<D>
    requires k <= |undo|
  {
    if k == 0 then now else undo[|undo| - k]
  }

  lemma {:induction false} TriedState<D>(exec: Exec<D>, n: nat, db: Store<D>, id: BlockHash)
    ensures Tried(exec, n, db, id).state == if Apply(exec, db.state, id).Applied? then Apply(exec, db.state, id).next
      else db.state
  {
  }

  lemma {:induction false} ParentIsNewest<D>(exec: Exec<D>, db: Store<D>)
    requires Sound(exec, db) && db.undo != []
    ensures db.state.headId.Child? && db.state.headId.parent == db.undo[|db.undo| - 1].headId
  {
  }

  lemma {:induction false} StepUpNone(index: map<BlockId, ForkItem>, item: ForkItem, k: nat)
    requires Up(Forks(index, None), item, k).Some?
    ensures Up(Forks(index, None), item, k + 1) == Lock(Forks(index, None), Up(Forks(index, None), item, k).value)
  {
    var f := Forks(index, None);
    UpUp(f, item, k, 1);
    var q := Up(f, item, k).value;
    assert Lock(f, q).Some? ==> Up(f, Lock(f, q).value, 0) == Lock(f, q);
  }

  /** Nothing but the index decides how links run below the head. */
  lemma {:induction false} HeadIrrelevant(index: map<BlockId, ForkItem>, head: Option<ForkItem>, item: ForkItem, k: nat)
    requires Indexed(index) && (head.Some? ==> Num(item.id) <= Num(head.value.id))
    ensures Up(Forks(index, head), item, k) == Up(Forks(index, None), item, k)
    decreases k
  {
    var f := Forks(index, None);
    if k > 0 {
      assert Num(item.id.parent) < Num(item.id);
      assert Lock(Forks(index, head), item) == Lock(f, item);
      if Lock(f, item).Some? {
        HeadIrrelevant(index, head, Lock(f, item).value, k - 1);
      }
    }
  }

  lemma {:induction false} PartingIrrelevant(index: map<BlockId, ForkItem>, head: Option<ForkItem>, tip: BlockId,
                                          headId: BlockId)
    requires Indexed(index) && head.Some? && Num(tip) <= Num(head.value.id) && Num(headId) <= Num(head.value.id)
    ensures Parting(index, tip, headId) <==>
      tip in index && headId in index && Meet(Forks(index, head), index[tip], index[headId])
  {
    if tip in index && headId in index {
      var a, b := index[tip], index[headId];
      forall i: nat, j: nat
        ensures MeetAt(Forks(index, head), a, b, i, j) <==> MeetAt(Forks(index, None), a, b, i, j)
      {
        HeadIrrelevant(index, head, a, i);
        HeadIrrelevant(index, head, b, j);
      }
    }
  }

  /** The longer branch has at least one block more, and both lead down to the same id. */
  lemma {:induction false} BranchShape(f: Forks, tip: BlockId, headId: BlockId, br: Branches)
    requires WellFormed(f) && BranchesOf(f, tip, headId, br) && Num(tip) > Num(headId)
    ensures 0 < |br.second| < |br.first|
    ensures Below(headId, |br.second|) == Some(Last(br.second).id.parent)
    ensures Below(tip, |br.first|) == Some(Last(br.first).id.parent) == Some(Last(br.second).id.parent)
  {
    BranchItem(f, f.index[tip], br.first, |br.first| - 1);
    BranchItem(f, f.index[headId], br.second, |br.second| - 1);
  }

  lemma {:induction false} BelowBelow(id: BlockId, a: nat, b: nat)
    requires Below(id, a).Some?
    ensures Below(id, a + b) == Below(Below(id, a).value, b)
    decreases a
  {
    if a > 0 {
      BelowBelow(id.parent, a - 1, b);
    }
  }

  /** Blocks of the new branch that were applied lie above the fork point, as many as there were. */
  lemma {:induction false} PartOfBranch<D>(f: Forks, tip: BlockId, headId: BlockId, br: Branches, s: Chain<D>,
                                          t: Trial<D>)
    requires WellFormed(f) && BranchesOf(f, tip, headId, br)
    requires |t.states| <= |br.first| && Some(s.headId) == Below(tip, |br.first|)
    requires End(s, t).headId == if t.states == [] then s.headId else Reverse(br.first)[|t.states| - 1]
    ensures Below(End(s, t).headId, |t.states|) == Some(s.headId)
  {
    var n := |br.first| - |t.states|;
    if t.states != [] {
      BranchItem(f, f.index[tip], br.first, n);
      BelowBelow(tip, n, |t.states|);
    }
  }

  /** An item of a branch is what its id stands for as long as the branch is owned. */
  lemma {:induction false} BranchIsOwned(f: Forks, tip: BlockId, headId: BlockId, br: Branches,
                                         left: map<BlockId, ForkItem>, item: ForkItem)
    requires WellFormed(f) && BranchesOf(f, tip, headId, br) && item in br.first + br.second
    requires forall id :: id in left ==> id in f.index && left[id] == f.index[id]
    ensures Alive(Forks(Owned(left, br.first + br.second), None), item.id) == Some(item)
  {
    var held := br.first + br.second;
    OwnedIs(left, held);
    forall x | x in held
      ensures Alive(f, x.id) == Some(x)
    {
      if x in br.first {
        var i :| 0 <= i < |br.first| && br.first[i] == x;
        SameIdSameItem(f, f.index[tip], i);
      } else {
        var i :| 0 <= i < |br.second| && br.second[i] == x;
        SameIdSameItem(f, f.index[headId], i);
      }
    }
  }

  /** Links inside an owned branch hold, whatever has left the index. */
  lemma {:induction false} OwnedLinks(f: Forks, tip: BlockId, headId: BlockId, br: Branches,
                                      left: map<BlockId, ForkItem>,
                                      start: ForkItem, branch: seq<ForkItem>, k: nat)
    requires WellFormed(f) && BranchesOf(f, tip, headId, br) && k < |branch|
    requires (branch == br.first && start == f.index[tip]) || (branch == br.second && start == f.index[headId])
    requires forall id :: id in left ==> id in f.index && left[id] == f.index[id]
    ensures Up(Forks(Owned(left, br.first + br.second), None), start, k) == Some(branch[k])
  {
    hide Owned;
    var g := Forks(Owned(left, br.first + br.second), None);
    if k > 0 {
      OwnedLinks(f, tip, headId, br, left, start, branch, k - 1);
      ParentOf(f, start, k);
      BranchIsOwned(f, tip, headId, br, left, branch[k]);
      LockNumber(f, branch[k - 1]);
      assert Lock(g, branch[k - 1]) == Some(branch[k]);
      StepUpNone(g.index, start, k - 1);
    }
  }

  /** Leaving the old branch, the fork database's head moves down the new one if it is linked at all. */
  lemma {:induction false} LeaveLinks(f: Forks, tip: BlockId, headId: BlockId, br: Branches)
    requires WellFormed(f) && BranchesOf(f, tip, headId, br) && 0 < |br.second| < |br.first|
    requires f.head.Some? && f.head.value.id == tip
    ensures var up := Up(Forks(Owned(f.index, br.first + br.second), None), f.head.value, |br.second|);
      (up.Some? <==> f.head.value.linked) && (up.Some? ==> up.value == br.first[|br.second|])
  {
    hide Owned;
    var g := Forks(Owned(f.index, br.first + br.second), None);
    var item, k := f.index[tip], |br.second|;
    OwnedLinks(f, tip, headId, br, f.index, item, br.first, 1);
    OwnedLinks(f, tip, headId, br, f.index, item, br.first, k);
    StepUpNone(g.index, item, 0);
    assert f.head.value.linked ==> Lock(g, f.head.value) == Lock(g, item);
  }

  /** Returning, the head moves down the old branch, and below it only as far as the index goes. */
  lemma {:induction false} ReturnLinks(f: Forks, tip: BlockId, headId: BlockId, br: Branches,
                                       left: map<BlockId, ForkItem>, n: nat)
    requires WellFormed(f) && BranchesOf(f, tip, headId, br)
    requires forall id :: id in left ==> id in f.index && left[id] == f.index[id]
    ensures Up(Forks(Owned(left, br.first + br.second), None), br.second[0], n).Some? <==>
      n < |br.second| || Up(Forks(left, None), Last(br.second), n + 1 - |br.second|).Some?
  {
    hide Owned;
    var g := Forks(Owned(left, br.first + br.second), None);
    var start, m := f.index[headId], |br.second| - 1;
    if n <= m {
      OwnedLinks(f, tip, headId, br, left, start, br.second, n);
    } else {
      OwnedLinks(f, tip, headId, br, left, start, br.second, m);
      UpUp(g, start, m, n - m);
      BelowBranches(f, tip, headId, br, left, n - m);
    }
  }

  /** All blocks of both branches are above the fork point. */
  lemma {:induction false} AllAboveFork(f: Forks, tip: BlockId, headId: BlockId, br: Branches, x: ForkItem)
    requires WellFormed(f) && BranchesOf(f, tip, headId, br) && x in br.first + br.second
    ensures Num(x.id) >= Num(Last(br.second).id)
  {
    if x in br.first {
      var i :| 0 <= i < |br.first| && br.first[i] == x;
      BranchItem(f, f.index[tip], br.first, i);
      BranchItem(f, f.index[tip], br.first, |br.first| - 1);
    } else {
      var i :| 0 <= i < |br.second| && br.second[i] == x;
      BranchItem(f, f.index[headId], br.second, i);
      BranchItem(f, f.index[headId], br.second, |br.second| - 1);
    }
  }

  /** Only lower blocks decide how links run on. */
  lemma {:induction false} LowerLinks(a: map<BlockId, ForkItem>, b: map<BlockId, ForkItem>, item: ForkItem, k: nat)
    requires Indexed(a) && Indexed(b)
    requires forall id :: Num(id) < Num(item.id) ==> (id in a <==> id in b) && (id in a ==> a[id] == b[id])
    ensures Up(Forks(a, None), item, k) == Up(Forks(b, None), item, k)
    decreases k
  {
    if k > 0 {
      assert Num(item.id.parent) < Num(item.id);
      var p := Lock(Forks(a, None), item);
      if p.Some? {
        LowerLinks(a, b, p.value, k - 1);
      }
    }
  }

  /** Below the fork point nothing is owned by the branches. */
  lemma {:induction false} BelowBranches(f: Forks, tip: BlockId, headId: BlockId, br: Branches,
                                         left: map<BlockId, ForkItem>, k: nat)
    requires WellFormed(f) && BranchesOf(f, tip, headId, br)
    requires forall id :: id in left ==> id in f.index && left[id] == f.index[id]
    ensures Up(Forks(Owned(left, br.first + br.second), None), Last(br.second), k) ==
      Up(Forks(left, None), Last(br.second), k)
  {
    hide Owned, Lock, Up;
    var held := br.first + br.second;
    OwnedIs(left, held);
    forall x | x in held
      ensures Num(x.id) >= Num(Last(br.second).id)
    {
      AllAboveFork(f, tip, headId, br, x);
    }
    LowerLinks(Owned(left, held), left, Last(br.second), k);
  }

  /** Removing refused blocks does not touch links below the fork point. */
  lemma {:induction false} BelowRefused<D>(f: Forks, tip: BlockId, headId: BlockId, br: Branches, t: Trial<D>,
                                          left: map<BlockId, ForkItem>, k: nat)
    requires WellFormed(f) && BranchesOf(f, tip, headId, br) && Indexed(left)
    ensures Up(Forks(left - RefusedIds(br, t), None), Last(br.second), k) == Up(Forks(left, None), Last(br.second), k)
  {
    hide Lock, Up;
    forall id | id in RefusedIds(br, t)
      ensures Num(id) >= Num(Last(br.second).id)
    {
      var i :| 0 <= i < |br.first| && Reverse(br.first)[i] == id;
      AllAboveFork(f, tip, headId, br, br.first[|br.first| - 1 - i]);
    }
    LowerLinks(left - RefusedIds(br, t), left, Last(br.second), k);
  }

  /** The store when the head has been taken back to the fork point. */
  ghost function AtForkPoint<D>(db: Store<D>, br: Branches): Store<D>
    requires 0 < |br.second| <= |db.undo|
  {
    db.(state := ForkPoint(db.undo, br), undo := db.undo[..|db.undo| - |br.second|])
  }

  lemma {:induction false} AfterTrial<D>(exec: Exec<D>, f: Forks, tip: BlockId, db0: Store<D>, br: Branches,
                                         db2: Store<D>)
    requires WellFormed(f) && BranchesOf(f, tip, db0.state.headId, br)
    requires 0 < |br.second| < |br.first| && |br.second| <= |db0.undo|
    requires db2 == TriedAll(exec, Num(br.first[|br.second|].id), AtForkPoint(db0, br), Reverse(br.first))
    ensures var s, t := ForkPoint(db0.undo, br), TrialOf(exec, db0.undo, br);
      && t == Try(exec, s, Reverse(br.first)) && |t.states| <= |br.first|
      && (t.refused.None? <==> |t.states| == |br.first|)
      && db2.state == End(s, t) && (t.refused.None? ==> db2.state.headId == tip)
      && db2.undo == Newest(db0.undo[..|db0.undo| - |br.second|] + Starts(s, t), |db2.undo|)
  {
    hide TriedAll, Newest, Starts, End;
    var db1, ids := AtForkPoint(db0, br), Reverse(br.first);
    TriedAllReplays(exec, Num(br.first[|br.second|].id), db1, ids);
    TriedAllUndo(exec, Num(br.first[|br.second|].id), db1, ids);
    TryHead(exec, db1.state, ids);
  }

  /** What the second round of pops meets after a rejected block. */
  lemma {:induction false} ReadyToReturn<D>(exec: Exec<D>, f: Forks, tip: BlockId, db0: Store<D>, br: Branches,
                                          db2: Store<D>)
    requires WellFormed(f) && f.index == db0.index && BranchesOf(f, tip, db0.state.headId, br)
    requires 0 < |br.second| < |br.first| && |br.second| <= |db0.undo| && Linked(exec, db0.undo, db0.state)
    requires db2 == TriedAll(exec, Num(br.first[|br.second|].id), AtForkPoint(db0, br), Reverse(br.first))
    requires TrialOf(exec, db0.undo, br).refused.Some?
    ensures var t := TrialOf(exec, db0.undo, br); var good, fork := |t.states|, Last(br.second).id.parent;
      && Below(db2.state.headId, good) == Some(fork)
      && SameUpTo(db2.blocks, db0.blocks, Num(fork))
      && db2.index == From(f.index, Lowest(Num(br.first[|br.second|].id), AllDepths(t)))
      && (good <= |db2.undo| <==> Deep(t.depths, 0))
      && (good <= |db2.undo| ==>
            && Back(db2.undo, db2.state, good) == ForkPoint(db0.undo, br)
            && db2.undo[..|db2.undo| - good] == Newest(db0.undo[..|db0.undo| - |br.second|], |db2.undo| - good))
  {
    hide TriedAll, Linked, Try, Lowest, AllDepths, Deep, Up, Lock, SameUpTo, Below, RefusedIds;
    var n, db1, ids := Num(br.first[|br.second|].id), AtForkPoint(db0, br), Reverse(br.first);
    var s, t := ForkPoint(db0.undo, br), TrialOf(exec, db0.undo, br);
    TriedAllReplays(exec, n, db1, ids);
    TriedAllUndo(exec, n, db1, ids);
    TriedAllIndex(exec, n, db1, ids);
    TriedAllDepth(exec, n, db1, ids, 0);
    TryHead(exec, s, ids);
    BranchItem(f, f.index[tip], br.first, |br.first| - 1);
    BranchItem(f, f.index[db0.state.headId], br.second, |br.second| - 1);
    ReplayRestores(exec, db0.undo, db0.state, |br.second|);
    PartOfBranch(f, tip, db0.state.headId, br, s, t);
    AboveFork(f, tip, db0.state.headId, br, |t.states|);
    HigherBlocks(db0.blocks, ids[..|t.states|], Num(Last(br.second).id.parent));
  }

  /** The second round of pops gets through exactly if `CanReturn`. */
  lemma {:induction false} ReturnIsPossible<D>(f: Forks, tip: BlockId, headId: BlockId, br: Branches, t: Trial<D>,
                                          db: Store<D>)
    requires WellFormed(f) && BranchesOf(f, tip, headId, br) && 0 < |br.second| < |br.first|
    requires db.index == From(f.index, Lowest(Num(br.first[|br.second|].id), AllDepths(t)))
    requires |t.states| <= |db.undo| <==> Deep(t.depths, 0)
    ensures CanReturn(f.index, br, t) <==>
      && |t.states| <= |db.undo|
      && Up(Forks(Owned(db.index - RefusedIds(br, t), br.first + br.second), None), br.second[0], |t.states|).Some?
  {
    hide Owned, Diverge, Lock, Up, Deep, Lowest, AllDepths, RefusedIds;
    ReturnLinks(f, tip, headId, br, db.index - RefusedIds(br, t), |t.states|);
    if |t.states| >= |br.second| {
      BelowRefused(f, tip, headId, br, t, db.index, |t.states| + 1 - |br.second|);
    }
  }

  lemma {:induction false} AboveFork(f: Forks, tip: BlockId, headId: BlockId, br: Branches, n: nat)
    requires WellFormed(f) && BranchesOf(f, tip, headId, br) && n <= |br.first|
    ensures forall i :: 0 <= i < n ==> Num(Reverse(br.first)[..n][i]) > Num(Last(br.second).id.parent)
  {
    forall i | 0 <= i < n
      ensures Num(Reverse(br.first)[..n][i]) > Num(Last(br.second).id.parent)
    {
      BranchItem(f, f.index[tip], br.first, |br.first| - 1 - i);
      BranchItem(f, f.index[tip], br.first, |br.first| - 1);
    }
  }

  /** The old branch, tried again from the fork point, is what was there before. */
  lemma {:induction false} ReturnIsReplay<D>(exec: Exec<D>, f: Forks, tip: BlockId, db0: Store<D>, br: Branches,
                                          db3: Store<D>)
    requires WellFormed(f) && BranchesOf(f, tip, db0.state.headId, br)
    requires 0 < |br.second| <= |db0.undo| && Linked(exec, db0.undo, db0.state)
    requires Stored(db0.undo, db0.state, db0.blocks)
    requires db3.state == ForkPoint(db0.undo, br)
    requires db3.undo == Newest(db0.undo[..|db0.undo| - |br.second|], |db3.undo|)
    requires SameUpTo(db3.blocks, db0.blocks, Num(Last(br.second).id.parent))
    ensures var ids := Reverse(br.second);
      var t := Try(exec, db3.state, ids);
      && t.refused.None? && ids[..|t.states|] == ids && End(db3.state, t) == db0.state
      && Starts(db3.state, t) == db0.undo[|db0.undo| - |br.second|..]
      && SameUpTo(WithBlocks(db3.blocks, ids), db0.blocks, Num(db0.state.headId))
  {
    hide Linked, Stored, TriedAll, Try, Starts, End, Newest, SameUpTo;
    var h, k := db0.state.headId, |br.second|;
    var item := f.index[h];
    BranchItem(f, item, br.second, k - 1);
    ReverseIsPath(f, item, br.second, 0);
    assert br.second[0..] == br.second;
    ReplayRestores(exec, db0.undo, db0.state, k);
    StoringRestores(exec, db0.undo, db0.state, db0.blocks, db3.blocks, k);
    StartsAreHistory(exec, db0.undo, db0.state, k);
  }

  lemma {:induction false} AfterReturn<D>(exec: Exec<D>, f: Forks, tip: BlockId, db0: Store<D>, br: Branches,
                                          db3: Store<D>, n: nat, db4: Store<D>)
    requires WellFormed(f) && BranchesOf(f, tip, db0.state.headId, br)
    requires 0 < |br.second| <= |db0.undo| && Linked(exec, db0.undo, db0.state)
    requires Stored(db0.undo, db0.state, db0.blocks)
    requires db3.state == ForkPoint(db0.undo, br)
    requires db3.undo == Newest(db0.undo[..|db0.undo| - |br.second|], |db3.undo|)
    requires SameUpTo(db3.blocks, db0.blocks, Num(Last(br.second).id.parent))
    requires db4 == TriedAll(exec, n, db3, Reverse(br.second))
    ensures db4.state == db0.state && db4.undo == Newest(db0.undo, |db4.undo|)
    ensures SameUpTo(db4.blocks, db0.blocks, Num(db0.state.headId))
    ensures db4.index.Keys <= db3.index.Keys
  {
    hide Linked, Stored, TriedAll, Try, Starts, End, Newest, SameUpTo, BranchesOf, WellFormed, ForkPoint, WithBlocks;
    var ids := Reverse(br.second);
    ReturnIsReplay(exec, f, tip, db0, br, db3);
    TriedAllReplays(exec, n, db3, ids);
    TriedAllUndo(exec, n, db3, ids);
    TriedAllIndex(exec, n, db3, ids);
    NewestOfTail(db0.undo, |br.second|, db3.undo, db4.undo);
  }

  /** Dropping old elements from a part and then from the whole. */
  lemma {:induction false} NewestOfTail<T>(all: seq<T>, k: nat, part: seq<T>, r: seq<T>)
    requires k <= |all| && part == Newest(all[..|all| - k], |part|)
    requires r == Newest(part + all[|all| - k..], |r|)
    ensures r == Newest(all, |r|)
  {
  }

  /** Trying blocks adds nothing to the fork database. */
  lemma {:induction false} IndexShrinks<D>(exec: Exec<D>, n: nat, db: Store<D>, ids: seq<BlockHash>)
    ensures var index := TriedAll(exec, n, db, ids).index; forall id :: id in index ==>
      id in db.index && index[id] == db.index[id]
  {
    TriedAllIndex(exec, n, db, ids);
  }

  /** Going back by less than the blocks of a trial ends at one of them. */
  lemma {:induction false} BackOnBranch<D>(s: Chain<D>, t: Trial<D>, before: seq<Chain<D>>, db: Store<D>, k: nat)
    requires db.state == End(s, t) && db.undo == Newest(before + Starts(s, t), |db.undo|)
    requires k < |t.states| && k <= |db.undo|
    ensures Back(db.undo, db.state, k) in t.states
  {
    if k > 0 {
      FromTheEnd(before, Starts(s, t), db.undo, k);
      hide Newest, Starts;
      assert db.undo[|db.undo| - k] == t.states[|t.states| - k - 1];
    }
  }

  /** The newest part of a history counted from the end. */
  lemma {:induction false} FromTheEnd<T>(a: seq<T>, b: seq<T>, tail: seq<T>, k: nat)
    requires 0 < k <= |tail| && k <= |b| && tail == Newest(a + b, |tail|)
    ensures tail[|tail| - k] == b[|b| - k]
  {
    var all := a + b;
    assert tail[|tail| - k] == all[|all| - k];
  }

  /**
   As long as fewer blocks were applied than the old branch has, nothing but the undo history
   decides about the return.
   */
  lemma {:induction false} ShortTrialReturns<D>(index: map<BlockId, ForkItem>, br: Branches, t: Trial<D>)
    requires 0 < |br.second| < |br.first| && |t.states| < |br.second|
    ensures CanReturn(index, br, t) <==> Deep(t.depths, 0)
  {
    hide Deep;
  }

  /** Only as many further blocks can be taken back as the old branch has ancestors in the fork database. */
  lemma {:induction false} ReturnNeedsAncestors<D>(index: map<BlockId, ForkItem>, br: Branches, t: Trial<D>)
    requires Indexed(index) && CanReturn(index, br, t) && |t.states| >= |br.second|
    ensures Up(Forks(index, None), Last(br.second), |t.states| + 1 - |br.second|).Some?
  {
    var left := From(index, Lowest(Num(br.first[|br.second|].id), AllDepths(t)));
    FewerLinks(left, index, Last(br.second), |t.states| + 1 - |br.second|);
  }

  lemma {:induction false} FewerLinks(a: map<BlockId, ForkItem>, b: map<BlockId, ForkItem>, item: ForkItem, k: nat)
    requires forall id :: id in a ==> id in b && a[id] == b[id]
    requires Up(Forks(a, None), item, k).Some?
    ensures Up(Forks(b, None), item, k) == Up(Forks(a, None), item, k)
    decreases k
  {
    if k > 0 {
      FewerLinks(a, b, Lock(Forks(a, None), item).value, k - 1);
    }
  }

  /** From an unlinked branch the head cannot go on down once as many blocks of the other were applied as it is long. */
  lemma {:induction false} NoReturnBelowUnlinkedBranch<D>(index: map<BlockId, ForkItem>, br: Branches, t: Trial<D>)
    requires Indexed(index) && br.second != [] && !Last(br.second).linked && |t.states| >= |br.second|
    ensures !CanReturn(index, br, t)
  {
    if CanReturn(index, br, t) {
      ReturnNeedsAncestors(index, br, t);
    }
  }

  /**
   A switch that is not all-or-nothing.  The chain is one block long; a fork of two blocks, both
   built on the null id, arrives, and its second block is rejected.  The chain can be left but
   not returned to: `SwitchFork` then stops on the fork's first block.
   */
  lemma {:induction false} RejectedForkOffTheFirstBlock(exec: Exec<nat>, f: Forks, undo: seq<Chain<nat>>, br: Branches)
    requires var a1, b1 := Child(NULL_ID, 1), Child(NULL_ID, 2); var b2 := Child(b1, 3);
      && f == Forks(map[a1 := ForkItem(a1, false, false), b1 := ForkItem(b1, false, false),
                        b2 := ForkItem(b2, true, false)], Some(ForkItem(b2, true, false)))
      && undo == [Chain(0, NULL_ID)]
      && br == Branches([ForkItem(b2, true, false), ForkItem(b1, false, false)], [ForkItem(a1, false, false)])
      && exec(0, b1) == Applied(Chain(1, b1), 10) && exec(1, b2) == Rejected(Chain(1, b1), None)
    ensures var a1 := Child(NULL_ID, 1); var b2 := Child(Child(NULL_ID, 2), 3);
      && Parting(f.index, b2, a1) && BranchesOf(f, b2, a1, br) && CanLeave(f, undo, br)
      && TrialOf(exec, undo, br).refused.Some? && !CanReturn(f.index, br, TrialOf(exec, undo, br))
  {
    var a1, b1 := Child(NULL_ID, 1), Child(NULL_ID, 2);
    var b2 := Child(b1, 3);
    var bare := Forks(f.index, None);
    var x, y, z := f.index[b2], f.index[b1], f.index[a1];
    assert Lock(f, x) == Some(y) && Lock(f, y) == None && Lock(f, z) == None;
    assert Lock(bare, x) == Some(y);
    assert Up(f, y, 0) == Some(y) && Up(bare, y, 0) == Some(y);
    assert Up(f, x, 1) == Some(y) && Up(bare, x, 1) == Some(y);
    assert MeetAt(bare, x, z, 1, 0);
    assert br.first[0].id == b2 && Reverse(br.first) == [b1, b2];
    var s := undo[0];
    assert Try(exec, Chain(1, b1), [b2]).refused.Some?;
    assert [b1, b2][1..] == [b2];
    assert |Try(exec, s, [b1, b2]).states| == 1;
    NoReturnBelowUnlinkedBranch(f.index, br, TrialOf(exec, undo, br));
  }

  /** When the head is the indexed tip itself, leaving the old branch is only a matter of undo history. */
  lemma {:induction false} IndexedTipCanLeave<D>(f: Forks, tip: BlockId, headId: BlockId, undo: seq<Chain<D>>,
                                          br: Branches)
    requires WellFormed(f) && BranchesOf(f, tip, headId, br) && Num(tip) > Num(headId) && f.head == Some(f.index[tip])
    ensures CanLeave(f, undo, br) <==> |br.second| <= |undo|
  {
    BranchShape(f, tip, headId, br);
    assert Up(f, f.index[tip], 1).Some?;
  }
}
