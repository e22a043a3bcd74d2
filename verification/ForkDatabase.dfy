/**
 The fork database: a block index by id with a movable head, changed in place.
 */
module ForkDb {
  import opened Wrappers
  import opened ForkTree

  datatype Branches = Branches(first: seq<ForkItem>, second: seq<ForkItem>)

  datatype PushResult = Pushed(head: ForkItem) | TooOld | Unlinkable | OnInvalidBlock

  /** A block is not too old and, once there is a head, builds on an indexed, valid block or on the null id. */
  predicate Accepts(f: Forks, maxSize: nat, id: BlockHash) {
    f.head.Some? ==>
      && Num(id) > Max(0, Num(f.head.value.id) - maxSize)
      && (id.parent == NULL_ID || (id.parent in f.index && !f.index[id.parent].invalid))
  }

  /**
   An accepted block is indexed; it becomes the head if there is none or it is higher, and then old
   blocks are dropped.
   */
  function AfterPush(f: Forks, maxSize: nat, id: BlockHash): (r: Forks)
    ensures r.head.Some?
  {
    var item := ForkItem(id, f.head.Some? && id.parent != NULL_ID, false);
    var all := if id in f.index then f.index else f.index[id := item];
    if f.head.None? then Forks(all, Some(item))
    else if Num(id) > Num(f.head.value.id) then Forks(From(all, Num(id) - maxSize), Some(item))
    else Forks(all, f.head)
  }

  class ForkDatabase {
    var index: map<BlockId, ForkItem>
    var head: Option<ForkItem>
    var maxSize: nat

    ghost function View(): Forks
      reads this
    {
      Forks(index, head)
    }

    constructor ()
      ensures View() == Forks(map[], None) && maxSize == 1024
    {
      index, head, maxSize := map[], None, 1024;
    }

    /**
     The two branches that lead from the blocks back to where they part.  Fails exactly when a
     block is unknown or the links run out before the branches meet.
     */
    method FetchBranchFrom(first: BlockId, second: BlockId) returns (r: Option<Branches>)
      requires WellFormed(View())
      ensures r.Some? <==> first in index && second in index && Meet(View(), index[first], index[second])
      ensures r.Some? ==> Diverge(View(), index[first], index[second], r.value.first, r.value.second)
    {
      if first !in index {
        return None;
      }
      var x := index[first];
      if second !in index {
        return None;
      }
      var y := index[second];
      ghost var f, a, b := View(), x, y;
      var xs, ys: seq<ForkItem> := [], [];

      while Num(x.id) > Num(y.id)
        invariant Walk(f, a, x, xs) && Walk(f, b, y, ys) && ys == [] && Unmet(f, a, b, |xs|, |ys|)
        decreases Num(x.id)
      {
        WalkUp(f, a, x, xs);
        LowerNumberUnmet(f, a, b, x, xs, y, ys);
        xs := xs + [x];
        var p := Lock(Forks(index, head), x);
        if p.None? {
          NoMeet(f, a, b, |xs|, |ys|);
          return None;
        }
        x := p.value;
      }

      while Num(y.id) > Num(x.id)
        invariant Walk(f, a, x, xs) && Walk(f, b, y, ys) && Unmet(f, a, b, |xs|, |ys|)
        invariant Num(x.id) <= Num(y.id)
        decreases Num(y.id)
      {
        WalkUp(f, b, y, ys);
        LowerNumberUnmet(f, a, b, x, xs, y, ys);
        ys := ys + [y];
        var p := Lock(Forks(index, head), y);
        if p.None? {
          NoMeet(f, a, b, |xs|, |ys|);
          return None;
        }
        y := p.value;
      }

      while x.id.parent != y.id.parent
        invariant Walk(f, a, x, xs) && Walk(f, b, y, ys) && Unmet(f, a, b, |xs|, |ys|)
        invariant Num(x.id) == Num(y.id)
        decreases Num(x.id)
      {
        WalkUp(f, a, x, xs);
        WalkUp(f, b, y, ys);
        SameNumberUnmet(f, a, b, x, xs, y, ys);
        xs := xs + [x];
        ys := ys + [y];
        var p := Lock(Forks(index, head), x);
        if p.None? {
          NoMeet(f, a, b, |xs|, |ys|);
          return None;
        }
        x := p.value;
        var q := Lock(Forks(index, head), y);
        if q.None? {
          NoMeet(f, a, b, |xs|, |ys|);
          return None;
        }
        y := q.value;
      }
      Arrived(f, a, b, x, xs, y, ys);
      r := Some(Branches(xs + [x], ys + [y]));
    }

    /** Forgets all blocks below `low`. */
    method DropBelow(low: int)
      modifies this`index
      ensures index == From(old(index), low)
    {
      while exists id :: id in index && Num(id) < low
        modifies this`index
        invariant index.Keys <= old(index).Keys && From(index, low) == From(old(index), low)
        decreases |index|
      {
        var id :| id in index && Num(id) < low;
        DropOne(index, id, low);
        index := index - {id};
      }
      assert From(index, low) == index;
    }

    /**
     Adds a block.  It must not be older than what is kept, and once there is a head it must
     build on an indexed, valid block unless it builds on the null id.
     */
    method PushBlock(id: BlockHash) returns (r: PushResult)
      requires WellFormed(View())
      modifies this`index, this`head
      ensures WellFormed(View())
      ensures r.TooOld? <==> old(head).Some? && Num(id) <= Max(0, Num(old(head).value.id) - maxSize)
      ensures r.Unlinkable? <==> !r.TooOld? && old(head).Some? && id.parent != NULL_ID && id.parent !in old(index)
      ensures r.OnInvalidBlock? <==> !r.TooOld? && old(head).Some? && id.parent != NULL_ID
                                     && id.parent in old(index) && old(index)[id.parent].invalid
      ensures r.Pushed? <==> Accepts(old(View()), maxSize, id)
      ensures !r.Pushed? ==> index == old(index) && head == old(head)
      ensures r.Pushed? ==> head == Some(r.head) && View() == AfterPush(old(View()), maxSize, id)
      ensures r.Pushed? && old(head).Some? && id !in old(index) ==>
        && id in index && !index[id].invalid
        && (id.parent != NULL_ID && id.parent in index ==> Lock(View(), index[id]) == Some(index[id.parent]))
    {
      if head.Some? && Num(id) <= Max(0, Num(head.value.id) - maxSize) {
        return TooOld;
      }
      var linked := false;
      if head.Some? && id.parent != NULL_ID {
        if id.parent !in index {
          return Unlinkable;
        }
        if index[id.parent].invalid {
          return OnInvalidBlock;
        }
        linked := true;
      }
      var item := ForkItem(id, linked, false);
      if id !in index {
        index := index[id := item];
      }
      if head.None? {
        head := Some(item);
      } else if Num(id) > Num(head.value.id) {
        head := Some(item);
        var least := Num(id) - (if maxSize < Num(id) then maxSize else Num(id));
        FromZero(index, Num(id) - maxSize);
        DropBelow(least);
      }
      r := Pushed(head.value);
    }

    /** Moves the head to its parent, which must still be alive; `held` are the items that local variables own. */
    method PopBlock(held: seq<ForkItem>) returns (ok: bool)
      modifies this`head
      ensures ok == (old(head).Some? && Lock(Forks(Owned(index, held), None), old(head).value).Some?)
      ensures head == if ok then Lock(Forks(Owned(index, held), None), old(head).value) else old(head)
    {
      if head.None? {
        return false;
      }
      var prev := Lock(Forks(Owned(index, held), head), head.value);
      HeadNotBelow(Owned(index, held), head.value);
      if prev.None? {
        return false;
      }
      head := prev;
      ok := true;
    }

    method SetMaxSize(size: nat)
      modifies this`maxSize, this`index
      ensures maxSize == size
      ensures index == if head.None? then old(index) else From(old(index), Num(head.value.id) - size)
    {
      maxSize := size;
      if head.None? {
        return;
      }
      FromZero(index, Num(head.value.id) - size);
      DropBelow(Max(0, Num(head.value.id) - size));
    }

    method Remove(id: BlockId)
      modifies this`index
      ensures index == old(index) - {id}
    {
      index := index - {id};
    }

    method RemoveAll(ids: seq<BlockHash>)
      modifies this`index
      ensures index == old(index) - (set id | id in ids)
    {
      var i := 0;
      while i < |ids|
        modifies this`index
        invariant i <= |ids| && index == old(index) - (set id | id in ids[..i])
      {
        assert ids[..i + 1] == ids[..i] + [ids[i]];
        Remove(ids[i]);
        i := i + 1;
      }
      assert ids[..i] == ids;
    }

    method SetHead(item: ForkItem)
      modifies this`head
      ensures head == Some(item)
    {
      head := Some(item);
    }
  }

  lemma {:induction false} DropOne(index: map<BlockId, ForkItem>, id: BlockId, low: int)
    requires id in index && Num(id) < low
    ensures From(index - {id}, low) == From(index, low)
    ensures |index - {id}| < |index|
  {
    assert (index - {id}).Keys == index.Keys - {id};
  }

  /** Block numbers are not negative. */
  lemma {:induction false} FromZero(index: map<BlockId, ForkItem>, low: int)
    ensures From(index, low) == From(index, Max(0, low))
  {
  }

  /** `xs` are the blocks passed on the way up from `a`, and `x` is the one reached. */
  ghost predicate Walk(f: Forks, a: ForkItem, x: ForkItem, xs: seq<ForkItem>) {
    && Up(f, a, |xs|) == Some(x)
    && Num(x.id) + |xs| == Num(a.id)
    && forall i :: 0 <= i < |xs| ==> Up(f, a, i) == Some(xs[i])
  }

  ghost predicate Unmet(f: Forks, a: ForkItem, b: ForkItem, n: nat, m: nat) {
    forall i: nat, j: nat :: i < n || j < m ==> !MeetAt(f, a, b, i, j)
  }

  lemma {:induction false} WalkUp(f: Forks, a: ForkItem, x: ForkItem, xs: seq<ForkItem>)
    requires WellFormed(f) && Walk(f, a, x, xs)
    ensures Up(f, a, |xs| + 1) == Lock(f, x)
    ensures Lock(f, x).Some? ==> Walk(f, a, Lock(f, x).value, xs + [x])
  {
    LockNumber(f, x);
    UpUp(f, a, |xs|, 1);
    assert Lock(f, x).Some? ==> Up(f, Lock(f, x).value, 0) == Lock(f, x);
  }

  /** The branches cannot meet at the higher of two blocks. */
  lemma {:induction false} LowerNumberUnmet(f: Forks, a: ForkItem, b: ForkItem, x: ForkItem, xs: seq<ForkItem>,
                                          y: ForkItem, ys: seq<ForkItem>)
    requires WellFormed(f) && Walk(f, a, x, xs) && Walk(f, b, y, ys) && Unmet(f, a, b, |xs|, |ys|)
    ensures Num(x.id) > Num(y.id) ==> Unmet(f, a, b, |xs| + 1, |ys|)
    ensures Num(y.id) > Num(x.id) ==> Unmet(f, a, b, |xs|, |ys| + 1)
  {
    forall i: nat, j: nat | MeetAt(f, a, b, i, j)
      ensures Num(a.id) - i == Num(b.id) - j
    {
      MeetNumber(f, a, b, i, j);
    }
  }

  lemma {:induction false} SameNumberUnmet(f: Forks, a: ForkItem, b: ForkItem, x: ForkItem, xs: seq<ForkItem>,
                                          y: ForkItem, ys: seq<ForkItem>)
    requires WellFormed(f) && Walk(f, a, x, xs) && Walk(f, b, y, ys) && Unmet(f, a, b, |xs|, |ys|)
    requires Num(x.id) == Num(y.id) && x.id.parent != y.id.parent
    ensures Unmet(f, a, b, |xs| + 1, |ys| + 1)
  {
    forall i: nat, j: nat | i <= |xs| || j <= |ys|
      ensures !MeetAt(f, a, b, i, j)
    {
      if MeetAt(f, a, b, i, j) {
        MeetNumber(f, a, b, i, j);
      }
    }
  }

  lemma {:induction false} Arrived(f: Forks, a: ForkItem, b: ForkItem, x: ForkItem, xs: seq<ForkItem>, y: ForkItem,
                                   ys: seq<ForkItem>)
    requires WellFormed(f) && Walk(f, a, x, xs) && Walk(f, b, y, ys) && Unmet(f, a, b, |xs|, |ys|)
    requires x.id.parent == y.id.parent
    ensures Diverge(f, a, b, xs + [x], ys + [y]) && Meet(f, a, b)
  {
    assert MeetAt(f, a, b, |xs|, |ys|);
  }

  /** Nothing met below the ends of the two walks, and one of them cannot go on. */
  lemma {:induction false} NoMeet(f: Forks, a: ForkItem, b: ForkItem, n: nat, m: nat)
    requires Unmet(f, a, b, n, m) && (Up(f, a, n).None? || Up(f, b, m).None?)
    ensures !Meet(f, a, b)
  {
    if i: nat, j: nat :| MeetAt(f, a, b, i, j) {
      if Up(f, a, n).None? {
        UpNone(f, a, n, i);
      } else {
        UpNone(f, b, m, j);
      }
    }
  }
}
