/**
 What the chain database does to its own state, as functions of values: applying a block,
 trying one inside an undo session, and trying a whole branch.
 */
module ChainSpec {
  import opened Wrappers
  import opened ForkTree
  import opened UndoSpec

  /** The chain state and the id of the block it is the result of. */
  datatype Chain<D> = Chain(data: D, headId: BlockId)

  /**
   What applying a block comes to.  A rejected block may have changed part of the state before
   it failed.  Either way the block may have set the depth to which undo states and fork blocks
   are kept, and undoing the block does not take that back.
   */
  datatype Outcome<D> = Applied(next: Chain<D>, depth: nat) | Rejected(partial: Chain<D>, newDepth: Option<nat>)

  /** What a block does to the chain state, once it is known to build on the head. */
  type Exec<!D> = (D, BlockHash) -> Outcome<D>

  /** Applying a block: it must build on the head. */
  function Apply<D>(exec: Exec<D>, s: Chain<D>, id: BlockHash): (r: Outcome<D>)
    ensures r.Applied? ==> r.next.headId == id && id.parent == s.headId
  {
    if id.parent != s.headId then Rejected(s, None)
    else
      var r := exec(s.data, id);
      if r.Applied? then r.(next := r.next.(headId := id)) else r
  }

  /** Blocks applied one after the other as far as they go, on full states and without any undoing. */
  datatype Trial<D> = Trial(states: seq<Chain<D>>, depths: seq<nat>, refused: Option<Outcome<D>>)

  function Try<D>(exec: Exec<D>, s: Chain<D>, ids: seq<BlockHash>): (t: Trial<D>)
    ensures |t.states| == |t.depths| <= |ids| && (t.refused.None? <==> |t.states| == |ids|)
    ensures t.refused.Some? ==> t.refused.value.Rejected?
    decreases ids
  {
    if ids == [] then Trial([], [], None)
    else
      var r := Apply(exec, s, ids[0]);
      if r.Rejected? then Trial([], [], Some(r))
      else
        var rest := Try(exec, r.next, ids[1..]);
        Trial([r.next] + rest.states, [r.depth] + rest.depths, rest.refused)
  }

  function End<D>(s: Chain<D>, t: Trial<D>): Chain<D> {
    if t.states == [] then s else t.states[|t.states| - 1]
  }

  /** The states in which the blocks that were applied met the chain. */
  function Starts<D>(s: Chain<D>, t: Trial<D>): seq<Chain<D>> {
    if t.states == [] then [] else [s] + t.states[..|t.states| - 1]
  }

  /** The state of the chain database that blocks change: the chain, what can be undone, and the two block stores. */
  datatype Store<D> = Store(state: Chain<D>, undo: seq<Chain<D>>, depth: nat, blocks: map<nat, BlockId>,
                            index: map<BlockId, ForkItem>)

  /** The depth a block sets, if it gets that far. */
  function NewDepth<D>(r: Outcome<D>): Option<nat> {
    if r.Applied? then Some(r.depth) else r.newDepth
  }

  /** A new depth also limits the fork database, whose head has number `n`. */
  function WithDepth<D>(db: Store<D>, n: nat, depth: Option<nat>): Store<D> {
    if depth.None? then db else db.(depth := depth.value, index := From(db.index, n - depth.value))
  }

  /** One block in an undo session of its own. */
  function Tried<D>(exec: Exec<D>, n: nat, db: Store<D>, id: BlockHash): Store<D> {
    var r := Apply(exec, db.state, id);
    var kept := Newest(db.undo, db.depth);
    var db' := WithDepth(db, n, NewDepth(r));
    if r.Applied? then db'.(state := r.next, undo := kept + [db.state], blocks := db.blocks[Num(id) := id])
    else db'.(undo := kept)
  }

  function TriedAll<D>(exec: Exec<D>, n: nat, db: Store<D>, ids: seq<BlockHash>): Store<D>
    decreases ids
  {
    if ids == [] then db
    else if Apply(exec, db.state, ids[0]).Rejected? then Tried(exec, n, db, ids[0])
    else TriedAll(exec, n, Tried(exec, n, db, ids[0]), ids[1..])
  }

  /** Each snapshot becomes the next one by applying the next one's head block. */
  ghost predicate Linked<D>(exec: Exec<D>, history: seq<Chain<D>>, now: Chain<D>) {
    if history == [] then true
    else
      var last := history[|history| - 1];
      && now.headId.Child?
      && Apply(exec, last, now.headId).Applied? && Apply(exec, last, now.headId).next == now
      && Linked(exec, history[..|history| - 1], last)
  }

  /** The block database has the head blocks of all states that can still be reached by popping. */
  ghost predicate Stored<D>(history: seq<Chain<D>>, now: Chain<D>, blocks: map<nat, BlockId>) {
    && (now.headId.Child? ==> Num(now.headId) in blocks && blocks[Num(now.headId)] == now.headId)
    && (history != [] ==> Stored(history[..|history| - 1], history[|history| - 1], blocks))
  }

  ghost predicate Sound<D>(exec: Exec<D>, db: Store<D>) {
    && Linked(exec, db.undo, db.state) && Stored(db.undo, db.state, db.blocks)
    && Indexed(db.index)
  }

  lemma {:induction false} NewestLinked<D>(exec: Exec<D>, history: seq<Chain<D>>, now: Chain<D>,
                                          blocks: map<nat, BlockId>, n: nat)
    requires Linked(exec, history, now) && Stored(history, now, blocks)
    ensures Linked(exec, Newest(history, n), now) && Stored(Newest(history, n), now, blocks)
  {
    if n > 0 && |history| > n {
      var h := history[..|history| - 1];
      NewestLinked(exec, h, history[|history| - 1], blocks, n - 1);
      assert Newest(history, n)[..n - 1] == Newest(h, n - 1);
    }
  }

  /** Storing a block does not touch the blocks below it. */
  lemma {:induction false} StoreAbove<D>(exec: Exec<D>, history: seq<Chain<D>>, now: Chain<D>,
                                         blocks: map<nat, BlockId>, n: nat, id: BlockId)
    requires Linked(exec, history, now) && Stored(history, now, blocks) && n > Num(now.headId)
    ensures Stored(history, now, blocks[n := id])
  {
    if history != [] {
      StoreAbove(exec, history[..|history| - 1], history[|history| - 1], blocks, n, id);
    }
  }

  /** One more block on top of a history. */
  lemma {:induction false} AppliedSound<D>(exec: Exec<D>, history: seq<Chain<D>>, now: Chain<D>,
                                           blocks: map<nat, BlockId>, id: BlockHash)
    requires Linked(exec, history, now) && Stored(history, now, blocks) && Apply(exec, now, id).Applied?
    ensures var next := Apply(exec, now, id).next;
      Linked(exec, history + [now], next) && Stored(history + [now], next, blocks[Num(id) := id])
  {
    StoreAbove(exec, history, now, blocks, Num(id), id);
    assert (history + [now])[..|history|] == history;
  }

  lemma {:induction false} TriedSound<D>(exec: Exec<D>, n: nat, db: Store<D>, id: BlockHash)
    requires Sound(exec, db)
    ensures Sound(exec, Tried(exec, n, db, id))
  {
    hide Newest, Linked, Stored, Apply;
    NewestLinked(exec, db.undo, db.state, db.blocks, db.depth);
    if Apply(exec, db.state, id).Applied? {
      AppliedSound(exec, Newest(db.undo, db.depth), db.state, db.blocks, id);
    }
  }

  /** The block database after storing the blocks one after the other. */
  function WithBlocks(blocks: map<nat, BlockId>, ids: seq<BlockHash>): map<nat, BlockId>
    decreases ids
  {
    if ids == [] then blocks else WithBlocks(blocks[Num(ids[0]) := ids[0]], ids[1..])
  }

  /** Trying a branch ends in the state that plain replay ends in, and stores the blocks it applied. */
  lemma {:induction false} TriedAllReplays<D>(exec: Exec<D>, n: nat, db: Store<D>, ids: seq<BlockHash>)
    ensures var t, r := Try(exec, db.state, ids), TriedAll(exec, n, db, ids);
      r.state == End(db.state, t) && r.blocks == WithBlocks(db.blocks, ids[..|t.states|])
    decreases ids
  {
    if ids != [] && Apply(exec, db.state, ids[0]).Applied? {
      var db1 := Tried(exec, n, db, ids[0]);
      TriedAllReplays(exec, n, db1, ids[1..]);
      var t := Try(exec, db.state, ids);
      assert ids[..|t.states|][1..] == ids[1..][..|t.states| - 1];
    }
  }

  lemma {:induction false} NewestOfMore<T>(a: seq<T>, d: nat, x: T, b: seq<T>, k: nat)
    requires k <= |Newest(a, d) + [x] + b|
    ensures Newest(Newest(a, d) + [x] + b, k) == Newest(a + [x] + b, k)
  {
  }

  /** What can be undone afterwards is the newest part of everything there ever was to undo. */
  lemma {:induction false} TriedAllUndo<D>(exec: Exec<D>, n: nat, db: Store<D>, ids: seq<BlockHash>)
    ensures var r := TriedAll(exec, n, db, ids);
      r.undo == Newest(db.undo + Starts(db.state, Try(exec, db.state, ids)), |r.undo|)
    decreases ids
  {
    if ids != [] && Apply(exec, db.state, ids[0]).Applied? {
      var db1 := Tried(exec, n, db, ids[0]);
      TriedAllUndo(exec, n, db1, ids[1..]);
      var t, t1 := Try(exec, db.state, ids), Try(exec, db1.state, ids[1..]);
      var r := TriedAll(exec, n, db1, ids[1..]);
      assert Starts(db.state, t) == [db.state] + Starts(db1.state, t1);
      assert db.undo + Starts(db.state, t) == db.undo + [db.state] + Starts(db1.state, t1);
      NewestOfMore(db.undo, db.depth, db.state, Starts(db1.state, t1), |r.undo|);
    }
  }

  /** Depth `depths[j]` covers the `j + 1` blocks applied by then and `k` earlier ones. */
  ghost predicate Deep(depths: seq<nat>, k: nat) {
    forall j :: 0 <= j < |depths| ==> depths[j] > j + k
  }

  /**
   A branch that is rejected leaves its own undo states, and the `k` states before them, on the
   stack exactly when the depth was sufficient at every block.
   */
  lemma {:induction false} TriedAllDepth<D>(exec: Exec<D>, n: nat, db: Store<D>, ids: seq<BlockHash>, k: nat)
    requires Try(exec, db.state, ids).refused.Some?
    ensures var t, r := Try(exec, db.state, ids), TriedAll(exec, n, db, ids);
      |r.undo| >= |t.states| + k <==> |db.undo| >= k && db.depth >= k && Deep(t.depths, k)
    decreases ids
  {
    var t := Try(exec, db.state, ids);
    if Apply(exec, db.state, ids[0]).Applied? {
      var db1 := Tried(exec, n, db, ids[0]);
      TriedAllDepth(exec, n, db1, ids[1..], k + 1);
      var t1 := Try(exec, db1.state, ids[1..]);
      assert t.depths == [db1.depth] + t1.depths;
      DeepCons(db1.depth, t1.depths, k);
    }
  }

  lemma {:induction false} DeepCons(d: nat, depths: seq<nat>, k: nat)
    ensures Deep([d] + depths, k) <==> d > k && Deep(depths, k + 1)
  {
    if d > k && Deep(depths, k + 1) {
      forall j | 0 <= j < |depths| + 1
        ensures ([d] + depths)[j] > j + k
      {
        if j > 0 {
          assert depths[j - 1] > j - 1 + (k + 1);
        }
      }
    }
    if Deep([d] + depths, k) {
      assert ([d] + depths)[0] > k;
      forall j | 0 <= j < |depths|
        ensures depths[j] > j + (k + 1)
      {
        assert ([d] + depths)[j + 1] > j + 1 + k;
      }
    }
  }

  /** All depths that a trial set, including that of a rejected block. */
  function AllDepths<D>(t: Trial<D>): seq<nat> {
    t.depths + (if t.refused.Some? && NewDepth(t.refused.value).Some? then [NewDepth(t.refused.value).value] else [])
  }

  /** The lowest block number that survives in a fork database with head number `n`. */
  function Lowest(n: nat, depths: seq<nat>): int {
    if depths == [] then 0 else Max(n - depths[0], Lowest(n, depths[1..]))
  }

  lemma {:induction false} FromFrom(index: map<BlockId, ForkItem>, a: int, b: int)
    ensures From(From(index, a), b) == From(index, Max(a, b))
    ensures From(index, 0) == index
  {
  }

  lemma {:induction false} TriedAllIndex<D>(exec: Exec<D>, n: nat, db: Store<D>, ids: seq<BlockHash>)
    ensures TriedAll(exec, n, db, ids).index == From(db.index, Lowest(n, AllDepths(Try(exec, db.state, ids))))
    decreases ids
  {
    var t := Try(exec, db.state, ids);
    FromFrom(db.index, 0, 0);
    if ids != [] {
      var db1 := Tried(exec, n, db, ids[0]);
      var r := Apply(exec, db.state, ids[0]);
      if r.Applied? {
        TriedAllIndex(exec, n, db1, ids[1..]);
        var ds := AllDepths(Try(exec, db1.state, ids[1..]));
        assert AllDepths(t) == [r.depth] + ds;
        FromFrom(db.index, n - r.depth, Lowest(n, ds));
      } else if r.newDepth.Some? {
        FromFrom(db.index, n - r.newDepth.value, 0);
        assert AllDepths(t)[1..] == [];
      }
    }
  }
}
