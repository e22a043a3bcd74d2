/**
 The vocabulary of the undo database: snapshots of the object store, the undo state
 that one session records, and what it means for an undo state to record the
 difference between two snapshots.  Nothing here knows how the recording is done.
 */
module UndoSpec {
  import opened Wrappers

  /** The space and type of an object: what `object_id_type(space, type, 0)` stands for. */
  datatype IndexId = IndexId(space: nat, kind: nat)

  datatype ObjectId = ObjectId(index: IndexId, instance: nat)

  /** Everything that a session promises to restore: all objects and every index's next id. */
  datatype Snapshot<V> = Snapshot(objects: map<ObjectId, V>, nextIds: map<IndexId, nat>)

  /** One element of the undo stack. */
  datatype UndoState<V> = UndoState(
    oldValues: map<ObjectId, V>,
    oldNextIds: map<IndexId, nat>,
    newIds: set<ObjectId>,
    removed: map<ObjectId, V>)

  function EmptyState<V>(): UndoState<V> {
    UndoState(map[], map[], {}, map[])
  }

  /** What an undo state says about one object. */
  datatype Entry<V> = New | Upd(was: V) | Del(was: V) | Nop

  ghost function EntryOf<V>(d: UndoState<V>, id: ObjectId): Entry<V> {
    if id in d.newIds then New
    else if id in d.oldValues then Upd(d.oldValues[id])
    else if id in d.removed then Del(d.removed[id])
    else Nop
  }

  ghost function Lookup<V>(s: Snapshot<V>, id: ObjectId): Option<V> {
    if id in s.objects then Some(s.objects[id]) else None
  }

  /** The next instance number of an index; an unknown index has handed out nothing. */
  ghost function NextOf<V>(s: Snapshot<V>, ix: IndexId): nat {
    if ix in s.nextIds then s.nextIds[ix] else 0
  }

  /** An entry is right about an object that was `before` when the session began and is `after` now. */
  ghost predicate Records<V>(e: Entry<V>, before: Option<V>, after: Option<V>) {
    match e
    case New => before.None? && after.Some?
    case Upd(was) => before == Some(was) && after.Some?
    case Del(was) => before == Some(was) && after.None?
    case Nop => before == after
  }

  /** Ids are handed out in sequence, so every stored object lies below its index's next id. */
  ghost predicate WellNumbered<V>(s: Snapshot<V>) {
    forall id :: id in s.objects ==> id.instance < NextOf(s, id.index)
  }

  ghost predicate Disjoint3<V>(d: UndoState<V>) {
    && d.newIds !! d.oldValues.Keys
    && d.newIds !! d.removed.Keys
    && d.oldValues.Keys !! d.removed.Keys
  }

  /** The next ids that `d` would restore are those of `before`, and none has been handed back since. */
  ghost predicate CoversNextIds<V>(d: UndoState<V>, before: Snapshot<V>, after: Snapshot<V>) {
    && before.nextIds.Keys == after.nextIds.Keys
    && d.oldNextIds.Keys <= before.nextIds.Keys
    && (forall ix :: ix in before.nextIds ==>
          before.nextIds[ix] == if ix in d.oldNextIds then d.oldNextIds[ix] else after.nextIds[ix])
    && (forall ix :: ix in before.nextIds ==> before.nextIds[ix] <= after.nextIds[ix])
  }

  /**
   `d` is a faithful record of the way from `before` to `after`.  A new object carries an
   instance number that the index had not handed out in `before`: ids are never used twice.
   */
  ghost predicate Covers<V>(d: UndoState<V>, before: Snapshot<V>, after: Snapshot<V>) {
    && Disjoint3(d)
    && (forall id :: Records(EntryOf(d, id), Lookup(before, id), Lookup(after, id)))
    && (forall id :: id in d.newIds ==> NextOf(before, id.index) <= id.instance)
    && CoversNextIds(d, before, after)
  }

  /** A change of the single object `id` keeps a record faithful if the entry of `id` is put right. */
  lemma {:induction false} ChangeOne<V>(d: UndoState<V>, d': UndoState<V>, before: Snapshot<V>, after: Snapshot<V>,
                                        after': Snapshot<V>,
                     id: ObjectId)
    requires Covers(d, before, after) && Disjoint3(d') && CoversNextIds(d', before, after')
    requires forall o :: o != id ==> EntryOf(d', o) == EntryOf(d, o)
    requires forall o :: o != id ==> Lookup(after', o) == Lookup(after, o)
    requires Records(EntryOf(d', id), Lookup(before, id), Lookup(after', id))
    requires id in d'.newIds ==> NextOf(before, id.index) <= id.instance
    ensures Covers(d', before, after')
  {
    forall o
      ensures Records(EntryOf(d', o), Lookup(before, o), Lookup(after', o))
    {
      assert Records(EntryOf(d, o), Lookup(before, o), Lookup(after, o));
    }
    forall o | o in d'.newIds && o != id
      ensures NextOf(before, o.index) <= o.instance
    {
      assert EntryOf(d', o) == EntryOf(d, o);
    }
  }

  /** What rolling `d` back makes of the store `s`: one step for each container of `d`. */
  ghost function RolledBack<V>(d: UndoState<V>, s: Snapshot<V>): Snapshot<V> {
    Snapshot((s.objects + d.oldValues) - d.newIds + d.removed, s.nextIds + d.oldNextIds)
  }

  /** Rolling back a faithful record restores the earlier snapshot, objects and next ids alike. */
  lemma {:induction false} RollBackRestores<V>(d: UndoState<V>, before: Snapshot<V>, after: Snapshot<V>)
    requires Covers(d, before, after)
    ensures RolledBack(d, after) == before
  {
    var r := RolledBack(d, after);
    forall id
      ensures id in r.objects <==> id in before.objects
      ensures id in before.objects ==> r.objects[id] == before.objects[id]
    {
      assert Records(EntryOf(d, id), Lookup(before, id), Lookup(after, id));
    }
    assert r.objects == before.objects;
    assert r.nextIds == before.nextIds;
  }

  /** The cells of the merge table that can occur: an id that existed before is never created again. */
  ghost predicate Composable<V>(a: Entry<V>, b: Entry<V>) {
    match (a, b)
    case (New, New) => false
    case (Upd(_), New) => false
    case (Del(_), New) => false
    case (Del(_), Upd(_)) => false
    case (Del(_), Del(_)) => false
    case _ => true
  }

  /** The 4x4 table: one entry for the effect of `a` followed by `b`. */
  ghost function Compose<V>(a: Entry<V>, b: Entry<V>): Entry<V> {
    match (a, b)
    case (_, Nop) => a
    case (Nop, _) => b
    case (New, Upd(_)) => New
    case (New, Del(_)) => Nop
    case (Upd(x), Upd(_)) => Upd(x)
    case (Upd(x), Del(_)) => Del(x)
    case _ => Nop
  }

  /** `m` is the merge of `a` and then `b`: the table for every object, the older next id for every index. */
  ghost predicate IsMerge<V>(m: UndoState<V>, a: UndoState<V>, b: UndoState<V>) {
    && Disjoint3(m)
    && (forall id :: EntryOf(m, id) == Compose(EntryOf(a, id), EntryOf(b, id)))
    && m.oldNextIds == b.oldNextIds + a.oldNextIds
  }

  /** Two consecutive faithful records never meet in a cell that the table calls impossible. */
  lemma {:induction false} AlwaysComposable<V>(a: UndoState<V>, b: UndoState<V>, s0: Snapshot<V>, s1: Snapshot<V>,
                                          s2: Snapshot<V>, id: ObjectId)
    requires Covers(a, s0, s1) && Covers(b, s1, s2) && WellNumbered(s0)
    ensures Composable(EntryOf(a, id), EntryOf(b, id))
  {
    assert Records(EntryOf(a, id), Lookup(s0, id), Lookup(s1, id));
    assert Records(EntryOf(b, id), Lookup(s1, id), Lookup(s2, id));
    if EntryOf(b, id).New? {
      assert NextOf(s1, id.index) <= id.instance;
      assert NextOf(s0, id.index) <= NextOf(s1, id.index);
      assert id !in s0.objects;
    }
  }

  /**
   Merging is composition: the merged state is itself a faithful record, of the way from the
   older session's start to now.
   */
  lemma {:induction false} MergeCovers<V>(m: UndoState<V>, a: UndoState<V>, b: UndoState<V>,
                       s0: Snapshot<V>, s1: Snapshot<V>, s2: Snapshot<V>)
    requires Covers(a, s0, s1) && Covers(b, s1, s2) && WellNumbered(s0) && IsMerge(m, a, b)
    ensures Covers(m, s0, s2)
  {
    forall id
      ensures Records(EntryOf(m, id), Lookup(s0, id), Lookup(s2, id))
    {
      AlwaysComposable(a, b, s0, s1, s2, id);
      assert Records(EntryOf(a, id), Lookup(s0, id), Lookup(s1, id));
      assert Records(EntryOf(b, id), Lookup(s1, id), Lookup(s2, id));
      assert EntryOf(m, id) == Compose(EntryOf(a, id), EntryOf(b, id));
    }
    forall id | id in m.newIds
      ensures NextOf(s0, id.index) <= id.instance
    {
      assert EntryOf(m, id) == Compose(EntryOf(a, id), EntryOf(b, id));
      assert id in a.newIds || id in b.newIds;
    }
  }

  /** One rollback of the merged state does what two rollbacks of the separate states do. */
  lemma {:induction false} MergeThenRollBack<V>(m: UndoState<V>, a: UndoState<V>, b: UndoState<V>,
                             s0: Snapshot<V>, s1: Snapshot<V>, s2: Snapshot<V>)
    requires Covers(a, s0, s1) && Covers(b, s1, s2) && WellNumbered(s0) && IsMerge(m, a, b)
    ensures RolledBack(m, s2) == RolledBack(a, RolledBack(b, s2))
  {
    MergeCovers(m, a, b, s0, s1, s2);
    RollBackRestores(m, s0, s2);
    RollBackRestores(b, s1, s2);
    RollBackRestores(a, s0, s1);
  }

  /**
   A stack of differences stands for a stack of snapshots: each state leads from its own
   snapshot to the next one, and the newest state leads to the store as it is now.
   */
  ghost predicate StandsFor<V>(stack: seq<UndoState<V>>, history: seq<Snapshot<V>>, now: Snapshot<V>) {
    if stack == [] || history == [] then stack == [] && history == []
    else
      var n, h := |stack| - 1, |history| - 1;
      && Covers(stack[n], history[h], now)
      && WellNumbered(history[h])
      && StandsFor(stack[..n], history[..h], history[h])
  }

  lemma {:induction false} StandsForLength<V>(stack: seq<UndoState<V>>, history: seq<Snapshot<V>>, now: Snapshot<V>)
    requires StandsFor(stack, history, now)
    ensures |stack| == |history|
  {
    hide Covers;
    if stack != [] && history != [] {
      StandsForLength(stack[..|stack| - 1], history[..|history| - 1], history[|history| - 1]);
    }
  }

  /** Forgetting the oldest session does not disturb the others. */
  lemma {:induction false} DropOldest<V>(stack: seq<UndoState<V>>, history: seq<Snapshot<V>>, now: Snapshot<V>)
    requires StandsFor(stack, history, now) && stack != [] && history != []
    ensures StandsFor(stack[1..], history[1..], now)
  {
    hide Covers;
    StandsForLength(stack, history, now);
    var n := |stack| - 1;
    if n > 0 {
      DropOldest(stack[..n], history[..n], history[n]);
      assert stack[1..][..n - 1] == stack[..n][1..];
      assert history[1..][..n - 1] == history[..n][1..];
    }
  }

  /** A session that has just begun has nothing to undo. */
  lemma {:induction false} EmptyCovers<V>(s: Snapshot<V>)
    ensures Covers(EmptyState(), s, s)
  {
  }

  /** Opening a session on top. */
  lemma {:induction false} PushSession<V>(stack: seq<UndoState<V>>, history: seq<Snapshot<V>>, now: Snapshot<V>)
    requires StandsFor(stack, history, now) && WellNumbered(now)
    ensures StandsFor(stack + [EmptyState()], history + [now], now)
  {
    hide Covers;
    EmptyCovers(now);
    assert (stack + [EmptyState()])[..|stack|] == stack;
    assert (history + [now])[..|history|] == history;
  }

  /** Replacing the newest state after a change of the store. */
  lemma {:induction false} ReplaceTop<V>(stack: seq<UndoState<V>>, history: seq<Snapshot<V>>, now: Snapshot<V>,
                      top: UndoState<V>, now': Snapshot<V>)
    requires StandsFor(stack, history, now) && stack != [] && history != []
    requires Covers(top, history[|history| - 1], now')
    ensures StandsFor(stack[|stack| - 1 := top], history, now')
  {
    hide Covers;
    assert stack[|stack| - 1 := top][..|stack| - 1] == stack[..|stack| - 1];
  }

  /** The record of a session after an object has been created under the index's next id. */
  function NoteCreate<V>(d: UndoState<V>, id: ObjectId): UndoState<V> {
    d.(newIds := d.newIds + {id},
       oldNextIds := if id.index in d.oldNextIds then d.oldNextIds else d.oldNextIds[id.index := id.instance])
  }

  /** The record after an object with value `was` has been changed. */
  function NoteModify<V>(d: UndoState<V>, id: ObjectId, was: V): UndoState<V> {
    if id in d.newIds || id in d.oldValues then d
    else d.(oldValues := d.oldValues[id := was])
  }

  /** The record after an object with value `was` has been removed. */
  function NoteRemove<V>(d: UndoState<V>, id: ObjectId, was: V): UndoState<V> {
    if id in d.newIds then d.(newIds := d.newIds - {id})
    else if id in d.oldValues then d.(removed := d.removed[id := d.oldValues[id]], oldValues := d.oldValues - {id})
    else if id in d.removed then d
    else d.(removed := d.removed[id := was])
  }

  lemma {:induction false} NoteCreateCovers<V>(d: UndoState<V>, before: Snapshot<V>, after: Snapshot<V>, ix: IndexId,
                                          value: V)
    requires Covers(d, before, after) && WellNumbered(after) && WellNumbered(before) && ix in after.nextIds
    ensures var id := ObjectId(ix, after.nextIds[ix]);
      Covers(NoteCreate(d, id), before,
        Snapshot(after.objects[id := value], after.nextIds[ix := after.nextIds[ix] + 1]))
  {
    var id := ObjectId(ix, after.nextIds[ix]);
    var d' := NoteCreate(d, id);
    assert Records(EntryOf(d, id), Lookup(before, id), Lookup(after, id));
    ChangeOne(d, d', before, after,
      Snapshot(after.objects[id := value], after.nextIds[ix := after.nextIds[ix] + 1]), id);
  }

  lemma {:induction false} NoteModifyCovers<V>(d: UndoState<V>, before: Snapshot<V>, after: Snapshot<V>, id: ObjectId,
                                          value: V)
    requires Covers(d, before, after) && id in after.objects
    ensures Covers(NoteModify(d, id, after.objects[id]), before, after.(objects := after.objects[id := value]))
  {
    assert Records(EntryOf(d, id), Lookup(before, id), Lookup(after, id));
    ChangeOne(d, NoteModify(d, id, after.objects[id]), before, after,
      after.(objects := after.objects[id := value]), id);
  }

  lemma {:induction false} NoteRemoveCovers<V>(d: UndoState<V>, before: Snapshot<V>, after: Snapshot<V>, id: ObjectId)
    requires Covers(d, before, after) && id in after.objects
    ensures Covers(NoteRemove(d, id, after.objects[id]), before, after.(objects := after.objects - {id}))
  {
    assert Records(EntryOf(d, id), Lookup(before, id), Lookup(after, id));
    ChangeOne(d, NoteRemove(d, id, after.objects[id]), before, after,
      after.(objects := after.objects - {id}), id);
  }

  /** The stack once a change can be noted: changes outside any session open a state of their own. */
  function OpenedStack<V>(stack: seq<UndoState<V>>): seq<UndoState<V>> {
    if stack == [] then [EmptyState()] else stack
  }

  function OpenedHistory<V>(history: seq<Snapshot<V>>, now: Snapshot<V>): seq<Snapshot<V>> {
    if history == [] then [now] else history
  }

  function WithTop<V>(stack: seq<UndoState<V>>, top: UndoState<V>): seq<UndoState<V>> {
    if stack == [] then [top] else stack[|stack| - 1 := top]
  }

  function Top<V>(stack: seq<UndoState<V>>): UndoState<V> {
    if stack == [] then EmptyState() else stack[|stack| - 1]
  }

  lemma {:induction false} OpenedStands<V>(stack: seq<UndoState<V>>, history: seq<Snapshot<V>>, now: Snapshot<V>)
    requires StandsFor(stack, history, now) && WellNumbered(now)
    ensures StandsFor(OpenedStack(stack), OpenedHistory(history, now), now)
  {
    hide Covers;
    if stack == [] || history == [] {
      PushSession(stack, history, now);
      assert stack + [EmptyState()] == [EmptyState()] && history + [now] == [now];
    }
  }

  lemma {:induction false} CreateStands<V>(stack: seq<UndoState<V>>, history: seq<Snapshot<V>>, now: Snapshot<V>,
                                          ix: IndexId, value: V)
    requires StandsFor(stack, history, now) && WellNumbered(now) && ix in now.nextIds
    ensures var id := ObjectId(ix, now.nextIds[ix]);
      StandsFor(WithTop(stack, NoteCreate(Top(stack), id)), OpenedHistory(history, now),
        Snapshot(now.objects[id := value], now.nextIds[ix := now.nextIds[ix] + 1]))
  {
    hide Covers;
    OpenedStands(stack, history, now);
    var s, h := OpenedStack(stack), OpenedHistory(history, now);
    NoteCreateCovers(s[|s| - 1], h[|h| - 1], now, ix, value);
    var id := ObjectId(ix, now.nextIds[ix]);
    ReplaceTop(s, h, now, NoteCreate(s[|s| - 1], id),
      Snapshot(now.objects[id := value], now.nextIds[ix := now.nextIds[ix] + 1]));
    assert s[|s| - 1 := NoteCreate(s[|s| - 1], id)] == WithTop(stack, NoteCreate(Top(stack), id));
  }

  lemma {:induction false} ModifyStands<V>(stack: seq<UndoState<V>>, history: seq<Snapshot<V>>, now: Snapshot<V>,
                                          id: ObjectId, value: V)
    requires StandsFor(stack, history, now) && WellNumbered(now) && id in now.objects
    ensures StandsFor(WithTop(stack, NoteModify(Top(stack), id, now.objects[id])), OpenedHistory(history, now),
      now.(objects := now.objects[id := value]))
  {
    hide Covers;
    OpenedStands(stack, history, now);
    var s, h := OpenedStack(stack), OpenedHistory(history, now);
    NoteModifyCovers(s[|s| - 1], h[|h| - 1], now, id, value);
    ReplaceTop(s, h, now, NoteModify(s[|s| - 1], id, now.objects[id]), now.(objects := now.objects[id := value]));
    assert s[|s| - 1 := NoteModify(s[|s| - 1], id, now.objects[id])]
        == WithTop(stack, NoteModify(Top(stack), id, now.objects[id]));
  }

  lemma {:induction false} RemoveStands<V>(stack: seq<UndoState<V>>, history: seq<Snapshot<V>>, now: Snapshot<V>,
                                          id: ObjectId)
    requires StandsFor(stack, history, now) && WellNumbered(now) && id in now.objects
    ensures StandsFor(WithTop(stack, NoteRemove(Top(stack), id, now.objects[id])), OpenedHistory(history, now),
      now.(objects := now.objects - {id}))
  {
    hide Covers;
    OpenedStands(stack, history, now);
    var s, h := OpenedStack(stack), OpenedHistory(history, now);
    NoteRemoveCovers(s[|s| - 1], h[|h| - 1], now, id);
    ReplaceTop(s, h, now, NoteRemove(s[|s| - 1], id, now.objects[id]), now.(objects := now.objects - {id}));
    assert s[|s| - 1 := NoteRemove(s[|s| - 1], id, now.objects[id])]
        == WithTop(stack, NoteRemove(Top(stack), id, now.objects[id]));
  }

  /** The newest `n` elements: what is left of a history after old ones have been dropped. */
  function Newest<T>(s: seq<T>, n: nat): seq<T> {
    if |s| > n then s[|s| - n..] else s
  }

  /** Starting a session drops what exceeds the maximal depth and opens an empty state. */
  lemma {:induction false} StartStands<V>(stack: seq<UndoState<V>>, history: seq<Snapshot<V>>, now: Snapshot<V>,
                                          max: nat)
    requires StandsFor(stack, history, now) && WellNumbered(now)
    ensures |stack| == |history|
    ensures StandsFor(Newest(stack, max) + [EmptyState()], Newest(history, max) + [now], now)
    decreases |stack|
  {
    hide StandsFor;
    StandsForLength(stack, history, now);
    if |stack| > max {
      DropOldest(stack, history, now);
      StartStands(stack[1..], history[1..], now, max);
      assert Newest(stack[1..], max) == Newest(stack, max) && Newest(history[1..], max) == Newest(history, max);
    } else {
      PushSession(stack, history, now);
    }
  }

  /** Every lookup and every insertion of a rollback succeeds. */
  ghost predicate Restorable<V>(d: UndoState<V>, s: Snapshot<V>) {
    && d.newIds !! d.oldValues.Keys
    && d.oldValues.Keys <= s.objects.Keys
    && d.newIds <= s.objects.Keys
    && d.removed.Keys !! s.objects.Keys
    && d.oldNextIds.Keys <= s.nextIds.Keys
  }

  lemma {:induction false} CoversRestorable<V>(d: UndoState<V>, before: Snapshot<V>, after: Snapshot<V>)
    requires Covers(d, before, after)
    ensures Restorable(d, after)
  {
    forall id
      ensures id in d.oldValues ==> id in after.objects
      ensures id in d.newIds ==> id in after.objects
      ensures id in d.removed ==> id !in after.objects
    {
      assert Records(EntryOf(d, id), Lookup(before, id), Lookup(after, id));
    }
  }

  /** Rolling back the newest state pops the newest snapshot, and the rest still stands. */
  lemma {:induction false} PopStands<V>(stack: seq<UndoState<V>>, history: seq<Snapshot<V>>, now: Snapshot<V>)
    requires StandsFor(stack, history, now) && stack != []
    ensures |history| == |stack| && Restorable(Top(stack), now)
    ensures RolledBack(Top(stack), now) == history[|history| - 1]
    ensures WellNumbered(history[|history| - 1])
    ensures StandsFor(stack[..|stack| - 1], history[..|history| - 1], history[|history| - 1])
  {
    StandsForLength(stack, history, now);
    CoversRestorable(Top(stack), history[|history| - 1], now);
    RollBackRestores(Top(stack), history[|history| - 1], now);
  }

  /** Merging the two newest states drops the newer snapshot. */
  lemma {:induction false} MergeStands<V>(stack: seq<UndoState<V>>, history: seq<Snapshot<V>>, now: Snapshot<V>,
                                          m: UndoState<V>)
    requires StandsFor(stack, history, now) && |stack| >= 2
    requires IsMerge(m, stack[|stack| - 2], stack[|stack| - 1])
    ensures |history| == |stack|
    ensures StandsFor(stack[..|stack| - 2] + [m], history[..|history| - 1], now)
  {
    StandsForLength(stack, history, now);
    var n := |stack| - 2;
    PopStands(stack, history, now);
    assert stack[..n + 1][..n] == stack[..n] && history[..n + 1][..n] == history[..n];
    assert Covers(stack[..n + 1][n], history[..n + 1][n], history[n + 1]);
    MergeCovers(m, stack[n], stack[n + 1], history[n], history[n + 1], now);
    assert (stack[..n] + [m])[..n] == stack[..n];
  }

  ghost predicate AllComposable<V>(a: UndoState<V>, b: UndoState<V>) {
    forall id :: Composable(EntryOf(a, id), EntryOf(b, id))
  }

  /** The two newest states of a standing stack fit together cell by cell. */
  lemma {:induction false} TopTwoComposable<V>(stack: seq<UndoState<V>>, history: seq<Snapshot<V>>, now: Snapshot<V>)
    requires StandsFor(stack, history, now) && |stack| >= 2
    ensures Disjoint3(stack[|stack| - 2]) && Disjoint3(stack[|stack| - 1])
    ensures AllComposable(stack[|stack| - 2], stack[|stack| - 1])
  {
    StandsForLength(stack, history, now);
    var n := |stack| - 2;
    assert Covers(stack[..n + 1][n], history[..n + 1][n], history[n + 1]);
    forall id
      ensures Composable(EntryOf(stack[n], id), EntryOf(stack[n + 1], id))
    {
      AlwaysComposable(stack[n], stack[n + 1], history[n], history[n + 1], now, id);
    }
  }

  /** What the updates of a later session add to the record of an earlier one. */
  function WithUpdates<V>(a: UndoState<V>, values: map<ObjectId, V>): UndoState<V> {
    a.(oldValues := (values - a.newIds) + a.oldValues)
  }

  /** What the removals of a later session make of the record of an earlier one. */
  function WithRemovals<V>(a: UndoState<V>, values: map<ObjectId, V>): UndoState<V> {
    a.(newIds := a.newIds - values.Keys,
       oldValues := a.oldValues - (values.Keys - a.newIds),
       removed := a.removed + (map id | id in values && id !in a.newIds ::
                                 if id in a.oldValues then a.oldValues[id] else values[id]))
  }

  /** The four loops of `merge`, one after the other. */
  function MergeLoops<V>(a: UndoState<V>, b: UndoState<V>): UndoState<V> {
    var p := WithUpdates(a, b.oldValues);
    WithRemovals(p.(newIds := p.newIds + b.newIds, oldNextIds := b.oldNextIds + p.oldNextIds), b.removed)
  }

  /** The three containers of `merge` implement the merge table in all its cells. */
  lemma {:induction false} LoopsFollowTable<V>(a: UndoState<V>, b: UndoState<V>)
    requires Disjoint3(a) && Disjoint3(b) && AllComposable(a, b)
    ensures IsMerge(MergeLoops(a, b), a, b)
  {
    var m := MergeLoops(a, b);
    forall id
      ensures EntryOf(m, id) == Compose(EntryOf(a, id), EntryOf(b, id))
      ensures !(id in m.newIds && id in m.oldValues)
      ensures !(id in m.newIds && id in m.removed)
      ensures !(id in m.oldValues && id in m.removed)
    {
      assert Composable(EntryOf(a, id), EntryOf(b, id));
    }
  }

  lemma {:induction false} NothingStands<V>(now: Snapshot<V>)
    ensures StandsFor([], [], now)
  {
  }

  /**
   The two impossible cells that `merge` asserts away: an object removed earlier is neither changed
   nor removed later.
   */
  lemma {:induction false} FitTogether<V>(a: UndoState<V>, b: UndoState<V>)
    requires Disjoint3(a) && Disjoint3(b) && AllComposable(a, b)
    ensures b.oldValues.Keys !! a.removed.Keys && b.removed.Keys !! a.removed.Keys
    ensures b.newIds !! a.oldValues.Keys && b.newIds !! a.newIds
  {
    forall id
      ensures !(id in a.removed && (id in b.oldValues || id in b.removed))
      ensures !(id in b.newIds && (id in a.oldValues || id in a.newIds))
    {
      assert Composable(EntryOf(a, id), EntryOf(b, id));
    }
  }

  /** One more removal: a new object is forgotten, an updated one keeps its oldest value, any other its last. */
  lemma {:induction false} RemovalStep<V>(a: UndoState<V>, done: map<ObjectId, V>, id: ObjectId, value: V)
    requires id !in done && a.newIds !! a.oldValues.Keys
    ensures var p := WithRemovals(a, done);
      WithRemovals(a, done[id := value]) ==
        if id in p.newIds then p.(newIds := p.newIds - {id})
        else if id in p.oldValues then p.(removed := p.removed[id := p.oldValues[id]], oldValues := p.oldValues - {id})
        else p.(removed := p.removed[id := value])
  {
    var p, q := WithRemovals(a, done), WithRemovals(a, done[id := value]);
    assert done[id := value].Keys == done.Keys + {id};
    assert q.newIds == p.newIds - {id};
    assert id in p.newIds <==> id in a.newIds;
    assert q.oldValues == p.oldValues - {id};
    assert id !in p.oldValues ==> p.oldValues - {id} == p.oldValues;
    RemovalStepRemoved(a, done, id, value);
  }

  lemma {:induction false} RemovalStepRemoved<V>(a: UndoState<V>, done: map<ObjectId, V>, id: ObjectId, value: V)
    requires id !in done && a.newIds !! a.oldValues.Keys
    ensures WithRemovals(a, done[id := value]).removed ==
      if id in a.newIds then WithRemovals(a, done).removed
      else WithRemovals(a, done).removed[id := if id in a.oldValues then a.oldValues[id] else value]
  {
  }
}
