/**
 The undo database together with the object store it guards.  The store is changed in place
 and the stack keeps only differences; the ghost `history` holds the full snapshots those
 differences stand for, and `Tracked` ties the two together.
 */
module Undo {
  import opened Wrappers
  import opened UndoSpec

  class UndoDatabase<V(==)> {
    var objects: map<ObjectId, V>
    var nextIds: map<IndexId, nat>
    var stack: seq<UndoState<V>>
    var activeSessions: nat
    var disabled: bool
    var maxSize: nat
    /** `history[i]` is the store as it was when the session behind `stack[i]` began. */
    ghost var history: seq<Snapshot<V>>

    ghost function Current(): Snapshot<V>
      reads this
    {
      Snapshot(objects, nextIds)
    }

    /** The stack of differences stands for the stack of snapshots. */
    ghost predicate Tracked()
      reads this
    {
      WellNumbered(Current()) && StandsFor(stack, history, Current())
    }

    constructor (indexes: set<IndexId>)
      ensures Tracked() && history == [] && activeSessions == 0 && !disabled && maxSize == 256
      ensures Current() == Snapshot(map[], map ix | ix in indexes :: 0)
    {
      objects, nextIds := map[], map ix | ix in indexes :: 0;
      stack, history := [], [];
      activeSessions, disabled, maxSize := 0, false, 256;
    }

    method DropExcess()
      modifies this`stack
      ensures stack == Newest(old(stack), maxSize)
    {
      while |stack| > maxSize
        modifies this`stack
        invariant stack == Newest(old(stack), |stack|)
        invariant |stack| >= maxSize || stack == old(stack)
        decreases |stack|
      {
        stack := stack[1..];
      }
    }

    /**
     Opens a session.  Every open session still has its state on the stack exactly when no more
     than `maxSize` sessions were open before.
     */
    method StartUndoSession(forceEnable: bool) returns (pushed: bool, disableOnExit: bool)
      modifies this
      ensures Current() == old(Current()) && maxSize == old(maxSize)
      ensures pushed == (!old(disabled) || forceEnable)
      ensures disableOnExit == (old(disabled) && forceEnable)
      ensures !pushed ==>
        disabled && stack == old(stack) && history == old(history) && activeSessions == old(activeSessions)
      ensures pushed ==> !disabled && activeSessions == old(activeSessions) + 1
      ensures pushed && old(activeSessions <= |stack|) ==>
        (activeSessions <= |stack| <==> old(activeSessions) <= maxSize)
      ensures pushed ==> stack == Newest(old(stack), maxSize) + [EmptyState()]
      ensures pushed && old(Tracked()) ==> Tracked() && history == Newest(old(history), maxSize) + [Current()]
    {
      hide StandsFor;
      if disabled && !forceEnable {
        return false, false;
      }
      disableOnExit := disabled && forceEnable;
      if forceEnable {
        disabled := false;
      }
      DropExcess();
      if old(Tracked()) {
        StartStands(old(stack), history, Current(), maxSize);
      }
      history := Newest(history, |stack|) + [Current()];
      stack := stack + [EmptyState()];
      activeSessions := activeSessions + 1;
      pushed := true;
    }

    /** Called just after an object has been created. */
    method OnCreate(id: ObjectId)
      modifies this`stack
      ensures stack == if disabled then old(stack) else WithTop(old(stack), NoteCreate(Top(old(stack)), id))
    {
      if disabled {
        return;
      }
      if stack == [] {
        stack := [EmptyState()];
      }
      var state := stack[|stack| - 1];
      if id.index !in state.oldNextIds {
        state := state.(oldNextIds := state.oldNextIds[id.index := id.instance]);
      }
      state := state.(newIds := state.newIds + {id});
      stack := stack[|stack| - 1 := state];
    }

    /** Called just before the object `id`, whose value is `was`, is modified. */
    method OnModify(id: ObjectId, was: V)
      modifies this`stack
      ensures stack == if disabled then old(stack) else WithTop(old(stack), NoteModify(Top(old(stack)), id, was))
    {
      if disabled {
        return;
      }
      if stack == [] {
        stack := [EmptyState()];
      }
      var state := stack[|stack| - 1];
      if id in state.newIds {
        return;
      }
      if id in state.oldValues {
        return;
      }
      state := state.(oldValues := state.oldValues[id := was]);
      stack := stack[|stack| - 1 := state];
    }

    /** Called just before the object `id`, whose value is `was`, is removed. */
    method OnRemove(id: ObjectId, was: V)
      modifies this`stack
      ensures stack == if disabled then old(stack) else WithTop(old(stack), NoteRemove(Top(old(stack)), id, was))
    {
      if disabled {
        return;
      }
      if stack == [] {
        stack := [EmptyState()];
      }
      var state := stack[|stack| - 1];
      if id in state.newIds {
        state := state.(newIds := state.newIds - {id});
        stack := stack[|stack| - 1 := state];
        return;
      }
      if id in state.oldValues {
        state := state.(removed := state.removed[id := state.oldValues[id]]);
        state := state.(oldValues := state.oldValues - {id});
        stack := stack[|stack| - 1 := state];
        return;
      }
      if id in state.removed {
        return;
      }
      state := state.(removed := state.removed[id := was]);
      stack := stack[|stack| - 1 := state];
    }

    /** What every change keeps: with undo enabled the history grows only by the state that catches stray changes. */
    twostate predicate Noted()
      reads this
    {
      && activeSessions == old(activeSessions) && disabled == old(disabled) && maxSize == old(maxSize)
      && (old(disabled) ==> stack == old(stack) && history == old(history))
      && (!old(disabled) && old(Tracked()) ==> Tracked() && history == OpenedHistory(old(history), old(Current())))
    }

    /** Adds an object under the next id of its index. */
    method Create(ix: IndexId, value: V) returns (id: ObjectId)
      requires WellNumbered(Current()) && ix in nextIds
      modifies this
      ensures id == ObjectId(ix, old(nextIds)[ix]) && id !in old(objects)
      ensures objects == old(objects)[id := value]
      ensures nextIds == old(nextIds)[ix := old(nextIds)[ix] + 1]
      ensures WellNumbered(Current()) && Noted()
    {
      hide StandsFor;
      if !disabled && Tracked() {
        CreateStands(stack, history, Current(), ix, value);
      }
      id := ObjectId(ix, nextIds[ix]);
      objects := objects[id := value];
      nextIds := nextIds[ix := nextIds[ix] + 1];
      OnCreate(id);
      history := if disabled then history else OpenedHistory(history, old(Current()));
      assert Current() == Snapshot(old(objects)[id := value], old(nextIds)[ix := old(nextIds)[ix] + 1]);
    }

    /** Changes an object; fails, as the lookup does, if there is none. */
    method Modify(id: ObjectId, value: V) returns (ok: bool)
      requires WellNumbered(Current())
      modifies this
      ensures ok == (id in old(objects))
      ensures objects == if ok then old(objects)[id := value] else old(objects)
      ensures nextIds == old(nextIds)
      ensures if ok then Noted() else unchanged(this)
      ensures WellNumbered(Current())
    {
      hide StandsFor;
      if id !in objects {
        return false;
      }
      if !disabled && Tracked() {
        ModifyStands(stack, history, Current(), id, value);
      }
      OnModify(id, objects[id]);
      objects := objects[id := value];
      history := if disabled then history else OpenedHistory(history, old(Current()));
      ok := true;
    }

    /** Removes an object; fails, as the lookup does, if there is none. */
    method Remove(id: ObjectId) returns (ok: bool)
      requires WellNumbered(Current())
      modifies this
      ensures ok == (id in old(objects))
      ensures objects == old(objects) - {id}
      ensures nextIds == old(nextIds)
      ensures if ok then Noted() else unchanged(this)
      ensures WellNumbered(Current())
    {
      hide StandsFor;
      if id !in objects {
        assert objects - {id} == objects;
        return false;
      }
      if !disabled && Tracked() {
        RemoveStands(stack, history, Current(), id);
      }
      OnRemove(id, objects[id]);
      objects := objects - {id};
      history := if disabled then history else OpenedHistory(history, old(Current()));
      ok := true;
    }

    method RestoreValues(values: map<ObjectId, V>)
      requires values.Keys <= objects.Keys
      modifies this`objects
      ensures objects == old(objects) + values
    {
      var ids := values.Keys;
      while ids != {}
        modifies this`objects
        invariant ids <= values.Keys && objects.Keys == old(objects).Keys
        invariant forall id :: id in objects ==>
          objects[id] == if id in values && id !in ids then values[id] else old(objects)[id]
      {
        var id :| id in ids;
        objects := objects[id := values[id]];
        ids := ids - {id};
      }
    }

    method RemoveNew(created: set<ObjectId>)
      requires created <= objects.Keys
      modifies this`objects
      ensures objects == old(objects) - created
    {
      var ids := created;
      while ids != {}
        modifies this`objects
        invariant ids <= created
        invariant objects == old(objects) - (created - ids)
      {
        var id :| id in ids;
        objects := objects - {id};
        ids := ids - {id};
      }
    }

    method RestoreNextIds(numbers: map<IndexId, nat>)
      requires numbers.Keys <= nextIds.Keys
      modifies this`nextIds
      ensures nextIds == old(nextIds) + numbers
    {
      var indexes := numbers.Keys;
      while indexes != {}
        modifies this`nextIds
        invariant indexes <= numbers.Keys && nextIds.Keys == old(nextIds).Keys
        invariant forall ix :: ix in nextIds ==>
          nextIds[ix] == if ix in numbers && ix !in indexes then numbers[ix] else old(nextIds)[ix]
      {
        var ix :| ix in indexes;
        nextIds := nextIds[ix := numbers[ix]];
        indexes := indexes - {ix};
      }
    }

    method Reinsert(values: map<ObjectId, V>)
      requires values.Keys !! objects.Keys
      modifies this`objects
      ensures objects == old(objects) + values
    {
      var ids := values.Keys;
      while ids != {}
        modifies this`objects
        invariant ids <= values.Keys && objects.Keys == old(objects).Keys + (values.Keys - ids)
        invariant forall id :: id in objects ==>
          objects[id] == if id in values then values[id] else old(objects)[id]
      {
        var id :| id in ids;
        assert id !in objects;
        objects := objects[id := values[id]];
        ids := ids - {id};
      }
    }

    /** Applies the newest state backwards, container by container, and pops it. */
    method RollbackState()
      requires stack != [] && Restorable(Top(stack), Current())
      modifies this`objects, this`nextIds, this`stack
      ensures Current() == RolledBack(Top(old(stack)), old(Current()))
      ensures stack == old(stack)[..|old(stack)| - 1]
    {
      var state := stack[|stack| - 1];
      RestoreValues(state.oldValues);
      RemoveNew(state.newIds);
      RestoreNextIds(state.oldNextIds);
      Reinsert(state.removed);
      stack := stack[..|stack| - 1];
    }

    /**
     Undoes the newest session.  A session's state is on the stack as long as no more sessions
     are open than the maximal depth allows (see `StartUndoSession`).
     */
    method Undo() returns (ok: bool)
      requires Tracked() && activeSessions <= |stack|
      modifies this
      ensures ok == (!old(disabled) && old(activeSessions) > 0)
      ensures Tracked() && disabled == old(disabled) && maxSize == old(maxSize)
      ensures !ok ==> unchanged(this)
      ensures ok ==> |old(history)| > 0 && Current() == old(history)[|old(history)| - 1]
      ensures ok ==> history == old(history)[..|old(history)| - 1] && |stack| == |old(stack)| - 1
      ensures ok ==> activeSessions == old(activeSessions) - 1
    {
      hide StandsFor;
      if disabled || activeSessions == 0 {
        return false;
      }
      PopStands(stack, history, Current());
      disabled := true;
      RollbackState();
      history := history[..|history| - 1];
      disabled := false;
      activeSessions := activeSessions - 1;
      ok := true;
    }

    /** Gives up the last committed state; fails with sessions open or with nothing to pop. */
    method PopCommit() returns (ok: bool)
      requires Tracked()
      modifies this
      ensures ok == (old(activeSessions) == 0 && old(stack) != [])
      ensures Tracked() && activeSessions == old(activeSessions) && maxSize == old(maxSize)
      ensures !ok ==> unchanged(this)
      ensures ok ==> |old(history)| > 0 && Current() == old(history)[|old(history)| - 1]
      ensures ok ==> history == old(history)[..|old(history)| - 1] && !disabled
    {
      hide StandsFor;
      if activeSessions != 0 || stack == [] {
        return false;
      }
      PopStands(stack, history, Current());
      disabled := true;
      RollbackState();
      history := history[..|history| - 1];
      disabled := false;
      ok := true;
    }

    /** The session's changes become permanent: its state stays on the stack. */
    method Commit() returns (ok: bool)
      modifies this`activeSessions
      ensures ok == (old(activeSessions) > 0)
      ensures activeSessions == if ok then old(activeSessions) - 1 else old(activeSessions)
    {
      if activeSessions == 0 {
        return false;
      }
      activeSessions := activeSessions - 1;
      ok := true;
    }

    method MergeUpdates(prev: UndoState<V>, values: map<ObjectId, V>) returns (p: UndoState<V>)
      requires values.Keys - prev.newIds - prev.oldValues.Keys !! prev.removed.Keys
      ensures p == WithUpdates(prev, values)
    {
      p := prev;
      var ids := values.Keys;
      while ids != {}
        invariant ids <= values.Keys
        invariant p == prev.(oldValues := p.oldValues)
        invariant p.oldValues.Keys == prev.oldValues.Keys + (values.Keys - ids - prev.newIds)
        invariant forall id :: id in p.oldValues ==>
          p.oldValues[id] == if id in prev.oldValues then prev.oldValues[id] else values[id]
      {
        var id :| id in ids;
        ids := ids - {id};
        if id in p.newIds {
          continue;
        }
        if id in p.oldValues {
          continue;
        }
        assert id !in p.removed;
        p := p.(oldValues := p.oldValues[id := values[id]]);
      }
      assert p.oldValues == WithUpdates(prev, values).oldValues;
    }

    method MergeRemovals(prev: UndoState<V>, values: map<ObjectId, V>) returns (p: UndoState<V>)
      requires prev.newIds !! prev.oldValues.Keys
      requires values.Keys - prev.newIds - prev.oldValues.Keys !! prev.removed.Keys
      ensures p == WithRemovals(prev, values)
    {
      p := prev;
      var ids := values.Keys;
      ghost var done: map<ObjectId, V> := map[];
      while ids != {}
        invariant ids <= values.Keys && p == WithRemovals(prev, done)
        invariant done.Keys == values.Keys - ids && forall id :: id in done ==> done[id] == values[id]
      {
        var id :| id in ids;
        RemovalStep(prev, done, id, values[id]);
        done := done[id := values[id]];
        ids := ids - {id};
        if id in p.newIds {
          p := p.(newIds := p.newIds - {id});
          continue;
        }
        if id in p.oldValues {
          p := p.(removed := p.removed[id := p.oldValues[id]]);
          p := p.(oldValues := p.oldValues - {id});
          continue;
        }
        p := p.(removed := p.removed[id := values[id]]);
      }
      assert done == values;
    }

    /**
     Makes the newest session part of the one below it.  The only state of the only session is
     simply forgotten: its changes can then no longer be undone.
     */
    method Merge() returns (ok: bool)
      requires Tracked()
      modifies this
      ensures ok == (old(activeSessions) > 0 && (|old(stack)| >= 2 || (old(activeSessions) == 1 && |old(stack)| == 1)))
      ensures Tracked() && Current() == old(Current()) && disabled == old(disabled) && maxSize == old(maxSize)
      ensures !ok ==> unchanged(this)
      ensures ok ==> activeSessions == old(activeSessions) - 1
      ensures ok ==> |old(history)| > 0 && history == old(history)[..|old(history)| - 1]
      ensures ok && |old(stack)| >= 2 ==>
        && |stack| == |old(stack)| - 1 && stack[..|stack| - 1] == old(stack)[..|stack| - 1]
        && IsMerge(stack[|stack| - 1], old(stack)[|stack| - 1], old(stack)[|stack|])
    {
      hide StandsFor, IsMerge;
      if activeSessions == 0 {
        return false;
      }
      if activeSessions == 1 && |stack| == 1 {
        PopStands(stack, history, Current());
        stack, history := [], [];
        activeSessions := activeSessions - 1;
        NothingStands(Current());
        return true;
      }
      if |stack| < 2 {
        return false;
      }
      ghost var before := stack;
      TopTwoComposable(stack, history, Current());
      var state, prev := stack[|stack| - 1], stack[|stack| - 2];
      LoopsFollowTable(prev, state);
      FitTogether(prev, state);
      var p := MergeUpdates(prev, state.oldValues);
      p := p.(newIds := p.newIds + state.newIds);
      p := p.(oldNextIds := state.oldNextIds + p.oldNextIds);
      p := MergeRemovals(p, state.removed);
      MergeStands(stack, history, Current(), p);
      stack := stack[..|stack| - 2] + [p];
      history := history[..|history| - 1];
      activeSessions := activeSessions - 1;
      ok := true;
    }
  }
}
