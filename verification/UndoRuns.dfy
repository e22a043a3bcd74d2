/**
 Whole runs of nested sessions.  `RunAll` says what a run means on full snapshots; `Execute`
 drives the undo database through the same run, and the two agree step by step.
 */
module UndoRuns {
  import opened UndoSpec
  import opened Undo

  datatype Ending = ByMerge | ByUndo | ByCommit

  /** Changes, sessions with the way they end, and giving up what was committed last. */
  datatype Program<V> =
    | Create(ix: IndexId, value: V)
    | Modify(id: ObjectId, newValue: V)
    | Remove(gone: ObjectId)
    | Session(body: seq<Program<V>>, ending: Ending)
    | PopCommit

  datatype Model<V> = Model(now: Snapshot<V>, history: seq<Snapshot<V>>, active: nat)

  /** How deeply a program nests sessions. */
  function Depth<V>(ps: seq<Program<V>>): nat {
    if ps == [] then 0
    else
      var first := if ps[0].Session? then 1 + Depth(ps[0].body) else 0;
      var rest := Depth(ps[1..]);
      if first > rest then first else rest
  }

  ghost function Changed<V>(m: Model<V>, now: Snapshot<V>): Model<V> {
    m.(now := now, history := OpenedHistory(m.history, m.now))
  }

  ghost function Started<V>(m: Model<V>, max: nat): Model<V> {
    m.(history := Newest(m.history, max) + [m.now], active := m.active + 1)
  }

  ghost function Undone<V>(m: Model<V>): Model<V> {
    if m.active == 0 || m.history == [] then m
    else Model(m.history[|m.history| - 1], m.history[..|m.history| - 1], m.active - 1)
  }

  ghost function Merged<V>(m: Model<V>): Model<V> {
    if m.active == 0 || m.history == [] || (|m.history| == 1 && m.active != 1) then m
    else m.(history := m.history[..|m.history| - 1], active := m.active - 1)
  }

  ghost function Committed<V>(m: Model<V>): Model<V> {
    if m.active == 0 then m else m.(active := m.active - 1)
  }

  /** Nothing can be given up while a session is open. */
  ghost function Popped<V>(m: Model<V>): Model<V> {
    if m.active > 0 || m.history == [] then m
    else Model(m.history[|m.history| - 1], m.history[..|m.history| - 1], 0)
  }

  ghost function Ended<V>(m: Model<V>, ending: Ending): Model<V> {
    match ending
    case ByMerge => Merged(m)
    case ByUndo => Undone(m)
    case ByCommit => Committed(m)
  }

  ghost function Run<V>(p: Program<V>, m: Model<V>, max: nat): Model<V>
    decreases p, 0
  {
    match p
    case Create(ix, value) =>
      if ix !in m.now.nextIds then m
      else
        var n := m.now.nextIds[ix];
        Changed(m, Snapshot(m.now.objects[ObjectId(ix, n) := value], m.now.nextIds[ix := n + 1]))
    case Modify(id, value) =>
      if id !in m.now.objects then m else Changed(m, m.now.(objects := m.now.objects[id := value]))
    case Remove(id) =>
      if id !in m.now.objects then m else Changed(m, m.now.(objects := m.now.objects - {id}))
    case Session(body, ending) => Ended(RunAll(body, Started(m, max), max), ending)
    case PopCommit => Popped(m)
  }

  /** Sessions are merged or undone, and nothing is given up: what happens inside one block. */
  predicate NoCommits<V>(ps: seq<Program<V>>) {
    if ps == [] then true
    else
      && !ps[0].PopCommit? && (ps[0].Session? ==> ps[0].ending != ByCommit && NoCommits(ps[0].body))
      && NoCommits(ps[1..])
  }

  ghost function RunAll<V>(ps: seq<Program<V>>, m: Model<V>, max: nat): Model<V>
    decreases ps, 1
  {
    if ps == [] then m else RunAll(ps[1..], Run(ps[0], m, max), max)
  }

  /** `r` kept the newest snapshots of `m`: all of them, or at least `atLeast` many. */
  ghost predicate Kept<V>(m: Model<V>, r: Model<V>, atLeast: int) {
    && r.active == m.active
    && r.history == Newest(m.history, |r.history|)
    && (|r.history| >= |m.history| || |r.history| >= atLeast)
  }

  /** Closing a session that kept its own snapshot leaves a suffix of the history around it. */
  lemma {:induction false} CloseSession<T>(h: seq<T>, now: T, max: nat, last: seq<T>, atLeast: nat)
    requires last == Newest(Newest(h, max) + [now], |last|) && last != []
    requires |last| >= |Newest(h, max)| + 1 || |last| >= atLeast
    requires atLeast <= max + 1
    ensures last[|last| - 1] == now
    ensures last[..|last| - 1] == Newest(h, |last| - 1)
    ensures |last| - 1 >= |h| || |last| >= atLeast
  {
    var start := Newest(h, max) + [now];
    assert |last| <= |start|;
    var d := |start| - |last|;
    assert last == start[d..];
    assert last[..|last| - 1] == Newest(h, max)[d..];
  }

  lemma {:induction false} KeptTrans<V>(m: Model<V>, m1: Model<V>, r: Model<V>, a: int, b: int, c: int)
    requires Kept(m, m1, a) && Kept(m1, r, b) && c <= a && c <= b
    ensures Kept(m, r, c)
  {
  }

  /** Either way of ending a session leaves the snapshots around it as they were. */
  lemma {:induction false} EndKeepsHistory<V>(m: Model<V>, last: Model<V>, max: nat, atLeast: nat)
    requires m.history != [] && 1 <= atLeast <= max
    requires last.history != [] && Kept(Started(m, max), last, atLeast + 1)
    ensures Undone(last).history != [] && Kept(m, Undone(last), atLeast)
    ensures Merged(last).history != [] && Kept(m, Merged(last), atLeast)
  {
    var n := |last.history|;
    assert last.history == Newest(Newest(m.history, max) + [m.now], n);
    assert n >= |Newest(m.history, max)| + 1 || n >= atLeast + 1;
    CloseSession(m.history, m.now, max, last.history, atLeast + 1);
    hide Newest;
    assert n >= 2 && Undone(last).history == last.history[..n - 1] == Merged(last).history;
  }

  lemma {:induction false} KeptLess<V>(m: Model<V>, r: Model<V>, a: int, b: int)
    requires Kept(m, r, a) && b <= a
    ensures Kept(m, r, b)
  {
  }

  /**
   A run inside an open session neither adds to nor changes the snapshots below it: only the
   oldest ones can be dropped, and never more than the nesting forces out.
   */
  lemma {:induction false} RunKeepsHistory<V>(ps: seq<Program<V>>, m: Model<V>, max: nat)
    requires m.history != [] && Depth(ps) <= max && NoCommits(ps)
    ensures RunAll(ps, m, max).history != [] && Kept(m, RunAll(ps, m, max), max + 1 - Depth(ps))
    decreases ps, 1
  {
    if ps != [] {
      hide Kept;
      var m1 := Run(ps[0], m, max);
      StepKeepsHistory(ps[0], m, max, max + 1 - Depth(ps));
      RunKeepsHistory(ps[1..], m1, max);
      KeptTrans(m, m1, RunAll(ps[1..], m1, max), max + 1 - Depth(ps), max + 1 - Depth(ps[1..]), max + 1 - Depth(ps));
    }
  }

  lemma {:induction false} StepKeepsHistory<V>(p: Program<V>, m: Model<V>, max: nat, atLeast: nat)
    requires m.history != [] && 1 <= atLeast <= max + 1
    requires !p.PopCommit?
    requires (p.Session? ==> p.ending != ByCommit && NoCommits(p.body) && Depth(p.body) + atLeast <= max)
    ensures Run(p, m, max).history != [] && Kept(m, Run(p, m, max), atLeast)
    decreases p, 0
  {
    if p.Session? {
      RunKeepsHistory(p.body, Started(m, max), max);
      hide Kept, Started, Undone, Merged;
      KeptLess(Started(m, max), RunAll(p.body, Started(m, max), max), max + 1 - Depth(p.body), atLeast + 1);
      EndKeepsHistory(m, RunAll(p.body, Started(m, max), max), max, atLeast);
    }
  }

  /**
   Undoing a session restores the objects and the next ids to exactly what they were when it
   began, whatever it did and however it nested further sessions, provided that the nesting
   fits into the stack.
   */
  lemma {:induction false} UndoneSessionLeavesNoTrace<V>(body: seq<Program<V>>, m: Model<V>, max: nat)
    requires Depth(body) <= max && NoCommits(body)
    ensures var r := Run(Session(body, ByUndo), m, max);
      r.now == m.now && Kept(m, r, max - Depth(body))
  {
    var start := Started(m, max);
    RunKeepsHistory(body, start, max);
    CloseSession(m.history, m.now, max, RunAll(body, start, max).history, max + 1 - Depth(body));
  }

  /** How many sessions are committed: so many snapshots stay behind. */
  function Commits<V>(ps: seq<Program<V>>): nat {
    if ps == [] then 0
    else
      Commits(ps[1..])
      + if ps[0].Session? then Commits(ps[0].body) + if ps[0].ending == ByCommit then 1 else 0 else 0
  }

  /** With room for all of them, a run inside a session leaves exactly the snapshots of the sessions it committed. */
  lemma {:induction false} RunLeavesCommits<V>(ps: seq<Program<V>>, m: Model<V>, max: nat)
    requires m.active > 0 && m.history != [] && |m.history| + Depth(ps) + Commits(ps) <= max
    ensures var r := RunAll(ps, m, max);
      r.active == m.active && m.history <= r.history && |r.history| == |m.history| + Commits(ps)
    decreases ps, 1
  {
    if ps != [] {
      StepLeavesCommits(ps[0], ps[1..], m, max);
      RunLeavesCommits(ps[1..], Run(ps[0], m, max), max);
    }
  }

  lemma {:induction false} StepLeavesCommits<V>(p: Program<V>, rest: seq<Program<V>>, m: Model<V>, max: nat)
    requires m.active > 0 && m.history != [] && |m.history| + Depth([p] + rest) + Commits([p] + rest) <= max
    ensures var r := Run(p, m, max);
      && r.active == m.active && m.history <= r.history
      && |r.history| + Commits(rest) == |m.history| + Commits([p] + rest) && Depth(rest) <= Depth([p] + rest)
    decreases p, 0
  {
    assert ([p] + rest)[1..] == rest;
    if p.Session? {
      var start := Started(m, max);
      assert Newest(m.history, max) == m.history;
      RunLeavesCommits(p.body, start, max);
      var last := RunAll(p.body, start, max);
      assert m.history <= last.history[..|last.history| - 1];
    }
  }

  /**
   An undone session leaves the objects, the next ids and the snapshots around it as they were if and only
   if no session inside of it was committed, provided that the stack has room for all of them.
   */
  lemma {:induction false} UndoneIffNoCommits<V>(body: seq<Program<V>>, m: Model<V>, max: nat)
    requires |m.history| + 1 + Depth(body) + Commits(body) <= max
    ensures var r := Run(Session(body, ByUndo), m, max);
      && |r.history| == |m.history| + Commits(body)
      && (r.now == m.now && r.history == m.history <==> Commits(body) == 0)
  {
    var start := Started(m, max);
    RunLeavesCommits(body, start, max);
    var last := RunAll(body, start, max);
    assert start.history == m.history + [m.now];
    if Commits(body) == 0 {
      assert last.history == start.history;
    }
  }

  /** A session committed inside of it is what an undone session goes back to: it need not leave things as they were. */
  lemma {:induction false} CommitInsideLeavesTrace<V>(ix: IndexId, value: V, m: Model<V>, max: nat)
    requires max > 0 && ix in m.now.nextIds
    ensures Run(Session([Create(ix, value), Session([], ByCommit)], ByUndo), m, max).now != m.now
  {
    var first: Program<V>, inner: Program<V> := Create(ix, value), Session([], ByCommit);
    var body, start := [first, inner], Started(m, max);
    var created := Run(first, start, max);
    var nested := Started(created, max);
    assert body[1..] == [inner] && [inner][1..] == [];
    assert RunAll([inner], created, max) == RunAll([], Run(inner, created, max), max) == Committed(nested);
    assert RunAll(body, start, max) == Committed(nested);
    assert created.now.nextIds[ix] == m.now.nextIds[ix] + 1;
  }

  /** Blocks, each in a session of its own that is committed. */
  ghost function RunBlocks<V>(blocks: seq<seq<Program<V>>>, m: Model<V>, max: nat): Model<V> {
    if blocks == [] then m
    else Run(Session(blocks[|blocks| - 1], ByCommit), RunBlocks(blocks[..|blocks| - 1], m, max), max)
  }

  /** The states in which the blocks began. */
  ghost function BlockStarts<V>(blocks: seq<seq<Program<V>>>, m: Model<V>, max: nat): (starts: seq<Snapshot<V>>)
    ensures |starts| == |blocks|
  {
    if blocks == [] then []
    else BlockStarts(blocks[..|blocks| - 1], m, max) + [RunBlocks(blocks[..|blocks| - 1], m, max).now]
  }

  /** After any number of committed blocks the newest snapshots are those from which the blocks began. */
  lemma {:induction false} BlocksAreRemembered<V>(blocks: seq<seq<Program<V>>>, m: Model<V>, max: nat, depth: nat)
    requires m.active == 0 && depth <= max && forall b :: b in blocks ==> NoCommits(b) && Depth(b) <= depth
    ensures var r := RunBlocks(blocks, m, max);
      && r.active == 0 && r.history == Newest(m.history + BlockStarts(blocks, m, max), |r.history|)
      && (|r.history| >= |m.history| + |blocks| || |r.history| >= max + 1 - depth)
  {
    if blocks != [] {
      hide Newest, Run, RunAll, NoCommits, Depth, Kept, Started;
      var before, body := blocks[..|blocks| - 1], blocks[|blocks| - 1];
      assert body in blocks;
      BlocksAreRemembered(before, m, max, depth);
      var last := RunBlocks(before, m, max);
      var all := m.history + BlockStarts(before, m, max);
      assert m.history + BlockStarts(blocks, m, max) == all + [last.now];
      OneBlock(body, last, max);
      NewestOfBlock(all, last.history, last.now, max, Run(Session(body, ByCommit), last, max).history);
    }
  }

  lemma {:induction false} OneBlock<V>(body: seq<Program<V>>, m: Model<V>, max: nat)
    requires m.active == 0 && Depth(body) <= max && NoCommits(body)
    ensures var r := Run(Session(body, ByCommit), m, max);
      && r.active == 0 && r.history == Newest(Newest(m.history, max) + [m.now], |r.history|)
      && (|r.history| >= |Newest(m.history, max)| + 1 || |r.history| >= max + 1 - Depth(body))
  {
    hide Newest, NoCommits, Depth;
    RunKeepsHistory(body, Started(m, max), max);
  }

  lemma {:induction false} NewestOfBlock<T>(all: seq<T>, h: seq<T>, now: T, max: nat, r: seq<T>)
    requires h == Newest(all, |h|) && r == Newest(Newest(h, max) + [now], |r|)
    ensures r == Newest(all + [now], |r|)
  {
  }

  /** Giving up committed states `n` times. */
  ghost function PoppedTimes<V>(m: Model<V>, n: nat): Model<V> {
    if n == 0 then m else Popped(PoppedTimes(m, n - 1))
  }

  /**
   Blocks that are given up again leave exactly the state in which the oldest of them began, as far
   as it is remembered.
   */
  lemma {:induction false} BlocksArePopped<V>(blocks: seq<seq<Program<V>>>, m: Model<V>, max: nat, depth: nat, n: nat)
    requires m.active == 0 && depth <= max && forall b :: b in blocks ==> NoCommits(b) && Depth(b) <= depth
    requires 0 < n <= |blocks| && n <= max + 1 - depth
    ensures PoppedTimes(RunBlocks(blocks, m, max), n).now == BlockStarts(blocks, m, max)[|blocks| - n]
    ensures BlockStarts(blocks, m, max)[|blocks| - n] == RunBlocks(blocks[..|blocks| - n], m, max).now
  {
    hide RunBlocks, NoCommits, Depth, PoppedTimes, BlockStarts;
    var r, starts := RunBlocks(blocks, m, max), BlockStarts(blocks, m, max);
    BlocksAreRemembered(blocks, m, max, depth);
    PoppedIs(r, n);
    NewestFromEnd(m.history + starts, r.history, n);
    StartIs(blocks, m, max, |blocks| - n);
  }

  lemma {:induction false} NewestFromEnd<T>(all: seq<T>, h: seq<T>, n: nat)
    requires h == Newest(all, |h|) && 0 < n <= |h|
    ensures n <= |all| && h[|h| - n] == all[|all| - n]
  {
  }

  lemma {:induction false} PoppedIs<V>(r: Model<V>, n: nat)
    requires r.active == 0 && n <= |r.history|
    ensures PoppedTimes(r, n) == if n == 0 then r
      else Model(r.history[|r.history| - n], r.history[..|r.history| - n], 0)
  {
    if n > 0 {
      PoppedIs(r, n - 1);
    }
  }

  lemma {:induction false} StartIs<V>(blocks: seq<seq<Program<V>>>, m: Model<V>, max: nat, k: nat)
    requires k < |blocks|
    ensures BlockStarts(blocks, m, max)[k] == RunBlocks(blocks[..k], m, max).now
  {
    var before := blocks[..|blocks| - 1];
    if k < |blocks| - 1 {
      StartIs(before, m, max, k);
      assert before[..k] == blocks[..k];
    }
  }

  ghost function ModelOf<V>(db: UndoDatabase<V>): Model<V>
    reads db
  {
    Model(db.Current(), db.history, db.activeSessions)
  }

  ghost predicate Ready<V>(db: UndoDatabase<V>)
    reads db
  {
    db.Tracked() && !db.disabled && db.activeSessions <= |db.stack|
  }

  /**
   The stack of differences refines the stack of full snapshots over every nested run that the
   maximal depth leaves room for.
   */
  method Execute<V(==)>(db: UndoDatabase<V>, ps: seq<Program<V>>)
    requires Ready(db) && db.activeSessions + Depth(ps) <= db.maxSize + 1
    modifies db
    ensures Ready(db) && db.maxSize == old(db.maxSize) && db.activeSessions == old(db.activeSessions)
    ensures ModelOf(db) == RunAll(ps, old(ModelOf(db)), db.maxSize)
    decreases ps, 1
  {
    hide StandsFor;
    if ps != [] {
      ExecuteOne(db, ps[0]);
      Execute(db, ps[1..]);
    }
  }

  method ExecuteOne<V(==)>(db: UndoDatabase<V>, p: Program<V>)
    requires Ready(db) && db.activeSessions + (if p.Session? then 1 + Depth(p.body) else 0) <= db.maxSize + 1
    modifies db
    ensures Ready(db) && db.maxSize == old(db.maxSize) && db.activeSessions == old(db.activeSessions)
    ensures ModelOf(db) == Run(p, old(ModelOf(db)), db.maxSize)
    decreases p, 0
  {
    hide StandsFor, WellNumbered;
    StandsForLength(db.stack, db.history, db.Current());
    match p
    case Create(ix, value) =>
      if ix in db.nextIds {
        var _ := db.Create(ix, value);
        StandsForLength(db.stack, db.history, db.Current());
      }
    case Modify(id, value) =>
      var _ := db.Modify(id, value);
      StandsForLength(db.stack, db.history, db.Current());
    case Remove(id) =>
      var ok := db.Remove(id);
      assert !ok ==> db.objects == old(db.objects);
      StandsForLength(db.stack, db.history, db.Current());
    case Session(body, ending) =>
      ExecuteSession(db, body, ending);
    case PopCommit =>
      var _ := db.PopCommit();
      StandsForLength(db.stack, db.history, db.Current());
  }

  method ExecuteSession<V(==)>(db: UndoDatabase<V>, body: seq<Program<V>>, ending: Ending)
    requires Ready(db) && db.activeSessions + 1 + Depth(body) <= db.maxSize + 1
    modifies db
    ensures Ready(db) && db.maxSize == old(db.maxSize) && db.activeSessions == old(db.activeSessions)
    ensures ModelOf(db) == Ended(RunAll(body, Started(old(ModelOf(db)), db.maxSize), db.maxSize), ending)
    decreases body, 2
  {
    hide StandsFor, WellNumbered, RunAll, Depth;
    StandsForLength(db.stack, db.history, db.Current());
    var _, _ := db.StartUndoSession(false);
    StandsForLength(db.stack, db.history, db.Current());
    Execute(db, body);
    StandsForLength(db.stack, db.history, db.Current());
    match ending {
      case ByMerge =>
        var _ := db.Merge();
      case ByUndo =>
        var _ := db.Undo();
      case ByCommit =>
        var _ := db.Commit();
    }
    StandsForLength(db.stack, db.history, db.Current());
  }
}
