/**
 Building the summary half in the chain code and half in the network code, answering it, and
 splicing the answer into the list of ids to fetch.
 */
module Synopsis {
  import opened Wrappers
  import opened ForkTree
  import opened SynopsisSpec

  /** `get_block_ids_on_fork`: from a block on a fork back to the last block of the main chain. */
  ghost predicate IsHistory(main: seq<BlockId>, reference: BlockId, history: seq<BlockId>) {
    && |history| >= 2 && history[0] == reference
    && (forall i :: 0 <= i < |history| - 1 ==> history[i].Child? && history[i].parent == history[i + 1])
    && (history[|history| - 1] == NULL_ID || history[|history| - 1] in main)
  }

  method ReverseIds(ids: seq<BlockId>) returns (r: seq<BlockId>)
    ensures |r| == |ids| && forall i :: 0 <= i < |ids| ==> r[i] == ids[|ids| - 1 - i]
  {
    r := [];
    var k := 0;
    while k < |ids|
      invariant k == |r| <= |ids| && forall i :: 0 <= i < k ==> r[i] == ids[k - 1 - i]
    {
      r := [ids[k]] + r;
      k := k + 1;
    }
  }

  /** What is known of the peer's chain: the main chain as far as it goes, then the fork. */
  lemma {:induction false} KnownChain(main: seq<BlockId>, reference: BlockId, history: seq<BlockId>, fork: seq<BlockId>)
    requires IsChain(main) && IsHistory(main, reference, history)
    requires |fork| == |history| - 1 && forall i :: 0 <= i < |fork| ==> fork[i] == history[|fork| - 1 - i]
    ensures var base := Num(history[|history| - 1]); base <= |main| && IsChain(main[..base] + fork)
  {
    var last := history[|history| - 1];
    if last != NULL_ID {
      var i :| 0 <= i < |main| && main[i] == last;
      ChainNumber(main, i);
      assert main[Num(last) - 1] == last;
    }
    var base := Num(last);
    assert base == 0 ==> last == NULL_ID;
    var whole := main[..base] + fork;
    forall i | 0 <= i < |whole|
      ensures whole[i].Child? && whole[i].parent == Previous(whole, i)
    {
      if i < base {
        assert whole[i] == main[i] && Previous(whole, i) == Previous(main, i);
      } else {
        var k := i - base;
        assert whole[i] == fork[k] == history[|fork| - 1 - k];
        assert history[|fork| - 1 - k].parent == history[|fork| - k];
        if k > 0 {
          assert whole[i - 1] == fork[k - 1];
        } else {
          assert whole[i].parent == last;
        }
      }
    }
  }

  /** The chain that is to be summed up: the one of the reference block, or all of the main chain. */
  function Known(main: seq<BlockId>, reference: BlockId): seq<BlockId> {
    if reference == NULL_ID then main else ChainTo(reference)
  }

  /** Where the summary begins: at the last block that is final, but not above a reference block on the main chain. */
  function Start(main: seq<BlockId>, undoable: nat, reference: BlockId): nat
    requires undoable <= |main|
  {
    var low := if OnChain(main, reference) && Num(reference) < |main| - undoable then Num(reference)
      else |main| - undoable;
    if low == 0 then 1 else low
  }

  /** The source throws: the fork is not known, too far ahead, or too far back to be switched to. */
  predicate Unusable(main: seq<BlockId>, undoable: nat, reference: BlockId, history: Option<seq<BlockId>>) {
    && reference != NULL_ID && !OnChain(main, reference)
    && (Num(reference) > |main| || history.None? || history.value == []
       || Num(history.value[|history.value| - 1]) < |main| - undoable)
  }

  /** No reference block, or one on the main chain: the blocks up to it are what is known. */
  lemma {:induction false} KnownOnMain(main: seq<BlockId>, reference: BlockId)
    requires IsChain(main) && (reference == NULL_ID || OnChain(main, reference))
    ensures main[..if reference == NULL_ID then |main| else Num(reference)] == Known(main, reference)
    ensures IsChain(Known(main, reference))
  {
    if reference != NULL_ID {
      ChainIsToLast(main[..Num(reference)]);
    }
  }

  /** A reference block on a fork: the main chain up to where the fork leaves it, then the fork. */
  lemma {:induction false} KnownOnFork(main: seq<BlockId>, reference: BlockId, history: seq<BlockId>,
                                       fork: seq<BlockId>)
    requires IsChain(main) && IsHistory(main, reference, history) && reference != NULL_ID
    requires |fork| == |history| - 1 && forall i :: 0 <= i < |fork| ==> fork[i] == history[|fork| - 1 - i]
    ensures var base := Num(history[|history| - 1]);
      base <= |main| && main[..base] + fork == Known(main, reference) && IsChain(Known(main, reference)) && |fork| > 0
  {
    KnownChain(main, reference, history, fork);
    var base := Num(history[|history| - 1]);
    var whole := main[..base] + fork;
    assert whole[|whole| - 1] == fork[|fork| - 1] == history[0];
    ChainIsToLast(whole);
  }

  /**
   The summary begins with the last final block of the main chain, or with the reference block if that is
   below it, so that everybody who has the same final blocks knows its first entry.
   */
  lemma {:induction false} SummaryBeginsFinal(main: seq<BlockId>, undoable: nat, reference: BlockId,
                                              history: Option<seq<BlockId>>)
    requires IsChain(main) && undoable <= |main| && Known(main, reference) != []
    requires history.Some? ==> IsHistory(main, reference, history.value)
    requires !Unusable(main, undoable, reference, history)
    ensures var start, known := Start(main, undoable, reference), Known(main, reference);
      var final := |main| - undoable;
      && (final == 0 ==> start == 1)
      && (final > 0 ==> 1 <= start <= final && start <= |known| && known[start - 1] == main[start - 1])
      && (final > 0 && start < final ==> known[|known| - 1] == main[start - 1] == reference)
  {
    hide IsChain, Known;
    if reference == NULL_ID || OnChain(main, reference) {
      KnownOnMain(main, reference);
    } else {
      ForkBeginsFinal(main, reference, history.value);
    }
  }

  /** A fork has the blocks of the main chain up to where it leaves that. */
  lemma {:induction false} ForkBeginsFinal(main: seq<BlockId>, reference: BlockId, history: seq<BlockId>)
    requires IsChain(main) && IsHistory(main, reference, history) && reference != NULL_ID
    ensures history != [] && var base := Num(history[|history| - 1]);
      base <= |main| && base <= |Known(main, reference)| && Known(main, reference)[..base] == main[..base]
  {
    var fork := seq(|history| - 1, i requires 0 <= i < |history| - 1 => history[|history| - 2 - i]);
    KnownOnFork(main, reference, history, fork);
    hide IsChain, Known, IsHistory;
    var base := Num(history[|history| - 1]);
    assert (main[..base] + fork)[..base] == main[..base];
  }

  /** The fork of a history, oldest block first, and the number of the last block of the main chain before it. */
  method LeaveMain(main: seq<BlockId>, reference: BlockId, history: seq<BlockId>)
    returns (nonForkHigh: nat, fork: seq<BlockId>)
    requires IsChain(main) && IsHistory(main, reference, history) && reference != NULL_ID
    ensures history != [] && nonForkHigh == Num(history[|history| - 1]) <= |main| && |fork| > 0
    ensures main[..nonForkHigh] + fork == Known(main, reference) && IsChain(Known(main, reference))
  {
    fork := ReverseIds(history[..|history| - 1]);
    KnownOnFork(main, reference, history, fork);
    nonForkHigh := Num(history[|history| - 1]);
  }

  /**
   The chain code's part of a summary: `main` with the last `undoable` blocks not final yet, up to
   `reference`, leaving room for `after` more blocks.
   */
  method GetBlockchainSynopsis(main: seq<BlockId>, undoable: nat, reference: BlockId, history: Option<seq<BlockId>>,
                               after: nat)
    returns (synopsis: Option<seq<BlockId>>)
    requires IsChain(main) && undoable <= |main| && (reference != NULL_ID ==> Num(reference) > 0)
    requires history.Some? ==> IsHistory(main, reference, history.value)
    ensures synopsis.None? <==> Unusable(main, undoable, reference, history)
    ensures synopsis.Some? ==> var known := Known(main, reference);
      && IsChain(known) && (known != [] ==> Start(main, undoable, reference) <= |known|)
      && synopsis.value == if known == [] then []
           else Part(known, Start(main, undoable, reference), |known| + after, Start(main, undoable, reference),
             |known|)
  {
    hide Part, IsChain, Known, IsHistory;
    var lowNum := |main| - undoable;
    var highNum, nonForkHigh := |main|, |main|;
    var fork: seq<BlockId> := [];
    if reference != NULL_ID {
      if Num(reference) > |main| {
        return None;
      }
      if main[Num(reference) - 1] == reference {
        highNum, nonForkHigh := Num(reference), Num(reference);
        if highNum < lowNum {
          lowNum := highNum;
        }
        KnownOnMain(main, reference);
        assert main[..highNum] + fork == main[..highNum];
      } else {
        if history.None? {
          return None;
        }
        nonForkHigh, fork := LeaveMain(main, reference, history.value);
        highNum := nonForkHigh + |fork|;
        if nonForkHigh < lowNum {
          return None;
        }
      }
    } else {
      KnownOnMain(main, reference);
      if highNum == 0 {
        return Some([]);
      }
      assert main[..nonForkHigh] + fork == main;
    }
    if lowNum == 0 {
      lowNum := 1;
    }
    var ids := CollectIds(main, nonForkHigh, fork, lowNum, highNum, highNum + after, Known(main, reference));
    synopsis := Some(ids);
  }

  /** The loop of `get_blockchain_synopsis`: at least one block, and none above `high`. */
  method CollectIds(main: seq<BlockId>, nonForkHigh: nat, fork: seq<BlockId>, low: nat, high: nat, trueHigh: nat,
                    ghost known: seq<BlockId>)
    returns (ids: seq<BlockId>)
    requires nonForkHigh <= |main| && known == main[..nonForkHigh] + fork && high == |known|
    requires 1 <= low <= high <= trueHigh
    ensures ids == Part(known, low, trueHigh, low, high)
  {
    hide Part, IdsAt;
    ids := [];
    var lowNum, more := low, true;
    while more
      invariant low <= lowNum && (more ==> lowNum <= high)
      invariant more ==> Part(known, low, trueHigh, low, high) == ids + Part(known, lowNum, trueHigh, low, high)
      invariant !more ==> Part(known, low, trueHigh, low, high) == ids
      decreases if more then trueHigh + 1 - lowNum else 0
    {
      PartStep(known, lowNum, trueHigh, low, high);
      OneId(known, lowNum);
      if lowNum <= nonForkHigh {
        ids := ids + [main[lowNum - 1]];
      } else {
        ids := ids + [fork[lowNum - nonForkHigh - 1]];
      }
      lowNum := lowNum + (trueHigh - lowNum + 2) / 2;
      more := lowNum <= high;
      if !more && lowNum <= trueHigh {
        PartBeyond(known, lowNum, trueHigh, low, high);
      }
    }
  }

  /**
   The whole summary for a peer: the chain code's part, completed with the ids the peer has told us.
   Both parts together are a single summary of the chain they belong to.
   */
  method CreateSynopsisForPeer(main: seq<BlockId>, undoable: nat, lastSeen: BlockId, history: Option<seq<BlockId>>,
                               pending: seq<BlockId>)
    returns (synopsis: Option<seq<BlockId>>)
    requires IsChain(main) && undoable <= |main| && (lastSeen != NULL_ID ==> Num(lastSeen) > 0)
    requires history.Some? ==> IsHistory(main, lastSeen, history.value)
    requires Contiguous(pending, |Known(main, lastSeen)| + 1)
    ensures synopsis.None? <==> Unusable(main, undoable, lastSeen, history)
    ensures synopsis.Some? ==> var ids := Known(main, lastSeen) + pending;
      && Contiguous(ids, 1) && (ids != [] ==> Start(main, undoable, lastSeen) <= |ids|)
      && synopsis.value == if ids == [] then [] else Summary(ids, Start(main, undoable, lastSeen))
  {
    hide Part, Summary;
    synopsis := GetBlockchainSynopsis(main, undoable, lastSeen, history, |pending|);
    if synopsis.None? {
      return;
    }
    ghost var known := Known(main, lastSeen);
    KnownNumbers(known, pending);
    if pending != [] {
      var all := AppendPending(synopsis.value, pending, known, Start(main, undoable, lastSeen));
      synopsis := Some(all);
    } else {
      assert known + pending == known;
      if known != [] {
        NothingPending(known, Start(main, undoable, lastSeen));
      }
    }
  }

  lemma {:induction false} NothingPending(known: seq<BlockId>, low: nat)
    requires 1 <= low <= |known|
    ensures Part(known, low, |known|, low, |known|) == Summary(known, low)
  {
    hide Part, Summary;
    PartOfNone(known, low, |known|, |known| + 1, |known|);
    PartsJoin(known, low, |known|);
  }

  lemma {:induction false} FirstPending(known: seq<BlockId>, pending: seq<BlockId>)
    requires pending != [] && Contiguous(known + pending, 1)
    ensures Num(pending[0]) == |known| + 1
  {
    assert (known + pending)[|known|] == pending[0];
  }

  /** The network code's part: it finds out where the other part began and goes on in the same steps. */
  method AppendPending(half: seq<BlockId>, pending: seq<BlockId>, ghost known: seq<BlockId>,
                       ghost low: nat) returns (all: seq<BlockId>)
    requires pending != [] && IsChain(known) && Contiguous(known + pending, 1)
    requires if known == [] then low == 1 && half == []
             else 1 <= low <= |known| && half == Part(known, low, |known + pending|, low, |known|)
    ensures all == Summary(known + pending, low)
  {
    hide Part, IdsAt, Summary, Num, IsChain, Contiguous, Slice, Positions;
    ghost var ids := known + pending;
    FirstPending(known, pending);
    var first := Num(pending[0]);
    var trueHigh := first + |pending| - 1;
    StartOfHalf(half, known, pending, low);
    var lowNum := if half == [] then 1 else Num(half[0]);
    assert lowNum == low;
    PartsJoin(ids, low, |known|);
    all := half;
    var more := true;
    while more
      invariant low <= lowNum && (more ==> lowNum <= trueHigh)
      invariant half + Part(ids, low, |ids|, first, |ids|) == all
        + if more then Part(ids, lowNum, |ids|, first, |ids|) else []
      decreases if more then trueHigh + 1 - lowNum else 0
    {
      OneMore(ids, all, half + Part(ids, low, |ids|, first, |ids|), lowNum, first);
      if lowNum >= first {
        all := all + [pending[lowNum - first]];
      }
      lowNum := lowNum + (trueHigh - lowNum + 2) / 2;
      more := lowNum <= trueHigh;
    }
  }

  lemma {:induction false} OneMore(ids: seq<BlockId>, all: seq<BlockId>, whole: seq<BlockId>, lowNum: nat, first: nat)
    requires 1 <= lowNum <= |ids| && whole == all + Part(ids, lowNum, |ids|, first, |ids|)
    ensures whole == (if lowNum >= first then all + [ids[lowNum - 1]] else all)
      + if Next(lowNum, |ids|) <= |ids| then Part(ids, Next(lowNum, |ids|), |ids|, first, |ids|) else []
  {
    hide Part, IdsAt;
    PartStep(ids, lowNum, |ids|, first, |ids|);
    OneId(ids, lowNum);
  }

  lemma {:induction false} StartOfHalf(half: seq<BlockId>, known: seq<BlockId>, pending: seq<BlockId>, low: nat)
    requires pending != [] && IsChain(known)
    requires if known == [] then low == 1 && half == []
             else 1 <= low <= |known| && half == Part(known, low, |known + pending|, low, |known|)
    ensures half == Part(known + pending, low, |known + pending|, low, |known|)
    ensures low == if half == [] then 1 else Num(half[0])
  {
    hide Part;
    var ids := known + pending;
    assert ids[..|known|] == known;
    if known == [] {
      PartBeyond(ids, 1, |ids|, 1, 0);
    } else {
      PartOfPrefix(ids, |known|, low, |ids|, low);
      PartStarts(known, low, |ids|, |known|);
      ChainNumber(known, low - 1);
    }
  }

  lemma {:induction false} KnownNumbers(known: seq<BlockId>, pending: seq<BlockId>)
    requires IsChain(known) && Contiguous(pending, |known| + 1)
    ensures Contiguous(known + pending, 1)
  {
    forall i | 0 <= i < |known + pending|
      ensures Num((known + pending)[i]) == 1 + i
    {
      if i < |known| {
        ChainNumber(known, i);
      }
    }
  }
}
