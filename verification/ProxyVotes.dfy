/**
 Accounts, their proxies and the votes of witnesses, changed in place as operations arrive.
 */
module ProxyVotes {
  import opened Wrappers
  import opened Sums
  import opened ProxySpec
  import opened ProxyTally

  const MAX_ACCOUNT_WITNESS_VOTES := 30

  class VoteTally {
    var accounts: seq<Account>
    /** The votes of each witness, by witness id. */
    var votes: seq<int>
    var totalVests: int

    ghost predicate Shape()
      reads this
    {
      && Shaped(accounts) && InRange(ProxiesOf(accounts))
      && (forall a, w :: 0 <= a < |accounts| && w in accounts[a].votedFor ==> w < |votes|)
      && (forall a :: 0 <= a < |accounts| && accounts[a].proxy.Some? ==> accounts[a].votedFor == {})
    }

    /** The tallies that operations keep up to date are what a count from scratch gives. */
    ghost predicate Valid()
      reads this
    {
      && Shape() && Acyclic(ProxiesOf(accounts)) && Tallied(ProxiesOf(accounts), accounts)
      && CountedWithout(ProxiesOf(accounts), accounts, votes, |accounts|)
    }

    constructor (accountCount: nat, witnessCount: nat)
      ensures Valid()
      ensures accounts == seq(accountCount, _ => Account(None, 0, [0, 0, 0, 0], {}))
      ensures votes == seq(witnessCount, _ => 0)
    {
      accounts := seq(accountCount, _ => Account(None, 0, [0, 0, 0, 0], {}));
      votes := seq(witnessCount, _ => 0);
      totalVests := 0;
      new;
      NothingTallied(accounts, votes);
    }

    /** A new account has no vests, no proxy and no votes yet. */
    method CreateAccount()
      requires Valid()
      modifies this`accounts
      ensures Valid() && accounts == old(accounts) + [Account(None, 0, [0, 0, 0, 0], {})]
    {
      hide Tallied, Acyclic, CountedWithout;
      OneAccountMore(accounts, votes);
      accounts := accounts + [Account(None, 0, [0, 0, 0, 0], {})];
    }

    /** A new witness has no votes. */
    method CreateWitness()
      requires Valid()
      modifies this`votes
      ensures Valid() && votes == old(votes) + [0]
    {
      hide Tallied, Acyclic;
      SumZero(|accounts|, VoteTerm(ProxiesOf(accounts), accounts, |accounts|, |votes|));
      votes := votes + [0];
    }

    /** Fails if a witness would end up with more votes than there are vests. */
    method AdjustWitnessVote(w: nat, delta: int) returns (ok: bool)
      requires w < |votes|
      modifies this`votes
      ensures votes == old(votes)[w := old(votes)[w] + delta]
      ensures ok == (votes[w] <= totalVests)
    {
      votes := votes[w := votes[w] + delta];
      ok := votes[w] <= totalVests;
    }

    method AdjustWitnessVotes(a: nat, delta: int) returns (ok: bool)
      requires Shape() && a < |accounts|
      modifies this`votes
      ensures |votes| == |old(votes)|
      ensures ok <==> forall w :: w in accounts[a].votedFor ==> old(votes)[w] + delta <= totalVests
      ensures ok ==> forall w :: 0 <= w < |votes| ==>
        votes[w] == old(votes)[w] + if w in accounts[a].votedFor then delta else 0
    {
      var todo := accounts[a].votedFor;
      while todo != {}
        invariant |votes| == |old(votes)| && todo <= accounts[a].votedFor
        invariant forall w :: 0 <= w < |votes| ==>
          votes[w] == old(votes)[w] + if w in accounts[a].votedFor && w !in todo then delta else 0
        invariant forall w :: w in accounts[a].votedFor && w !in todo ==> old(votes)[w] + delta <= totalVests
      {
        var w :| w in todo;
        var fine := AdjustWitnessVote(w, delta);
        if !fine {
          return false;
        }
        todo := todo - {w};
      }
      ok := true;
    }

    /** Passes a delta for every distance up the proxy chain of `a`. */
    method AdjustProxiedAll(a: nat, delta: seq<int>, depth: nat) returns (ok: bool)
      requires Shape() && a < |accounts| && |delta| == DEPTH + 1 && depth <= DEPTH
      modifies this`accounts, this`votes
      ensures Shape() && Walked(ProxiesOf(old(accounts)), old(accounts), accounts, a, delta, depth)
      ensures |votes| == |old(votes)|
      ensures ok <==> Passes(ProxiesOf(old(accounts)), old(accounts), old(votes), a, delta, depth, totalVests)
      ensures ok ==> forall w :: 0 <= w < |votes| ==>
        votes[w] == old(votes)[w] + VoteAdd(ProxiesOf(old(accounts)), old(accounts), a, delta, depth, w)
      decreases DEPTH - depth
    {
      hide Walked, VoteAdd, Weight, Reached;
      ghost var ps, before := ProxiesOf(accounts), accounts;
      if accounts[a].proxy.Some? {
        if depth >= DEPTH {
          WalkStops(ps, before, a, delta, depth);
          return true;
        }
        var p := accounts[a].proxy.value;
        var proxied := accounts[p].proxied;
        var i := DEPTH - depth - 1;
        while i >= 0
          invariant -1 <= i < DEPTH - depth && |proxied| == DEPTH
          invariant forall j :: 0 <= j < DEPTH ==>
            proxied[j] == accounts[p].proxied[j] + if i + depth < j then delta[j - depth] else 0
        {
          proxied := proxied[i + depth := proxied[i + depth] + delta[i]];
          i := i - 1;
        }
        accounts := accounts[p := accounts[p].(proxied := proxied)];
        ghost var mid := accounts;
        assert ProxiesOf(mid) == ps;
        ok := AdjustProxiedAll(p, delta, depth + 1);
        WalkStep(ps, before, mid, accounts, a, delta, depth);
      } else {
        WalkStops(ps, before, a, delta, depth);
        var total, i := 0, 0;
        while i <= DEPTH - depth
          invariant 0 <= i <= DEPTH + 1 - depth && total == Total(delta, i)
        {
          total := total + delta[i];
          i := i + 1;
        }
        ok := AdjustWitnessVotes(a, total);
      }
    }

    /** Passes a change of the vests of `a` up its proxy chain. */
    method AdjustProxied(a: nat, delta: int, depth: nat) returns (ok: bool)
      requires Shape() && a < |accounts| && depth <= DEPTH
      modifies this`accounts, this`votes
      ensures Shape() && Walked(ProxiesOf(old(accounts)), old(accounts), accounts, a, [delta, 0, 0, 0, 0], depth)
      ensures |votes| == |old(votes)|
      ensures ok <==>
        Passes(ProxiesOf(old(accounts)), old(accounts), old(votes), a, [delta, 0, 0, 0, 0], depth, totalVests)
      ensures ok ==> forall w :: 0 <= w < |votes| ==>
        votes[w] == old(votes)[w] + VoteAdd(ProxiesOf(old(accounts)), old(accounts), a, [delta, 0, 0, 0, 0], depth, w)
      decreases DEPTH - depth
    {
      hide Walked, VoteAdd, Weight, Reached;
      ghost var ps, before := ProxiesOf(accounts), accounts;
      if accounts[a].proxy.Some? {
        if depth >= DEPTH {
          WalkStops(ps, before, a, [delta, 0, 0, 0, 0], depth);
          return true;
        }
        var p := accounts[a].proxy.value;
        var proxied := accounts[p].proxied;
        accounts := accounts[p := accounts[p].(proxied := proxied[depth := proxied[depth] + delta])];
        ghost var mid := accounts;
        assert ProxiesOf(mid) == ps;
        ok := AdjustProxied(p, delta, depth + 1);
        WalkStep(ps, before, mid, accounts, a, [delta, 0, 0, 0, 0], depth);
      } else {
        WalkStops(ps, before, a, [delta, 0, 0, 0, 0], depth);
        OnlyFirst(delta, DEPTH + 1 - depth);
        ok := AdjustWitnessVotes(a, delta);
      }
    }

    /**
     Gives account `x` vests or takes them away.  `total` is the total of vests that the guard goes by:
     `create_vesting` has raised it by the new vests, a payment of a power-down leaves it as it is while
     vests go to other accounts, and has lowered it by what became BTCM when the paying account is adjusted.
     */
    method ChangeVests(x: nat, delta: int, total: int) returns (ok: bool)
      requires Valid() && x < |accounts|
      modifies this
      ensures Valid()
      ensures ok <==>
        Passes(ProxiesOf(old(accounts)), old(accounts), old(votes), x, [delta, 0, 0, 0, 0], 0, total)
      ensures VestsOf(accounts) == if ok then VestsOf(old(accounts))[x := old(accounts)[x].vests + delta]
        else VestsOf(old(accounts))
      ensures ProxiesOf(accounts) == ProxiesOf(old(accounts)) && SameVotes(old(accounts), accounts)
      ensures totalVests == if ok then total else old(totalVests)
      ensures !ok ==> accounts == old(accounts) && votes == old(votes)
    {
      hide Tallied, Acyclic, CountedWithout, VoteAdd, Add, Passes;
      var accounts0, votes0, total0 := accounts, votes, totalVests;
      accounts := accounts[x := accounts[x].(vests := accounts[x].vests + delta)];
      totalVests := total;
      ghost var raised := accounts;
      assert ProxiesOf(accounts) == ProxiesOf(accounts0);
      PassesAlike(ProxiesOf(accounts), accounts0, raised, votes, x, [delta, 0, 0, 0, 0], totalVests);
      ok := AdjustProxied(x, delta, 0);
      if !ok {
        accounts, votes, totalVests := accounts0, votes0, total0;
        return;
      }
      assert ProxiesOf(accounts) == ProxiesOf(accounts0) && VestsOf(accounts) == VestsOf(raised);
      VestsCounted(ProxiesOf(accounts0), accounts0, raised, accounts, votes0, votes, x, delta);
    }

    /** Casts or withdraws the vote of an account that has no proxy. */
    method VoteWitness(x: nat, w: nat, approve: bool) returns (ok: bool)
      requires Valid() && x < |accounts| && w < |votes|
      modifies this
      ensures Valid()
      ensures ok <==>
        && old(accounts)[x].proxy.None? && (w in old(accounts)[x].votedFor <==> !approve)
        && (approve ==> |old(accounts)[x].votedFor| < MAX_ACCOUNT_WITNESS_VOTES)
        && old(votes)[w] + (if approve then Weight(old(accounts)[x]) else -Weight(old(accounts)[x])) <= totalVests
      ensures ok ==> accounts == old(accounts)[x := old(accounts)[x].(votedFor :=
        if approve then old(accounts)[x].votedFor + {w} else old(accounts)[x].votedFor - {w})]
      ensures !ok ==> accounts == old(accounts) && votes == old(votes)
      ensures totalVests == old(totalVests)
    {
      hide Tallied, Acyclic, CountedWithout, Weight;
      if accounts[x].proxy.Some? {
        return false;
      }
      var votes0 := votes;
      ghost var accounts0 := accounts;
      if w !in accounts[x].votedFor {
        if !approve || |accounts[x].votedFor| >= MAX_ACCOUNT_WITNESS_VOTES {
          return false;
        }
        ok := AdjustWitnessVote(w, Weight(accounts[x]));
        if !ok {
          votes := votes0;
          return;
        }
        accounts := accounts[x := accounts[x].(votedFor := accounts[x].votedFor + {w})];
      } else {
        if approve {
          return false;
        }
        ok := AdjustWitnessVote(w, -Weight(accounts[x]));
        if !ok {
          votes := votes0;
          return;
        }
        accounts := accounts[x := accounts[x].(votedFor := accounts[x].votedFor - {w})];
      }
      assert ProxiesOf(accounts) == ProxiesOf(accounts0) && VestsOf(accounts) == VestsOf(accounts0);
      VoteCounted(ProxiesOf(accounts0), accounts0, accounts, votes0, votes, x, w, approve);
    }

    /** Follows the chain of `p`; fails if it leads to `x` or has too many members. */
    method ChainIsShort(x: nat, p: nat) returns (ok: bool)
      requires Shape() && Acyclic(ProxiesOf(accounts)) && x < |accounts| && p < |accounts| && p != x
      ensures ok == ShortChain(ProxiesOf(accounts), x, p)
    {
      var chain, c := {x, p}, p;
      ghost var n: nat := 0;
      ghost var ps := ProxiesOf(accounts);
      while accounts[c].proxy.Some?
        invariant c < |accounts| && Anc(ps, p, n) == Some(c) && x in chain && |chain| == n + 2 <= DEPTH
        invariant forall y :: y in chain ==> y == x || exists k :: 0 <= k <= n && Anc(ps, p, k) == Some(y)
        invariant forall k :: 0 <= k <= n ==> Anc(ps, p, k) != Some(x)
        decreases DEPTH - |chain|
      {
        var next := accounts[c].proxy.value;
        AncAnc(ps, p, n, 1);
        assert Anc(ps, next, 0) == Some(next);
        assert Anc(ps, p, n + 1) == Some(next);
        forall k | 0 <= k <= n
          ensures Anc(ps, p, k) != Some(next)
        {
          NoReturn(ps, p, k, n + 1);
        }
        if next in chain {
          return false;
        }
        chain := chain + {next};
        c := next;
        n := n + 1;
        if |chain| > DEPTH {
          return false;
        }
      }
      assert Anc(ps, c, 1).None?;
      forall k: nat | k > n
        ensures Anc(ps, p, k).None?
      {
        AncAnc(ps, p, n, k - n);
      }
      ok := true;
    }

    /** Puts `x`, whose votes and vests are not counted at the moment, below the proxy `p`. */
    method Join(x: nat, p: nat, delta: seq<int>) returns (ok: bool)
      requires Shape() && Acyclic(ProxiesOf(accounts)) && x < |accounts| && p != x && |delta| == DEPTH + 1
      requires var ps0 := ProxiesOf(accounts)[x := None];
        Tallied(ps0, accounts) && Acyclic(ps0) && Carries(ps0, VestsOf(accounts), x, delta)
          && CountedWithout(ps0, accounts, votes, x)
      modifies this`accounts, this`votes
      ensures ok == (p < |old(accounts)| && ShortChain(ProxiesOf(old(accounts)), x, p)
                     && Passes(ProxiesOf(old(accounts))[x := Some(p)], Handed(old(accounts), x, Some(p)), old(votes),
                        x, delta, 0, totalVests))
      ensures ok ==>
        Valid() && ProxiesOf(accounts) == ProxiesOf(old(accounts))[x := Some(p)]
          && VestsOf(accounts) == VestsOf(old(accounts))
      ensures ok ==> forall a :: 0 <= a < |accounts| ==> accounts[a].votedFor == if a == x then {}
        else old(accounts)[a].votedFor
    {
      hide Tallied, Acyclic, CountedWithout, Carries, Weight, VoteAdd, Add, Walked, Passes, ShortChain;
      if p >= |accounts| {
        return false;
      }
      ghost var detached, ps1, votes0 := accounts, ProxiesOf(accounts), votes;
      ghost var ps0 := ps1[x := None];
      ok := ChainIsShort(x, p);
      if !ok {
        return;
      }
      ShortChainAvoids(ps0, ps1, x, p);
      accounts := accounts[x := accounts[x].(votedFor := {}, proxy := Some(p))];
      ghost var ps2, joined := ProxiesOf(accounts), accounts;
      assert ps2 == ps1[x := Some(p)];
      assert Attached(ps0, ps2, x) && InRange(ps2);
      AttachAcyclic(ps0, ps2, x, p);
      ok := AdjustProxiedAll(x, delta, 0);
      WalkKeeps(ps2, joined, accounts, x, delta, 0);
      if ok {
        Reattached(ps0, ps2, detached, joined, accounts, votes0, votes, x, delta);
      }
    }

    /** Sets or clears the proxy of an account. */
    method SetProxy(x: nat, proxy: Option<nat>) returns (ok: bool)
      requires Valid() && x < |accounts|
      modifies this
      ensures Valid()
      ensures ok <==> MayChange(old(accounts), old(votes), totalVests, x, proxy)
      ensures ProxiesOf(accounts) == if ok then ProxiesOf(old(accounts))[x := proxy] else ProxiesOf(old(accounts))
      ensures VestsOf(accounts) == VestsOf(old(accounts)) && totalVests == old(totalVests)
      ensures forall a :: 0 <= a < |accounts| && a != x ==> accounts[a].votedFor == old(accounts)[a].votedFor
      ensures ok ==> accounts[x].votedFor == if proxy.Some? then {} else old(accounts)[x].votedFor
      ensures !ok ==> accounts == old(accounts) && votes == old(votes)
    {
      hide Tallied, Acyclic, CountedWithout, Carries, Weight, VoteAdd, Add, Walked, Passes, ShortChain;
      if accounts[x].proxy == proxy || proxy == Some(x) {
        return false;
      }
      var accounts0, votes0 := accounts, votes;
      ghost var ps1 := ProxiesOf(accounts);
      ghost var ps0 := ps1[x := None];
      var delta := [accounts[x].vests] + accounts[x].proxied;
      var minus := [-delta[0], -delta[1], -delta[2], -delta[3], -delta[4]];
      assert minus == Negated(delta);
      ok := AdjustProxiedAll(x, minus, 0);
      WalkKeeps(ps1, accounts0, accounts, x, minus, 0);
      if !ok {
        accounts, votes := accounts0, votes0;
        return;
      }
      ghost var detached := accounts;
      assert ProxiesOf(accounts) == ps1 && votes == Moved(ps1, accounts0, votes0, x, minus);
      Detached(ps0, ps1, accounts0, detached, votes0, votes, x, delta, minus);
      if proxy.Some? {
        var p := proxy.value;
        PassesAlike(ps1[x := proxy], Handed(accounts0, x, proxy), Handed(detached, x, proxy), votes, x, delta,
          totalVests);
        ok := Join(x, p, delta);
        if !ok {
          accounts, votes := accounts0, votes0;
        }
      } else {
        accounts := accounts[x := accounts[x].(proxy := None)];
        assert ProxiesOf(accounts) == ps0;
        Cleared(ps0, detached, accounts, votes, x);
      }
    }
  }

  lemma {:induction false} NothingTallied(accounts: seq<Account>, votes: seq<int>)
    requires forall a :: 0 <= a < |accounts| ==> accounts[a] == Account(None, 0, [0, 0, 0, 0], {})
    requires forall w :: 0 <= w < |votes| ==> votes[w] == 0
    ensures Acyclic(ProxiesOf(accounts)) && Tallied(ProxiesOf(accounts), accounts)
    ensures CountedWithout(ProxiesOf(accounts), accounts, votes, |accounts|)
  {
    var ps := ProxiesOf(accounts);
    forall t, i | 0 <= t < |accounts| && 0 <= i < DEPTH
      ensures accounts[t].proxied[i] == At(ps, VestsOf(accounts), t, i + 1)
    {
      SumZero(|accounts|, AtTerm(ps, VestsOf(accounts), t, i + 1));
    }
    forall w | 0 <= w < |votes|
      ensures votes[w] == Recount(ps, accounts, |accounts|, w)
    {
      SumZero(|accounts|, VoteTerm(ps, accounts, |accounts|, w));
    }
  }

  /** Chains stay inside the accounts there are, so a new account is part of none. */
  lemma {:induction false} ChainsUnchanged(ps: Proxies, a: nat, k: nat)
    requires InRange(ps) && a < |ps|
    ensures Anc(ps + [None], a, k) == Anc(ps, a, k) && (Anc(ps, a, k).Some? ==> Anc(ps, a, k).value < |ps|)
    decreases k
  {
    if k > 0 && ps[a].Some? {
      ChainsUnchanged(ps, ps[a].value, k - 1);
    }
  }

  lemma {:induction false} OneAccountMore(accounts: seq<Account>, votes: seq<int>)
    requires var ps := ProxiesOf(accounts);
      Shaped(accounts) && InRange(ps) && Acyclic(ps) && Tallied(ps, accounts)
        && CountedWithout(ps, accounts, votes, |accounts|)
    ensures var after := accounts + [Account(None, 0, [0, 0, 0, 0], {})]; var ps := ProxiesOf(after);
      InRange(ps) && Acyclic(ps) && Tallied(ps, after) && CountedWithout(ps, after, votes, |after|)
  {
    var n, ps, after := |accounts|, ProxiesOf(accounts), accounts + [Account(None, 0, [0, 0, 0, 0], {})];
    var ps' := ProxiesOf(after);
    assert ps' == ps + [None] && VestsOf(after) == VestsOf(accounts) + [0];
    forall a: nat, k: nat | a < n
      ensures Anc(ps', a, k) == Anc(ps, a, k) && Anc(ps', a, k) != Some(n)
    {
      ChainsUnchanged(ps, a, k);
    }
    forall t, i | 0 <= t <= n && 0 <= i < DEPTH
      ensures after[t].proxied[i] == At(ps', VestsOf(after), t, i + 1)
    {
      if t < n {
        SumEqual(n, AtTerm(ps, VestsOf(accounts), t, i + 1), AtTerm(ps', VestsOf(after), t, i + 1));
      } else {
        SumZero(n + 1, AtTerm(ps', VestsOf(after), t, i + 1));
      }
    }
    forall w | 0 <= w < |votes|
      ensures votes[w] == Recount(ps', after, |after|, w)
    {
      SumEqual(n, VoteTerm(ps, accounts, n, w), VoteTerm(ps', after, n + 1, w));
    }
  }

  /** A chain does not come back to an account. */
  lemma {:induction false} NoReturn(ps: Proxies, p: nat, k: nat, n: nat)
    requires Acyclic(ps) && k < n && Anc(ps, p, n).Some? && Anc(ps, p, n).value < |ps|
    ensures Anc(ps, p, k) != Anc(ps, p, n)
  {
    AncAnc(ps, p, k, n - k);
  }

  lemma {:induction false} ShortChainAvoids(ps0: Proxies, ps1: Proxies, x: nat, p: nat)
    requires Attached(ps0, ps1, x) && ShortChain(ps1, x, p)
    ensures forall k: nat :: Anc(ps0, p, k) != Some(x)
  {
    forall k: nat
      ensures Anc(ps0, p, k) != Some(x)
    {
      if Anc(ps0, p, k).Some? {
        ShorterChain(ps0, ps1, x, p, k);
      }
    }
  }
}
