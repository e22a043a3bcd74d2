/**
 The running vote tallies of accounts and witnesses against a count from scratch.
 */
module ProxyTally {
  import opened Wrappers
  import opened Sums
  import opened ProxySpec

  /** `proxied[i]` is `proxied_vsf_votes[i]`; `votedFor` are the witness votes cast by the account. */
  datatype Account = Account(proxy: Option<nat>, vests: int, proxied: seq<int>, votedFor: set<nat>)

  function ProxiesOf(accounts: seq<Account>): (ps: Proxies)
    ensures |ps| == |accounts| && forall a :: 0 <= a < |ps| ==> ps[a] == accounts[a].proxy
  {
    seq(|accounts|, a requires 0 <= a < |accounts| => accounts[a].proxy)
  }

  function VestsOf(accounts: seq<Account>): (vs: seq<int>)
    ensures |vs| == |accounts| && forall a :: 0 <= a < |vs| ==> vs[a] == accounts[a].vests
  {
    seq(|accounts|, a requires 0 <= a < |accounts| => accounts[a].vests)
  }

  /** `witness_vote_weight`: own vests and everything proxied to the account. */
  function Weight(a: Account): int {
    a.vests + Total(a.proxied, |a.proxied|)
  }

  ghost predicate Shaped(accounts: seq<Account>) {
    forall a :: 0 <= a < |accounts| ==> |accounts[a].proxied| == DEPTH
  }

  /** Every `proxied_vsf_votes[i]` is the sum of the vests at proxy distance exactly `i + 1`. */
  ghost predicate Tallied(ps: Proxies, accounts: seq<Account>) {
    forall t, i :: 0 <= t < |accounts| && 0 <= i < DEPTH && |accounts[t].proxied| == DEPTH ==>
      accounts[t].proxied[i] == At(ps, VestsOf(accounts), t, i + 1)
  }

  /** Whom `a` votes for, leaving out the votes of account `absent`. */
  ghost function Voted(accounts: seq<Account>, a: nat, absent: nat): set<nat>
    requires a < |accounts|
  {
    if a == absent then {} else accounts[a].votedFor
  }

  ghost function VoteTerm(ps: Proxies, accounts: seq<Account>, absent: nat, w: nat): nat -> int {
    (a: nat) =>
      if a < |accounts| && a < |ps| && ps[a].None? && w in Voted(accounts, a, absent) then Weight(accounts[a]) else 0
  }

  /** The votes of witness `w` counted from scratch, without those of account `absent`. */
  ghost function Recount(ps: Proxies, accounts: seq<Account>, absent: nat, w: nat): int {
    Sum(|accounts|, VoteTerm(ps, accounts, absent, w))
  }

  /** `after` is `before` with the additions of one walk in `proxied` and nothing else changed. */
  ghost predicate Walked(ps: Proxies, before: seq<Account>, after: seq<Account>, a: nat, delta: seq<int>, depth: nat)
    requires |delta| == DEPTH + 1 && Shaped(before)
  {
    && |after| == |before| && Shaped(after)
    && (forall t :: 0 <= t < |before| ==> after[t] == before[t].(proxied := after[t].proxied))
    && (forall t, i :: 0 <= t < |before| && 0 <= i < DEPTH ==>
          after[t].proxied[i] == before[t].proxied[i] + Add(ps, a, delta, depth, t, i))
  }

  /** What a walk adds to the votes of `w`: the part of the delta that reaches an unproxied account voting for `w`. */
  ghost function VoteAdd(ps: Proxies, accounts: seq<Account>, a: nat, delta: seq<int>, depth: nat, w: nat): int
    requires |delta| == DEPTH + 1 && depth <= DEPTH
  {
    var r := Root(ps, a, depth);
    if r.Some? && r.value.0 < |accounts| && w in accounts[r.value.0].votedFor && r.value.1 <= DEPTH
    then Total(delta, DEPTH + 1 - r.value.1)
    else 0
  }

  /** The witnesses whose votes a walk changes: those of the account it ends at. */
  ghost function Reached(ps: Proxies, accounts: seq<Account>, a: nat, depth: nat): set<nat>
    requires depth <= DEPTH
  {
    var r := Root(ps, a, depth);
    if r.Some? && r.value.0 < |accounts| && r.value.1 <= DEPTH then accounts[r.value.0].votedFor else {}
  }

  /** A walk leaves no witness that it changes with more votes than `total`. */
  ghost predicate Passes(ps: Proxies, accounts: seq<Account>, votes: seq<int>, a: nat, delta: seq<int>, depth: nat,
                         total: int)
    requires |delta| == DEPTH + 1 && depth <= DEPTH
  {
    forall w :: 0 <= w < |votes| && w in Reached(ps, accounts, a, depth) ==>
      votes[w] + VoteAdd(ps, accounts, a, delta, depth, w) <= total
  }

  /** One step of a walk, followed by the rest of it. */
  lemma {:induction false} WalkStep(ps: Proxies, before: seq<Account>, mid: seq<Account>, after: seq<Account>,
                                    a: nat, delta: seq<int>, depth: nat)
    requires |delta| == DEPTH + 1 && depth < DEPTH && Shaped(before) && Shaped(mid)
    requires |ps| == |before| && a < |ps| && ps[a].Some? && ps[a].value < |ps|
    requires |mid| == |before|
    requires mid == before[ps[a].value := before[ps[a].value].(proxied := mid[ps[a].value].proxied)]
    requires forall j :: 0 <= j < DEPTH ==>
      mid[ps[a].value].proxied[j] == before[ps[a].value].proxied[j] + if depth <= j then delta[j - depth] else 0
    requires Walked(ps, mid, after, ps[a].value, delta, depth + 1)
    ensures Walked(ps, before, after, a, delta, depth)
    ensures forall w :: VoteAdd(ps, before, a, delta, depth, w) == VoteAdd(ps, mid, ps[a].value, delta, depth + 1, w)
    ensures Reached(ps, before, a, depth) == Reached(ps, mid, ps[a].value, depth + 1)
  {
  }

  /** A walk ends at an account without a proxy, or when it is too long. */
  lemma {:induction false} WalkStops(ps: Proxies, accounts: seq<Account>, a: nat, delta: seq<int>, depth: nat)
    requires |delta| == DEPTH + 1 && depth <= DEPTH && Shaped(accounts) && |ps| == |accounts| && a < |ps|
    requires ps[a].None? || depth == DEPTH
    ensures Walked(ps, accounts, accounts, a, delta, depth)
    ensures forall w ::
      VoteAdd(ps, accounts, a, delta, depth, w) == if ps[a].None?
        && w in accounts[a].votedFor then Total(delta, DEPTH + 1 - depth) else 0
    ensures Reached(ps, accounts, a, depth) == if ps[a].None? then accounts[a].votedFor else {}
  {
  }

  /** Only proxies and votes decide where a walk ends and what it adds. */
  lemma {:induction false} PassesAlike(ps: Proxies, accounts: seq<Account>, others: seq<Account>, votes: seq<int>,
                                       a: nat, delta: seq<int>, total: int)
    requires |delta| == DEPTH + 1 && |accounts| == |others|
    requires forall t :: 0 <= t < |accounts| ==> accounts[t].votedFor == others[t].votedFor
    ensures Passes(ps, accounts, votes, a, delta, 0, total) <==> Passes(ps, others, votes, a, delta, 0, total)
  {
    assert forall w :: VoteAdd(ps, accounts, a, delta, 0, w) == VoteAdd(ps, others, a, delta, 0, w);
  }

  /** A walk changes nothing but the proxied votes. */
  lemma {:induction false} WalkKeeps(ps: Proxies, before: seq<Account>, after: seq<Account>, a: nat, delta: seq<int>,
                                     depth: nat)
    requires |delta| == DEPTH + 1 && Shaped(before) && Walked(ps, before, after, a, delta, depth)
    ensures |after| == |before| && Shaped(after)
    ensures ProxiesOf(after) == ProxiesOf(before) && VestsOf(after) == VestsOf(before)
    ensures forall t :: 0 <= t < |before| ==> after[t].votedFor == before[t].votedFor
  {
  }

  lemma {:induction false} AddNegated(ps: Proxies, a: nat, delta: seq<int>, minus: seq<int>, depth: nat, t: nat, i: nat)
    requires |delta| == |minus| == DEPTH + 1 && forall j :: 0 <= j <= DEPTH ==> minus[j] == -delta[j]
    ensures Add(ps, a, minus, depth, t, i) == -Add(ps, a, delta, depth, t, i)
    decreases DEPTH - depth
  {
    if a < |ps| && ps[a].Some? && depth < DEPTH {
      AddNegated(ps, ps[a].value, delta, minus, depth + 1, t, i);
    }
  }

  /** What `x` carries at each distance: its own vests and what is proxied to it. */
  ghost predicate Carries(ps: Proxies, vests: seq<int>, x: nat, delta: seq<int>) {
    |delta| == DEPTH + 1 && forall j :: 0 <= j <= DEPTH ==> delta[j] == At(ps, vests, x, j)
  }

  /** The walk from `x` adds exactly the difference that the proxy of `x` makes. */
  lemma {:induction false} WalkIsGain(ps0: Proxies, ps1: Proxies, vests: seq<int>, x: nat, delta: seq<int>,
                                      t: nat, i: nat)
    requires Attached(ps0, ps1, x) && Carries(ps0, vests, x, delta) && i < DEPTH
    ensures At(ps1, vests, t, i + 1) == At(ps0, vests, t, i + 1) + Add(ps1, x, delta, 0, t, i)
  {
    Gain(ps0, ps1, vests, x, i + 1, t, |vests|);
    AddIsSum(ps1, x, x, delta, 0, t, i);
    var f, g := AddTerm(ps1, x, delta, t, i), GainTerm(ps0, ps1, vests, x, i + 1, t, |vests|);
    forall m | 0 <= m < i + 1
      ensures f(m) == g(m)
    {
      assert delta[i - m] == At(ps0, vests, x, i - m);
    }
    SumEqual(i + 1, f, g);
  }

  /** An account that is not its own proxy carries the same with and without its proxy. */
  lemma {:induction false} CarriesEitherWay(ps0: Proxies, ps1: Proxies, vests: seq<int>, x: nat, k: nat)
    requires Attached(ps0, ps1, x) && Acyclic(ps1)
    ensures At(ps1, vests, x, k) == At(ps0, vests, x, k)
  {
    Gain(ps0, ps1, vests, x, k, x, |vests|);
    var g := GainTerm(ps0, ps1, vests, x, k, x, |vests|);
    forall m | 0 <= m < k
      ensures g(m) == 0
    {
      assert Anc(ps1, x, m + 1) != Some(x);
    }
    SumZero(k, g);
  }

  lemma {:induction false} TalliedAttach(ps0: Proxies, ps1: Proxies, x: nat, before: seq<Account>, after: seq<Account>,
                                         delta: seq<int>)
    requires Attached(ps0, ps1, x) && Shaped(before) && Tallied(ps0, before)
    requires Carries(ps0, VestsOf(before), x, delta) && Walked(ps1, before, after, x, delta, 0)
    ensures Tallied(ps1, after)
  {
    assert VestsOf(after) == VestsOf(before);
    forall t, i | 0 <= t < |after| && 0 <= i < DEPTH
      ensures after[t].proxied[i] == At(ps1, VestsOf(after), t, i + 1)
    {
      WalkIsGain(ps0, ps1, VestsOf(before), x, delta, t, i);
      assert before[t].proxied[i] == At(ps0, VestsOf(before), t, i + 1);
    }
  }

  lemma {:induction false} TalliedDetach(ps0: Proxies, ps1: Proxies, x: nat, before: seq<Account>, after: seq<Account>,
                      delta: seq<int>, minus: seq<int>)
    requires Attached(ps0, ps1, x) && Shaped(before) && Tallied(ps1, before)
    requires Carries(ps0, VestsOf(before), x, delta)
    requires |minus| == DEPTH + 1 && (forall j :: 0 <= j <= DEPTH ==> minus[j] == -delta[j])
    requires Walked(ps1, before, after, x, minus, 0)
    ensures Tallied(ps0, after)
  {
    assert VestsOf(after) == VestsOf(before);
    forall t, i | 0 <= t < |after| && 0 <= i < DEPTH
      ensures after[t].proxied[i] == At(ps0, VestsOf(after), t, i + 1)
    {
      WalkIsGain(ps0, ps1, VestsOf(before), x, delta, t, i);
      AddNegated(ps1, x, delta, minus, 0, t, i);
      assert before[t].proxied[i] == At(ps1, VestsOf(before), t, i + 1);
    }
  }

  /** All that a walk adds to one account without a proxy: what is left of the delta when it gets there. */
  lemma {:induction false} AddToRoot(ps: Proxies, a: nat, delta: seq<int>, depth: nat, t: nat)
    requires |delta| == DEPTH + 1 && depth <= DEPTH && (t >= |ps| || ps[t].None?)
    ensures Add(ps, a, delta, depth, t, 0) + Add(ps, a, delta, depth, t, 1)
          + Add(ps, a, delta, depth, t, 2) + Add(ps, a, delta, depth, t, 3)
      == var r := Root(ps, a, depth);
         if r.Some? && r.value.0 == t && depth < r.value.1 <= DEPTH then Total(delta, DEPTH + 1 - r.value.1) else 0
    decreases DEPTH - depth
  {
    if a < |ps| && ps[a].Some? && depth < DEPTH {
      RootBound(ps, ps[a].value, depth + 1);
      if ps[a].value == t {
        assert Total(delta, 1) == delta[0] && Total(delta, 2) == delta[0] + delta[1];
        assert Total(delta, 3) == Total(delta, 2) + delta[2] && Total(delta, 4) == Total(delta, 3) + delta[3];
      } else {
        hide Total;
        AddToRoot(ps, ps[a].value, delta, depth + 1, t);
      }
    }
  }

  lemma {:induction false} RootBound(ps: Proxies, a: nat, depth: nat)
    requires depth <= DEPTH
    ensures var r := Root(ps, a, depth);
      && (r.Some? ==> depth <= r.value.1 <= DEPTH && (r.value.0 >= |ps| || ps[r.value.0].None?))
      && (r.Some? ==> (r.value.1 == depth <==> a >= |ps| || ps[a].None?))
      && (r.Some? && r.value.1 == depth ==> r.value.0 == a)
    decreases DEPTH - depth
  {
    if a < |ps| && ps[a].Some? && depth < DEPTH {
      RootBound(ps, ps[a].value, depth + 1);
    }
  }

  lemma {:induction false} RootInRange(ps: Proxies, a: nat, depth: nat)
    requires depth <= DEPTH && InRange(ps) && a < |ps|
    ensures Root(ps, a, depth).Some? ==> Root(ps, a, depth).value.0 < |ps|
    decreases DEPTH - depth
  {
    if ps[a].Some? && depth < DEPTH {
      RootInRange(ps, ps[a].value, depth + 1);
    }
  }

  lemma {:induction false} WeightWalked(ps: Proxies, before: seq<Account>, after: seq<Account>, x: nat,
                                        delta: seq<int>, t: nat)
    requires |delta| == DEPTH + 1 && Shaped(before) && Walked(ps, before, after, x, delta, 0)
    requires t < |before| && (t >= |ps| || ps[t].None?)
    ensures var r := Root(ps, x, 0);
      Weight(after[t]) - Weight(before[t]) ==
        if r.Some? && r.value.0 == t && 0 < r.value.1 <= DEPTH then Total(delta, DEPTH + 1 - r.value.1) else 0
  {
    AddToRoot(ps, x, delta, 0, t);
    FourTotal(before[t].proxied);
    FourTotal(after[t].proxied);
  }

  lemma {:induction false} FourTotal(s: seq<int>)
    requires |s| == DEPTH
    ensures Total(s, |s|) == s[0] + s[1] + s[2] + s[3]
  {
    assert Total(s, 1) == s[0];
    assert Total(s, 2) == Total(s, 1) + s[1];
    assert Total(s, 3) == Total(s, 2) + s[2];
  }

  /**
   A walk from a proxied account changes the recounts by exactly what it hands to the root's
   witnesses, whether the account counts as attached to its proxy before and after or not.
   */
  lemma {:induction false} RecountWalked(psA: Proxies, psB: Proxies, ps: Proxies, before: seq<Account>,
                                         after: seq<Account>,
                      x: nat, delta: seq<int>, w: nat)
    requires |psA| == |psB| == |ps| == |before| && x < |ps| && InRange(ps) && ps[x].Some?
    requires forall a :: 0 <= a < |ps| && a != x ==> psA[a] == psB[a] == ps[a]
    requires |delta| == DEPTH + 1 && Shaped(before) && Walked(ps, before, after, x, delta, 0)
    ensures Recount(psB, after, x, w) == Recount(psA, before, x, w) + VoteAdd(ps, before, x, delta, 0, w)
  {
    var f, g := VoteTerm(psA, before, x, w), VoteTerm(psB, after, x, w);
    RootBound(ps, x, 0);
    RootInRange(ps, x, 0);
    var r := Root(ps, x, 0);
    forall a | 0 <= a < |before| && !(r.Some? && a == r.value.0)
      ensures f(a) == g(a)
    {
      if a != x && ps[a].None? {
        WeightWalked(ps, before, after, x, delta, a);
      }
    }
    if r.Some? {
      WeightWalked(ps, before, after, x, delta, r.value.0);
      SumChange(|before|, f, g, r.value.0);
    } else {
      SumEqual(|before|, f, g);
    }
  }

  /** Leaving out an account takes away its weight from its own witnesses, if it has no proxy. */
  lemma {:induction false} RecountWithout(ps: Proxies, accounts: seq<Account>, x: nat, w: nat)
    requires |ps| == |accounts| && x < |ps|
    ensures Recount(ps, accounts, x, w) == Recount(ps, accounts, |ps|, w)
      - (if ps[x].None? && w in accounts[x].votedFor then Weight(accounts[x]) else 0)
  {
    SumChange(|ps|, VoteTerm(ps, accounts, |ps|, w), VoteTerm(ps, accounts, x, w), x);
  }

  /** A change of votes or proxy of an account that is left out does not matter. */
  lemma {:induction false} RecountIgnores(ps: Proxies, ps': Proxies, accounts: seq<Account>, accounts': seq<Account>,
                                          x: nat, w: nat)
    requires |ps| == |ps'| == |accounts| == |accounts'| && x < |ps|
    requires forall a :: 0 <= a < |ps| && a != x ==> ps[a] == ps'[a] && accounts[a] == accounts'[a]
    ensures Recount(ps, accounts, x, w) == Recount(ps', accounts', x, w)
  {
    SumEqual(|ps|, VoteTerm(ps, accounts, x, w), VoteTerm(ps', accounts', x, w));
  }

  /** Nobody's votes or vests are touched. */
  ghost predicate SameVotes(a: seq<Account>, b: seq<Account>) {
    |a| == |b| && forall i :: 0 <= i < |a| ==> a[i].votedFor == b[i].votedFor
  }

  /** A change of one account's vests changes the counts at its ancestors. */
  lemma {:induction false} TalliedMore(ps: Proxies, before: seq<Account>, raised: seq<Account>, after: seq<Account>,
                                       x: nat, d: int)
    requires |ps| == |before| && x < |before| && Shaped(before) && Tallied(ps, before) && Acyclic(ps)
    requires raised == before[x := before[x].(vests := before[x].vests + d)]
    requires Walked(ps, raised, after, x, [d, 0, 0, 0, 0], 0)
    ensures Tallied(ps, after)
  {
    assert VestsOf(after) == VestsOf(raised);
    forall t, i | 0 <= t < |after| && 0 <= i < DEPTH
      ensures after[t].proxied[i] == At(ps, VestsOf(after), t, i + 1)
    {
      SumChange(|before|, AtTerm(ps, VestsOf(before), t, i + 1), AtTerm(ps, VestsOf(raised), t, i + 1), x);
      AddIsSum(ps, x, x, [d, 0, 0, 0, 0], 0, t, i);
      var f := AddTerm(ps, x, [d, 0, 0, 0, 0], t, i);
      SumZero(i, f);
      assert raised[t].proxied == before[t].proxied;
    }
  }

  lemma {:induction false} OnlyFirst(delta: int, n: nat)
    requires 0 < n <= DEPTH + 1
    ensures Total([delta, 0, 0, 0, 0], n) == delta
  {
    if n > 1 {
      OnlyFirst(delta, n - 1);
    }
  }

  lemma {:induction false} RecountMore(ps: Proxies, before: seq<Account>, raised: seq<Account>, after: seq<Account>,
                                       x: nat, d: int, w: nat)
    requires |ps| == |before| && x < |before| && Shaped(before) && InRange(ps)
    requires raised == before[x := before[x].(vests := before[x].vests + d)]
    requires Walked(ps, raised, after, x, [d, 0, 0, 0, 0], 0)
    ensures Recount(ps, after, |ps|, w) == Recount(ps, before, |ps|, w) + VoteAdd(ps, raised, x, [d, 0, 0, 0, 0], 0, w)
  {
    var f, g := VoteTerm(ps, before, |ps|, w), VoteTerm(ps, after, |ps|, w);
    RootBound(ps, x, 0);
    RootInRange(ps, x, 0);
    var r := Root(ps, x, 0);
    forall a | 0 <= a < |before| && !(r.Some? && a == r.value.0)
      ensures f(a) == g(a)
    {
      if ps[a].None? {
        WeightWalked(ps, raised, after, x, [d, 0, 0, 0, 0], a);
      }
    }
    if r.Some? {
      WeightWalked(ps, raised, after, x, [d, 0, 0, 0, 0], r.value.0);
      OnlyFirst(d, DEPTH + 1 - r.value.1);
      SumChange(|before|, f, g, r.value.0);
    } else {
      SumEqual(|before|, f, g);
    }
  }

  /** An account's own fields say what it carries. */
  lemma {:induction false} CarriesOwn(ps0: Proxies, ps1: Proxies, accounts: seq<Account>, x: nat, delta: seq<int>)
    requires Attached(ps0, ps1, x) && |ps0| == |accounts| && Shaped(accounts) && Tallied(ps1, accounts) && Acyclic(ps1)
    requires delta == [accounts[x].vests] + accounts[x].proxied
    ensures Carries(ps0, VestsOf(accounts), x, delta)
  {
    forall j | 0 <= j <= DEPTH
      ensures delta[j] == At(ps0, VestsOf(accounts), x, j)
    {
      CarriesEitherWay(ps0, ps1, VestsOf(accounts), x, j);
      if j == 0 {
        AtZero(ps0, VestsOf(accounts), x);
      } else {
        assert accounts[x].proxied[j - 1] == At(ps1, VestsOf(accounts), x, j);
      }
    }
  }

  ghost predicate CountedWithout(ps: Proxies, accounts: seq<Account>, votes: seq<int>, absent: nat) {
    forall w :: 0 <= w < |votes| ==> votes[w] == Recount(ps, accounts, absent, w)
  }

  ghost predicate VotesMoved(ps: Proxies, accounts: seq<Account>, votes: seq<int>, votes': seq<int>, x: nat,
                             delta: seq<int>)
    requires |delta| == DEPTH + 1
  {
    |votes'| == |votes| && forall w :: 0 <= w < |votes| ==>
      votes'[w] == votes[w] + VoteAdd(ps, accounts, x, delta, 0, w)
  }

  /** The votes after a walk that is not stopped. */
  ghost function Moved(ps: Proxies, accounts: seq<Account>, votes: seq<int>, x: nat, delta: seq<int>): (moved: seq<int>)
    requires |delta| == DEPTH + 1
    ensures VotesMoved(ps, accounts, votes, moved, x, delta)
  {
    seq(|votes|, w requires 0 <= w < |votes| => votes[w] + VoteAdd(ps, accounts, x, delta, 0, w))
  }

  /** An account that has just got a proxy. */
  function Handed(accounts: seq<Account>, x: nat, proxy: Option<nat>): seq<Account>
    requires x < |accounts|
  {
    accounts[x := accounts[x].(votedFor := {}, proxy := proxy)]
  }

  /** What an account carries, its own vests first, and the same to be taken away. */
  function Carried(a: Account): seq<int> {
    [a.vests] + a.proxied
  }

  function Negated(delta: seq<int>): (minus: seq<int>)
    ensures |minus| == |delta| && forall j :: 0 <= j < |delta| ==> minus[j] == -delta[j]
  {
    seq(|delta|, j requires 0 <= j < |delta| => -delta[j])
  }

  /** A proxy can be set: it is another one, its chain is short and free of `x`, and no tally is stopped on the way. */
  ghost predicate MayChange(accounts: seq<Account>, votes: seq<int>, total: int, x: nat, proxy: Option<nat>)
    requires Shaped(accounts) && x < |accounts|
  {
    var ps, delta := ProxiesOf(accounts), Carried(accounts[x]);
    && proxy != accounts[x].proxy && proxy != Some(x)
    && Passes(ps, accounts, votes, x, Negated(delta), 0, total)
    && (proxy.Some? ==>
         && proxy.value < |accounts| && ShortChain(ps, x, proxy.value)
         && Passes(ps[x := proxy], Handed(accounts, x, proxy), Moved(ps, accounts, votes, x, Negated(delta)), x, delta,
            0, total))
  }

  /** Taking everything an account carries out of its chain leaves the tallies without it. */
  lemma {:induction false} Detached(ps0: Proxies, ps1: Proxies, before: seq<Account>, after: seq<Account>,
                                    votes: seq<int>, votes': seq<int>,
                 x: nat, delta: seq<int>, minus: seq<int>)
    requires Attached(ps0, ps1, x) && |ps0| == |before| && InRange(ps1) && Shaped(before) && Tallied(ps1, before)
    requires Acyclic(ps1)
    requires delta == [before[x].vests] + before[x].proxied
    requires |minus| == DEPTH + 1 && (forall j :: 0 <= j <= DEPTH ==> minus[j] == -delta[j])
    requires Walked(ps1, before, after, x, minus, 0)
    requires CountedWithout(ps1, before, votes, |before|) && VotesMoved(ps1, before, votes, votes', x, minus)
    ensures Tallied(ps0, after) && Acyclic(ps0) && Carries(ps0, VestsOf(after), x, delta)
    ensures CountedWithout(ps0, after, votes', x)
  {
    assert VestsOf(after) == VestsOf(before);
    CarriesOwn(ps0, ps1, before, x, delta);
    TalliedDetach(ps0, ps1, x, before, after, delta, minus);
    DetachAcyclic(ps0, ps1, x);
    forall w | 0 <= w < |votes|
      ensures votes'[w] == Recount(ps0, after, x, w)
    {
      RecountWithout(ps1, before, x, w);
      if ps1[x].Some? {
        RecountWalked(ps1, ps0, ps1, before, after, x, minus, w);
      } else {
        assert ps0 == ps1;
        forall t | 0 <= t < |before|
          ensures after[t] == before[t]
        {
          assert after[t].proxied == before[t].proxied;
        }
        assert after == before;
        AllOfIt(before[x], delta, minus);
      }
    }
  }

  lemma {:induction false} AllOfIt(a: Account, delta: seq<int>, minus: seq<int>)
    requires |a.proxied| == DEPTH && delta == [a.vests] + a.proxied
    requires |minus| == DEPTH + 1 && (forall j :: 0 <= j <= DEPTH ==> minus[j] == -delta[j])
    ensures Total(minus, DEPTH + 1) == -Weight(a)
  {
    FourTotal(a.proxied);
    assert Total(minus, 1) == minus[0];
    assert Total(minus, 2) == Total(minus, 1) + minus[1];
    assert Total(minus, 3) == Total(minus, 2) + minus[2];
    assert Total(minus, 4) == Total(minus, 3) + minus[3];
  }

  /** Putting what an account carries into the chain of its new proxy completes the tallies. */
  lemma {:induction false} Reattached(ps0: Proxies, ps2: Proxies, left: seq<Account>, joined: seq<Account>,
                                      after: seq<Account>,
                   votes: seq<int>, votes': seq<int>, x: nat, delta: seq<int>)
    requires Attached(ps0, ps2, x) && |ps0| == |left| == |joined| && InRange(ps2) && ps2[x].Some?
    requires Shaped(left) && Tallied(ps0, left) && Carries(ps0, VestsOf(left), x, delta)
    requires joined[x].vests == left[x].vests && joined[x].proxied == left[x].proxied
    requires forall a :: 0 <= a < |left| && a != x ==> joined[a] == left[a]
    requires Shaped(joined) && Walked(ps2, joined, after, x, delta, 0)
    requires CountedWithout(ps0, left, votes, x) && VotesMoved(ps2, joined, votes, votes', x, delta)
    ensures Tallied(ps2, after) && CountedWithout(ps2, after, votes', |after|)
  {
    assert VestsOf(joined) == VestsOf(left);
    TalliedAttach(ps0, ps2, x, joined, after, delta);
    forall w | 0 <= w < |votes|
      ensures votes'[w] == Recount(ps2, after, |after|, w)
    {
      RecountIgnores(ps0, ps0, left, joined, x, w);
      RecountWalked(ps0, ps2, ps2, joined, after, x, delta, w);
      RecountWithout(ps2, after, x, w);
    }
  }

  /** Without a proxy and without votes an account may as well be left out. */
  lemma {:induction false} Cleared(ps0: Proxies, left: seq<Account>, after: seq<Account>, votes: seq<int>, x: nat)
    requires |ps0| == |left| && x < |ps0| && Tallied(ps0, left) && CountedWithout(ps0, left, votes, x)
    requires after == left[x := left[x].(proxy := None)] && left[x].votedFor == {}
    ensures Tallied(ps0, after) && CountedWithout(ps0, after, votes, |after|)
  {
    assert VestsOf(after) == VestsOf(left);
    forall w | 0 <= w < |votes|
      ensures votes[w] == Recount(ps0, after, |after|, w)
    {
      RecountIgnores(ps0, ps0, left, after, x, w);
      RecountWithout(ps0, after, x, w);
    }
  }

  /** A vote cast or withdrawn moves the weight of the voter, which has no proxy, to or from the witness. */
  lemma {:induction false} VoteCounted(ps: Proxies, before: seq<Account>, after: seq<Account>, votes: seq<int>,
                                       votes': seq<int>,
                    x: nat, w: nat, cast: bool)
    requires |ps| == |before| && x < |before| && ps[x].None? && w < |votes|
    requires Tallied(ps, before) && CountedWithout(ps, before, votes, |before|)
    requires after ==
      before[x := before[x].(votedFor := if cast then before[x].votedFor + {w} else before[x].votedFor - {w})]
    requires (w in before[x].votedFor) == !cast
    requires votes' == votes[w := votes[w] + if cast then Weight(before[x]) else -Weight(before[x])]
    ensures Tallied(ps, after) && CountedWithout(ps, after, votes', |after|)
  {
    assert VestsOf(after) == VestsOf(before);
    forall v | 0 <= v < |votes|
      ensures votes'[v] == Recount(ps, after, |after|, v)
    {
      RecountWithout(ps, before, x, v);
      RecountWithout(ps, after, x, v);
      RecountIgnores(ps, ps, before, after, x, v);
    }
  }

  lemma {:induction false} VestsCounted(ps: Proxies, before: seq<Account>, raised: seq<Account>, after: seq<Account>,
                     votes: seq<int>, votes': seq<int>, x: nat, d: int)
    requires |ps| == |before| && x < |before| && Shaped(before) && InRange(ps) && Acyclic(ps)
    requires Tallied(ps, before) && CountedWithout(ps, before, votes, |before|)
    requires raised == before[x := before[x].(vests := before[x].vests + d)]
    requires Walked(ps, raised, after, x, [d, 0, 0, 0, 0], 0)
    requires VotesMoved(ps, raised, votes, votes', x, [d, 0, 0, 0, 0])
    ensures Tallied(ps, after) && CountedWithout(ps, after, votes', |after|)
  {
    TalliedMore(ps, before, raised, after, x, d);
    forall w | 0 <= w < |votes|
      ensures votes'[w] == Recount(ps, after, |after|, w)
    {
      RecountMore(ps, before, raised, after, x, d, w);
    }
  }

  /** What `validate_invariants` adds up for an account: its whole weight, or what lies too deep below a proxied one. */
  ghost function Counted(ps: Proxies, accounts: seq<Account>): nat -> int {
    (a: nat) =>
      if a >= |accounts| || a >= |ps| || |accounts[a].proxied| != DEPTH then 0
      else if ps[a].None? then Weight(accounts[a])
      else accounts[a].proxied[DEPTH - 1]
  }

  /** The account that ends up with the vests of `b`: the end of its chain, or the account `n` steps up. */
  ghost function Holder(ps: Proxies, b: nat, n: nat): nat
    decreases n
  {
    if n == 0 || b >= |ps| || ps[b].None? then b else Holder(ps, ps[b].value, n - 1)
  }

  /** How often the vests of `b` are part of what is added up for `a`. */
  ghost function Times(ps: Proxies, b: nat, a: nat, n: nat): int
    decreases n
  {
    if a < |ps| && ps[a].Some? then Indicator(Anc(ps, b, n) == Some(a))
    else if n == 0 then Indicator(b == a)
    else Indicator(Anc(ps, b, n) == Some(a)) + Times(ps, b, a, n - 1)
  }

  lemma {:induction false} TimesStep(ps: Proxies, b: nat, a: nat, n: nat)
    requires b < |ps| && ps[b].Some? && n > 0
    ensures Times(ps, b, a, n) == Times(ps, ps[b].value, a, n - 1)
    decreases n
  {
    if !(a < |ps| && ps[a].Some?) && n > 1 {
      TimesStep(ps, b, a, n - 1);
    } else {
      assert Anc(ps, b, n) == Anc(ps, ps[b].value, n - 1);
    }
  }

  lemma {:induction false} TimesAtRoot(ps: Proxies, b: nat, a: nat, n: nat)
    requires b >= |ps| || ps[b].None?
    ensures Times(ps, b, a, n) == Indicator(b == a)
    decreases n
  {
    if n > 0 {
      TimesAtRoot(ps, b, a, n - 1);
    }
  }

  /** Every vest is counted at exactly one account. */
  lemma {:induction false} CountedOnce(ps: Proxies, b: nat, a: nat, n: nat)
    ensures Times(ps, b, a, n) == Indicator(Holder(ps, b, n) == a)
    decreases n
  {
    if b >= |ps| || ps[b].None? {
      TimesAtRoot(ps, b, a, n);
    } else if n > 0 {
      TimesStep(ps, b, a, n);
      CountedOnce(ps, ps[b].value, a, n - 1);
    }
  }

  lemma {:induction false} HolderInRange(ps: Proxies, b: nat, n: nat)
    requires InRange(ps) && b < |ps|
    ensures Holder(ps, b, n) < |ps|
    decreases n
  {
    if n > 0 && ps[b].Some? {
      HolderInRange(ps, ps[b].value, n - 1);
    }
  }

  /** What the vests of each account add to what is counted for `a`, within `n` steps. */
  ghost function VestTerm(ps: Proxies, vests: seq<int>, a: nat, n: nat): nat -> int {
    (b: nat) => if b < |vests| then vests[b] * Times(ps, b, a, n) else 0
  }

  ghost function ByHolder(ps: Proxies, vests: seq<int>, b: nat): nat -> int {
    (a: nat) => if b < |vests| then vests[b] * Times(ps, b, a, DEPTH) else 0
  }

  lemma {:induction false} Weighed(v: int, a: bool, t: int)
    ensures v * (Indicator(a) + t) == (if a then v else 0) + v * t
  {
  }

  /** An account without a proxy counts the vests at every distance up to `n`. */
  lemma {:induction false} CountedWithin(ps: Proxies, vests: seq<int>, a: nat, n: nat)
    requires a < |ps| && ps[a].None? && n > 0
    ensures Sum(|vests|, VestTerm(ps, vests, a, n)) == At(ps, vests, a, n) + Sum(|vests|, VestTerm(ps, vests, a, n - 1))
  {
    var whole, part, far := VestTerm(ps, vests, a, n), VestTerm(ps, vests, a, n - 1), AtTerm(ps, vests, a, n);
    forall b | 0 <= b < |vests|
      ensures whole(b) == far(b) + part(b)
    {
      Weighed(vests[b], Anc(ps, b, n) == Some(a), Times(ps, b, a, n - 1));
    }
    SumAdd(|vests|, far, part, whole);
  }

  lemma {:induction false} CountedHere(ps: Proxies, vests: seq<int>, a: nat)
    requires a < |ps| && ps[a].None? && |vests| == |ps|
    ensures Sum(|vests|, VestTerm(ps, vests, a, 0)) == vests[a]
  {
    SumEqual(|vests|, VestTerm(ps, vests, a, 0), AtTerm(ps, vests, a, 0));
    AtZero(ps, vests, a);
  }

  lemma {:induction false} CountedTooDeep(ps: Proxies, vests: seq<int>, a: nat)
    requires a < |ps| && ps[a].Some?
    ensures Sum(|vests|, VestTerm(ps, vests, a, DEPTH)) == At(ps, vests, a, DEPTH)
  {
    SumEqual(|vests|, VestTerm(ps, vests, a, DEPTH), AtTerm(ps, vests, a, DEPTH));
  }

  /** What is added up for one account, vest by vest. */
  lemma {:induction false} CountedByVest(ps: Proxies, accounts: seq<Account>, a: nat)
    requires |ps| == |accounts| && a < |ps| && Shaped(accounts) && Tallied(ps, accounts)
    ensures Counted(ps, accounts)(a) == Sum(|accounts|, VestTerm(ps, VestsOf(accounts), a, DEPTH))
  {
    hide Sum, VestTerm, AtTerm, At;
    var vs := VestsOf(accounts);
    if ps[a].Some? {
      CountedTooDeep(ps, vs, a);
    } else {
      CountedHere(ps, vs, a);
      CountedWithin(ps, vs, a, 1);
      CountedWithin(ps, vs, a, 2);
      CountedWithin(ps, vs, a, 3);
      CountedWithin(ps, vs, a, 4);
      FourTotal(accounts[a].proxied);
    }
  }

  ghost function Nothing(): nat -> int {
    (a: nat) => 0
  }

  ghost function VestOf(accounts: seq<Account>): nat -> int {
    (b: nat) => if b < |accounts| then accounts[b].vests else 0
  }

  lemma {:induction false} VestIsHeldOnce(ps: Proxies, accounts: seq<Account>, b: nat)
    requires |ps| == |accounts| && InRange(ps) && b < |ps|
    ensures accounts[b].vests == Sum(|accounts|, ByHolder(ps, VestsOf(accounts), b))
  {
    var vs, n := VestsOf(accounts), |accounts|;
    HolderInRange(ps, b, DEPTH);
    SumZero(n, Nothing());
    var terms := ByHolder(ps, vs, b);
    forall a | 0 <= a < n
      ensures terms(a) == if a == Holder(ps, b, DEPTH) then vs[b] else 0
    {
      CountedOnce(ps, b, a, DEPTH);
    }
    SumChange(n, Nothing(), terms, Holder(ps, b, DEPTH));
  }

  /**
   No vest is lost and none is counted twice, however deep the chains: what `validate_invariants`
   adds up over all accounts is the sum of all vests.
   */
  lemma {:induction false} TallyIsTotalVests(ps: Proxies, accounts: seq<Account>)
    requires |ps| == |accounts| && InRange(ps) && Shaped(accounts) && Tallied(ps, accounts)
    ensures Sum(|accounts|, Counted(ps, accounts)) == Sum(|accounts|, VestOf(accounts))
  {
    var vs, n := VestsOf(accounts), |accounts|;
    var f, g := (a: nat) => VestTerm(ps, vs, a, DEPTH), (b: nat) => ByHolder(ps, vs, b);
    forall a | 0 <= a < n
      ensures Counted(ps, accounts)(a) == Sum(n, f(a))
    {
      CountedByVest(ps, accounts, a);
    }
    forall b | 0 <= b < n
      ensures VestOf(accounts)(b) == Sum(n, g(b))
    {
      VestIsHeldOnce(ps, accounts, b);
    }
    SumSwap(n, n, f, g, Counted(ps, accounts), VestOf(accounts));
  }
}
