/**
 Vests counted along proxy chains.  `At` counts from scratch what `proxied_vsf_votes` is to hold;
 `Add` is what one walk along a chain adds to it.
 */
module ProxySpec {
  import opened Wrappers
  import opened Sums

  /** `BTCM_MAX_PROXY_RECURSION_DEPTH`. */
  const DEPTH: nat := 4

  /** The proxy of every account, by account id. */
  type Proxies = seq<Option<nat>>

  ghost predicate InRange(ps: Proxies) {
    forall a :: 0 <= a < |ps| && ps[a].Some? ==> ps[a].value < |ps|
  }

  /** The account `k` proxies up from `a`. */
  ghost function Anc(ps: Proxies, a: nat, k: nat): Option<nat>
    decreases k
  {
    if k == 0 then Some(a)
    else if a >= |ps| || ps[a].None? then None
    else Anc(ps, ps[a].value, k - 1)
  }

  /** No account is its own proxy, directly or through others. */
  ghost predicate Acyclic(ps: Proxies) {
    forall a: nat, k: nat :: a < |ps| && k > 0 ==> Anc(ps, a, k) != Some(a)
  }

  /** The chain of `p` leads past neither `x` nor the depth that is left below `x`. */
  ghost predicate ShortChain(ps: Proxies, x: nat, p: nat) {
    Anc(ps, p, DEPTH - 1).None? && forall k: nat :: Anc(ps, p, k) != Some(x)
  }

  lemma {:induction false} AncAnc(ps: Proxies, a: nat, j: nat, k: nat)
    ensures Anc(ps, a, j + k) == if Anc(ps, a, j).None? then None else Anc(ps, Anc(ps, a, j).value, k)
    decreases j
  {
    if j > 0 && a < |ps| && ps[a].Some? {
      AncAnc(ps, ps[a].value, j - 1, k);
    }
  }

  ghost function AtTerm(ps: Proxies, vests: seq<int>, t: nat, k: nat): nat -> int {
    (b: nat) => if b < |vests| && Anc(ps, b, k) == Some(t) then vests[b] else 0
  }

  /** The vests of all accounts whose proxy chain is at `t` after exactly `k` steps. */
  ghost function At(ps: Proxies, vests: seq<int>, t: nat, k: nat): int {
    Sum(|vests|, AtTerm(ps, vests, t, k))
  }

  lemma {:induction false} AtZero(ps: Proxies, vests: seq<int>, t: nat)
    requires t < |vests|
    ensures At(ps, vests, t, 0) == vests[t]
  {
    var none := (b: nat) => 0;
    SumZero(|vests|, none);
    SumChange(|vests|, none, AtTerm(ps, vests, t, 0), t);
  }

  /** What a walk from `a`, `depth` steps into a chain, adds to entry `i` of account `t`. */
  ghost function Add(ps: Proxies, a: nat, delta: seq<int>, depth: nat, t: nat, i: nat): int
    requires |delta| == DEPTH + 1
    decreases DEPTH - depth
  {
    if a >= |ps| || ps[a].None? || depth >= DEPTH then 0
    else
      var here := if ps[a].value == t && depth <= i < DEPTH then delta[i - depth] else 0;
      here + Add(ps, ps[a].value, delta, depth + 1, t, i)
  }

  /** Where the walk ends: the account without a proxy and its distance, unless it is too far away. */
  ghost function Root(ps: Proxies, a: nat, depth: nat): Option<(nat, nat)>
    requires depth <= DEPTH
    decreases DEPTH - depth
  {
    if a >= |ps| || ps[a].None? then Some((a, depth))
    else if depth >= DEPTH then None
    else Root(ps, ps[a].value, depth + 1)
  }

  /** The first `n` elements of `delta` together. */
  function Total(delta: seq<int>, n: nat): int
    requires n <= |delta|
  {
    if n == 0 then 0 else Total(delta, n - 1) + delta[n - 1]
  }

  /** A contribution of distance `i - m` that reaches `t` after `m + 1` more steps. */
  ghost function AddTerm(ps: Proxies, x: nat, delta: seq<int>, t: nat, i: nat): nat -> int {
    (m: nat) => if m <= i && i - m < |delta| && Anc(ps, x, m + 1) == Some(t) then delta[i - m] else 0
  }

  /** Nothing is added below the depth of the walk. */
  lemma {:induction false} AddBelow(ps: Proxies, a: nat, delta: seq<int>, depth: nat, t: nat, i: nat)
    requires |delta| == DEPTH + 1 && i < depth
    ensures Add(ps, a, delta, depth, t, i) == 0
    decreases DEPTH - depth
  {
    if a < |ps| && ps[a].Some? && depth < DEPTH {
      AddBelow(ps, ps[a].value, delta, depth + 1, t, i);
    }
  }

  lemma {:induction false} SumTail(n: nat, m: nat, f: nat -> int)
    requires m <= n && forall i :: m <= i < n ==> f(i) == 0
    ensures Sum(n, f) == Sum(m, f)
  {
    if m < n {
      SumTail(n - 1, m, f);
    }
  }

  /** The walk adds, for every distance, the delta of the remaining distance. */
  lemma {:induction false} AddIsSum(ps: Proxies, x: nat, a: nat, delta: seq<int>, depth: nat, t: nat, i: nat)
    requires |delta| == DEPTH + 1 && i < DEPTH && depth <= i + 1 && Anc(ps, x, depth) == Some(a)
    ensures Add(ps, a, delta, depth, t, i) ==
      Sum(i + 1, AddTerm(ps, x, delta, t, i)) - Sum(depth, AddTerm(ps, x, delta, t, i))
    decreases DEPTH - depth
  {
    var f := AddTerm(ps, x, delta, t, i);
    if depth == i + 1 {
      AddBelow(ps, a, delta, depth, t, i);
    } else {
      AncAnc(ps, x, depth, 1);
      if a >= |ps| || ps[a].None? {
        forall m | depth <= m < i + 1
          ensures f(m) == 0
        {
          AncAnc(ps, x, depth, m + 1 - depth);
        }
        SumTail(i + 1, depth, f);
      } else {
        assert Anc(ps, ps[a].value, 0) == ps[a];
        assert Anc(ps, x, depth + 1) == ps[a];
        assert f(depth) == if ps[a].value == t then delta[i - depth] else 0;
        assert Sum(depth + 1, f) == Sum(depth, f) + f(depth);
        AddIsSum(ps, x, ps[a].value, delta, depth + 1, t, i);
        hide Sum, Anc, AddTerm;
      }
    }
  }

  ghost function Indicator(b: bool): int {
    if b then 1 else 0
  }

  /** `ps1` differs from `ps0` in that `x`, which has no proxy in `ps0`, may have one. */
  ghost predicate Attached(ps0: Proxies, ps1: Proxies, x: nat) {
    && |ps0| == |ps1| && x < |ps0| && ps0[x].None?
    && forall a :: 0 <= a < |ps0| && a != x ==> ps1[a] == ps0[a]
  }

  ghost function HopTerm(ps0: Proxies, ps1: Proxies, x: nat, b: nat, k: nat, t: nat): nat -> int {
    (m: nat) => Indicator(m < k && Anc(ps0, b, k - 1 - m) == Some(x) && Anc(ps1, x, m + 1) == Some(t))
  }

  /** When `x` gets a proxy, the chains through `x` grow by the chain of that proxy. */
  lemma {:induction false} Hop(ps0: Proxies, ps1: Proxies, x: nat, b: nat, k: nat, t: nat)
    requires Attached(ps0, ps1, x)
    ensures Indicator(Anc(ps1, b, k) == Some(t)) == Indicator(Anc(ps0, b, k) == Some(t))
      + Sum(k, HopTerm(ps0, ps1, x, b, k, t))
    decreases k
  {
    var f := HopTerm(ps0, ps1, x, b, k, t);
    if k > 0 {
      if b == x {
        forall m | 0 <= m < k - 1
          ensures f(m) == 0
        {
          assert Anc(ps0, x, k - 1 - m) == None;
          assert f(m) == Indicator(Anc(ps1, x, m + 1) == Some(t) && Anc(ps0, b, k - 1 - m) == Some(x));
        }
        SumZero(k - 1, f);
      } else if b >= |ps0| || ps0[b].None? {
        forall m | 0 <= m < k
          ensures f(m) == 0
        {
          assert Anc(ps0, b, k - 1 - m) != Some(x);
          assert f(m) == Indicator(Anc(ps1, x, m + 1) == Some(t) && Anc(ps0, b, k - 1 - m) == Some(x));
        }
        SumZero(k, f);
      } else {
        Hop(ps0, ps1, x, ps0[b].value, k - 1, t);
        HopOn(ps0, ps1, x, b, k, t);
      }
    }
  }

  /** Chains that do not start at `x` go on in the same way. */
  lemma {:induction false} HopOn(ps0: Proxies, ps1: Proxies, x: nat, b: nat, k: nat, t: nat)
    requires Attached(ps0, ps1, x) && k > 0 && b != x && b < |ps0| && ps0[b].Some?
    ensures Anc(ps0, b, k) == Anc(ps0, ps0[b].value, k - 1) && Anc(ps1, b, k) == Anc(ps1, ps0[b].value, k - 1)
    ensures Sum(k, HopTerm(ps0, ps1, x, b, k, t)) == Sum(k - 1, HopTerm(ps0, ps1, x, ps0[b].value, k - 1, t))
  {
    var q := ps0[b].value;
    var f, g := HopTerm(ps0, ps1, x, b, k, t), HopTerm(ps0, ps1, x, q, k - 1, t);
    assert Anc(ps0, b, 0) != Some(x);
    assert f(k - 1) == 0;
    forall m | 0 <= m < k - 1
      ensures f(m) == g(m)
    {
      assert Anc(ps0, b, k - 1 - m) == Anc(ps0, q, k - 2 - m);
    }
    SumEqual(k - 1, f, g);
  }

  /** `At` over the first `n` accounts only. */
  ghost function AtBelow(ps: Proxies, vests: seq<int>, t: nat, k: nat, n: nat): int {
    Sum(n, AtTerm(ps, vests, t, k))
  }

  ghost function GainTerm(ps0: Proxies, ps1: Proxies, vests: seq<int>, x: nat, k: nat, t: nat, n: nat): nat -> int {
    (m: nat) => if m < k && Anc(ps1, x, m + 1) == Some(t) then AtBelow(ps0, vests, x, k - 1 - m, n) else 0
  }

  lemma {:induction false} SumScale(n: nat, f: nat -> int, c: int, g: nat -> int)
    requires forall i :: 0 <= i < n ==> g(i) == c * f(i)
    ensures Sum(n, g) == c * Sum(n, f)
  {
    if n > 0 {
      SumScale(n - 1, f, c, g);
      assert c * Sum(n, f) == c * Sum(n - 1, f) + c * f(n - 1);
    }
  }

  /** What `t` gains at distance `k` when `x` gets a proxy: what is at `x` at the distances that remain. */
  lemma {:induction false} Gain(ps0: Proxies, ps1: Proxies, vests: seq<int>, x: nat, k: nat, t: nat, n: nat)
    requires Attached(ps0, ps1, x) && n <= |vests|
    ensures AtBelow(ps1, vests, t, k, n) == AtBelow(ps0, vests, t, k, n) + Sum(k, GainTerm(ps0, ps1, vests, x, k, t, n))
    decreases n
  {
    hide Anc, Attached;
    if n == 0 {
      SumZero(k, GainTerm(ps0, ps1, vests, x, k, t, 0));
    } else {
      var b, v := n - 1, vests[n - 1];
      Gain(ps0, ps1, vests, x, k, t, b);
      Hop(ps0, ps1, x, b, k, t);
      var hop := HopTerm(ps0, ps1, x, b, k, t);
      var weighed := (m: nat) => v * hop(m);
      SumScale(k, hop, v, weighed);
      var before, after := GainTerm(ps0, ps1, vests, x, k, t, b), GainTerm(ps0, ps1, vests, x, k, t, n);
      forall m | 0 <= m < k
        ensures after(m) == before(m) + weighed(m)
      {
        Weigh(v, Anc(ps0, b, k - 1 - m) == Some(x) && Anc(ps1, x, m + 1) == Some(t));
      }
      SumAdd(k, before, weighed, after);
      Weigh(v, Anc(ps0, b, k) == Some(t));
      Weigh(v, Anc(ps1, b, k) == Some(t));
      Distribute(v, Indicator(Anc(ps0, b, k) == Some(t)), Sum(k, hop));
    }
  }

  lemma {:induction false} Weigh(v: int, c: bool)
    ensures v * Indicator(c) == if c then v else 0
  {
  }

  /** A chain that ends without the proxy of `x` is the same with it. */
  lemma {:induction false} ShorterChain(ps0: Proxies, ps1: Proxies, x: nat, a: nat, k: nat)
    requires Attached(ps0, ps1, x) && Anc(ps0, a, k).Some?
    ensures Anc(ps1, a, k) == Anc(ps0, a, k)
    decreases k
  {
    if k > 0 {
      ShorterChain(ps0, ps1, x, ps0[a].value, k - 1);
    }
  }

  lemma {:induction false} DetachAcyclic(ps0: Proxies, ps1: Proxies, x: nat)
    requires Attached(ps0, ps1, x) && Acyclic(ps1)
    ensures Acyclic(ps0)
  {
    forall a: nat, k: nat | a < |ps0| && k > 0
      ensures Anc(ps0, a, k) != Some(a)
    {
      if Anc(ps0, a, k).Some? {
        ShorterChain(ps0, ps1, x, a, k);
      }
    }
  }

  /** A chain that gets to `x` gets there the first time without using the proxy of `x`. */
  lemma {:induction false} FirstArrival(ps0: Proxies, ps1: Proxies, x: nat, a: nat, k: nat) returns (j: nat)
    requires Attached(ps0, ps1, x) && Anc(ps1, a, k) == Some(x)
    ensures j <= k && Anc(ps0, a, j) == Some(x)
    decreases k
  {
    if a == x {
      j := 0;
    } else {
      j := FirstArrival(ps0, ps1, x, ps1[a].value, k - 1);
      j := j + 1;
    }
  }

  /** Either a chain avoids `x` before its end, and then the proxy of `x` plays no part, or it passes through `x`. */
  lemma {:induction false} AvoidOrPass(ps0: Proxies, ps1: Proxies, x: nat, a: nat, k: nat) returns (j: nat)
    requires Attached(ps0, ps1, x) && Anc(ps1, a, k).Some?
    ensures Anc(ps0, a, k) == Anc(ps1, a, k) || (j < k && Anc(ps1, a, j) == Some(x))
    decreases k
  {
    j := 0;
    if k > 0 && a != x {
      var i := AvoidOrPass(ps0, ps1, x, ps1[a].value, k - 1);
      j := i + 1;
    }
  }

  /** A proxy whose own chain does not lead to `x` closes no loop. */
  lemma {:induction false} AttachAcyclic(ps0: Proxies, ps1: Proxies, x: nat, p: nat)
    requires Attached(ps0, ps1, x) && Acyclic(ps0) && ps1[x] == Some(p)
    requires forall k: nat :: Anc(ps0, p, k) != Some(x)
    ensures Acyclic(ps1)
  {
    forall a: nat, k: nat | a < |ps1| && k > 0
      ensures Anc(ps1, a, k) != Some(a)
    {
      if Anc(ps1, a, k) == Some(a) {
        var j := AvoidOrPass(ps0, ps1, x, a, k);
        if Anc(ps0, a, k) != Anc(ps1, a, k) {
          AncAnc(ps1, a, j, k - j);
          AncAnc(ps1, x, k - j, j);
          var i := FirstArrival(ps0, ps1, x, p, k - 1);
        }
      }
    }
  }
}
