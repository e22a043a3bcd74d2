/** The order in which an index with a composite key lists its entries. */
module WitnessOrder {

  type Key = (int, int)

  predicate Less(a: Key, b: Key) {
    a.0 < b.0 || (a.0 == b.0 && a.1 < b.1)
  }

  ghost predicate Distinct(s: seq<nat>) {
    forall i, j :: 0 <= i < j < |s| ==> s[i] != s[j]
  }

  /** `order` lists all positions below `n`, smallest key first. */
  ghost predicate Lists(order: seq<nat>, keys: seq<Key>, n: nat) {
    && n <= |keys| && |order| == n
    && (forall i :: 0 <= i < n ==> order[i] < n)
    && (forall i, j :: 0 <= i < j < n ==> Less(keys[order[i]], keys[order[j]]))
    && (forall k :: 0 <= k < n ==> k in order)
  }

  lemma {:induction false} ListsIsDistinct(order: seq<nat>, keys: seq<Key>, n: nat)
    requires Lists(order, keys, n)
    ensures Distinct(order) && |order| == n && forall i :: 0 <= i < n ==> order[i] < n
  {
    forall i, j | 0 <= i < j < |order|
      ensures order[i] != order[j]
    {
      assert Less(keys[order[i]], keys[order[j]]);
    }
  }

  lemma {:induction false} OneMore(order: seq<nat>, keys: seq<Key>, n: nat, p: nat)
    requires Lists(order, keys, n) && n < |keys| && p <= n
    requires forall i :: 0 <= i < p ==> Less(keys[order[i]], keys[n])
    requires forall i :: p <= i < n ==> Less(keys[n], keys[order[i]])
    ensures Lists(order[..p] + [n] + order[p..], keys, n + 1)
  {
    var more := order[..p] + [n] + order[p..];
    forall k | 0 <= k < n + 1
      ensures k in more
    {
      if k < n {
        assert k in order;
        var i :| 0 <= i < n && order[i] == k;
        assert more[if i < p then i else i + 1] == k;
      } else {
        assert more[p] == k;
      }
    }
  }

  method Order(keys: seq<Key>) returns (order: seq<nat>)
    requires forall i, j :: 0 <= i < j < |keys| ==> keys[i].1 != keys[j].1
    ensures Lists(order, keys, |keys|)
  {
    order := [];
    for n := 0 to |keys|
      invariant Lists(order, keys, n)
    {
      var p := 0;
      while p < n && Less(keys[order[p]], keys[n])
        invariant p <= n && forall i :: 0 <= i < p ==> Less(keys[order[i]], keys[n])
      {
        p := p + 1;
      }
      forall i | p <= i < n
        ensures Less(keys[n], keys[order[i]])
      {
        if i > p {
          assert Less(keys[order[p]], keys[order[i]]);
        }
      }
      OneMore(order, keys, n, p);
      order := order[..p] + [n] + order[p..];
    }
  }

  lemma {:induction false} DistinctIsOnce(s: seq<nat>)
    ensures Distinct(s) <==> forall x :: multiset(s)[x] <= 1
  {
    if s != [] {
      var b, last := s[..|s| - 1], s[|s| - 1];
      assert s == b + [last];
      DistinctIsOnce(b);
      if Distinct(s) {
        assert last !in b;
        assert Distinct(b);
      } else if forall x :: multiset(s)[x] <= 1 {
        assert multiset(s)[last] == multiset(b)[last] + 1;
        assert last !in multiset(b);
        assert forall x :: multiset(b)[x] <= multiset(s)[x];
      }
    }
  }

  /** Changing the order makes no duplicates. */
  lemma {:induction false} ShuffledIsDistinct(s: seq<nat>, shuffled: seq<nat>)
    requires multiset(shuffled) == multiset(s) && Distinct(s)
    ensures Distinct(shuffled) && |shuffled| == |s|
  {
    DistinctIsOnce(s);
    DistinctIsOnce(shuffled);
    assert |multiset(s)| == |s| && |multiset(shuffled)| == |shuffled|;
  }
}
