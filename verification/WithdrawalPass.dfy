/**
 The one pass of `process_vesting_withdrawals` over the accounts in the order of their next payment.
 An account that is paid moves back in that order while the pass goes on from the one that came after it.
 */
module WithdrawalPass {
  import opened Wrappers
  import opened Sums
  import opened VestingSpec
  import opened WitnessOrder

  /** When an account's next part falls due, and how many parts are left. */
  datatype Entry = Entry(next: Option<nat>, left: nat)

  type Plan = seq<Entry>

  ghost predicate Planned(p: Plan) {
    forall a :: 0 <= a < |p| ==> (p[a].next.Some? <==> p[a].left > 0)
  }

  predicate Waits(p: Plan, a: nat) {
    a < |p| && p[a].next.Some?
  }

  predicate DueIn(p: Plan, a: nat, now: nat) {
    Waits(p, a) && p[a].next.value <= now
  }

  /** The place of an account in the index `by_next_vesting_withdrawal`. */
  function KeyOf(p: Plan, a: nat): Key
    requires Waits(p, a)
  {
    (p[a].next.value, a)
  }

  /** The place before all others. */
  const BEGIN: Key := (-1, -1)

  /** Of the first `n` accounts the one that follows `after` in the index. */
  function Following(p: Plan, after: Key, n: nat): (r: Option<nat>)
    requires n <= |p|
    ensures r.Some? ==> r.value < n && Waits(p, r.value) && Less(after, KeyOf(p, r.value))
    ensures forall b :: 0 <= b < n && Waits(p, b) && Less(after, KeyOf(p, b)) ==>
      r.Some? && !Less(KeyOf(p, b), KeyOf(p, r.value))
  {
    if n == 0 then None
    else
      var best := Following(p, after, n - 1);
      if Waits(p, n - 1) && Less(after, KeyOf(p, n - 1))
        && (best.None? || Less(KeyOf(p, n - 1), KeyOf(p, best.value))) then Some(n - 1)
      else best
  }

  /** The plan when account `a` has got one part. */
  function OnePaid(p: Plan, a: nat): Plan
    requires Waits(p, a) && p[a].left > 0
  {
    p[a := if p[a].left == 1 then Entry(None, 0) else Entry(Some(p[a].next.value + INTERVAL_SECONDS), p[a].left - 1)]
  }

  ghost function LeftTerm(p: Plan): nat -> int {
    (a: nat) => if a < |p| then p[a].left else 0
  }

  lemma {:induction false} OnePartLess(p: Plan, a: nat)
    requires Planned(p) && Waits(p, a)
    ensures Planned(OnePaid(p, a)) && 0 <= Sum(|p|, LeftTerm(OnePaid(p, a))) < Sum(|p|, LeftTerm(p))
  {
    SumChange(|p|, LeftTerm(p), LeftTerm(OnePaid(p, a)), a);
    SumNotNegative(|p|, LeftTerm(OnePaid(p, a)));
  }

  /** The pass from account `c` on. */
  ghost function Pass(p: Plan, c: Option<nat>, now: nat): (r: Plan)
    requires Planned(p) && (c.Some? ==> Waits(p, c.value))
    ensures |r| == |p|
    decreases Sum(|p|, LeftTerm(p))
  {
    if c.None? || !DueIn(p, c.value, now) then p
    else
      OnePartLess(p, c.value);
      Pass(OnePaid(p, c.value), Following(p, KeyOf(p, c.value), |p|), now)
  }

  ghost function FullPass(p: Plan, now: nat): (r: Plan)
    requires Planned(p)
    ensures |r| == |p|
  {
    Pass(p, Following(p, BEGIN, |p|), now)
  }

  ghost predicate NothingDue(p: Plan, now: nat) {
    forall a :: 0 <= a < |p| ==> !DueIn(p, a, now)
  }

  /** Payment number `k` of account `a`, counted from 0, falls due by `now`. */
  predicate FallsDue(p: Plan, a: nat, k: nat, now: nat) {
    Waits(p, a) && k < p[a].left && p[a].next.value + k * INTERVAL_SECONDS <= now
  }

  /** Where that payment stands among all payments. */
  function PaymentKey(p: Plan, a: nat, k: nat): Key
    requires Waits(p, a)
  {
    (p[a].next.value + k * INTERVAL_SECONDS, a)
  }

  /** Payment `j` of account `b` comes after payment `k` of account `a` and before payment `k + 1` of it. */
  predicate Between(p: Plan, a: nat, k: nat, b: nat, j: nat)
    requires Waits(p, a)
  {
    Waits(p, b) && Less(PaymentKey(p, a, k), PaymentKey(p, b, j)) && Less(PaymentKey(p, b, j), PaymentKey(p, a, k + 1))
  }

  /** Between two payments of one account that are due, a payment of another account is. */
  ghost predicate Alternating(p: Plan, now: nat) {
    forall a: nat, k: nat :: FallsDue(p, a, k + 1, now) ==> Relieved(p, a, k, now)
  }

  ghost predicate Relieved(p: Plan, a: nat, k: nat, now: nat)
    requires Waits(p, a)
  {
    exists b: nat, j: nat :: FallsDue(p, b, j, now) && Between(p, a, k, b, j)
  }

  /** Nothing is due that the pass has gone by. */
  ghost predicate NothingMissed(p: Plan, c: Option<nat>, now: nat)
    requires c.Some? ==> Waits(p, c.value)
  {
    forall a :: 0 <= a < |p| && DueIn(p, a, now) ==> c.Some? && !Less(KeyOf(p, a), KeyOf(p, c.value))
  }

  /** What has been missed once is still due in the end. */
  lemma {:induction false} MissedStaysDue(p: Plan, c: Option<nat>, now: nat, a: nat)
    requires Planned(p) && (c.Some? ==> Waits(p, c.value))
    requires DueIn(p, a, now) && (c.Some? ==> Less(KeyOf(p, a), KeyOf(p, c.value)))
    ensures DueIn(Pass(p, c, now), a, now)
    decreases Sum(|p|, LeftTerm(p))
  {
    if c.Some? && DueIn(p, c.value, now) {
      OnePartLess(p, c.value);
      MissedStaysDue(OnePaid(p, c.value), Following(p, KeyOf(p, c.value), |p|), now, a);
    }
  }

  /** The payment of `c` is relieved exactly if the account that follows stands before the next payment of `c`. */
  lemma {:induction false} RelievedByFollowing(p: Plan, c: nat, now: nat)
    requires Planned(p) && DueIn(p, c, now) && NothingMissed(p, Some(c), now) && FallsDue(p, c, 1, now)
    ensures var d := Following(p, KeyOf(p, c), |p|);
      Relieved(p, c, 0, now) <==> d.Some? && Less(KeyOf(p, d.value), PaymentKey(p, c, 1))
  {
    var d := Following(p, KeyOf(p, c), |p|);
    if Relieved(p, c, 0, now) {
      var b: nat, j: nat :| FallsDue(p, b, j, now) && Between(p, c, 0, b, j);
      assert DueIn(p, b, now);
      assert b != c;
    }
    if d.Some? && Less(KeyOf(p, d.value), PaymentKey(p, c, 1)) {
      assert FallsDue(p, d.value, 0, now) && Between(p, c, 0, d.value, 0);
    }
  }

  /** The payments that remain after the first payment of `c` are those there were before, without that one. */
  lemma {:induction false} PaymentsRemain(p: Plan, c: nat, now: nat, a: nat, k: nat)
    requires Planned(p) && DueIn(p, c, now)
    ensures var q := OnePaid(p, c); var i := if a == c then k + 1 else k;
      && (FallsDue(q, a, k, now) <==> FallsDue(p, a, i, now))
      && (Waits(q, a) ==> PaymentKey(q, a, k) == PaymentKey(p, a, i))
  {
    assert (k + 1) * INTERVAL_SECONDS == k * INTERVAL_SECONDS + INTERVAL_SECONDS;
  }

  /** The first payment of `c` relieves nobody, and all others are relieved as before. */
  lemma {:induction false} RelievedAlike(p: Plan, c: nat, now: nat, a: nat, k: nat)
    requires Planned(p) && DueIn(p, c, now) && NothingMissed(p, Some(c), now)
    requires FallsDue(OnePaid(p, c), a, k + 1, now)
    ensures var i := if a == c then k + 1 else k;
      Waits(p, a) && (Relieved(OnePaid(p, c), a, k, now) <==> Relieved(p, a, i, now))
  {
    var q := OnePaid(p, c);
    var i := if a == c then k + 1 else k;
    PaymentsRemain(p, c, now, a, k);
    PaymentsRemain(p, c, now, a, k + 1);
    if Relieved(q, a, k, now) {
      var b: nat, j: nat :| FallsDue(q, b, j, now) && Between(q, a, k, b, j);
      PaymentsRemain(p, c, now, b, j);
      assert FallsDue(p, b, if b == c then j + 1 else j, now) && Between(p, a, i, b, if b == c then j + 1 else j);
    }
    if Relieved(p, a, i, now) {
      var b: nat, j: nat :| FallsDue(p, b, j, now) && Between(p, a, i, b, j);
      assert DueIn(p, a, now) && !Less(KeyOf(p, a), KeyOf(p, c));
      assert b == c ==> j > 0;
      PaymentsRemain(p, c, now, b, if b == c then j - 1 else j);
      assert FallsDue(q, b, if b == c then j - 1 else j, now) && Between(q, a, k, b, if b == c then j - 1 else j);
    }
  }

  lemma {:induction false} AlternatingStep(p: Plan, c: nat, now: nat)
    requires Planned(p) && DueIn(p, c, now) && NothingMissed(p, Some(c), now)
    ensures Alternating(p, now) <==>
      Alternating(OnePaid(p, c), now) && (FallsDue(p, c, 1, now) ==> Relieved(p, c, 0, now))
  {
    hide Relieved;
    var q := OnePaid(p, c);
    if Alternating(p, now) {
      forall a: nat, k: nat | FallsDue(q, a, k + 1, now)
        ensures Relieved(q, a, k, now)
      {
        PaymentsRemain(p, c, now, a, k + 1);
        RelievedAlike(p, c, now, a, k);
        assert FallsDue(p, a, (if a == c then k + 1 else k) + 1, now);
      }
      assert FallsDue(p, c, 0 + 1, now) ==> Relieved(p, c, 0, now);
    }
    if Alternating(q, now) && (FallsDue(p, c, 1, now) ==> Relieved(p, c, 0, now)) {
      forall a: nat, k: nat | FallsDue(p, a, k + 1, now)
        ensures Relieved(p, a, k, now)
      {
        if a != c || k > 0 {
          var i := if a == c then k - 1 else k;
          PaymentsRemain(p, c, now, a, i + 1);
          RelievedAlike(p, c, now, a, i);
        }
      }
    }
  }

  /** After a pass that has missed nothing so far nothing is due if and only if the payments alternate. */
  lemma {:induction false} PassIsComplete(p: Plan, c: Option<nat>, now: nat)
    requires Planned(p) && (c.Some? ==> Waits(p, c.value)) && NothingMissed(p, c, now)
    ensures NothingDue(Pass(p, c, now), now) <==> Alternating(p, now)
    decreases Sum(|p|, LeftTerm(p))
  {
    hide Alternating, Relieved, Following, Less;
    if c.None? || !DueIn(p, c.value, now) {
      NobodyDue(p, c, now);
    } else {
      var q, d := OnePaid(p, c.value), Following(p, KeyOf(p, c.value), |p|);
      OnePartLess(p, c.value);
      AlternatingStep(p, c.value, now);
      if FallsDue(p, c.value, 1, now) {
        RelievedByFollowing(p, c.value, now);
      }
      StepMisses(p, c.value, now);
      if NothingMissed(q, d, now) {
        PassIsComplete(q, d, now);
      } else {
        MissedStaysDue(q, d, now, c.value);
      }
    }
  }

  lemma {:induction false} NobodyDue(p: Plan, c: Option<nat>, now: nat)
    requires Planned(p) && (c.Some? ==> Waits(p, c.value)) && NothingMissed(p, c, now)
    requires (c.None? || !DueIn(p, c.value, now))
    ensures NothingDue(p, now) && Alternating(p, now)
  {
    assert forall a: nat, k: nat :: FallsDue(p, a, k, now) ==> DueIn(p, a, now);
  }

  /** Paying `c` misses a payment exactly if the next one of `c` falls due before the account that follows. */
  lemma {:induction false} StepMisses(p: Plan, c: nat, now: nat)
    requires Planned(p) && DueIn(p, c, now) && NothingMissed(p, Some(c), now)
    ensures var q, d := OnePaid(p, c), Following(p, KeyOf(p, c), |p|);
      && (d.Some? ==> Waits(q, d.value))
      && (NothingMissed(q, d, now) <==>
         (FallsDue(p, c, 1, now) ==> d.Some? && Less(KeyOf(p, d.value), PaymentKey(p, c, 1))))
      && (!NothingMissed(q, d, now) ==> DueIn(q, c, now) && (d.Some? ==> Less(KeyOf(q, c), KeyOf(q, d.value))))
  {
    var q, d := OnePaid(p, c), Following(p, KeyOf(p, c), |p|);
    forall a | 0 <= a < |p| && a != c && DueIn(q, a, now)
      ensures d.Some? && !Less(KeyOf(q, a), KeyOf(q, d.value))
    {
      assert DueIn(p, a, now) && Less(KeyOf(p, c), KeyOf(p, a));
    }
    assert DueIn(q, c, now) <==> FallsDue(p, c, 1, now);
    assert DueIn(q, c, now) ==> KeyOf(q, c) == PaymentKey(p, c, 1);
  }

  /** Nothing is due after the pass if and only if between two due payments of one account one of another falls due. */
  lemma {:induction false} NothingDueAfter(p: Plan, now: nat)
    requires Planned(p)
    ensures NothingDue(FullPass(p, now), now) <==> Alternating(p, now)
  {
    PassIsComplete(p, Following(p, BEGIN, |p|), now);
  }

  /** A single account that is more than a week behind gets one part and is still due. */
  lemma {:induction false} OneAccountTwoWeeksBehind()
    ensures var p := [Entry(Some(0), 3)];
      && FullPass(p, 2 * INTERVAL_SECONDS) == [Entry(Some(INTERVAL_SECONDS), 2)]
      && !NothingDue(FullPass(p, 2 * INTERVAL_SECONDS), 2 * INTERVAL_SECONDS)
  {
    var p, now: nat := [Entry(Some(0), 3)], 2 * INTERVAL_SECONDS;
    assert Following(p, BEGIN, 0) == None && Following(p, BEGIN, 1) == Some(0);
    assert Following(p, KeyOf(p, 0), 0) == None && Following(p, KeyOf(p, 0), 1) == None;
    var q := OnePaid(p, 0);
    OnePartLess(p, 0);
    assert Pass(q, None, now) == q == [Entry(Some(INTERVAL_SECONDS), 2)];
    assert DueIn(q, 0, now);
  }

  /** The plan of the accounts' power-downs. */
  ghost function PlanOf(accounts: seq<Account>): (p: Plan)
    ensures |p| == |accounts| && forall a :: 0 <= a < |accounts| ==>
      p[a] == Entry(accounts[a].next, PartsLeft(accounts[a]))
  {
    seq(|accounts|, a requires 0 <= a < |accounts| => Entry(accounts[a].next, PartsLeft(accounts[a])))
  }

  /** Every account that is due gets at least one part, and one that is not due gets none. */
  lemma {:induction false} EveryDueAccountIsPaid(p: Plan, c: Option<nat>, now: nat, a: nat)
    requires Planned(p) && (c.Some? ==> Waits(p, c.value)) && a < |p|
    ensures Pass(p, c, now)[a].left <= p[a].left && (!DueIn(p, a, now) ==> Pass(p, c, now)[a] == p[a])
    ensures DueIn(p, a, now) && c.Some? && !Less(KeyOf(p, a), KeyOf(p, c.value)) ==> Pass(p, c, now)[a].left < p[a].left
    decreases Sum(|p|, LeftTerm(p))
  {
    if c.Some? && DueIn(p, c.value, now) {
      OnePartLess(p, c.value);
      EveryDueAccountIsPaid(OnePaid(p, c.value), Following(p, KeyOf(p, c.value), |p|), now, a);
    }
  }
}
