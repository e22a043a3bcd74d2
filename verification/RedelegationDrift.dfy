/**
 How far a redelegated amount can be from the percentage of what is received.  A request takes the
 percentage of the sum of all delegations, while a changed delegation adds the difference of its own
 percentages; both round down.
 */
module RedelegationDrift {
  import opened Wrappers
  import opened Sums
  import opened Rounding
  import opened Tables
  import opened VestingSpec
  import opened DelegationSpec
  import opened Vesting

  ghost function PartTerm(t: Table, y: nat, percent: nat): nat -> int {
    (x: nat) => Part(Cell(t, x, y), percent)
  }

  /** The percentages of the delegations to `y`, each rounded down. */
  ghost function PartSum(t: Table, y: nat, percent: nat, n: nat): int {
    Sum(n, PartTerm(t, y, percent))
  }

  ghost function LiveTerm(t: Table, y: nat): nat -> int {
    (x: nat) => if Cell(t, x, y) != 0 then 1 else 0
  }

  /** How many live delegations `y` has received. */
  ghost function Live(t: Table, y: nat, n: nat): nat {
    LiveNotNegative(t, y, n);
    Sum(n, LiveTerm(t, y))
  }

  lemma {:induction false} LiveNotNegative(t: Table, y: nat, n: nat)
    ensures Sum(n, LiveTerm(t, y)) >= 0
  {
    SumNotNegative(n, LiveTerm(t, y));
  }

  /** What rounding can lose over so many delegations. */
  function Loss(live: nat): nat {
    if live == 0 then 0 else live - 1
  }

  lemma {:induction false} OnePart(shares: int, percent: nat)
    requires shares >= 0
    ensures Part(shares, percent) * HUNDRED_PERCENT <= shares * percent
    ensures shares * percent <= Part(shares, percent) * HUNDRED_PERCENT + if shares != 0 then HUNDRED_PERCENT - 1 else 0
  {
    DivisionBounds(shares * percent, HUNDRED_PERCENT);
  }

  /** The parts together against the part of the sum, before rounding. */
  lemma {:induction false} PartsScaled(t: Table, y: nat, percent: nat, n: nat)
    requires forall x: nat :: Cell(t, x, y) >= 0
    ensures var received, parts := ColumnSum(t, y, n), PartSum(t, y, percent, n);
      && parts * HUNDRED_PERCENT <= received * percent
      && received * percent <= parts * HUNDRED_PERCENT + (HUNDRED_PERCENT - 1) * Live(t, y, n)
  {
    if n > 0 {
      hide Part;
      PartsScaled(t, y, percent, n - 1);
      OnePart(Cell(t, n - 1, y), percent);
      assert (ColumnSum(t, y, n - 1) + Cell(t, n - 1, y)) * percent
        == ColumnSum(t, y, n - 1) * percent + Cell(t, n - 1, y) * percent;
    }
  }

  /** Rounding each delegation loses at most one share for every live delegation but one. */
  lemma {:induction false} PartsOfSum(t: Table, y: nat, percent: nat, n: nat)
    requires forall x: nat :: Cell(t, x, y) >= 0
    ensures 0 <= Part(ColumnSum(t, y, n), percent) - PartSum(t, y, percent, n) <= Loss(Live(t, y, n))
  {
    hide Sum;
    var all, parts, live := ColumnSum(t, y, n) * percent, PartSum(t, y, percent, n), Live(t, y, n);
    PartsScaled(t, y, percent, n);
    AtLeast(all, HUNDRED_PERCENT, parts);
    AtLeast(all, HUNDRED_PERCENT, parts + Loss(live) + 1);
  }

  /** By how much a redelegated amount exceeds the parts of the live delegations. */
  ghost function Slack(m: Redelegations, t: Table, k: (nat, nat), n: nat): int
    requires k in m
  {
    m[k].amount - PartSum(t, k.0, m[k].percent, n)
  }

  /** `requested` holds how many delegations were live when a redelegation was requested last. */
  datatype State = State(redelegations: Redelegations, delegations: map<(nat, nat), Delegation>,
                         requested: map<(nat, nat), nat>, n: nat)

  datatype Change =
    | Delegating(x: nat, y: nat, entry: Option<Delegation>)
    | Requesting(requestor: nat, reporter: nat, percent: nat)
    | Cancelling(requestor: nat, reporter: nat)
    | AddingAccount

  ghost function Changed(s: State, c: Change): State {
    match c
    case Delegating(x, y, entry) =>
      if x >= s.n || y >= s.n || EntryShares(entry) < 0 then s
      else
        var before := Cell(Shares(s.delegations), x, y);
        s.(delegations := Set(s.delegations, x, y, entry),
           redelegations := Adjusted(s.redelegations, y, s.n, before, EntryShares(entry)))
    case Requesting(x, y, percent) =>
      if x >= s.n || y >= s.n then s
      else
        var t := Shares(s.delegations);
        var amount := Part(ColumnSum(t, x, s.n), percent);
        s.(redelegations := Set(s.redelegations, x, y, if percent == 0 then None
          else Some(Redelegation(percent, amount))),
           requested := s.requested[(x, y) := Live(t, x, s.n)])
    case Cancelling(x, y) =>
      s.(redelegations := Set(s.redelegations, x, y, None))
    case AddingAccount =>
      s.(n := s.n + 1)
  }

  ghost function ChangedAll(s: State, cs: seq<Change>): State {
    if cs == [] then s else Changed(ChangedAll(s, cs[..|cs| - 1]), cs[|cs| - 1])
  }

  ghost predicate InTables(s: State) {
    && Inside(Shares(s.delegations), s.n) && (forall x: nat, y: nat :: Cell(Shares(s.delegations), x, y) >= 0)
    && forall k :: k in s.redelegations ==> k.0 < s.n && k.1 < s.n
  }

  ghost predicate Near(s: State) {
    && InTables(s)
    && forall k :: k in s.redelegations ==>
         k in s.requested && 0 <= Slack(s.redelegations, Shares(s.delegations), k, s.n) <= Loss(s.requested[k])
  }

  /** A changed delegation does not change by how much a redelegated amount exceeds its parts. */
  lemma {:induction false} DelegatingKeepsSlack(s: State, x: nat, y: nat, entry: Option<Delegation>, k: (nat, nat))
    requires InTables(s) && x < s.n && y < s.n && EntryShares(entry) >= 0 && k in s.redelegations
    ensures var s' := Changed(s, Delegating(x, y, entry));
      && k in s'.redelegations
      && Slack(s'.redelegations, Shares(s'.delegations), k, s.n) ==
         Slack(s.redelegations, Shares(s.delegations), k, s.n)
  {
    hide Sum, Part, Shares;
    var t, t' := Shares(s.delegations), Shares(Set(s.delegations, x, y, entry));
    var percent := s.redelegations[k].percent;
    SharesSet(s.delegations, x, y, entry);
    if k.0 == y {
      SumChange(s.n, PartTerm(t, y, percent), PartTerm(t', y, percent), x);
    } else {
      SumEqual(s.n, PartTerm(t, k.0, percent), PartTerm(t', k.0, percent));
    }
  }

  lemma {:induction false} ChangeStaysNear(s: State, c: Change)
    requires Near(s)
    ensures Near(Changed(s, c))
  {
    hide Sum, Part, Shares;
    match c
    case Delegating(x, y, entry) =>
      if x < s.n && y < s.n && EntryShares(entry) >= 0 {
        SharesSet(s.delegations, x, y, entry);
        forall k | k in s.redelegations
          ensures var s' := Changed(s, c);
            Slack(s'.redelegations, Shares(s'.delegations), k, s.n) ==
              Slack(s.redelegations, Shares(s.delegations), k, s.n)
        {
          DelegatingKeepsSlack(s, x, y, entry, k);
        }
      }
    case Requesting(x, y, percent) =>
      PartsOfSum(Shares(s.delegations), x, percent, s.n);
    case Cancelling(x, y) =>
    case AddingAccount =>
      OneAccountMore(s);
  }

  lemma {:induction false} OneAccountMore(s: State)
    requires InTables(s)
    ensures forall y: nat, percent: nat ::
      PartSum(Shares(s.delegations), y, percent, s.n + 1) == PartSum(Shares(s.delegations), y, percent, s.n)
  {
    forall y: nat, percent: nat
      ensures PartTerm(Shares(s.delegations), y, percent)(s.n) == 0
    {
    }
  }

  /** Over every run of delegations, requests and cancellations. */
  lemma {:induction false} RunStaysNear(s: State, cs: seq<Change>)
    requires Near(s)
    ensures Near(ChangedAll(s, cs))
  {
    if cs != [] {
      RunStaysNear(s, cs[..|cs| - 1]);
      ChangeStaysNear(ChangedAll(s, cs[..|cs| - 1]), cs[|cs| - 1]);
    }
  }

  /**
   A redelegated amount is never negative.  It is below the percentage of what is received by at most one
   for every live delegation but one, and above it by at most one for every delegation but one that was
   live at the last request.
   */
  lemma {:induction false} RedelegatedIsNear(s: State, k: (nat, nat))
    requires Near(s) && k in s.redelegations
    ensures var t := Shares(s.delegations);
      var exact, amount := Part(ColumnSum(t, k.0, s.n), s.redelegations[k].percent), s.redelegations[k].amount;
      exact - Loss(Live(t, k.0, s.n)) <= amount <= exact + Loss(s.requested[k]) && amount >= 0
  {
    var t, percent := Shares(s.delegations), s.redelegations[k].percent;
    PartsOfSum(t, k.0, percent, s.n);
    forall x | 0 <= x < s.n
      ensures PartTerm(t, k.0, percent)(x) >= 0
    {
      OnePart(Cell(t, x, k.0), percent);
    }
    SumNotNegative(s.n, PartTerm(t, k.0, percent));
  }

  /** What `y` receives follows each of its delegations. */
  lemma {:induction false} ReceivedChanges(s: State, x: nat, y: nat, entry: Option<Delegation>)
    requires x < s.n && y < s.n && EntryShares(entry) >= 0
    ensures var s' := Changed(s, Delegating(x, y, entry)); var t, t' := Shares(s.delegations), Shares(s'.delegations);
      && ColumnSum(t', y, s.n) == ColumnSum(t, y, s.n) + EntryShares(entry) - Cell(t, x, y)
      && Cell(t', x, y) == EntryShares(entry) && forall z: nat :: z != x ==> Cell(t', z, y) == Cell(t, z, y)
  {
    SharesSet(s.delegations, x, y, entry);
    CellChanged(Shares(s.delegations), Shares(Set(s.delegations, x, y, entry)), x, y, s.n);
  }

  /** A delegation of 5 that comes or goes does not change a redelegation of 10%. */
  lemma {:induction false} FiveChangesNothing(s: State, x: nat, y: nat, r: nat, entry: Option<Delegation>)
    requires x < s.n && y < s.n && r < s.n && EntryShares(entry) in {0, 5}
    requires Cell(Shares(s.delegations), x, y) in {0, 5}
    requires (y, r) in s.redelegations && s.redelegations[(y, r)].percent == 1000
    ensures var s' := Changed(s, Delegating(x, y, entry));
      (y, r) in s'.redelegations && s'.redelegations[(y, r)] == s.redelegations[(y, r)] && s'.n == s.n
  {
    hide Shares;
    assert Part(5, 1000) == 0 && Part(0, 1000) == 0;
  }

  /** Two delegations of 5. */
  lemma {:induction false} TwoReceived(s: State, a: nat, b: nat, y: nat)
    requires s.delegations == map[] && a != b && a < s.n && b < s.n && y < s.n
    ensures var five := Some(Delegation(5, 0));
      var s' := Changed(Changed(s, Delegating(a, y, five)), Delegating(b, y, five)); var t := Shares(s'.delegations);
      s'.n == s.n && ColumnSum(t, y, s.n) == 10 && Cell(t, a, y) == Cell(t, b, y) == 5
  {
    hide Sum, Shares;
    var five := Some(Delegation(5, 0));
    NothingReceived(s, y);
    ReceivedChanges(s, a, y, five);
    ReceivedChanges(Changed(s, Delegating(a, y, five)), b, y, five);
  }

  /**
   Two accounts delegate 5 each to `y`, which then passes 10% on to `r`; after both have withdrawn, 1 stays
   redelegated with nothing received.
   */
  lemma {:induction false} OneIsLeftOver(s: State, a: nat, b: nat, y: nat, r: nat)
    requires s.delegations == map[] && a != b && a < s.n && b < s.n && y < s.n && r < s.n
    ensures var five := Some(Delegation(5, 0));
      var before := Changed(Changed(Changed(s, Delegating(a, y, five)), Delegating(b, y, five)),
        Requesting(y, r, 1000));
      var after := Changed(Changed(before, Delegating(a, y, None)), Delegating(b, y, None));
      && ColumnSum(Shares(after.delegations), y, s.n) == 0
      && (y, r) in after.redelegations && after.redelegations[(y, r)].amount == 1
  {
    var five := Some(Delegation(5, 0));
    var s2 := Changed(Changed(s, Delegating(a, y, five)), Delegating(b, y, five));
    TwoReceived(s, a, b, y);
    Requested(s2, y, r);
    var s3 := Changed(s2, Requesting(y, r, 1000));
    hide Sum, Shares, Changed, Part;
    ReceivedChanges(s3, a, y, None);
    FiveChangesNothing(s3, a, y, r, None);
    var s4 := Changed(s3, Delegating(a, y, None));
    ReceivedChanges(s4, b, y, None);
    FiveChangesNothing(s4, b, y, r, None);
  }

  lemma {:induction false} Requested(s: State, y: nat, r: nat)
    requires y < s.n && r < s.n
    ensures var s' := Changed(s, Requesting(y, r, 1000));
      && s'.n == s.n && s'.delegations == s.delegations && (y, r) in s'.redelegations
      && s'.redelegations[(y, r)] == Redelegation(1000, Part(ColumnSum(Shares(s.delegations), y, s.n), 1000))
  {
    hide Sum, Shares, Part;
  }

  /** The other way round, when 10% are passed on before the two delegations come in, nothing is redelegated of 10. */
  lemma {:induction false} OneIsMissing(s: State, a: nat, b: nat, y: nat, r: nat)
    requires s.delegations == map[] && a != b && a < s.n && b < s.n && y < s.n && r < s.n
    ensures var five := Some(Delegation(5, 0));
      var after := Changed(Changed(Changed(s, Requesting(y, r, 1000)), Delegating(a, y, five)), Delegating(b, y, five));
      && Part(ColumnSum(Shares(after.delegations), y, s.n), 1000) == 1
      && (y, r) in after.redelegations && after.redelegations[(y, r)].amount == 0
  {
    var five := Some(Delegation(5, 0));
    var s1 := Changed(s, Requesting(y, r, 1000));
    NothingReceived(s, y);
    Requested(s, y, r);
    TwoReceived(s1, a, b, y);
    hide Sum, Shares, Changed;
    ReceivedChanges(s1, a, y, five);
    FiveChangesNothing(s1, a, y, r, five);
    FiveChangesNothing(Changed(s1, Delegating(a, y, five)), b, y, r, five);
  }

  lemma {:induction false} NothingReceived(s: State, y: nat)
    requires s.delegations == map[]
    ensures ColumnSum(Shares(s.delegations), y, s.n) == 0 && forall x: nat :: Cell(Shares(s.delegations), x, y) == 0
  {
    SumZero(s.n, ColumnTerm(Shares(s.delegations), y));
  }
}
