/**
 Friendships between accounts, requests that wait for an answer, and the cached friends of friends.
 */
module Friends {

  datatype Account = Account(friends: set<nat>, waiting: set<nat>, secondLevel: set<nat>)

  /** The friends of friends of `x`, without `x` itself. */
  ghost function SecondLevel(accounts: seq<Account>, x: nat): set<nat>
    requires x < |accounts|
  {
    set f, y | f in accounts[x].friends && f < |accounts| && y in accounts[f].friends && y != x :: y
  }

  ghost predicate InRange(accounts: seq<Account>) {
    forall x, y :: 0 <= x < |accounts| && (y in accounts[x].friends || y in accounts[x].waiting) ==> y < |accounts|
  }

  ghost predicate Symmetric(accounts: seq<Account>) {
    && (forall x, y :: 0 <= x < |accounts| && 0 <= y < |accounts| && y in accounts[x].friends ==>
       x in accounts[y].friends)
    && (forall x :: 0 <= x < |accounts| ==> x !in accounts[x].friends)
  }

  /** Nobody waits for a friend, and no two accounts wait for each other. */
  ghost predicate Waiting(accounts: seq<Account>) {
    && (forall x :: 0 <= x < |accounts| ==> accounts[x].waiting !! accounts[x].friends)
    && (forall x, y :: 0 <= x < |accounts| && 0 <= y < |accounts| && x != y && y in accounts[x].waiting ==>
       x !in accounts[y].waiting)
  }

  ghost predicate Cached(accounts: seq<Account>) {
    forall x :: 0 <= x < |accounts| ==> accounts[x].secondLevel == SecondLevel(accounts, x)
  }

  /** The accounts have the same friends. */
  ghost predicate SameFriends(accounts: seq<Account>, after: seq<Account>) {
    |after| == |accounts| && forall x :: 0 <= x < |accounts| ==> after[x].friends == accounts[x].friends
  }

  lemma {:induction false} SecondLevelKept(accounts: seq<Account>, after: seq<Account>, x: nat)
    requires SameFriends(accounts, after) && x < |accounts|
    ensures SecondLevel(after, x) == SecondLevel(accounts, x)
  {
  }

  lemma {:induction false} AllKept(accounts: seq<Account>, after: seq<Account>)
    requires SameFriends(accounts, after)
    ensures forall x :: 0 <= x < |accounts| ==> SecondLevel(after, x) == SecondLevel(accounts, x)
  {
  }

  /** `a` and `b` become friends; who is second level to whom changes for them and for their friends. */
  ghost predicate Befriended(accounts: seq<Account>, after: seq<Account>, a: nat, b: nat) {
    && |after| == |accounts| && a < |accounts| && b < |accounts| && a != b
    && b !in accounts[a].friends && a !in accounts[b].friends
    && after[a].friends == accounts[a].friends + {b} && after[b].friends == accounts[b].friends + {a}
    && forall x :: 0 <= x < |accounts| && x != a && x != b ==> after[x].friends == accounts[x].friends
  }

  lemma {:induction false} BefriendedFriend(accounts: seq<Account>, after: seq<Account>, a: nat, b: nat, x: nat)
    requires Befriended(accounts, after, a, b) && Symmetric(accounts) && InRange(accounts) && x < |accounts| && x != a
    requires x != b
    ensures SecondLevel(after, x) == SecondLevel(accounts, x)
      + (if x in accounts[b].friends then {a} else {}) + (if x in accounts[a].friends then {b} else {})
  {
    var was, now := SecondLevel(accounts, x), SecondLevel(after, x);
    forall y | y in was
      ensures y in now
    {
      var f :| f in accounts[x].friends && f < |accounts| && y in accounts[f].friends && y != x;
      assert y in after[f].friends;
    }
    if x in accounts[b].friends {
      assert b in after[x].friends && a in after[b].friends;
    }
    if x in accounts[a].friends {
      assert a in after[x].friends && b in after[a].friends;
    }
  }

  lemma {:induction false} BefriendedSelf(accounts: seq<Account>, after: seq<Account>, a: nat, b: nat)
    requires Befriended(accounts, after, a, b) && Symmetric(accounts) && InRange(accounts) && b !in accounts[a].friends
    ensures SecondLevel(after, a) == SecondLevel(accounts, a) + accounts[b].friends - {a}
  {
    var was, now := SecondLevel(accounts, a), SecondLevel(after, a);
    forall y | y in was
      ensures y in now
    {
      var f :| f in accounts[a].friends && f < |accounts| && y in accounts[f].friends && y != a;
      assert y in after[f].friends;
    }
    forall y | y in accounts[b].friends && y != a
      ensures y in now
    {
      assert b in after[a].friends && y in after[b].friends;
    }
  }

  /** Only the two and their remaining friends see other friends of friends when a friendship ends. */
  lemma {:induction false} EndedFriend(accounts: seq<Account>, after: seq<Account>, a: nat, b: nat, x: nat)
    requires Befriended(after, accounts, a, b) && Symmetric(accounts) && InRange(accounts) && x < |accounts|
    requires x != a && x != b && x !in after[a].friends && x !in after[b].friends
    ensures SecondLevel(after, x) == SecondLevel(accounts, x)
  {
  }

  ghost predicate Sound(accounts: seq<Account>) {
    InRange(accounts) && Symmetric(accounts) && Waiting(accounts) && Cached(accounts)
  }

  /** Both sides of a new friendship, and all their friends, are told apart in the cache. */
  lemma {:induction false} ApprovedIsSound(accounts: seq<Account>, after: seq<Account>, a: nat, b: nat)
    requires Sound(accounts) && Befriended(accounts, after, a, b) && b !in accounts[a].friends
    requires a !in accounts[b].waiting
    requires forall x :: 0 <= x < |accounts| ==> after[x].waiting == accounts[x].waiting - if x == a then {b} else {}
    requires after[a].secondLevel == accounts[a].secondLevel + accounts[b].friends - {a}
    requires after[b].secondLevel == accounts[b].secondLevel + accounts[a].friends - {b}
    requires forall x :: 0 <= x < |accounts| && x != a && x != b ==>
      after[x].secondLevel == accounts[x].secondLevel + (if x in accounts[b].friends then {a} else {})
        + if x in accounts[a].friends then {b} else {}
    ensures Sound(after)
  {
    hide SecondLevel;
    forall z | 0 <= z < |accounts|
      ensures after[z].secondLevel == SecondLevel(after, z)
    {
      if z == a {
        BefriendedSelf(accounts, after, a, b);
      } else if z == b {
        BefriendedBack(accounts, after, a, b);
        BefriendedSelf(accounts, after, b, a);
      } else {
        BefriendedFriend(accounts, after, a, b, z);
      }
    }
  }

  lemma {:induction false} BefriendedBack(accounts: seq<Account>, after: seq<Account>, a: nat, b: nat)
    requires Befriended(accounts, after, a, b) && Symmetric(accounts)
    ensures Befriended(accounts, after, b, a) && (b in accounts[a].friends <==> a in accounts[b].friends)
  {
  }

  lemma {:induction false} FriendsOfBoth(accounts: seq<Account>, a: nat, b: nat)
    requires Sound(accounts) && a < |accounts| && b < |accounts|
    ensures a !in accounts[a].friends && b !in accounts[b].friends
    ensures (a in accounts[b].friends <==> b in accounts[a].friends)
    ensures a == b ==> a !in accounts[b].friends
    ensures forall x :: x in accounts[a].friends || x in accounts[b].friends ==> x < |accounts|
    ensures InRange(accounts)
  {
  }

  lemma {:induction false} EndedIsSound(accounts: seq<Account>, after: seq<Account>, a: nat, b: nat)
    requires Sound(accounts) && Befriended(after, accounts, a, b) && b !in after[a].friends && a !in after[b].friends
    requires forall x :: 0 <= x < |accounts| ==> after[x].waiting == accounts[x].waiting
    requires forall x :: 0 <= x < |accounts| ==>
      after[x].secondLevel == if x == a || x == b || x in after[a].friends
        || x in after[b].friends then SecondLevel(after, x) else accounts[x].secondLevel
    ensures Sound(after)
  {
    hide SecondLevel;
    forall x | 0 <= x < |accounts|
      ensures after[x].secondLevel == SecondLevel(after, x)
    {
      if x != a && x != b && x !in after[a].friends && x !in after[b].friends {
        EndedFriend(accounts, after, a, b, x);
      }
    }
  }

  class FriendGraph {
    var accounts: seq<Account>

    ghost predicate Valid()
      reads this
    {
      Sound(accounts)
    }

    constructor (accountCount: nat)
      ensures Valid() && accounts == seq(accountCount, _ => Account({}, {}, {}))
    {
      accounts := seq(accountCount, _ => Account({}, {}, {}));
    }

    /** Adds `y` to the second level of everybody in `group`. */
    method AddSecondLevel(group: set<nat>, y: nat)
      requires forall x :: x in group ==> x < |accounts|
      modifies this
      ensures |accounts| == |old(accounts)|
      ensures forall x :: 0 <= x < |accounts| ==>
        accounts[x] == old(accounts)[x].(secondLevel := old(accounts)[x].secondLevel + if x in group then {y} else {})
    {
      var todo := group;
      while todo != {}
        invariant todo <= group && |accounts| == |old(accounts)|
        invariant forall x :: 0 <= x < |accounts| ==>
          accounts[x] ==
            old(accounts)[x].(secondLevel := old(accounts)[x].secondLevel + if x in group && x !in todo then {y}
              else {})
      {
        var x :| x in todo;
        accounts := accounts[x := accounts[x].(secondLevel := accounts[x].secondLevel + {y})];
        todo := todo - {x};
      }
    }

    /** A request, or the answer to one: both accounts asking makes them friends. */
    method Friendship(a: nat, b: nat)
      requires Valid() && a < |accounts| && b < |accounts|
      modifies this
      ensures Valid() && |accounts| == |old(accounts)|
      ensures var before := old(accounts);
        if b in before[a].friends || a in before[b].waiting then accounts == before
        else if b !in before[a].waiting then
          accounts == before[b := before[b].(waiting := before[b].waiting + {a})]
        else Befriended(before, accounts, a, b) && forall x :: 0 <= x < |accounts| ==>
          accounts[x].waiting == before[x].waiting - if x == a then {b} else {}
      ensures forall x :: 0 <= x < |accounts| && x !in old(accounts)[x].waiting ==>
        (x in accounts[x].waiting <==> a == b == x)
    {
      if b in accounts[a].friends || a in accounts[b].waiting {
        return;
      }
      if b !in accounts[a].waiting {
        ghost var before := accounts;
        accounts := accounts[b := accounts[b].(waiting := accounts[b].waiting + {a})];
        forall x | 0 <= x < |accounts|
          ensures SecondLevel(accounts, x) == SecondLevel(before, x)
        {
          SecondLevelKept(before, accounts, x);
        }
        return;
      }
      Approve(a, b);
    }

    method Approve(a: nat, b: nat)
      requires Valid() && a < |accounts| && b < |accounts| && b !in accounts[a].friends && a !in accounts[b].waiting
      requires b in accounts[a].waiting
      modifies this
      ensures Valid() && Befriended(old(accounts), accounts, a, b)
      ensures forall x :: 0 <= x < |accounts| ==>
        accounts[x].waiting == old(accounts)[x].waiting - if x == a then {b} else {}
    {
      hide SecondLevel, Sound;
      FriendsOfBoth(accounts, a, b);
      ghost var before := accounts;
      AddSecondLevel(accounts[b].friends, a);
      AddSecondLevel(accounts[a].friends, b);
      var x := accounts[a];
      accounts := accounts[a := x.(waiting := x.waiting - {b}, friends := x.friends + {b},
                                   secondLevel := x.secondLevel + accounts[b].friends - {a})];
      var y := accounts[b];
      accounts := accounts[b := y.(friends := y.friends + {a},
        secondLevel := y.secondLevel + accounts[a].friends - {b})];
      ApprovedIsSound(before, accounts, a, b);
    }

    /** Takes back or turns down a request, or ends a friendship. */
    method Unfriend(a: nat, b: nat)
      requires Valid() && a < |accounts| && b < |accounts|
      modifies this
      ensures Valid() && |accounts| == |old(accounts)|
      ensures var before := old(accounts);
        if a in before[b].waiting then accounts == before[b := before[b].(waiting := before[b].waiting - {a})]
        else if b in before[a].waiting then accounts == before[a := before[a].(waiting := before[a].waiting - {b})]
        else if a in before[b].friends then
          Befriended(accounts, before, a, b) && forall x :: 0 <= x < |accounts| ==>
            accounts[x].waiting == before[x].waiting
        else accounts == before
      ensures forall x :: 0 <= x < |accounts| && x in accounts[x].waiting ==> x in old(accounts)[x].waiting
    {
      ghost var before := accounts;
      if a in accounts[b].waiting || b in accounts[a].waiting {
        if a in accounts[b].waiting {
          accounts := accounts[b := accounts[b].(waiting := accounts[b].waiting - {a})];
        } else {
          accounts := accounts[a := accounts[a].(waiting := accounts[a].waiting - {b})];
        }
        forall x | 0 <= x < |accounts|
          ensures SecondLevel(accounts, x) == SecondLevel(before, x)
        {
          SecondLevelKept(before, accounts, x);
        }
      } else if a in accounts[b].friends {
        EndFriendship(a, b);
      }
    }

    /** Builds the second level of `x` again. */
    method Rebuild(x: nat)
      requires InRange(accounts) && x < |accounts|
      modifies this
      ensures accounts == old(accounts)[x := old(accounts)[x].(secondLevel := SecondLevel(old(accounts), x))]
    {
      var level: set<nat> := {};
      var todo := accounts[x].friends;
      while todo != {}
        invariant todo <= accounts[x].friends && accounts == old(accounts)
        invariant forall y :: y in level <==>
          exists f :: f in accounts[x].friends && f !in todo && y in accounts[f].friends
      {
        var f :| f in todo;
        level := level + accounts[f].friends;
        todo := todo - {f};
      }
      level := level - {x};
      assert level == SecondLevel(accounts, x);
      accounts := accounts[x := accounts[x].(secondLevel := level)];
    }

    method RebuildAll(group: set<nat>)
      requires InRange(accounts) && forall x :: x in group ==> x < |accounts|
      modifies this
      ensures |accounts| == |old(accounts)|
      ensures forall x :: 0 <= x < |accounts| ==>
        accounts[x] == if x in group then old(accounts)[x].(secondLevel := SecondLevel(old(accounts), x))
          else old(accounts)[x]
    {
      hide SecondLevel;
      var todo := group;
      while todo != {}
        invariant todo <= group && |accounts| == |old(accounts)| && InRange(accounts)
        invariant forall x :: 0 <= x < |accounts| ==>
          accounts[x] == if x in group
            && x !in todo then old(accounts)[x].(secondLevel := SecondLevel(old(accounts), x)) else old(accounts)[x]
      {
        var x :| x in todo;
        SecondLevelKept(old(accounts), accounts, x);
        Rebuild(x);
        todo := todo - {x};
      }
    }

    method EndFriendship(a: nat, b: nat)
      requires Valid() && a < |accounts| && b < |accounts| && a in accounts[b].friends
      modifies this
      ensures Valid() && Befriended(accounts, old(accounts), a, b)
      ensures forall x :: 0 <= x < |accounts| ==> accounts[x].waiting == old(accounts)[x].waiting
    {
      hide SecondLevel;
      ghost var before := accounts;
      accounts := accounts[b := accounts[b].(friends := accounts[b].friends - {a}, secondLevel := {})];
      accounts := accounts[a := accounts[a].(friends := accounts[a].friends - {b}, secondLevel := {})];
      ghost var ended := accounts;
      Rebuild(a);
      AllKept(ended, accounts);
      Rebuild(b);
      AllKept(ended, accounts);
      RebuildAll(accounts[a].friends);
      AllKept(ended, accounts);
      RebuildAll(accounts[b].friends);
      AllKept(ended, accounts);
      FriendsOfBoth(before, a, b);
      EndedIsSound(before, accounts, a, b);
    }
  }

  /** Nothing keeps an account from waiting for itself: requests to oneself are not rejected. */
  lemma {:induction false} MayWaitForItself()
    ensures Sound([Account({}, {}, {})]) && Sound([Account({}, {0}, {})])
  {
  }
}
