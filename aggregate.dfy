/**
 * `RoleAggregate` and `ResourceAggregate`: an ordered group of member names, each at most once.
 * Both kinds behave alike, so one class models them.
 */
module Aggregates {

  /** No name occurs twice. */
  ghost predicate Distinct(xs: seq<string>)
  {
    forall i, j :: 0 <= i < j < |xs| ==> xs[i] != xs[j]
  }

  /** The members after adding `name`: at the tail, unless it is already a member. */
  function Added(xs: seq<string>, name: string): (r: seq<string>)
    ensures Distinct(xs) ==> Distinct(r)
  {
    if name in xs then xs else xs + [name]
  }

  /** The members after removing `name`, the others keeping their order. */
  function Removed(xs: seq<string>, name: string): (r: seq<string>)
    ensures forall x :: x in r <==> x in xs && x != name
    ensures Distinct(xs) ==> Distinct(r)
  {
    if xs == [] then []
    else if xs[0] == name then Removed(xs[1..], name)
    else
      var rest := Removed(xs[1..], name);
      assert Distinct(xs) ==> xs[0] !in xs[1..];
      [xs[0]] + rest
  }

  /** Removing a member deletes exactly its position; removing a non-member changes nothing. */
  lemma {:induction false} RemovedAt(xs: seq<string>, name: string, k: nat)
    requires Distinct(xs)
    requires k < |xs| && xs[k] == name
    ensures Removed(xs, name) == xs[..k] + xs[k + 1..]
  {
    if k == 0 {
      NotMemberRemoved(xs[1..], name);
    } else {
      RemovedAt(xs[1..], name, k - 1);
      assert xs[..k] == [xs[0]] + xs[1..][..k - 1];
    }
  }

  lemma {:induction false} NotMemberRemoved(xs: seq<string>, name: string)
    requires name !in xs
    ensures Removed(xs, name) == xs
  {
    if xs != [] {
      NotMemberRemoved(xs[1..], name);
    }
  }

  /**
   * Removing a member and adding it again moves it to the tail: the others keep their order
   * and it now comes after all of them.
   */
  lemma ReAddMovesToTail(xs: seq<string>, name: string, k: nat)
    requires Distinct(xs)
    requires k < |xs| && xs[k] == name
    ensures Added(Removed(xs, name), name) == xs[..k] + xs[k + 1..] + [name]
    ensures k < |xs| - 1 ==> Added(Removed(xs, name), name) != xs
  {
    RemovedAt(xs, name, k);
    if k < |xs| - 1 {
      assert (xs[..k] + xs[k + 1..] + [name])[k] == xs[k + 1];
    }
  }

  class Aggregate {
    var members: seq<string>

    ghost predicate Valid()
      reads this
    {
      Distinct(members)
    }

    constructor ()
      ensures Valid() && members == []
    {
      members := [];
    }

    /** `addRole` / `addResource`. */
    method Add(name: string)
      requires Valid()
      modifies this
      ensures Valid()
      ensures members == Added(old(members), name)
      ensures name in members
    {
      if name !in members {
        members := members + [name];
      }
    }

    /** `removeRole` / `removeResource`: delete the member of that name, if any. */
    method Remove(name: string)
      requires Valid()
      modifies this
      ensures Valid()
      ensures members == Removed(old(members), name)
      ensures name !in members
    {
      members := Removed(members, name);
    }
  }
}
