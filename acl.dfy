/**
 * The ACL's rule store: `addRule` appends a record with the next insertion number, and
 * `removeRule` deletes the records a filter selects, either all of them or only the latest.
 */
module AccessControl {

  import opened Wrappers
  import opened Rules

  /** The removal filter: each field given must match, an omitted (`null`) field matches anything. */
  predicate Selected(rec: Record, role: Option<string>, resource: Option<string>, name: Option<string>)
  {
    && (role.None? || rec.role == role.value)
    && (resource.None? || rec.resource == resource.value)
    && (name.None? || rec.rule.name == name.value)
  }

  /** Every insertion number in `rules` is below `bound`. */
  ghost predicate IdsBelow(rules: seq<Record>, bound: nat)
  {
    forall rec :: rec in rules ==> rec.id < bound
  }

  /** The records the filter does not select, in store order. */
  function Unselected(rules: seq<Record>, role: Option<string>, resource: Option<string>, name: Option<string>): (r: seq<Record>)
    ensures forall rec :: rec in r <==> rec in rules && !Selected(rec, role, resource, name)
    ensures |r| <= |rules|
    ensures IncreasingIds(rules) ==> IncreasingIds(r)
  {
    if rules == [] then []
    else
      var init, last := rules[..|rules| - 1], rules[|rules| - 1];
      assert rules == init + [last];
      var kept := Unselected(init, role, resource, name);
      if Selected(last, role, resource, name) then kept
      else
        assert IncreasingIds(rules) ==> IncreasingIds(kept + [last]) by {
          if IncreasingIds(rules) {
            forall i | 0 <= i < |kept| ensures kept[i].id < last.id {
              assert kept[i] in init;
              var j :| 0 <= j < |init| && init[j] == kept[i];
            }
          }
        }
        kept + [last]
  }

  /** The position of the most recently added record the filter selects, if there is one. */
  function LatestSelected(rules: seq<Record>, role: Option<string>, resource: Option<string>, name: Option<string>): (r: Option<nat>)
    ensures r.Some? ==> r.value < |rules| && Selected(rules[r.value], role, resource, name)
    ensures r.Some? ==> forall j :: r.value < j < |rules| ==> !Selected(rules[j], role, resource, name)
    ensures r.None? ==> forall j :: 0 <= j < |rules| ==> !Selected(rules[j], role, resource, name)
  {
    if rules == [] then None
    else if Selected(rules[|rules| - 1], role, resource, name) then Some(|rules| - 1)
    else
      var r := LatestSelected(rules[..|rules| - 1], role, resource, name);
      assert forall j :: 0 <= j < |rules| - 1 ==> rules[..|rules| - 1][j] == rules[j];
      r
  }

  /** The store with its latest selected record deleted; unchanged when the filter selects nothing. */
  function WithoutLatest(rules: seq<Record>, role: Option<string>, resource: Option<string>, name: Option<string>): seq<Record>
  {
    match LatestSelected(rules, role, resource, name)
    case None => rules
    case Some(k) => rules[..k] + rules[k + 1..]
  }

  /** The last selected position is the one deleted. */
  lemma LatestAt(rules: seq<Record>, role: Option<string>, resource: Option<string>, name: Option<string>, k: nat)
    requires k < |rules| && Selected(rules[k], role, resource, name)
    requires forall j :: k < j < |rules| ==> !Selected(rules[j], role, resource, name)
    ensures WithoutLatest(rules, role, resource, name) == rules[..k] + rules[k + 1..]
  {
    assert LatestSelected(rules, role, resource, name) == Some(k);
  }

  /** A filter that selects nothing deletes nothing. */
  lemma NoneSelected(rules: seq<Record>, role: Option<string>, resource: Option<string>, name: Option<string>)
    requires forall j :: 0 <= j < |rules| ==> !Selected(rules[j], role, resource, name)
    ensures WithoutLatest(rules, role, resource, name) == rules
  {
  }

  /** Deleting any one record keeps the insertion numbers increasing and adds no record. */
  lemma DropKeepsOrder(rules: seq<Record>, k: nat, bound: nat)
    requires k < |rules|
    requires IncreasingIds(rules) && IdsBelow(rules, bound)
    ensures IncreasingIds(rules[..k] + rules[k + 1..])
    ensures IdsBelow(rules[..k] + rules[k + 1..], bound)
  {
    var r := rules[..k] + rules[k + 1..];
    assert forall i :: 0 <= i < |r| ==> r[i] == rules[if i < k then i else i + 1];
    forall rec | rec in r ensures rec.id < bound {
      var i :| 0 <= i < |r| && r[i] == rec;
      assert rules[if i < k then i else i + 1] in rules;
    }
  }

  class Acl {
    /** The stored records, in insertion order. */
    var rules: seq<Record>
    /** The insertion number the next `addRule` hands out. */
    var nextId: nat

    ghost predicate Valid()
      reads this
    {
      IncreasingIds(rules) && IdsBelow(rules, nextId)
    }

    constructor ()
      ensures Valid()
      ensures rules == [] && nextId == 0
    {
      rules := [];
      nextId := 0;
    }

    /** `addRule(role, resource, rule, allowed)`: one more record, at the end of the store. */
    method AddRule(role: string, resource: string, rule: Rule, allowed: bool)
      requires Valid()
      modifies this
      ensures Valid()
      ensures rules == old(rules) + [Record(old(nextId), role, resource, rule, allowed)]
      ensures nextId == old(nextId) + 1
      ensures |rules| == |old(rules)| + 1
    {
      rules := rules + [Record(nextId, role, resource, rule, allowed)];
      nextId := nextId + 1;
    }

    /** `addRule` with a bare action name, which is wrapped into a rule of that name. */
    method AddNamedRule(role: string, resource: string, name: string, allowed: bool)
      requires Valid()
      modifies this
      ensures Valid()
      ensures rules == old(rules) + [Record(old(nextId), role, resource, Rule(name), allowed)]
      ensures nextId == old(nextId) + 1
    {
      AddRule(role, resource, Rule(name), allowed);
    }

    /**
     * `removeRule(role, resource, name, all)`: with `all`, every selected record goes; without,
     * only the most recently added one.
     */
    method RemoveRule(role: Option<string>, resource: Option<string>, name: Option<string>, all: bool)
      requires Valid()
      modifies this
      ensures Valid()
      ensures all ==> rules == Unselected(old(rules), role, resource, name)
      ensures !all ==> rules == WithoutLatest(old(rules), role, resource, name)
      ensures nextId == old(nextId)
    {
      if all {
        RemoveSelected(role, resource, name);
      } else {
        RemoveLatestSelected(role, resource, name);
      }
    }

    /** Deletes every record the filter selects, keeping the others in order. */
    method RemoveSelected(role: Option<string>, resource: Option<string>, name: Option<string>)
      requires Valid()
      modifies this
      ensures Valid()
      ensures rules == Unselected(old(rules), role, resource, name)
      ensures nextId == old(nextId)
    {
      var kept: seq<Record> := [];
      var i := 0;
      while i < |rules|
        invariant 0 <= i <= |rules|
        invariant kept == Unselected(rules[..i], role, resource, name)
      {
        assert rules[..i + 1][..i] == rules[..i];
        if !Selected(rules[i], role, resource, name) {
          kept := kept + [rules[i]];
        }
        i := i + 1;
      }
      assert rules[..i] == rules;
      assert IdsBelow(kept, nextId) by {
        forall rec | rec in kept ensures rec.id < nextId {
          assert rec in rules;
        }
      }
      rules := kept;
    }

    /** Deletes the most recently added record the filter selects, if there is one. */
    method RemoveLatestSelected(role: Option<string>, resource: Option<string>, name: Option<string>)
      requires Valid()
      modifies this
      ensures Valid()
      ensures rules == WithoutLatest(old(rules), role, resource, name)
      ensures nextId == old(nextId)
    {
      var i := |rules|;
      while i > 0 && !Selected(rules[i - 1], role, resource, name)
        invariant 0 <= i <= |rules|
        invariant forall j :: i <= j < |rules| ==> !Selected(rules[j], role, resource, name)
      {
        i := i - 1;
      }
      if i > 0 {
        LatestAt(rules, role, resource, name, i - 1);
        DropKeepsOrder(rules, i - 1, nextId);
        rules := rules[..i - 1] + rules[i..];
      } else {
        NoneSelected(rules, role, resource, name);
      }
    }
  }

  /** Removing every selected record deletes at least one when the filter selects any. */
  lemma {:induction false} UnselectedShrinks(rules: seq<Record>, role: Option<string>, resource: Option<string>, name: Option<string>, k: nat)
    requires k < |rules| && Selected(rules[k], role, resource, name)
    ensures |Unselected(rules, role, resource, name)| < |rules|
  {
    var init, last := rules[..|rules| - 1], rules[|rules| - 1];
    if k < |rules| - 1 {
      assert init[k] == rules[k];
      UnselectedShrinks(init, role, resource, name, k);
    }
  }
}
