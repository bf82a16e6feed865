/** Rule payloads and the records the ACL stores for them. */
module Rules {

  /** A rule payload; a bare action name given to `addRule` is wrapped in one of these. */
  datatype Rule = Rule(name: string)

  /**
   * One stored rule: `id` is its insertion number (never reused), `role` and `resource` the
   * names of the nodes it is bound to, `allowed` its outcome.
   */
  datatype Record = Record(id: nat, role: string, resource: string, rule: Rule, allowed: bool)

  /** Insertion numbers grow along the store, so the store holds each record once. */
  ghost predicate IncreasingIds(rules: seq<Record>)
  {
    forall i, j :: 0 <= i < j < |rules| ==> rules[i].id < rules[j].id
  }

  /** No two different stored records share an insertion number. */
  ghost predicate UniqueIds(rules: seq<Record>)
  {
    forall a, b :: a in rules && b in rules && a.id == b.id ==> a == b
  }

  lemma IncreasingIdsAreUnique(rules: seq<Record>)
    requires IncreasingIds(rules)
    ensures UniqueIds(rules)
  {
    forall a, b | a in rules && b in rules && a.id == b.id ensures a == b {
      var i :| 0 <= i < |rules| && rules[i] == a;
      var j :| 0 <= j < |rules| && rules[j] == b;
      assert !(i < j) && !(j < i);
    }
  }
}
