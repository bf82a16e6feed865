/**
 * The rule-resolution engine behind `isAllowed` and `isAllowedReturnResult`: candidate
 * expansion of the two query arguments, matching of the stored records against every
 * candidate pair, and the ranking that picks the winning record.
 */
module Resolution {

  import opened Wrappers
  import opened Graph
  import opened Rules

  /** What a query reads: the records in insertion order and the two hierarchies. */
  datatype Snapshot = Snapshot(rules: seq<Record>, roles: Graph, resources: Graph)

  /**
   * A query argument: a name, a node object, an aggregate (its members in order), or a value of
   * some other type.  Names are unique per kind, so a node is identified by its name.
   */
  datatype Arg = Name(name: string) | Node(node: string) | Aggregate(members: seq<string>) | Other

  /**
   * A record that bears on one candidate pair: `distance` is the role hops plus the resource
   * hops from the record's nodes down to the candidates, the indices are the candidates'
   * positions in their expansions.
   */
  datatype Match = Match(distance: nat, roleIndex: nat, resourceIndex: nat, record: Record)

  /** The candidate nodes of an argument, in order: one for a name or node, the members of an aggregate. */
  function Candidates(a: Arg): seq<string>
  {
    match a
    case Name(n) => [n]
    case Node(n) => [n]
    case Aggregate(ms) => ms
    case Other => []
  }

  /** The combined distance at which `rec` bears on the pair (role, resource) for `action`, if it does. */
  function Score(s: Snapshot, rec: Record, role: string, resource: string, action: string): Option<nat>
  {
    if rec.rule.name != action then None
    else
      var dr, ds := Distance(s.roles, rec.role, role), Distance(s.resources, rec.resource, resource);
      if dr.Some? && ds.Some? then Some(dr.value + ds.value) else None
  }

  /** `m` is one of the matches of the query (role, resource, action). */
  ghost predicate IsMatch(s: Snapshot, role: Arg, resource: Arg, action: string, m: Match)
  {
    var rc, sc := Candidates(role), Candidates(resource);
    && m.roleIndex < |rc|
    && m.resourceIndex < |sc|
    && m.record in s.rules
    && Score(s, m.record, rc[m.roleIndex], sc[m.resourceIndex], action) == Some(m.distance)
  }

  /** The matches of the records `recs` for the candidate pair at positions (i, j), in store order. */
  function RecordMatches(s: Snapshot, recs: seq<Record>, role: string, i: nat, resource: string, j: nat, action: string): (r: seq<Match>)
    ensures forall m :: m in r <==>
      m.roleIndex == i && m.resourceIndex == j && m.record in recs && Score(s, m.record, role, resource, action) == Some(m.distance)
  {
    if recs == [] then []
    else
      var here := match Score(s, recs[0], role, resource, action)
        case Some(d) => [Match(d, i, j, recs[0])]
        case None => [];
      here + RecordMatches(s, recs[1..], role, i, resource, j, action)
  }

  /** The matches for role candidate `role` (at position i) and the resource candidates from position j on. */
  function RowMatches(s: Snapshot, role: string, i: nat, resources: seq<string>, j: nat, action: string): (r: seq<Match>)
    requires j <= |resources|
    ensures forall m :: m in r <==>
      && m.roleIndex == i && j <= m.resourceIndex < |resources| && m.record in s.rules
      && Score(s, m.record, role, resources[m.resourceIndex], action) == Some(m.distance)
    decreases |resources| - j
  {
    if j == |resources| then []
    else RecordMatches(s, s.rules, role, i, resources[j], j, action) + RowMatches(s, role, i, resources, j + 1, action)
  }

  /** The matches for the role candidates from position i on, subject outer, resource inner. */
  function AllMatches(s: Snapshot, roles: seq<string>, i: nat, resources: seq<string>, action: string): (r: seq<Match>)
    requires i <= |roles|
    ensures forall m :: m in r <==>
      && i <= m.roleIndex < |roles| && m.resourceIndex < |resources| && m.record in s.rules
      && Score(s, m.record, roles[m.roleIndex], resources[m.resourceIndex], action) == Some(m.distance)
    decreases |roles| - i
  {
    if i == |roles| then []
    else RowMatches(s, roles[i], i, resources, 0, action) + AllMatches(s, roles, i + 1, resources, action)
  }

  /**
   * The ranking: a smaller total distance first, then the earlier role candidate, then the
   * earlier resource candidate, then the more recently added record.
   */
  predicate Precedes(a: Match, b: Match)
  {
    if a.distance != b.distance then a.distance < b.distance
    else if a.roleIndex != b.roleIndex then a.roleIndex < b.roleIndex
    else if a.resourceIndex != b.resourceIndex then a.resourceIndex < b.resourceIndex
    else a.record.id > b.record.id
  }

  /** No match is ranked after one it precedes. */
  ghost predicate Sorted(ms: seq<Match>)
  {
    forall i, j :: 0 <= i < j < |ms| ==> !Precedes(ms[j], ms[i])
  }

  function Insert(m: Match, ms: seq<Match>): (r: seq<Match>)
    ensures multiset(r) == multiset(ms) + multiset{m}
  {
    if ms == [] then [m]
    else if Precedes(ms[0], m) then
      assert ms == [ms[0]] + ms[1..];
      [ms[0]] + Insert(m, ms[1..])
    else [m] + ms
  }

  lemma {:induction false} InsertSorted(m: Match, ms: seq<Match>)
    requires Sorted(ms)
    ensures Sorted(Insert(m, ms))
  {
    if ms == [] {
    } else if Precedes(ms[0], m) {
      var rest := Insert(m, ms[1..]);
      InsertSorted(m, ms[1..]);
      forall k | 0 <= k < |rest| ensures !Precedes(rest[k], ms[0]) {
        assert rest[k] in multiset(ms[1..]) + multiset{m};
        if rest[k] != m {
          var j :| 1 <= j < |ms| && ms[j] == rest[k];
        }
      }
      assert Insert(m, ms) == [ms[0]] + rest;
    } else {
      forall k | 0 <= k < |ms| ensures !Precedes(ms[k], m) {
        assert k == 0 || !Precedes(ms[k], ms[0]);
      }
    }
  }

  function Sort(ms: seq<Match>): (r: seq<Match>)
    ensures multiset(r) == multiset(ms)
    ensures Sorted(r)
  {
    if ms == [] then []
    else
      assert ms == [ms[0]] + ms[1..];
      InsertSorted(ms[0], Sort(ms[1..]));
      Insert(ms[0], Sort(ms[1..]))
  }

  /** Every match of the query, best first. */
  function Ranked(s: Snapshot, role: Arg, resource: Arg, action: string): (r: seq<Match>)
    ensures Sorted(r)
    ensures forall m :: m in r <==> IsMatch(s, role, resource, action, m)
  {
    var ms := AllMatches(s, Candidates(role), 0, Candidates(resource), action);
    var r := Sort(ms);
    assert forall m :: m in r <==> m in multiset(ms);
    r
  }

  /** `m` is a match that no other match outranks. */
  ghost predicate Best(s: Snapshot, role: Arg, resource: Arg, action: string, m: Match)
  {
    IsMatch(s, role, resource, action, m) && forall m' :: IsMatch(s, role, resource, action, m') ==> !Precedes(m', m)
  }

  lemma MatchIsOfStore(s: Snapshot, role: Arg, resource: Arg, action: string, m: Match)
    requires IsMatch(s, role, resource, action, m)
    ensures m.record in s.rules && m.record.rule.name == action
  {
  }

  lemma HeadIsBest(s: Snapshot, role: Arg, resource: Arg, action: string)
    requires Ranked(s, role, resource, action) != []
    ensures Best(s, role, resource, action, Ranked(s, role, resource, action)[0])
  {
    var ranked := Ranked(s, role, resource, action);
    forall m' | IsMatch(s, role, resource, action, m') ensures !Precedes(m', ranked[0]) {
      var k :| 0 <= k < |ranked| && ranked[k] == m';
    }
  }

  /** The record of each match, in order. */
  function RecordsOf(ms: seq<Match>): seq<Record>
  {
    seq(|ms|, k requires 0 <= k < |ms| => ms[k].record)
  }

  /** `isAllowedReturnResult`: the matching records, best first. */
  function IsAllowedReturnResult(s: Snapshot, role: Arg, resource: Arg, action: string): (r: seq<Record>)
    ensures forall rec :: rec in r ==> rec in s.rules && rec.rule.name == action
    ensures r == [] <==> forall m :: !IsMatch(s, role, resource, action, m)
    ensures r != [] ==> exists m :: Best(s, role, resource, action, m) && m.record == r[0]
  {
    var ranked := Ranked(s, role, resource, action);
    if ranked == [] then []
    else
      HeadIsBest(s, role, resource, action);
      var r := RecordsOf(ranked);
      assert forall rec :: rec in r ==> rec in s.rules && rec.rule.name == action by {
        forall rec | rec in r ensures rec in s.rules && rec.rule.name == action {
          var k :| 0 <= k < |r| && r[k] == rec;
          MatchIsOfStore(s, role, resource, action, ranked[k]);
        }
      }
      r
  }

  /** `isAllowed`: the outcome of the best match, or false when nothing matches. */
  function IsAllowed(s: Snapshot, role: Arg, resource: Arg, action: string): (allowed: bool)
    ensures allowed ==> exists m :: Best(s, role, resource, action, m) && m.record.allowed
    ensures !allowed ==>
      (forall m :: !IsMatch(s, role, resource, action, m)) ||
      (exists m :: Best(s, role, resource, action, m) && !m.record.allowed)
  {
    var ranked := Ranked(s, role, resource, action);
    if ranked == [] then false
    else
      HeadIsBest(s, role, resource, action);
      ranked[0].record.allowed
  }
}
