/**
 * What the resolution engine promises: default deny, the winner of the ranking, cascade down
 * the hierarchies (and never up), indifference to records that do not bear on a query, and the
 * reverse-insertion order of exactly tied results.
 */
module Decisions {

  import opened Wrappers
  import opened Graph
  import opened Rules
  import opened Resolution

  /** A match that outranks every other match decides both `isAllowed` and the head of the result. */
  lemma BestMatchDecides(s: Snapshot, role: Arg, resource: Arg, action: string, m: Match)
    requires IsMatch(s, role, resource, action, m)
    requires forall m' :: IsMatch(s, role, resource, action, m') && m' != m ==> Precedes(m, m')
    ensures IsAllowed(s, role, resource, action) == m.record.allowed
    ensures IsAllowedReturnResult(s, role, resource, action) != []
    ensures IsAllowedReturnResult(s, role, resource, action)[0] == m.record
  {
    var ranked := Ranked(s, role, resource, action);
    assert m in ranked;
    HeadIsBest(s, role, resource, action);
    assert ranked[0] == m;
  }

  /** `isAllowed` answers the outcome of the first record `isAllowedReturnResult` lists, and denies when it lists none. */
  lemma AllowedIsHeadOfResult(s: Snapshot, role: Arg, resource: Arg, action: string)
    ensures var r := IsAllowedReturnResult(s, role, resource, action);
      IsAllowed(s, role, resource, action) == (r != [] && r[0].allowed)
  {
    var ranked := Ranked(s, role, resource, action);
    if ranked != [] {
      assert IsAllowedReturnResult(s, role, resource, action)[0] == ranked[0].record;
    }
  }

  /** When every stored record carries the same outcome, a query answers it wherever anything matches. */
  lemma UnanimousStore(s: Snapshot, role: Arg, resource: Arg, action: string, allowed: bool)
    requires forall rec :: rec in s.rules ==> rec.allowed == allowed
    ensures IsAllowed(s, role, resource, action) == (allowed && exists m :: IsMatch(s, role, resource, action, m))
  {
    if IsAllowed(s, role, resource, action) {
      var m :| Best(s, role, resource, action, m) && m.record.allowed;
      assert m.record in s.rules;
    } else if exists m :: Best(s, role, resource, action, m) && !m.record.allowed {
      var m :| Best(s, role, resource, action, m) && !m.record.allowed;
      assert m.record in s.rules;
    }
  }

  /** With distinct insertion numbers the ranking has exactly one best match. */
  lemma BestIsUnique(s: Snapshot, role: Arg, resource: Arg, action: string, m1: Match, m2: Match)
    requires UniqueIds(s.rules)
    requires Best(s, role, resource, action, m1) && Best(s, role, resource, action, m2)
    ensures m1 == m2
  {
    assert !Precedes(m1, m2) && !Precedes(m2, m1);
    assert m1.record.id == m2.record.id;
  }

  /** `isAllowed` is true exactly when the best match allows. */
  lemma AllowedIffBestAllows(s: Snapshot, role: Arg, resource: Arg, action: string)
    requires UniqueIds(s.rules)
    ensures IsAllowed(s, role, resource, action) <==> exists m :: Best(s, role, resource, action, m) && m.record.allowed
  {
    if !IsAllowed(s, role, resource, action) {
      forall m | Best(s, role, resource, action, m) ensures !m.record.allowed {
        var w :| Best(s, role, resource, action, w) && !w.record.allowed;
        BestIsUnique(s, role, resource, action, m, w);
      }
    }
  }

  /** A store numbered in insertion order, as every ACL keeps, answers by its single best match. */
  lemma IncreasingStoreAllowedIffBestAllows(s: Snapshot, role: Arg, resource: Arg, action: string)
    requires IncreasingIds(s.rules)
    ensures IsAllowed(s, role, resource, action) <==> exists m :: Best(s, role, resource, action, m) && m.record.allowed
  {
    IncreasingIdsAreUnique(s.rules);
    AllowedIffBestAllows(s, role, resource, action);
  }

  /** Deny by default: an empty store answers false and yields nothing. */
  lemma EmptyStoreDenies(s: Snapshot, role: Arg, resource: Arg, action: string)
    requires s.rules == []
    ensures !IsAllowed(s, role, resource, action)
    ensures IsAllowedReturnResult(s, role, resource, action) == []
  {
  }

  /** Deny by default: an action no record names answers false. */
  lemma UnknownActionDenies(s: Snapshot, role: Arg, resource: Arg, action: string)
    requires forall rec :: rec in s.rules ==> rec.rule.name != action
    ensures !IsAllowed(s, role, resource, action)
    ensures IsAllowedReturnResult(s, role, resource, action) == []
  {
    forall m ensures !IsMatch(s, role, resource, action, m) {
      if IsMatch(s, role, resource, action, m) {
        MatchIsOfStore(s, role, resource, action, m);
      }
    }
  }

  /** The role name is in no hierarchy and no record. */
  ghost predicate UnknownRole(s: Snapshot, a: Arg)
  {
    a.Name? && a.name !in Nodes(s.roles) && forall rec :: rec in s.rules ==> rec.role != a.name
  }

  /** The resource name is in no hierarchy and no record. */
  ghost predicate UnknownResource(s: Snapshot, a: Arg)
  {
    a.Name? && a.name !in Nodes(s.resources) && forall rec :: rec in s.rules ==> rec.resource != a.name
  }

  /** Deny by default: a role or resource name that was never registered answers false. */
  lemma UnknownNameDenies(s: Snapshot, role: Arg, resource: Arg, action: string)
    requires UnknownRole(s, role) || UnknownResource(s, resource)
    ensures !IsAllowed(s, role, resource, action)
    ensures IsAllowedReturnResult(s, role, resource, action) == []
  {
    forall m ensures !IsMatch(s, role, resource, action, m) {
      if IsMatch(s, role, resource, action, m) {
        var rec := m.record;
        var q, o := Candidates(role)[m.roleIndex], Candidates(resource)[m.resourceIndex];
        assert Score(s, rec, q, o, action).Some?;
        DistanceStaysInGraph(s.roles, rec.role, q);
        DistanceStaysInGraph(s.resources, rec.resource, o);
      }
    }
  }

  /** Deny by default: an empty aggregate or an argument of a foreign type gives no candidate. */
  lemma NoCandidatesDeny(s: Snapshot, role: Arg, resource: Arg, action: string)
    requires Candidates(role) == [] || Candidates(resource) == []
    ensures !IsAllowed(s, role, resource, action)
    ensures IsAllowedReturnResult(s, role, resource, action) == []
  {
  }

  /** Deny by default: when no record bears on any candidate pair, nothing matches. */
  lemma NoScoreDenies(s: Snapshot, role: Arg, resource: Arg, action: string)
    requires forall rec, i, j :: rec in s.rules && 0 <= i < |Candidates(role)| && 0 <= j < |Candidates(resource)| ==>
      Score(s, rec, Candidates(role)[i], Candidates(resource)[j], action).None?
    ensures !IsAllowed(s, role, resource, action)
    ensures IsAllowedReturnResult(s, role, resource, action) == []
  {
  }

  /**
   * The record at position k, matched on candidate pair (i, j), decides the query when its match
   * outranks the match of every other record on every other candidate pair.
   */
  lemma Winner(s: Snapshot, role: Arg, resource: Arg, action: string, i: nat, j: nat, k: nat)
    requires i < |Candidates(role)| && j < |Candidates(resource)| && k < |s.rules|
    requires Score(s, s.rules[k], Candidates(role)[i], Candidates(resource)[j], action).Some?
    requires forall i', j', k' ::
      (&& 0 <= i' < |Candidates(role)| && 0 <= j' < |Candidates(resource)| && 0 <= k' < |s.rules|
       && (i', j', k') != (i, j, k) && Score(s, s.rules[k'], Candidates(role)[i'], Candidates(resource)[j'], action).Some?) ==>
      Precedes(Match(Score(s, s.rules[k], Candidates(role)[i], Candidates(resource)[j], action).value, i, j, s.rules[k]),
               Match(Score(s, s.rules[k'], Candidates(role)[i'], Candidates(resource)[j'], action).value, i', j', s.rules[k']))
    ensures IsAllowed(s, role, resource, action) == s.rules[k].allowed
    ensures IsAllowedReturnResult(s, role, resource, action) != []
    ensures IsAllowedReturnResult(s, role, resource, action)[0] == s.rules[k]
  {
    var m := Match(Score(s, s.rules[k], Candidates(role)[i], Candidates(resource)[j], action).value, i, j, s.rules[k]);
    forall m' | IsMatch(s, role, resource, action, m') && m' != m ensures Precedes(m, m') {
      var k' :| 0 <= k' < |s.rules| && s.rules[k'] == m'.record;
      assert (m'.roleIndex, m'.resourceIndex, k') != (i, j, k);
    }
    BestMatchDecides(s, role, resource, action, m);
  }

  /**
   * For a single role candidate and a single resource candidate: the record with the smallest
   * combined distance wins, and on an equal distance the one added last.
   */
  lemma SingleCandidateWinner(s: Snapshot, role: Arg, resource: Arg, action: string, k: nat)
    requires |Candidates(role)| == 1 && |Candidates(resource)| == 1
    requires k < |s.rules|
    requires Score(s, s.rules[k], Candidates(role)[0], Candidates(resource)[0], action).Some?
    requires forall j :: 0 <= j < |s.rules| && j != k && Score(s, s.rules[j], Candidates(role)[0], Candidates(resource)[0], action).Some? ==>
      var dj, dk := Score(s, s.rules[j], Candidates(role)[0], Candidates(resource)[0], action).value,
                    Score(s, s.rules[k], Candidates(role)[0], Candidates(resource)[0], action).value;
      dj > dk || (dj == dk && s.rules[j].id < s.rules[k].id)
    ensures IsAllowed(s, role, resource, action) == s.rules[k].allowed
    ensures IsAllowedReturnResult(s, role, resource, action) != []
    ensures IsAllowedReturnResult(s, role, resource, action)[0] == s.rules[k]
  {
    var q, o := Candidates(role)[0], Candidates(resource)[0];
    var m := Match(Score(s, s.rules[k], q, o, action).value, 0, 0, s.rules[k]);
    forall m' | IsMatch(s, role, resource, action, m') && m' != m ensures Precedes(m, m') {
      var j :| 0 <= j < |s.rules| && s.rules[j] == m'.record;
      assert j != k;
    }
    BestMatchDecides(s, role, resource, action, m);
  }

  /**
   * A record added on exactly the queried role, resource and action, later than every stored
   * record, decides that query: nothing is nearer than distance 0, and on a tie the latest wins.
   */
  lemma ExactLatestWins(s: Snapshot, rec: Record)
    requires forall j :: 0 <= j < |s.rules| ==> s.rules[j].id < rec.id
    ensures IsAllowed(Snapshot(s.rules + [rec], s.roles, s.resources), Name(rec.role), Name(rec.resource), rec.rule.name) == rec.allowed
  {
    var t := Snapshot(s.rules + [rec], s.roles, s.resources);
    assert t.rules[|s.rules|] == rec;
    SingleCandidateWinner(t, Name(rec.role), Name(rec.resource), rec.rule.name, |s.rules|);
  }

  /**
   * When one record is the only one for `action`, a query by name answers its outcome exactly on
   * the nodes at or below both of its bound nodes, and false everywhere else.
   */
  lemma SoleRuleScope(s: Snapshot, k: nat, c: string, d: string)
    requires k < |s.rules|
    requires forall j :: 0 <= j < |s.rules| && j != k ==> s.rules[j].rule.name != s.rules[k].rule.name
    ensures IsAllowed(s, Name(c), Name(d), s.rules[k].rule.name) ==
      (s.rules[k].allowed && Distance(s.roles, s.rules[k].role, c).Some? && Distance(s.resources, s.rules[k].resource, d).Some?)
  {
    var rec, action := s.rules[k], s.rules[k].rule.name;
    if Distance(s.roles, rec.role, c).Some? && Distance(s.resources, rec.resource, d).Some? {
      SingleCandidateWinner(s, Name(c), Name(d), action, k);
    } else {
      forall m ensures !IsMatch(s, Name(c), Name(d), action, m) {
        if IsMatch(s, Name(c), Name(d), action, m) {
          MatchIsOfStore(s, Name(c), Name(d), action, m);
        }
      }
    }
  }

  /** A record bound to a node also bears on everything below that node, on both axes. */
  lemma CascadesDown(s: Snapshot, rec: Record, p: string, o: string, c: string, d: string, action: string)
    requires Score(s, rec, p, o, action).Some?
    requires Distance(s.roles, p, c).Some? && Distance(s.resources, o, d).Some?
    ensures Score(s, rec, c, d, action).Some?
    ensures Score(s, rec, c, d, action).value <=
      Score(s, rec, p, o, action).value + Distance(s.roles, p, c).value + Distance(s.resources, o, d).value
  {
    DistanceTransitive(s.roles, rec.role, p, c);
    DistanceTransitive(s.resources, rec.resource, o, d);
  }

  /** In acyclic hierarchies a record bound to a node never bears on a strict ancestor of it. */
  lemma NeverCascadesUp(s: Snapshot, rec: Record, p: string, o: string, action: string)
    requires || (Acyclic(s.roles) && Distance(s.roles, p, rec.role).Some? && p != rec.role)
             || (Acyclic(s.resources) && Distance(s.resources, o, rec.resource).Some? && o != rec.resource)
    ensures Score(s, rec, p, o, action).None?
  {
    if Acyclic(s.roles) && Distance(s.roles, p, rec.role).Some? && p != rec.role {
      NeverUpward(s.roles, p, rec.role);
    } else {
      NeverUpward(s.resources, o, rec.resource);
    }
  }

  lemma {:induction false} RecordMatchesIgnore(s: Snapshot, t: Snapshot, recs: seq<Record>, rec: Record,
                                              role: string, i: nat, resource: string, j: nat, action: string)
    requires t.roles == s.roles && t.resources == s.resources
    requires Score(s, rec, role, resource, action).None?
    ensures RecordMatches(t, recs + [rec], role, i, resource, j, action) == RecordMatches(s, recs, role, i, resource, j, action)
  {
    if recs == [] {
      assert [] + [rec] == [rec];
      assert [rec][1..] == [];
    } else {
      var xs := recs + [rec];
      assert xs[0] == recs[0] && xs[1..] == recs[1..] + [rec];
      assert Score(t, recs[0], role, resource, action) == Score(s, recs[0], role, resource, action);
      RecordMatchesIgnore(s, t, recs[1..], rec, role, i, resource, j, action);
    }
  }

  lemma {:induction false} RowMatchesIgnore(s: Snapshot, t: Snapshot, rec: Record, role: string, i: nat,
                                           resources: seq<string>, j: nat, action: string)
    requires t == Snapshot(s.rules + [rec], s.roles, s.resources)
    requires j <= |resources|
    requires forall j' :: 0 <= j' < |resources| ==> Score(s, rec, role, resources[j'], action).None?
    ensures RowMatches(t, role, i, resources, j, action) == RowMatches(s, role, i, resources, j, action)
    decreases |resources| - j
  {
    if j < |resources| {
      RecordMatchesIgnore(s, t, s.rules, rec, role, i, resources[j], j, action);
      RowMatchesIgnore(s, t, rec, role, i, resources, j + 1, action);
    }
  }

  lemma {:induction false} AllMatchesIgnore(s: Snapshot, t: Snapshot, rec: Record, roles: seq<string>, i: nat,
                                           resources: seq<string>, action: string)
    requires t == Snapshot(s.rules + [rec], s.roles, s.resources)
    requires i <= |roles|
    requires forall i', j' :: 0 <= i' < |roles| && 0 <= j' < |resources| ==> Score(s, rec, roles[i'], resources[j'], action).None?
    ensures AllMatches(t, roles, i, resources, action) == AllMatches(s, roles, i, resources, action)
    decreases |roles| - i
  {
    if i < |roles| {
      RowMatchesIgnore(s, t, rec, roles[i], i, resources, 0, action);
      AllMatchesIgnore(s, t, rec, roles, i + 1, resources, action);
    }
  }

  /** Adding a record that bears on no candidate pair of a query changes neither answer to it. */
  lemma IrrelevantRecord(s: Snapshot, rec: Record, role: Arg, resource: Arg, action: string)
    requires forall i, j :: 0 <= i < |Candidates(role)| && 0 <= j < |Candidates(resource)| ==>
      Score(s, rec, Candidates(role)[i], Candidates(resource)[j], action).None?
    ensures IsAllowed(Snapshot(s.rules + [rec], s.roles, s.resources), role, resource, action) == IsAllowed(s, role, resource, action)
    ensures IsAllowedReturnResult(Snapshot(s.rules + [rec], s.roles, s.resources), role, resource, action) ==
            IsAllowedReturnResult(s, role, resource, action)
  {
    var t := Snapshot(s.rules + [rec], s.roles, s.resources);
    AllMatchesIgnore(s, t, rec, Candidates(role), 0, Candidates(resource), action);
    assert Ranked(t, role, resource, action) == Ranked(s, role, resource, action);
  }

  /** Rules for one action name never change the answers for another. */
  lemma OtherActionIrrelevant(s: Snapshot, rec: Record, role: Arg, resource: Arg, action: string)
    requires rec.rule.name != action
    ensures IsAllowed(Snapshot(s.rules + [rec], s.roles, s.resources), role, resource, action) == IsAllowed(s, role, resource, action)
    ensures IsAllowedReturnResult(Snapshot(s.rules + [rec], s.roles, s.resources), role, resource, action) ==
            IsAllowedReturnResult(s, role, resource, action)
  {
    IrrelevantRecord(s, rec, role, resource, action);
  }

  /** In acyclic role hierarchies, a record bound below a role never changes what that role is granted. */
  lemma ChildRuleSparesAncestor(s: Snapshot, rec: Record, p: string, resource: Arg, action: string)
    requires Acyclic(s.roles)
    requires Distance(s.roles, p, rec.role).Some? && p != rec.role
    ensures IsAllowed(Snapshot(s.rules + [rec], s.roles, s.resources), Name(p), resource, action) == IsAllowed(s, Name(p), resource, action)
  {
    forall i, j | 0 <= i < 1 && 0 <= j < |Candidates(resource)|
      ensures Score(s, rec, Candidates(Name(p))[i], Candidates(resource)[j], action).None?
    {
      NeverCascadesUp(s, rec, p, Candidates(resource)[j], action);
    }
    IrrelevantRecord(s, rec, Name(p), resource, action);
  }

  /** The sequence in reverse order. */
  function Reverse<T>(xs: seq<T>): seq<T>
  {
    seq(|xs|, i requires 0 <= i < |xs| => xs[|xs| - 1 - i])
  }

  lemma InsertLast(m: Match, ms: seq<Match>)
    requires forall k :: 0 <= k < |ms| ==> Precedes(ms[k], m)
    ensures Insert(m, ms) == ms + [m]
  {
    if ms != [] {
      InsertLast(m, ms[1..]);
      assert ms == [ms[0]] + ms[1..];
    }
  }

  /** Matches already in strictly descending rank are reversed by the ranking. */
  lemma {:induction false} SortReverses(ms: seq<Match>)
    requires forall i, j :: 0 <= i < j < |ms| ==> Precedes(ms[j], ms[i])
    ensures Sort(ms) == Reverse(ms)
  {
    if ms != [] {
      SortReverses(ms[1..]);
      InsertLast(ms[0], Reverse(ms[1..]));
      assert Reverse(ms) == Reverse(ms[1..]) + [ms[0]];
    }
  }

  /** Each record as a match at distance zero on the first candidate pair. */
  function AtZero(recs: seq<Record>): seq<Match>
  {
    seq(|recs|, k requires 0 <= k < |recs| => Match(0, 0, 0, recs[k]))
  }

  /** The record is bound to exactly the nodes `q` and `o` and names `action`. */
  predicate OnPair(rec: Record, q: string, o: string, action: string)
  {
    rec.rule.name == action && rec.role == q && rec.resource == o
  }

  /** The records bound to exactly `q` and `o` for `action`, in store order. */
  function RecordsOnPair(recs: seq<Record>, q: string, o: string, action: string): (r: seq<Record>)
    ensures forall rec :: rec in r ==> rec in recs
    ensures IncreasingIds(recs) ==> IncreasingIds(r)
  {
    if recs == [] then []
    else
      var rest := RecordsOnPair(recs[1..], q, o, action);
      assert IncreasingIds(recs) ==> forall k :: 0 <= k < |rest| ==> recs[0].id < rest[k].id by {
        if IncreasingIds(recs) {
          forall k | 0 <= k < |rest| ensures recs[0].id < rest[k].id {
            assert rest[k] in recs[1..];
          }
        }
      }
      if OnPair(recs[0], q, o, action) then [recs[0]] + rest else rest
  }

  /** When only the record at position k sits on the pair, it is the only one listed. */
  lemma {:induction false} OnlyOnPair(recs: seq<Record>, q: string, o: string, action: string, k: nat)
    requires k < |recs| && OnPair(recs[k], q, o, action)
    requires forall j :: 0 <= j < |recs| && j != k ==> !OnPair(recs[j], q, o, action)
    ensures RecordsOnPair(recs, q, o, action) == [recs[k]]
  {
    if k == 0 {
      NoneOnPair(recs[1..], q, o, action);
    } else {
      OnlyOnPair(recs[1..], q, o, action, k - 1);
    }
  }

  /** When no record sits on the pair, none is listed. */
  lemma {:induction false} NoneOnPair(recs: seq<Record>, q: string, o: string, action: string)
    requires forall j :: 0 <= j < |recs| ==> !OnPair(recs[j], q, o, action)
    ensures RecordsOnPair(recs, q, o, action) == []
  {
    if recs != [] {
      NoneOnPair(recs[1..], q, o, action);
    }
  }

  /** When every record sits on the pair, all are listed, in store order. */
  lemma {:induction false} AllOnPair(recs: seq<Record>, q: string, o: string, action: string)
    requires forall j :: 0 <= j < |recs| ==> OnPair(recs[j], q, o, action)
    ensures RecordsOnPair(recs, q, o, action) == recs
  {
    if recs != [] {
      AllOnPair(recs[1..], q, o, action);
    }
  }

  /**
   * When each record either sits on the queried nodes or bears on them not at all, the
   * matches are those on the nodes, at distance zero, in store order.
   */
  lemma {:induction false} ExactMatches(s: Snapshot, recs: seq<Record>, q: string, o: string, action: string)
    requires forall rec :: rec in recs ==> OnPair(rec, q, o, action) || Score(s, rec, q, o, action).None?
    ensures RecordMatches(s, recs, q, 0, o, 0, action) == AtZero(RecordsOnPair(recs, q, o, action))
  {
    if recs != [] {
      var rec, rest := recs[0], recs[1..];
      ExactMatches(s, rest, q, o, action);
      var here := ExactHead(s, rec, q, o, action);
      assert RecordMatches(s, recs, q, 0, o, 0, action) == here + RecordMatches(s, rest, q, 0, o, 0, action);
      assert RecordsOnPair(recs, q, o, action) == (if OnPair(rec, q, o, action) then [rec] else []) + RecordsOnPair(rest, q, o, action);
      AtZeroAppend(if OnPair(rec, q, o, action) then [rec] else [], RecordsOnPair(rest, q, o, action));
    }
  }

  /** The matches one such record contributes: one at distance zero exactly when it sits on the pair. */
  lemma ExactHead(s: Snapshot, rec: Record, q: string, o: string, action: string) returns (here: seq<Match>)
    requires OnPair(rec, q, o, action) || Score(s, rec, q, o, action).None?
    ensures here == (match Score(s, rec, q, o, action) case Some(d) => [Match(d, 0, 0, rec)] case None => [])
    ensures here == AtZero(if OnPair(rec, q, o, action) then [rec] else [])
  {
    if OnPair(rec, q, o, action) {
      assert Score(s, rec, q, o, action) == Some(0);
      here := [Match(0, 0, 0, rec)];
    } else {
      here := [];
    }
  }

  lemma AtZeroAppend(a: seq<Record>, b: seq<Record>)
    ensures AtZero(a + b) == AtZero(a) + AtZero(b)
  {
  }

  /** The ranking of such a query: the records on the queried nodes, latest first. */
  lemma ExactRanking(s: Snapshot, role: Arg, resource: Arg, action: string)
    requires |Candidates(role)| == 1 && |Candidates(resource)| == 1
    requires forall rec :: rec in s.rules ==>
      OnPair(rec, Candidates(role)[0], Candidates(resource)[0], action) || Score(s, rec, Candidates(role)[0], Candidates(resource)[0], action).None?
    requires IncreasingIds(s.rules)
    ensures Ranked(s, role, resource, action) == Reverse(AtZero(RecordsOnPair(s.rules, Candidates(role)[0], Candidates(resource)[0], action)))
  {
    var q, o := Candidates(role)[0], Candidates(resource)[0];
    var ms := AtZero(RecordsOnPair(s.rules, q, o, action));
    ExactMatches(s, s.rules, q, o, action);
    assert RowMatches(s, q, 0, Candidates(resource), 0, action) == RecordMatches(s, s.rules, q, 0, o, 0, action) + [];
    assert AllMatches(s, Candidates(role), 0, Candidates(resource), action) == RowMatches(s, q, 0, Candidates(resource), 0, action) + [];
    assert AllMatches(s, Candidates(role), 0, Candidates(resource), action) == ms;
    SortReverses(ms);
  }

  /**
   * When each record either is bound to exactly the queried role and resource for the queried
   * action or bears on the query not at all, `isAllowedReturnResult` lists the former, latest first.
   */
  lemma ResultIsReverseInsertion(s: Snapshot, role: Arg, resource: Arg, action: string)
    requires |Candidates(role)| == 1 && |Candidates(resource)| == 1
    requires forall rec :: rec in s.rules ==>
      OnPair(rec, Candidates(role)[0], Candidates(resource)[0], action) || Score(s, rec, Candidates(role)[0], Candidates(resource)[0], action).None?
    requires IncreasingIds(s.rules)
    ensures IsAllowedReturnResult(s, role, resource, action) == Reverse(RecordsOnPair(s.rules, Candidates(role)[0], Candidates(resource)[0], action))
  {
    ExactRanking(s, role, resource, action);
    var ranked := Ranked(s, role, resource, action);
    assert IsAllowedReturnResult(s, role, resource, action) == RecordsOf(ranked);
    ReverseAtZero(RecordsOnPair(s.rules, Candidates(role)[0], Candidates(resource)[0], action));
  }

  lemma ReverseAtZero(recs: seq<Record>)
    ensures RecordsOf(Reverse(AtZero(recs))) == Reverse(recs)
  {
  }
}
