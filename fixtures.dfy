/** The hierarchies the test suite builds, their distances, and a query by two names. */
module Fixtures {

  import opened Wrappers
  import opened Graph
  import opened Hierarchy
  import opened Rules
  import opened Resolution
  import opened Decisions

  /** The three action names are different. */
  lemma ActionsDistinct()
    ensures forall i, j :: 0 <= i < |Actions| && 0 <= j < |Actions| && i != j ==> Actions[i] != Actions[j]
  {
    assert Actions[0][0] != Actions[1][0] && Actions[0][0] != Actions[2][0] && Actions[1][0] != Actions[2][0];
  }

  /** The role, resource and action names the test suite uses. */
  const Roles: seq<string> := ["User", "Moderator", "Admin"]
  const Resources: seq<string> := ["Page", "Blog", "Site"]
  const Actions: seq<string> := ["View", "Edit", "Remove"]

  /** With no `addChild` at all, a node reaches only itself. */
  lemma NoEdges(from: string, to: string)
    ensures Distance(map[], from, to) == (if from == to then Some(0) else None)
  {
    if Distance(map[], from, to).Some? {
      DistanceStaysInGraph(map[], from, to);
    }
  }

  /**
   * Without any `addChild`, a query by two names lists the records bound to exactly those names
   * and action, latest first, and answers the outcome of the latest of them.
   */
  lemma FlatLatestWins(s: Snapshot, q: string, o: string, action: string)
    requires s.roles == map[] && s.resources == map[]
    requires IncreasingIds(s.rules)
    ensures IsAllowedReturnResult(s, Name(q), Name(o), action) == Reverse(RecordsOnPair(s.rules, q, o, action))
    ensures var on := RecordsOnPair(s.rules, q, o, action);
      Ask(s, q, o, action) == (on != [] && on[|on| - 1].allowed)
  {
    forall rec | rec in s.rules ensures OnPair(rec, q, o, action) || Score(s, rec, q, o, action).None? {
      NoEdges(rec.role, q);
      NoEdges(rec.resource, o);
    }
    ResultIsReverseInsertion(s, Name(q), Name(o), action);
    AllowedIsHeadOfResult(s, Name(q), Name(o), action);
  }

  /** A stored record bears on its own role, resource and action at distance zero. */
  lemma OwnPairMatches(s: Snapshot, k: nat)
    requires k < |s.rules|
    ensures var rec := s.rules[k];
      IsMatch(s, Name(rec.role), Name(rec.resource), rec.rule.name, Match(0, 0, 0, rec))
  {
  }

  /** A store whose records all carry one outcome answers it on each record's own role, resource and action. */
  lemma DecidedAt(s: Snapshot, k: nat, allowed: bool)
    requires forall rec :: rec in s.rules ==> rec.allowed == allowed
    requires k < |s.rules|
    ensures Ask(s, s.rules[k].role, s.rules[k].resource, s.rules[k].rule.name) == allowed
  {
    var rec := s.rules[k];
    OwnPairMatches(s, k);
    UnanimousStore(s, Name(rec.role), Name(rec.resource), rec.rule.name, allowed);
  }

  /** Without any `addChild`, the only record bound to exactly the queried names and action decides. */
  lemma FlatOnlyRecord(s: Snapshot, q: string, o: string, action: string, k: nat)
    requires s.roles == map[] && s.resources == map[]
    requires k < |s.rules| && OnPair(s.rules[k], q, o, action)
    requires forall j :: 0 <= j < |s.rules| && j != k ==> !OnPair(s.rules[j], q, o, action)
    ensures Ask(s, q, o, action) == s.rules[k].allowed
  {
    forall j | 0 <= j < |s.rules| && j != k ensures Score(s, s.rules[j], q, o, action).None? {
      NoEdges(s.rules[j].role, q);
      NoEdges(s.rules[j].resource, o);
    }
    SingleCandidateWinner(s, Name(q), Name(o), action, k);
  }

  /** In such a store `isAllowedReturnResult` lists that one record and nothing else. */
  lemma FlatOnlyResult(s: Snapshot, q: string, o: string, action: string, k: nat)
    requires s.roles == map[] && s.resources == map[]
    requires IncreasingIds(s.rules)
    requires k < |s.rules| && OnPair(s.rules[k], q, o, action)
    requires forall j :: 0 <= j < |s.rules| && j != k ==> !OnPair(s.rules[j], q, o, action)
    ensures IsAllowedReturnResult(s, Name(q), Name(o), action) == [s.rules[k]]
  {
    FlatLatestWins(s, q, o, action);
    OnlyOnPair(s.rules, q, o, action, k);
  }

  /** Without any `addChild`, when every record is bound to exactly the queried names and action, the latest decides. */
  lemma FlatLatestOnPair(s: Snapshot, q: string, o: string, action: string)
    requires s.roles == map[] && s.resources == map[]
    requires IncreasingIds(s.rules) && s.rules != []
    requires forall j :: 0 <= j < |s.rules| ==> OnPair(s.rules[j], q, o, action)
    ensures Ask(s, q, o, action) == s.rules[|s.rules| - 1].allowed
    ensures IsAllowedReturnResult(s, Name(q), Name(o), action) == Reverse(s.rules)
  {
    FlatLatestWins(s, q, o, action);
    AllOnPair(s.rules, q, o, action);
  }

  /** Without any `addChild`, a query no record is bound to exactly is denied. */
  lemma FlatNoRecord(s: Snapshot, q: string, o: string, action: string)
    requires s.roles == map[] && s.resources == map[]
    requires forall rec :: rec in s.rules ==> !OnPair(rec, q, o, action)
    ensures !Ask(s, q, o, action)
  {
    forall rec, i, j | rec in s.rules && 0 <= i < |Candidates(Name(q))| && 0 <= j < |Candidates(Name(o))|
      ensures Score(s, rec, Candidates(Name(q))[i], Candidates(Name(o))[j], action).None?
    {
      NoEdges(rec.role, q);
      NoEdges(rec.resource, o);
    }
    NoScoreDenies(s, Name(q), Name(o), action);
  }

  /**
   * A store whose records all carry one outcome answers it for every query whose candidates
   * include a record's own role and resource, whatever the other candidates.
   */
  lemma DecidedOnCandidates(s: Snapshot, role: Arg, resource: Arg, k: nat, allowed: bool, i: nat, j: nat)
    requires forall rec :: rec in s.rules ==> rec.allowed == allowed
    requires k < |s.rules|
    requires i < |Candidates(role)| && Candidates(role)[i] == s.rules[k].role
    requires j < |Candidates(resource)| && Candidates(resource)[j] == s.rules[k].resource
    ensures IsAllowed(s, role, resource, s.rules[k].rule.name) == allowed
  {
    var rec := s.rules[k];
    OwnPairMatches(s, k);
    assert IsMatch(s, role, resource, rec.rule.name, Match(0, i, j, rec));
    UnanimousStore(s, role, resource, rec.rule.name, allowed);
  }

  /**
   * Without any `addChild`, for a role aggregate and a resource name: when the first member has
   * a rule on the resource, the latest such rule decides, whatever the later members' rules say.
   */
  lemma FirstMemberDecides(s: Snapshot, members: seq<string>, o: string, action: string, k: nat)
    requires s.roles == map[] && s.resources == map[]
    requires members != [] && k < |s.rules| && OnPair(s.rules[k], members[0], o, action)
    requires forall j :: 0 <= j < |s.rules| && j != k && OnPair(s.rules[j], members[0], o, action) ==> s.rules[j].id < s.rules[k].id
    ensures IsAllowed(s, Aggregate(members), Name(o), action) == s.rules[k].allowed
  {
    forall i, j | 0 <= i < |members| && 0 <= j < |s.rules|
      ensures Score(s, s.rules[j], members[i], o, action) == (if OnPair(s.rules[j], members[i], o, action) then Some(0) else None)
    {
      NoEdges(s.rules[j].role, members[i]);
      NoEdges(s.rules[j].resource, o);
    }
    Winner(s, Aggregate(members), Name(o), action, 0, 0, k);
  }

  /**
   * Without any `addChild`, for a role name and a resource aggregate: when the first member has
   * a rule for the role, the latest such rule decides, whatever the later members' rules say.
   */
  lemma FirstResourceDecides(s: Snapshot, q: string, members: seq<string>, action: string, k: nat)
    requires s.roles == map[] && s.resources == map[]
    requires members != [] && k < |s.rules| && OnPair(s.rules[k], q, members[0], action)
    requires forall j :: 0 <= j < |s.rules| && j != k && OnPair(s.rules[j], q, members[0], action) ==> s.rules[j].id < s.rules[k].id
    ensures IsAllowed(s, Name(q), Aggregate(members), action) == s.rules[k].allowed
  {
    forall i, j | 0 <= i < |members| && 0 <= j < |s.rules|
      ensures Score(s, s.rules[j], q, members[i], action) == (if OnPair(s.rules[j], q, members[i], action) then Some(0) else None)
    {
      NoEdges(s.rules[j].role, q);
      NoEdges(s.rules[j].resource, members[i]);
    }
    Winner(s, Name(q), Aggregate(members), action, 0, 0, k);
  }

  /** `a->addChild(b); b->addChild(c)`: distances down the chain, none up it. */
  lemma Chain(g: Graph, a: string, b: string, c: string)
    requires g == AddEdge(AddEdge(map[], a, b), b, c)
    requires a != b && b != c && a != c
    ensures Distance(g, a, b) == Some(1) && Distance(g, b, c) == Some(1)
    ensures Distance(g, a, c).Some?
    ensures Distance(g, b, a).None? && Distance(g, c, a).None? && Distance(g, c, b).None?
  {
    assert Children(map[], a) == [] && [] + [b] == [b];
    assert AddEdge(map[], a, b) == map[a := [b]];
    assert Children(map[a := [b]], b) == [] && [] + [c] == [c];
    assert Children(g, a) == [b] && Children(g, b) == [c] && Children(g, c) == [];
    DistanceToChild(g, a, a, b);
    DistanceToChild(g, a, b, c);
    DistanceToChild(g, b, b, c);
    OutsideClosedUnreachable(g, c, a, {c});
    OutsideClosedUnreachable(g, c, b, {c});
    OutsideClosedUnreachable(g, b, a, {b, c});
  }

  /** The chain `a -> b -> c` has no cycle: its edges descend in height. */
  lemma ChainAcyclic(g: Graph, a: string, b: string, c: string)
    requires g == AddEdge(AddEdge(map[], a, b), b, c)
    requires a != b && b != c && a != c
    ensures Acyclic(g)
  {
    assert Children(map[], a) == [] && [] + [b] == [b];
    assert AddEdge(map[], a, b) == map[a := [b]];
    assert Children(map[a := [b]], b) == [] && [] + [c] == [c];
    assert g == map[a := [b], b := [c]];
    RankedIsAcyclic(g, map[a := 2, b := 1, c := 0]);
  }

  /** The height of a node of the chain `a -> b -> c`: 2 for the top, 0 for the bottom. */
  function ChainHeight(a: string, b: string, c: string, x: string): nat
  {
    if x == a then 2 else if x == b then 1 else 0
  }

  /** On the chain `a -> b -> c`, `x` reaches `y` exactly when `y` is not higher than `x`. */
  lemma ChainReach(g: Graph, a: string, b: string, c: string, x: string, y: string)
    requires g == AddEdge(AddEdge(map[], a, b), b, c)
    requires a != b && b != c && a != c
    requires (x == a || x == b || x == c) && (y == a || y == b || y == c)
    ensures Distance(g, x, y).Some? <==> ChainHeight(a, b, c, y) <= ChainHeight(a, b, c, x)
  {
    Chain(g, a, b, c);
  }

  /** `admin->addChild(moderator); moderator->addChild(user)`. */
  function RoleChain(): Graph
  {
    AddEdge(AddEdge(map[], "Admin", "Moderator"), "Moderator", "User")
  }

  /** `site->addChild(blog); blog->addChild(page)`. */
  function ResourceChain(): Graph
  {
    AddEdge(AddEdge(map[], "Site", "Blog"), "Blog", "Page")
  }

  /** Both chains the hierarchy tests build are acyclic. */
  lemma ChainsAcyclic()
    ensures Acyclic(RoleChain()) && Acyclic(ResourceChain())
  {
    ChainAcyclic(RoleChain(), "Admin", "Moderator", "User");
    ChainAcyclic(ResourceChain(), "Site", "Blog", "Page");
  }

  /** A role name of the chain. */
  predicate IsRole(x: string)
  {
    x == "Admin" || x == "Moderator" || x == "User"
  }

  /** A resource name of the chain. */
  predicate IsResource(x: string)
  {
    x == "Site" || x == "Blog" || x == "Page"
  }

  /** The query on flat hierarchies when no record sits on the queried pair: it denies. */
  method AskUnruled(s: Snapshot, q: string, o: string, action: string) returns (answer: bool)
    requires s.roles == map[] && s.resources == map[]
    requires forall rec :: rec in s.rules ==> !OnPair(rec, q, o, action)
    ensures answer == Ask(s, q, o, action)
    ensures !answer
  {
    FlatNoRecord(s, q, o, action);
    answer := Ask(s, q, o, action);
  }

  /** `isAllowed(q, o, action)` with a role name and a resource name. */
  function Ask(s: Snapshot, q: string, o: string, action: string): bool
  {
    IsAllowed(s, Name(q), Name(o), action)
  }

  /** A query snapshot without any `addChild`: both hierarchies are empty. */
  function Flat(rules: seq<Record>): Snapshot
  {
    Snapshot(rules, map[], map[])
  }
}
