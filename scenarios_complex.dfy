/**
 * The ACL's answers on two trees: roles U -> U1, U2, U3 and resources R -> R1, R2, R3 with
 * R3 -> R4, R5.  A rule on the roots grants everything, a rule nearer the leaves overrides it
 * below its node, and a rule on a leaf pair overrides that again for that pair only.
 */
module ComplexScenario {

  import opened Wrappers
  import opened Graph
  import opened Hierarchy
  import opened Rules
  import opened Resolution
  import opened Decisions
  import opened Fixtures
  import opened AccessControl

  const TreeRoles: seq<string> := ["U", "U1", "U2", "U3"]
  const TreeResources: seq<string> := ["R", "R1", "R2", "R3", "R4", "R5"]

  /** `u->addChild(u1); u->addChild(u2); u->addChild(u3)`. */
  function RoleTree(): Graph
  {
    map["U" := ["U1", "U2", "U3"]]
  }

  /** `r->addChild(r1); r->addChild(r2); r->addChild(r3); r3->addChild(r4); r3->addChild(r5)`. */
  function ResourceTree(): Graph
  {
    map["R" := ["R1", "R2", "R3"], "R3" := ["R4", "R5"]]
  }

  /** `p->addChild(a); p->addChild(b); p->addChild(c)` on fresh nodes. */
  lemma FanOut(p: string, a: string, b: string, c: string)
    requires a != b && a != c && b != c
    ensures AddEdge(AddEdge(AddEdge(map[], p, a), p, b), p, c) == map[p := [a, b, c]]
  {
    assert Children(map[], p) == [] && [] + [a] == [a];
    assert Children(map[p := [a]], p) == [a] && [a] + [b] == [a, b];
    assert Children(map[p := [a, b]], p) == [a, b] && [a, b] + [c] == [a, b, c];
  }

  /** Then `c->addChild(d); c->addChild(e)` on two more fresh nodes. */
  lemma FanOutBelow(p: string, a: string, b: string, c: string, d: string, e: string)
    requires a != b && a != c && b != c && p != c && d != e
    ensures AddEdge(AddEdge(map[p := [a, b, c]], c, d), c, e) == map[p := [a, b, c], c := [d, e]]
  {
    assert Children(map[p := [a, b, c]], c) == [] && [] + [d] == [d];
    assert Children(map[p := [a, b, c], c := [d]], c) == [d] && [d] + [e] == [d, e];
  }

  method BuildRoleTree() returns (roles: Hierarchy)
    ensures fresh(roles) && roles.children == RoleTree()
  {
    roles := new Hierarchy();
    roles.AddChild("U", "U1");
    roles.AddChild("U", "U2");
    roles.AddChild("U", "U3");
    assert "U1"[1] != "U2"[1] && "U1"[1] != "U3"[1] && "U2"[1] != "U3"[1];
    FanOut("U", "U1", "U2", "U3");
  }

  method BuildResourceTree() returns (resources: Hierarchy)
    ensures fresh(resources) && resources.children == ResourceTree()
  {
    resources := new Hierarchy();
    resources.AddChild("R", "R1");
    resources.AddChild("R", "R2");
    resources.AddChild("R", "R3");
    assert "R1"[1] != "R2"[1] && "R1"[1] != "R3"[1] && "R2"[1] != "R3"[1];
    FanOut("R", "R1", "R2", "R3");
    resources.AddChild("R3", "R4");
    resources.AddChild("R3", "R5");
    assert |"R"| != |"R3"| && "R4"[1] != "R5"[1];
    FanOutBelow("R", "R1", "R2", "R3", "R4", "R5");
  }

  /** One step down from a single node reaches exactly its children. */
  lemma StepOfOne(g: Graph, n: string)
    ensures Step(g, {n}) == set c | c in Children(g, n)
  {
  }

  /** A node without children reaches only itself. */
  lemma LeafReaches(g: Graph, leaf: string, x: string)
    requires Children(g, leaf) == []
    ensures Distance(g, leaf, x) == if leaf == x then Some(0) else None
  {
    if leaf != x {
      OutsideClosedUnreachable(g, leaf, x, {leaf});
    }
  }

  /** A child is one hop down. */
  lemma ChildAtOne(g: Graph, p: string, c: string)
    requires c in Children(g, p) && p != c
    ensures Distance(g, p, c) == Some(1)
  {
    DistanceToChild(g, p, p, c);
  }

  /** A grandchild that is not also a child is two hops down. */
  lemma GrandchildAtTwo(g: Graph, a: string, b: string, c: string)
    requires b in Children(g, a) && c in Children(g, b)
    requires a != b && c != a && c !in Children(g, a)
    ensures Distance(g, a, c) == Some(2)
  {
    ChildAtOne(g, a, b);
    DistanceToChild(g, a, b, c);
    StepOfOne(g, a);
    DistanceIsShortest(g, a, c);
    assert !IsShortest(g, a, c, 1);
  }

  /** The depth of a resource of the tree below R. */
  function Depth(o: string): nat
  {
    if o == "R" then 0 else if o == "R4" || o == "R5" then 2 else 1
  }

  /** The resources at or below R3. */
  predicate UnderR3(o: string)
  {
    o == "R3" || o == "R4" || o == "R5"
  }

  lemma RoleTreeDistances(q: string)
    requires q in TreeRoles
    ensures Distance(RoleTree(), "U", q) == Some(if q == "U" then 0 else 1)
    ensures Distance(RoleTree(), "U2", q) == if q == "U2" then Some(0) else None
  {
    LeafReaches(RoleTree(), "U2", q);
    if q != "U" {
      ChildAtOne(RoleTree(), "U", q);
    }
  }

  lemma ResourceTreeDistances(o: string)
    requires o in TreeResources
    ensures Distance(ResourceTree(), "R", o) == Some(Depth(o))
    ensures Distance(ResourceTree(), "R3", o) == if UnderR3(o) then Some(Depth(o) - 1) else None
    ensures Distance(ResourceTree(), "R4", o) == if o == "R4" then Some(0) else None
    ensures Distance(ResourceTree(), "R5", o) == if o == "R5" then Some(0) else None
  {
    var g := ResourceTree();
    LeafReaches(g, "R4", o);
    LeafReaches(g, "R5", o);
    if o == "R1" || o == "R2" || o == "R3" {
      ChildAtOne(g, "R", o);
    } else if o == "R4" || o == "R5" {
      GrandchildAtTwo(g, "R", "R3", o);
    }
    if UnderR3(o) {
      if o != "R3" {
        ChildAtOne(g, "R3", o);
      }
    } else {
      OutsideClosedUnreachable(g, "R3", o, {"R3", "R4", "R5"});
    }
  }

  /** The answer the test expects for `isAllowed(q, o, 'View')` after the given number of `addRule` rounds. */
  function Expected(round: nat, q: string, o: string): bool
  {
    round == 1 || !UnderR3(o) || (round == 3 && q == "U2" && (o == "R4" || o == "R5"))
  }

  /** Every query of the test, on every role and resource of the trees, gets the expected answer. */
  ghost predicate Checks(s: Snapshot, round: nat)
  {
    forall i, l :: 0 <= i < |TreeRoles| && 0 <= l < |TreeResources| ==>
      Ask(s, TreeRoles[i], TreeResources[l], "View") == Expected(round, TreeRoles[i], TreeResources[l])
  }

  /** U may View R. */
  function FirstRules(): seq<Record>
  {
    [Record(0, "U", "R", Rule("View"), true)]
  }

  /** And U may not View R3. */
  function SecondRules(): seq<Record>
  {
    FirstRules() + [Record(1, "U", "R3", Rule("View"), false)]
  }

  /** And U2 may View R4 and R5. */
  function ThirdRules(): seq<Record>
  {
    SecondRules() + [Record(2, "U2", "R4", Rule("View"), true), Record(3, "U2", "R5", Rule("View"), true)]
  }

  /** The root rule reaches every pair of the trees. */
  lemma FirstRound(s: Snapshot, q: string, o: string)
    requires s == Snapshot(FirstRules(), RoleTree(), ResourceTree())
    requires q in TreeRoles && o in TreeResources
    ensures Ask(s, q, o, "View")
  {
    RoleTreeDistances(q);
    ResourceTreeDistances(o);
    SoleRuleScope(s, 0, q, o);
  }

  /** Below R3 the denying rule is one hop nearer than the root rule; elsewhere it does not reach. */
  lemma SecondRound(s: Snapshot, q: string, o: string)
    requires s == Snapshot(SecondRules(), RoleTree(), ResourceTree())
    requires q in TreeRoles && o in TreeResources
    ensures Ask(s, q, o, "View") == !UnderR3(o)
  {
    RoleTreeDistances(q);
    ResourceTreeDistances(o);
    SingleCandidateWinner(s, Name(q), Name(o), "View", if UnderR3(o) then 1 else 0);
  }

  /** The leaf rules are at distance 0 on their own pair and reach nothing else. */
  lemma ThirdRound(s: Snapshot, q: string, o: string)
    requires s == Snapshot(ThirdRules(), RoleTree(), ResourceTree())
    requires q in TreeRoles && o in TreeResources
    ensures Ask(s, q, o, "View") == (!UnderR3(o) || (q == "U2" && (o == "R4" || o == "R5")))
  {
    if q == "U2" && o == "R4" {
      LeafR4Wins(s);
    } else if q == "U2" && o == "R5" {
      LeafR5Wins(s);
    } else {
      LeafRulesMiss(s, q, o);
    }
  }

  /** Off the two leaf pairs the leaf rules do not reach, and the second round's answer stands. */
  lemma LeafRulesMiss(s: Snapshot, q: string, o: string)
    requires s == Snapshot(ThirdRules(), RoleTree(), ResourceTree())
    requires q in TreeRoles && o in TreeResources
    requires !(q == "U2" && (o == "R4" || o == "R5"))
    ensures Ask(s, q, o, "View") == !UnderR3(o)
  {
    var second := Snapshot(SecondRules(), RoleTree(), ResourceTree());
    var leaf4, leaf5 := ThirdRules()[2], ThirdRules()[3];
    var middle := Snapshot(SecondRules() + [leaf4], RoleTree(), ResourceTree());
    assert ThirdRules() == middle.rules + [leaf5];
    LeafRuleMisses(second, leaf4, q, o);
    LeafRuleMisses(middle, leaf5, q, o);
    SecondRound(second, q, o);
  }

  /** A rule of U2 on a leaf, added to a store on the trees, leaves the answers off its own pair alone. */
  lemma LeafRuleMisses(s: Snapshot, rec: Record, q: string, o: string)
    requires s.roles == RoleTree() && s.resources == ResourceTree()
    requires rec.role == "U2" && (rec.resource == "R4" || rec.resource == "R5")
    requires q in TreeRoles && o in TreeResources && !(q == "U2" && o == rec.resource)
    ensures Ask(Snapshot(s.rules + [rec], s.roles, s.resources), q, o, "View") == Ask(s, q, o, "View")
  {
    RoleTreeDistances(q);
    ResourceTreeDistances(o);
    assert Score(s, rec, q, o, "View").None?;
    IrrelevantRecord(s, rec, Name(q), Name(o), "View");
  }

  /** On U2 and R5 the newest rule is on exactly the queried pair. */
  lemma LeafR5Wins(s: Snapshot)
    requires s == Snapshot(ThirdRules(), RoleTree(), ResourceTree())
    ensures Ask(s, "U2", "R5", "View")
  {
    var middle := Snapshot(SecondRules() + [ThirdRules()[2]], RoleTree(), ResourceTree());
    assert s.rules == middle.rules + [ThirdRules()[3]];
    ExactLatestWins(middle, ThirdRules()[3]);
  }

  /** On U2 and R4 the rule added after the one on exactly the pair does not reach it. */
  lemma LeafR4Wins(s: Snapshot)
    requires s == Snapshot(ThirdRules(), RoleTree(), ResourceTree())
    ensures Ask(s, "U2", "R4", "View")
  {
    var middle := Snapshot(SecondRules() + [ThirdRules()[2]], RoleTree(), ResourceTree());
    assert s.rules == middle.rules + [ThirdRules()[3]];
    LeafRuleMisses(middle, ThirdRules()[3], "U2", "R4");
    LeafR4InMiddle(middle);
  }

  lemma LeafR4InMiddle(s: Snapshot)
    requires s == Snapshot(SecondRules() + [Record(2, "U2", "R4", Rule("View"), true)], RoleTree(), ResourceTree())
    ensures Ask(s, "U2", "R4", "View")
  {
    ExactLatestWins(Snapshot(SecondRules(), RoleTree(), ResourceTree()), Record(2, "U2", "R4", Rule("View"), true));
  }

  lemma FirstChecks(s: Snapshot)
    requires s == Snapshot(FirstRules(), RoleTree(), ResourceTree())
    ensures Checks(s, 1)
  {
    forall i, l | 0 <= i < |TreeRoles| && 0 <= l < |TreeResources|
      ensures Ask(s, TreeRoles[i], TreeResources[l], "View") == Expected(1, TreeRoles[i], TreeResources[l])
    {
      FirstRound(s, TreeRoles[i], TreeResources[l]);
    }
  }

  lemma SecondChecks(s: Snapshot)
    requires s == Snapshot(SecondRules(), RoleTree(), ResourceTree())
    ensures Checks(s, 2)
  {
    forall i, l | 0 <= i < |TreeRoles| && 0 <= l < |TreeResources|
      ensures Ask(s, TreeRoles[i], TreeResources[l], "View") == Expected(2, TreeRoles[i], TreeResources[l])
    {
      SecondRound(s, TreeRoles[i], TreeResources[l]);
    }
  }

  lemma ThirdChecks(s: Snapshot)
    requires s == Snapshot(ThirdRules(), RoleTree(), ResourceTree())
    ensures Checks(s, 3)
  {
    forall i, l | 0 <= i < |TreeRoles| && 0 <= l < |TreeResources|
      ensures Ask(s, TreeRoles[i], TreeResources[l], "View") == Expected(3, TreeRoles[i], TreeResources[l])
    {
      ThirdRound(s, TreeRoles[i], TreeResources[l]);
    }
  }

  /** The first round: an ACL holding the rule on the two roots. */
  method FirstStage() returns (acl: Acl)
    ensures fresh(acl) && acl.Valid() && acl.rules == FirstRules() && acl.nextId == 1
  {
    acl := new Acl();
    acl.AddRule("U", "R", Rule("View"), true);
  }

  /** The second round adds the denial on R3. */
  method SecondStage(acl: Acl)
    requires acl.Valid() && acl.rules == FirstRules() && acl.nextId == 1
    modifies acl
    ensures acl.Valid() && acl.rules == SecondRules() && acl.nextId == 2
  {
    acl.AddRule("U", "R3", Rule("View"), false);
  }

  /** The third round adds the two leaf rules for U2. */
  method ThirdStage(acl: Acl)
    requires acl.Valid() && acl.rules == SecondRules() && acl.nextId == 2
    modifies acl
    ensures acl.Valid() && acl.rules == ThirdRules()
  {
    acl.AddRule("U2", "R4", Rule("View"), true);
    acl.AddRule("U2", "R5", Rule("View"), true);
  }

  /**
   * The three rounds of rules on the two trees, each followed by all 24 queries.  Each snapshot is
   * the ACL's store after its round together with the two trees built.
   */
  method ComplexGraph() returns (first: Snapshot, second: Snapshot, third: Snapshot)
    ensures first == Snapshot(FirstRules(), RoleTree(), ResourceTree())
    ensures second == Snapshot(SecondRules(), RoleTree(), ResourceTree())
    ensures third == Snapshot(ThirdRules(), RoleTree(), ResourceTree())
    ensures Checks(first, 1) && Checks(second, 2) && Checks(third, 3)
  {
    var roles := BuildRoleTree();
    var resources := BuildResourceTree();
    var acl := FirstStage();
    first := Snapshot(acl.rules, roles.children, resources.children);
    FirstChecks(first);
    SecondStage(acl);
    second := Snapshot(acl.rules, roles.children, resources.children);
    SecondChecks(second);
    ThirdStage(acl);
    third := Snapshot(acl.rules, roles.children, resources.children);
    ThirdChecks(third);
  }
}
