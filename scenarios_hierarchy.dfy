/**
 * The ACL's answers on the role chain Admin -> Moderator -> User and the resource chain
 * Site -> Blog -> Page, built with `addChild` as the test suite builds them.
 */
module HierarchyScenarios {

  import opened Wrappers
  import opened Graph
  import opened Rules
  import opened Resolution
  import opened Decisions
  import opened Fixtures
  import opened Hierarchy
  import opened AccessControl

  /** The role objects of the tests, linked with `addChild`. */
  method BuildRoles() returns (roles: Hierarchy)
    ensures fresh(roles) && roles.children == RoleChain()
  {
    roles := new Hierarchy();
    roles.AddChild("Admin", "Moderator");
    roles.AddChild("Moderator", "User");
  }

  /** The resource objects of the tests, linked with `addChild`. */
  method BuildResources() returns (resources: Hierarchy)
    ensures fresh(resources) && resources.children == ResourceChain()
  {
    resources := new Hierarchy();
    resources.AddChild("Site", "Blog");
    resources.AddChild("Blog", "Page");
  }

  /** A query snapshot on both chains. */
  function OnChains(rules: seq<Record>): Snapshot
  {
    Snapshot(rules, RoleChain(), ResourceChain())
  }

  /** The record of the `id`-th `addRule(role, resource, 'View', allowed)`. */
  function View(id: nat, role: string, resource: string, allowed: bool): Record
  {
    Record(id, role, resource, Rule("View"), allowed)
  }

  /** Three names, in the order a test asks about them. */
  type Three = (string, string, string)

  /** The View answers for each of three roles in turn, each with each of three resources in turn. */
  function ByRole(s: Snapshot, roles: Three, resources: Three): seq<bool>
  {
    [Ask(s, roles.0, resources.0, "View"), Ask(s, roles.0, resources.1, "View"), Ask(s, roles.0, resources.2, "View"),
     Ask(s, roles.1, resources.0, "View"), Ask(s, roles.1, resources.1, "View"), Ask(s, roles.1, resources.2, "View"),
     Ask(s, roles.2, resources.0, "View"), Ask(s, roles.2, resources.1, "View"), Ask(s, roles.2, resources.2, "View")]
  }

  /** The View answers on resource `o` for each of three roles in turn. */
  function RoleColumn(s: Snapshot, roles: Three, o: string): seq<bool>
  {
    [Ask(s, roles.0, o, "View"), Ask(s, roles.1, o, "View"), Ask(s, roles.2, o, "View")]
  }

  /** The View answers for role `q` on each of three resources in turn. */
  function ResourceRow(s: Snapshot, q: string, resources: Three): seq<bool>
  {
    [Ask(s, q, resources.0, "View"), Ask(s, q, resources.1, "View"), Ask(s, q, resources.2, "View")]
  }

  /** The View answers for each of three resources in turn, each with each of three roles in turn. */
  function ByResource(s: Snapshot, resources: Three, roles: Three): seq<bool>
  {
    [Ask(s, roles.0, resources.0, "View"), Ask(s, roles.1, resources.0, "View"), Ask(s, roles.2, resources.0, "View"),
     Ask(s, roles.0, resources.1, "View"), Ask(s, roles.1, resources.1, "View"), Ask(s, roles.2, resources.1, "View"),
     Ask(s, roles.0, resources.2, "View"), Ask(s, roles.1, resources.2, "View"), Ask(s, roles.2, resources.2, "View")]
  }

  /**
   * On both chains, a sole rule answers its outcome for exactly the pairs at or below both of
   * its nodes, and denies everywhere else.
   */
  lemma SoleRuleOnChains(s: Snapshot, q: string, o: string)
    requires s.roles == RoleChain() && s.resources == ResourceChain()
    requires |s.rules| == 1 && IsRole(s.rules[0].role) && IsResource(s.rules[0].resource)
    requires IsRole(q) && IsResource(o)
    requires s.rules[0].rule.name == "View"
    ensures Ask(s, q, o, "View") == (
      && s.rules[0].allowed
      && ChainHeight("Admin", "Moderator", "User", q) <= ChainHeight("Admin", "Moderator", "User", s.rules[0].role)
      && ChainHeight("Site", "Blog", "Page", o) <= ChainHeight("Site", "Blog", "Page", s.rules[0].resource))
  {
    SoleRuleScope(s, 0, q, o);
    ChainReach(s.roles, "Admin", "Moderator", "User", s.rules[0].role, q);
    ChainReach(s.resources, "Site", "Blog", "Page", s.rules[0].resource, o);
  }

  /** With the sole rule on User and Page, only that pair is granted (answers in the test's order). */
  lemma UserAndPageAnswers(s: Snapshot)
    requires s == OnChains([View(0, "User", "Page", true)])
    ensures ByResource(s, ("Page", "Blog", "Site"), ("User", "Moderator", "Admin")) == [true, false, false, false, false, false, false, false, false]
  {
    SoleRuleOnChains(s, "User", "Page");
    SoleRuleOnChains(s, "Moderator", "Page");
    SoleRuleOnChains(s, "Admin", "Page");
    SoleRuleOnChains(s, "User", "Blog");
    SoleRuleOnChains(s, "Moderator", "Blog");
    SoleRuleOnChains(s, "Admin", "Blog");
    SoleRuleOnChains(s, "User", "Site");
    SoleRuleOnChains(s, "Moderator", "Site");
    SoleRuleOnChains(s, "Admin", "Site");
  }

  /** A rule on the bottom pair grants that pair only. */
  method RuleOnUserAndPage() returns (answers: seq<bool>)
    ensures answers == ByResource(OnChains([View(0, "User", "Page", true)]), ("Page", "Blog", "Site"), ("User", "Moderator", "Admin"))
    ensures answers == [true, false, false, false, false, false, false, false, false]
  {
    var roles := BuildRoles();
    var resources := BuildResources();
    var acl := new Acl();
    acl.AddRule("User", "Page", Rule("View"), true);
    var s := Snapshot(acl.rules, roles.children, resources.children);
    assert s == OnChains([View(0, "User", "Page", true)]);
    UserAndPageAnswers(s);
    answers := ByResource(s, ("Page", "Blog", "Site"), ("User", "Moderator", "Admin"));
  }

  /** With the sole rule on Admin and Page, every role is granted the Page and nothing else. */
  lemma AdminAndPageAnswers(s: Snapshot)
    requires s == OnChains([View(0, "Admin", "Page", true)])
    ensures ByRole(s, ("Admin", "User", "Moderator"), ("Page", "Blog", "Site")) == [true, false, false, true, false, false, true, false, false]
  {
    SoleRuleOnChains(s, "Admin", "Page");
    SoleRuleOnChains(s, "Admin", "Blog");
    SoleRuleOnChains(s, "Admin", "Site");
    SoleRuleOnChains(s, "User", "Page");
    SoleRuleOnChains(s, "User", "Blog");
    SoleRuleOnChains(s, "User", "Site");
    SoleRuleOnChains(s, "Moderator", "Page");
    SoleRuleOnChains(s, "Moderator", "Blog");
    SoleRuleOnChains(s, "Moderator", "Site");
  }

  /** A rule on the top role and the bottom resource grants every role that resource only. */
  method RuleOnAdminAndPage() returns (answers: seq<bool>)
    ensures answers == ByRole(OnChains([View(0, "Admin", "Page", true)]), ("Admin", "User", "Moderator"), ("Page", "Blog", "Site"))
    ensures answers == [true, false, false, true, false, false, true, false, false]
  {
    var roles := BuildRoles();
    var resources := BuildResources();
    var acl := new Acl();
    acl.AddRule("Admin", "Page", Rule("View"), true);
    var s := Snapshot(acl.rules, roles.children, resources.children);
    assert s == OnChains([View(0, "Admin", "Page", true)]);
    AdminAndPageAnswers(s);
    answers := ByRole(s, ("Admin", "User", "Moderator"), ("Page", "Blog", "Site"));
  }

  /** With the sole rule on User and Site, User is granted every resource and the other roles nothing. */
  lemma UserAndSiteAnswers(s: Snapshot)
    requires s == OnChains([View(0, "User", "Site", true)])
    ensures ByResource(s, ("Site", "Page", "Blog"), ("User", "Moderator", "Admin")) == [true, false, false, true, false, false, true, false, false]
  {
    SoleRuleOnChains(s, "User", "Site");
    SoleRuleOnChains(s, "Moderator", "Site");
    SoleRuleOnChains(s, "Admin", "Site");
    SoleRuleOnChains(s, "User", "Page");
    SoleRuleOnChains(s, "Moderator", "Page");
    SoleRuleOnChains(s, "Admin", "Page");
    SoleRuleOnChains(s, "User", "Blog");
    SoleRuleOnChains(s, "Moderator", "Blog");
    SoleRuleOnChains(s, "Admin", "Blog");
  }

  /** A rule on the bottom role and the top resource grants that role every resource only. */
  method RuleOnUserAndSite() returns (answers: seq<bool>)
    ensures answers == ByResource(OnChains([View(0, "User", "Site", true)]), ("Site", "Page", "Blog"), ("User", "Moderator", "Admin"))
    ensures answers == [true, false, false, true, false, false, true, false, false]
  {
    var roles := BuildRoles();
    var resources := BuildResources();
    var acl := new Acl();
    acl.AddRule("User", "Site", Rule("View"), true);
    var s := Snapshot(acl.rules, roles.children, resources.children);
    assert s == OnChains([View(0, "User", "Site", true)]);
    UserAndSiteAnswers(s);
    answers := ByResource(s, ("Site", "Page", "Blog"), ("User", "Moderator", "Admin"));
  }

  /** With the sole rule on Moderator and Blog, exactly the pairs at or below it are granted. */
  lemma MiddleAnswers(s: Snapshot)
    requires s == OnChains([View(0, "Moderator", "Blog", true)])
    ensures ByRole(s, ("User", "Moderator", "Admin"), ("Page", "Blog", "Site")) == [true, true, false, true, true, false, false, false, false]
  {
    SoleRuleOnChains(s, "User", "Page");
    SoleRuleOnChains(s, "User", "Blog");
    SoleRuleOnChains(s, "User", "Site");
    SoleRuleOnChains(s, "Moderator", "Page");
    SoleRuleOnChains(s, "Moderator", "Blog");
    SoleRuleOnChains(s, "Moderator", "Site");
    SoleRuleOnChains(s, "Admin", "Page");
    SoleRuleOnChains(s, "Admin", "Blog");
    SoleRuleOnChains(s, "Admin", "Site");
  }

  /** A rule on the middle pair grants the pairs at or below it on both chains. */
  method RuleInTheMiddle() returns (answers: seq<bool>)
    ensures answers == ByRole(OnChains([View(0, "Moderator", "Blog", true)]), ("User", "Moderator", "Admin"), ("Page", "Blog", "Site"))
    ensures answers == [true, true, false, true, true, false, false, false, false]
  {
    var roles := BuildRoles();
    var resources := BuildResources();
    var acl := new Acl();
    acl.AddRule("Moderator", "Blog", Rule("View"), true);
    var s := Snapshot(acl.rules, roles.children, resources.children);
    assert s == OnChains([View(0, "Moderator", "Blog", true)]);
    MiddleAnswers(s);
    answers := ByRole(s, ("User", "Moderator", "Admin"), ("Page", "Blog", "Site"));
  }

  /** With the sole rule on Admin and Site, every pair is granted. */
  lemma TopAnswers(s: Snapshot)
    requires s == OnChains([View(0, "Admin", "Site", true)])
    ensures ByRole(s, ("User", "Admin", "Moderator"), ("Page", "Blog", "Site")) == [true, true, true, true, true, true, true, true, true]
  {
    SoleRuleOnChains(s, "User", "Page");
    SoleRuleOnChains(s, "User", "Blog");
    SoleRuleOnChains(s, "User", "Site");
    SoleRuleOnChains(s, "Admin", "Page");
    SoleRuleOnChains(s, "Admin", "Blog");
    SoleRuleOnChains(s, "Admin", "Site");
    SoleRuleOnChains(s, "Moderator", "Page");
    SoleRuleOnChains(s, "Moderator", "Blog");
    SoleRuleOnChains(s, "Moderator", "Site");
  }

  /** A rule on the top pair grants every pair. */
  method RuleOnTheTop() returns (answers: seq<bool>)
    ensures answers == ByRole(OnChains([View(0, "Admin", "Site", true)]), ("User", "Admin", "Moderator"), ("Page", "Blog", "Site"))
    ensures answers == [true, true, true, true, true, true, true, true, true]
  {
    var roles := BuildRoles();
    var resources := BuildResources();
    var acl := new Acl();
    acl.AddRule("Admin", "Site", Rule("View"), true);
    var s := Snapshot(acl.rules, roles.children, resources.children);
    assert s == OnChains([View(0, "Admin", "Site", true)]);
    TopAnswers(s);
    answers := ByRole(s, ("User", "Admin", "Moderator"), ("Page", "Blog", "Site"));
  }

  /** Role chain only: a rule on User grants User and neither of its ancestors. */
  method ParentRolesDoNotGain() returns (answers: seq<bool>)
    ensures answers == RoleColumn(Snapshot([View(0, "User", "Page", true)], RoleChain(), map[]), ("User", "Moderator", "Admin"), "Page")
    ensures answers == [true, false, false]
  {
    var roles := BuildRoles();
    var acl := new Acl();
    acl.AddRule("User", "Page", Rule("View"), true);
    var s := Snapshot(acl.rules, roles.children, map[]);
    assert s == Snapshot([View(0, "User", "Page", true)], RoleChain(), map[]);
    Chain(s.roles, "Admin", "Moderator", "User");
    SoleRuleScope(s, 0, "User", "Page");
    SoleRuleScope(s, 0, "Moderator", "Page");
    SoleRuleScope(s, 0, "Admin", "Page");
    answers := RoleColumn(s, ("User", "Moderator", "Admin"), "Page");
  }

  /** Role chain only: a rule on Admin is inherited by Moderator and User. */
  method ChildRolesInherit() returns (answers: seq<bool>)
    ensures answers == RoleColumn(Snapshot([View(0, "Admin", "Page", true)], RoleChain(), map[]), ("User", "Moderator", "Admin"), "Page")
    ensures answers == [true, true, true]
  {
    var roles := BuildRoles();
    var acl := new Acl();
    acl.AddRule("Admin", "Page", Rule("View"), true);
    var s := Snapshot(acl.rules, roles.children, map[]);
    assert s == Snapshot([View(0, "Admin", "Page", true)], RoleChain(), map[]);
    Chain(s.roles, "Admin", "Moderator", "User");
    SoleRuleScope(s, 0, "User", "Page");
    SoleRuleScope(s, 0, "Moderator", "Page");
    SoleRuleScope(s, 0, "Admin", "Page");
    answers := RoleColumn(s, ("User", "Moderator", "Admin"), "Page");
  }

  /** Role chain only: once User and Moderator have their own denying rules, only Admin keeps the inherited grant. */
  lemma NearerRoleRules(s: Snapshot, q: string)
    requires s.roles == RoleChain() && s.resources == map[]
    requires s.rules == [Record(0, "Admin", "Page", Rule("View"), true), Record(1, "User", "Page", Rule("View"), false),
                         Record(2, "Moderator", "Page", Rule("View"), false)]
    requires IsRole(q)
    ensures Ask(s, q, "Page", "View") == (q == "Admin")
  {
    Chain(s.roles, "Admin", "Moderator", "User");
    var k := if q == "User" then 1 else if q == "Moderator" then 2 else 0;
    SingleCandidateWinner(s, Name(q), Name("Page"), "View", k);
  }

  /** Role chain only: later rules on User and Moderator override the inherited Admin rule below Admin. */
  method NearerRoleRulesOverride() returns (answers: seq<bool>)
    ensures answers == RoleColumn(Snapshot([View(0, "Admin", "Page", true), View(1, "User", "Page", false), View(2, "Moderator", "Page", false)], RoleChain(), map[]), ("User", "Moderator", "Admin"), "Page")
    ensures answers == [false, false, true]
  {
    var roles := BuildRoles();
    var acl := new Acl();
    acl.AddRule("Admin", "Page", Rule("View"), true);
    acl.AddRule("User", "Page", Rule("View"), false);
    acl.AddRule("Moderator", "Page", Rule("View"), false);
    var s := Snapshot(acl.rules, roles.children, map[]);
    assert s == Snapshot([View(0, "Admin", "Page", true), View(1, "User", "Page", false), View(2, "Moderator", "Page", false)], RoleChain(), map[]);
    NearerRoleRules(s, "User");
    NearerRoleRules(s, "Moderator");
    NearerRoleRules(s, "Admin");
    answers := RoleColumn(s, ("User", "Moderator", "Admin"), "Page");
  }

  /** Resource chain only: a rule on Page grants Page and neither of its ancestors. */
  method ParentResourcesDoNotGain() returns (answers: seq<bool>)
    ensures answers == ResourceRow(Snapshot([View(0, "User", "Page", true)], map[], ResourceChain()), "User", ("Page", "Blog", "Site"))
    ensures answers == [true, false, false]
  {
    var resources := BuildResources();
    var acl := new Acl();
    acl.AddRule("User", "Page", Rule("View"), true);
    var s := Snapshot(acl.rules, map[], resources.children);
    assert s == Snapshot([View(0, "User", "Page", true)], map[], ResourceChain());
    Chain(s.resources, "Site", "Blog", "Page");
    SoleRuleScope(s, 0, "User", "Page");
    SoleRuleScope(s, 0, "User", "Blog");
    SoleRuleScope(s, 0, "User", "Site");
    answers := ResourceRow(s, "User", ("Page", "Blog", "Site"));
  }

  /** Resource chain only: a rule on Site is inherited by Blog and Page. */
  method ChildResourcesInherit() returns (answers: seq<bool>)
    ensures answers == ResourceRow(Snapshot([View(0, "User", "Site", true)], map[], ResourceChain()), "User", ("Page", "Blog", "Site"))
    ensures answers == [true, true, true]
  {
    var resources := BuildResources();
    var acl := new Acl();
    acl.AddRule("User", "Site", Rule("View"), true);
    var s := Snapshot(acl.rules, map[], resources.children);
    assert s == Snapshot([View(0, "User", "Site", true)], map[], ResourceChain());
    Chain(s.resources, "Site", "Blog", "Page");
    SoleRuleScope(s, 0, "User", "Page");
    SoleRuleScope(s, 0, "User", "Blog");
    SoleRuleScope(s, 0, "User", "Site");
    answers := ResourceRow(s, "User", ("Page", "Blog", "Site"));
  }

  /** Resource chain only: once Page and Blog have their own denying rules, only Site keeps the inherited grant. */
  lemma NearerResourceRules(s: Snapshot, o: string)
    requires s.roles == map[] && s.resources == ResourceChain()
    requires s.rules == [Record(0, "User", "Site", Rule("View"), true), Record(1, "User", "Page", Rule("View"), false),
                         Record(2, "User", "Blog", Rule("View"), false)]
    requires IsResource(o)
    ensures Ask(s, "User", o, "View") == (o == "Site")
  {
    Chain(s.resources, "Site", "Blog", "Page");
    var k := if o == "Page" then 1 else if o == "Blog" then 2 else 0;
    SingleCandidateWinner(s, Name("User"), Name(o), "View", k);
  }

  /** Resource chain only: later rules on Page and Blog override the inherited Site rule below Site. */
  method NearerResourceRulesOverride() returns (answers: seq<bool>)
    ensures answers == ResourceRow(Snapshot([View(0, "User", "Site", true), View(1, "User", "Page", false), View(2, "User", "Blog", false)], map[], ResourceChain()), "User", ("Page", "Blog", "Site"))
    ensures answers == [false, false, true]
  {
    var resources := BuildResources();
    var acl := new Acl();
    acl.AddRule("User", "Site", Rule("View"), true);
    acl.AddRule("User", "Page", Rule("View"), false);
    acl.AddRule("User", "Blog", Rule("View"), false);
    var s := Snapshot(acl.rules, map[], resources.children);
    assert s == Snapshot([View(0, "User", "Site", true), View(1, "User", "Page", false), View(2, "User", "Blog", false)], map[], ResourceChain());
    NearerResourceRules(s, "Page");
    NearerResourceRules(s, "Blog");
    NearerResourceRules(s, "Site");
    answers := ResourceRow(s, "User", ("Page", "Blog", "Site"));
  }

  /**
   * Moderator/Blog allowed, then User/Page denied: the nearer rule decides each pair below both,
   * the other rule decides the pairs only it reaches, and nothing above either is granted.
   */
  lemma TwoRulesOnChains(s: Snapshot, q: string, o: string)
    requires s.roles == RoleChain() && s.resources == ResourceChain()
    requires s.rules == [Record(0, "Moderator", "Blog", Rule("View"), true), Record(1, "User", "Page", Rule("View"), false)]
    requires IsRole(q) && IsResource(o)
    ensures Ask(s, q, o, "View") == (q != "Admin" && o != "Site" && !(q == "User" && o == "Page"))
  {
    ChainReach(s.roles, "Admin", "Moderator", "User", "Moderator", q);
    ChainReach(s.roles, "Admin", "Moderator", "User", "User", q);
    ChainReach(s.resources, "Site", "Blog", "Page", "Blog", o);
    ChainReach(s.resources, "Site", "Blog", "Page", "Page", o);
    if q == "User" && o == "Page" {
      SingleCandidateWinner(s, Name(q), Name(o), "View", 1);
    } else if q != "Admin" && o != "Site" {
      SingleCandidateWinner(s, Name(q), Name(o), "View", 0);
    } else {
      NoScoreDenies(s, Name(q), Name(o), "View");
    }
  }

  /** With Moderator/Blog allowed and then User/Page denied, the nine answers in the test's order. */
  lemma TwoRuleAnswers(s: Snapshot)
    requires s == OnChains([View(0, "Moderator", "Blog", true), View(1, "User", "Page", false)])
    ensures ByRole(s, ("User", "Moderator", "Admin"), ("Page", "Blog", "Site")) == [false, true, false, true, true, false, false, false, false]
  {
    TwoRulesOnChains(s, "User", "Page");
    TwoRulesOnChains(s, "User", "Blog");
    TwoRulesOnChains(s, "User", "Site");
    TwoRulesOnChains(s, "Moderator", "Page");
    TwoRulesOnChains(s, "Moderator", "Blog");
    TwoRulesOnChains(s, "Moderator", "Site");
    TwoRulesOnChains(s, "Admin", "Page");
    TwoRulesOnChains(s, "Admin", "Blog");
    TwoRulesOnChains(s, "Admin", "Site");
  }

  /** The answers of the test with both rules, in its order. */
  method ParentRolesAndResourcesWithMultipleRules() returns (answers: seq<bool>)
    ensures answers == ByRole(OnChains([View(0, "Moderator", "Blog", true), View(1, "User", "Page", false)]), ("User", "Moderator", "Admin"), ("Page", "Blog", "Site"))
    ensures answers == [false, true, false, true, true, false, false, false, false]
  {
    var roles := BuildRoles();
    var resources := BuildResources();
    var acl := new Acl();
    acl.AddRule("Moderator", "Blog", Rule("View"), true);
    acl.AddRule("User", "Page", Rule("View"), false);
    var s := Snapshot(acl.rules, roles.children, resources.children);
    assert s == OnChains([View(0, "Moderator", "Blog", true), View(1, "User", "Page", false)]);
    TwoRuleAnswers(s);
    answers := ByRole(s, ("User", "Moderator", "Admin"), ("Page", "Blog", "Site"));
  }
}
