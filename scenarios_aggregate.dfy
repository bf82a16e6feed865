/**
 * The ACL's answers for queries by `RoleAggregate` and `ResourceAggregate`, and for arguments of
 * a foreign type, as the test suite builds them.
 */
module AggregateScenarios {

  import opened Wrappers
  import opened Graph
  import opened Hierarchy
  import opened Rules
  import opened Resolution
  import opened Decisions
  import opened Fixtures
  import opened Aggregates
  import opened AccessControl

  /** User may View the Page, Moderator may Edit the Blog, Admin may Remove the Site. */
  function Diagonal(): seq<Record>
  {
    [Record(0, "User", "Page", Rule("View"), true),
     Record(1, "Moderator", "Blog", Rule("Edit"), true),
     Record(2, "Admin", "Site", Rule("Remove"), true)]
  }

  /** Adds the three diagonal rules to a new ACL. */
  method AddDiagonal() returns (acl: Acl)
    ensures fresh(acl) && acl.Valid() && acl.rules == Diagonal()
  {
    acl := new Acl();
    acl.AddRule("User", "Page", Rule("View"), true);
    acl.AddRule("Moderator", "Blog", Rule("Edit"), true);
    acl.AddRule("Admin", "Site", Rule("Remove"), true);
  }

  /** Each diagonal rule sits on the same position of the role, resource and action lists. */
  lemma DiagonalAt(j: nat)
    requires j < 3
    ensures Diagonal()[j] == Record(j, Roles[j], Resources[j], Rule(Actions[j]), true)
  {
  }

  /**
   * On the diagonal store, a query whose candidates include the role and the resource of rule j
   * is allowed for that rule's action.
   */
  lemma DiagonalGranted(s: Snapshot, role: Arg, resource: Arg, j: nat, i: nat, l: nat)
    requires s.rules == Diagonal() && j < 3
    requires i < |Candidates(role)| && Candidates(role)[i] == Roles[j]
    requires l < |Candidates(resource)| && Candidates(resource)[l] == Resources[j]
    ensures IsAllowed(s, role, resource, Actions[j])
  {
    DiagonalAt(j);
    DecidedOnCandidates(s, role, resource, j, true, i, l);
  }

  /** `addRole` of User, Moderator and Admin, in this order. */
  method RoleGroup() returns (group: Aggregate)
    ensures fresh(group) && group.Valid() && group.members == Roles
  {
    group := new Aggregate();
    group.Add("User");
    group.Add("Moderator");
    assert group.members == ["User", "Moderator"];
    group.Add("Admin");
  }

  /** `addResource` of Page, Blog and Site, in this order. */
  method ResourceGroup() returns (group: Aggregate)
    ensures fresh(group) && group.Valid() && group.members == Resources
  {
    group := new Aggregate();
    group.Add("Page");
    assert "Blog"[0] != "Page"[0];
    group.Add("Blog");
    assert group.members == ["Page", "Blog"];
    assert "Site"[0] != "Page"[0] && "Site"[0] != "Blog"[0];
    group.Add("Site");
  }

  /** `isAllowed(role, resource, Actions[j])` on the diagonal store, where the candidates include rule j's nodes. */
  method AskDiagonal(s: Snapshot, role: Arg, resource: Arg, j: nat, i: nat, l: nat) returns (answer: bool)
    requires s.rules == Diagonal() && j < 3
    requires i < |Candidates(role)| && Candidates(role)[i] == Roles[j]
    requires l < |Candidates(resource)| && Candidates(resource)[l] == Resources[j]
    ensures answer == IsAllowed(s, role, resource, Actions[j])
    ensures answer
  {
    DiagonalGranted(s, role, resource, j, i, l);
    answer := IsAllowed(s, role, resource, Actions[j]);
  }

  /** A query whose role or resource is of a foreign type is denied. */
  method BadRolesAndResources() returns (answers: seq<bool>)
    ensures var s := Flat([Record(0, "User", "Page", Rule("View"), true)]);
      answers == [IsAllowed(s, Name("User"), Other, "View"), IsAllowed(s, Other, Name("Page"), "Edit")]
    ensures answers == [false, false]
  {
    var acl := new Acl();
    acl.AddRule("User", "Page", Rule("View"), true);
    var s := Flat(acl.rules);
    assert s == Flat([Record(0, "User", "Page", Rule("View"), true)]);
    NoCandidatesDeny(s, Name("User"), Other, "View");
    NoCandidatesDeny(s, Other, Name("Page"), "Edit");
    answers := [IsAllowed(s, Name("User"), Other, "View"), IsAllowed(s, Other, Name("Page"), "Edit")];
  }

  /** Two empty aggregates give no candidates, so each of the three actions is denied. */
  method EmptyRolesAndResources() returns (answers: seq<bool>)
    ensures var s, none := Flat(Diagonal()), Aggregate([]);
      answers == [IsAllowed(s, none, none, "View"), IsAllowed(s, none, none, "Edit"), IsAllowed(s, none, none, "Remove")]
    ensures answers == [false, false, false]
  {
    var acl := AddDiagonal();
    var userGroup := new Aggregate();
    var siteGroup := new Aggregate();
    var s := Flat(acl.rules);
    var roles, resources := Aggregate(userGroup.members), Aggregate(siteGroup.members);
    NoCandidatesDeny(s, roles, resources, "View");
    NoCandidatesDeny(s, roles, resources, "Edit");
    NoCandidatesDeny(s, roles, resources, "Remove");
    answers := [IsAllowed(s, roles, resources, "View"), IsAllowed(s, roles, resources, "Edit"), IsAllowed(s, roles, resources, "Remove")];
  }

  /** A role aggregate of User, Moderator and Admin is allowed what any of its members is allowed. */
  method AggregateRoles() returns (answers: seq<bool>)
    ensures var s, roles := Flat(Diagonal()), Aggregate(Roles);
      answers == [IsAllowed(s, roles, Name("Page"), "View"), IsAllowed(s, roles, Name("Blog"), "Edit"),
                  IsAllowed(s, roles, Name("Site"), "Remove")]
    ensures answers == [true, true, true]
  {
    var userGroup := RoleGroup();
    var acl := AddDiagonal();
    var s := Flat(acl.rules);
    var roles := Aggregate(userGroup.members);
    var a1 := AskDiagonal(s, roles, Name("Page"), 0, 0, 0);
    var a2 := AskDiagonal(s, roles, Name("Blog"), 1, 1, 0);
    var a3 := AskDiagonal(s, roles, Name("Site"), 2, 2, 0);
    answers := [a1, a2, a3];
  }

  /** A resource aggregate of Page, Blog and Site grants what any of its members grants. */
  method AggregateResources() returns (answers: seq<bool>)
    ensures var s, resources := Flat(Diagonal()), Aggregate(Resources);
      answers == [IsAllowed(s, Name("User"), resources, "View"), IsAllowed(s, Name("Moderator"), resources, "Edit"),
                  IsAllowed(s, Name("Admin"), resources, "Remove")]
    ensures answers == [true, true, true]
  {
    var siteGroup := ResourceGroup();
    var acl := AddDiagonal();
    var s := Flat(acl.rules);
    var resources := Aggregate(siteGroup.members);
    var a1 := AskDiagonal(s, Name("User"), resources, 0, 0, 0);
    var a2 := AskDiagonal(s, Name("Moderator"), resources, 1, 0, 1);
    var a3 := AskDiagonal(s, Name("Admin"), resources, 2, 0, 2);
    answers := [a1, a2, a3];
  }

  /** Aggregates on both sides: each action is allowed through the pair of members its rule names. */
  method AggregateRolesAndResources() returns (answers: seq<bool>)
    ensures var s, roles, resources := Flat(Diagonal()), Aggregate(Roles), Aggregate(Resources);
      answers == [IsAllowed(s, roles, resources, "View"), IsAllowed(s, roles, resources, "Edit"),
                  IsAllowed(s, roles, resources, "Remove")]
    ensures answers == [true, true, true]
  {
    var userGroup := RoleGroup();
    var siteGroup := ResourceGroup();
    var acl := AddDiagonal();
    var s := Flat(acl.rules);
    var roles, resources := Aggregate(userGroup.members), Aggregate(siteGroup.members);
    var a1 := AskDiagonal(s, roles, resources, 0, 0, 0);
    var a2 := AskDiagonal(s, roles, resources, 1, 1, 1);
    var a3 := AskDiagonal(s, roles, resources, 2, 2, 2);
    answers := [a1, a2, a3];
  }

  /**
   * User (true) and Moderator (false) both have a View rule on the Page; a group of the two
   * answers for its first member.  Removing User and adding it back puts it last, so Moderator
   * decides from then on.  The order the rules were added in does not matter.
   */
  method FirstAddedRoleWins(userFirst: bool) returns (answers: seq<bool>)
    ensures answers == RoleGroupSteps(Flat(PageViews(userFirst)))
    ensures answers == [true, false, false]
  {
    var acl := new Acl();
    if userFirst {
      acl.AddRule("User", "Page", Rule("View"), true);
      acl.AddRule("Moderator", "Page", Rule("View"), false);
    } else {
      acl.AddRule("Moderator", "Page", Rule("View"), false);
      acl.AddRule("User", "Page", Rule("View"), true);
    }
    var s := Flat(acl.rules);
    assert s == Flat(PageViews(userFirst));
    var user, moderator := if userFirst then 0 else 1, if userFirst then 1 else 0;
    answers := UserThenModerator(s, user, moderator);
  }

  /** User's allowing and Moderator's denying View rule on the Page, User's added first when `userFirst`. */
  function PageViews(userFirst: bool): seq<Record>
  {
    if userFirst then [Record(0, "User", "Page", Rule("View"), true), Record(1, "Moderator", "Page", Rule("View"), false)]
    else [Record(0, "Moderator", "Page", Rule("View"), false), Record(1, "User", "Page", Rule("View"), true)]
  }

  /**
   * The group steps of the test on a store of two View rules on the Page, User's (at position
   * `user`) allowing and Moderator's (at position `moderator`) denying: add User and Moderator,
   * ask, remove User, ask, add User back, ask.
   */
  method UserThenModerator(s: Snapshot, user: nat, moderator: nat) returns (answers: seq<bool>)
    requires s.roles == map[] && s.resources == map[]
    requires |s.rules| == 2 && user < 2 && moderator < 2 && user != moderator
    requires s.rules[user] == Record(user, "User", "Page", Rule("View"), true)
    requires s.rules[moderator] == Record(moderator, "Moderator", "Page", Rule("View"), false)
    ensures answers == RoleGroupSteps(s)
    ensures answers == [true, false, false]
  {
    var userGroup := new Aggregate();
    userGroup.Add("User");
    userGroup.Add("Moderator");
    assert userGroup.members == ["User", "Moderator"];
    var a1 := IsAllowed(s, Aggregate(userGroup.members), Name("Page"), "View");
    userGroup.Remove("User");
    RemovedAt(["User", "Moderator"], "User", 0);
    assert userGroup.members == ["Moderator"];
    var a2 := IsAllowed(s, Aggregate(userGroup.members), Name("Page"), "View");
    userGroup.Add("User");
    assert userGroup.members == ["Moderator", "User"];
    var a3 := IsAllowed(s, Aggregate(userGroup.members), Name("Page"), "View");
    RoleGroupAnswers(s, user, moderator);
    answers := [a1, a2, a3];
  }

  /** The View answers on the Page for the group of User and Moderator, then of Moderator alone, then of Moderator and User. */
  function RoleGroupSteps(s: Snapshot): seq<bool>
  {
    [IsAllowed(s, Aggregate(["User", "Moderator"]), Name("Page"), "View"),
     IsAllowed(s, Aggregate(["Moderator"]), Name("Page"), "View"),
     IsAllowed(s, Aggregate(["Moderator", "User"]), Name("Page"), "View")]
  }

  /** User's rule decides while User is the group's first member; once User is re-added last, Moderator's does. */
  lemma RoleGroupAnswers(s: Snapshot, user: nat, moderator: nat)
    requires s.roles == map[] && s.resources == map[]
    requires |s.rules| == 2 && user < 2 && moderator < 2 && user != moderator
    requires s.rules[user] == Record(user, "User", "Page", Rule("View"), true)
    requires s.rules[moderator] == Record(moderator, "Moderator", "Page", Rule("View"), false)
    ensures RoleGroupSteps(s) == [true, false, false]
  {
    FirstMemberDecides(s, ["User", "Moderator"], "Page", "View", user);
    FirstMemberDecides(s, ["Moderator"], "Page", "View", moderator);
    FirstMemberDecides(s, ["Moderator", "User"], "Page", "View", moderator);
  }

  /** `page->addChild(contact)`. */
  function ContactUnderPage(): Graph
  {
    AddEdge(map[], "Page", "Contact")
  }

  /** Page is one hop above Contact, and a role reaches only itself. */
  lemma ContactDistances(rec: Record, q: string)
    ensures Distance(ContactUnderPage(), "Page", "Contact") == Some(1)
    ensures Distance(ContactUnderPage(), "Contact", "Contact") == Some(0)
    ensures Distance(map[], rec.role, q) == (if rec.role == q then Some(0) else None)
  {
    AddChildEffect(map[], "Page", "Contact", "Page", "Contact");
    NoEdges(rec.role, q);
  }

  /** Moderator's rule on Contact and User's rule on its parent Page. */
  function NearAndFar(): seq<Record>
  {
    [Record(0, "Moderator", "Contact", Rule("View"), true),
     Record(1, "User", "Page", Rule("View"), false)]
  }

  /**
   * Specificity beats position: Moderator's rule at distance 0 outranks User's rule at distance 1,
   * although User comes first in the group.
   */
  lemma NearRuleOutranksFirstMember(s: Snapshot)
    requires s == Snapshot(NearAndFar(), map[], ContactUnderPage())
    ensures IsAllowed(s, Aggregate(["User", "Moderator"]), Name("Contact"), "View")
  {
    var role, resource := Aggregate(["User", "Moderator"]), Name("Contact");
    forall i, k | 0 <= i < 2 && 0 <= k < 2
      ensures Score(s, s.rules[k], Candidates(role)[i], "Contact", "View") ==
        (if (i, k) == (1, 0) then Some(0) else if (i, k) == (0, 1) then Some(1) else None)
    {
      ContactDistances(s.rules[k], Candidates(role)[i]);
    }
    Winner(s, role, resource, "View", 1, 0, 0);
  }

  /** With User's own rule on Contact added, the distances tie and the first member decides. */
  lemma EqualDistanceFirstMember(s: Snapshot)
    requires s == Snapshot(NearAndFar() + [Record(2, "User", "Contact", Rule("View"), false)], map[], ContactUnderPage())
    ensures !IsAllowed(s, Aggregate(["User", "Moderator"]), Name("Contact"), "View")
  {
    var role, resource := Aggregate(["User", "Moderator"]), Name("Contact");
    forall i, k | 0 <= i < 2 && 0 <= k < 3
      ensures Score(s, s.rules[k], Candidates(role)[i], "Contact", "View") ==
        (if (i, k) == (1, 0) || (i, k) == (0, 2) then Some(0) else if (i, k) == (0, 1) then Some(1) else None)
    {
      ContactDistances(s.rules[k], Candidates(role)[i]);
    }
    Winner(s, role, resource, "View", 0, 0, 2);
  }

  /** Priority matters: the nearer rule wins over the first member until the distances are equal. */
  method PriorityOverMemberOrder() returns (answers: seq<bool>)
    ensures var group, later := Aggregate(["User", "Moderator"]), [Record(2, "User", "Contact", Rule("View"), false)];
      answers == [IsAllowed(Snapshot(NearAndFar(), map[], ContactUnderPage()), group, Name("Contact"), "View"),
                  IsAllowed(Snapshot(NearAndFar() + later, map[], ContactUnderPage()), group, Name("Contact"), "View")]
    ensures answers == [true, false]
  {
    var acl := new Acl();
    var userGroup := new Aggregate();
    userGroup.Add("User");
    userGroup.Add("Moderator");
    var resources := new Hierarchy();
    resources.AddChild("Page", "Contact");
    acl.AddRule("Moderator", "Contact", Rule("View"), true);
    acl.AddRule("User", "Page", Rule("View"), false);
    assert userGroup.members == ["User", "Moderator"] && resources.children == ContactUnderPage();
    var before := Snapshot(acl.rules, map[], resources.children);
    assert before == Snapshot(NearAndFar(), map[], ContactUnderPage());
    var a1 := AskGroupOnContact(before, userGroup.members);
    acl.AddRule("User", "Contact", Rule("View"), false);
    var after := Snapshot(acl.rules, map[], resources.children);
    assert after == Snapshot(NearAndFar() + [Record(2, "User", "Contact", Rule("View"), false)], map[], ContactUnderPage());
    var a2 := AskGroupOnContact(after, userGroup.members);
    answers := [a1, a2];
  }

  /** `isAllowed(group, 'Contact', 'View')` for the group of User and Moderator, before and after User's rule on Contact. */
  method AskGroupOnContact(s: Snapshot, members: seq<string>) returns (answer: bool)
    requires members == ["User", "Moderator"]
    requires s == Snapshot(NearAndFar(), map[], ContactUnderPage()) ||
             s == Snapshot(NearAndFar() + [Record(2, "User", "Contact", Rule("View"), false)], map[], ContactUnderPage())
    ensures answer == IsAllowed(s, Aggregate(members), Name("Contact"), "View")
    ensures answer == (|s.rules| == 2)
  {
    if |s.rules| == 2 {
      NearRuleOutranksFirstMember(s);
    } else {
      EqualDistanceFirstMember(s);
    }
    answer := IsAllowed(s, Aggregate(members), Name("Contact"), "View");
  }

  /**
   * User is denied the Blog and allowed the Page; a group of Page then Blog answers for Page, and
   * once Page is removed, for Blog.
   */
  method FirstAddedResourceWins() returns (answers: seq<bool>)
    ensures var s := Flat([Record(0, "User", "Blog", Rule("View"), false), Record(1, "User", "Page", Rule("View"), true)]);
      answers == [IsAllowed(s, Name("User"), Aggregate(["Page", "Blog"]), "View"), IsAllowed(s, Name("User"), Aggregate(["Blog"]), "View")]
    ensures answers == [true, false]
  {
    var acl := new Acl();
    acl.AddRule("User", "Blog", Rule("View"), false);
    acl.AddRule("User", "Page", Rule("View"), true);
    var s := Flat(acl.rules);
    assert s == Flat([Record(0, "User", "Blog", Rule("View"), false), Record(1, "User", "Page", Rule("View"), true)]);
    answers := PageThenBlog(s);
  }

  /**
   * The group steps of that test on the store of User's denying Blog rule and allowing Page rule:
   * add Page and Blog, ask, remove Page, ask.
   */
  method PageThenBlog(s: Snapshot) returns (answers: seq<bool>)
    requires s.roles == map[] && s.resources == map[] && |s.rules| == 2
    requires s.rules[0] == Record(0, "User", "Blog", Rule("View"), false)
    requires s.rules[1] == Record(1, "User", "Page", Rule("View"), true)
    ensures answers == [IsAllowed(s, Name("User"), Aggregate(["Page", "Blog"]), "View"), IsAllowed(s, Name("User"), Aggregate(["Blog"]), "View")]
    ensures answers == [true, false]
  {
    var siteGroup := new Aggregate();
    siteGroup.Add("Page");
    siteGroup.Add("Blog");
    assert siteGroup.members == ["Page", "Blog"];
    var a1 := IsAllowed(s, Name("User"), Aggregate(siteGroup.members), "View");
    siteGroup.Remove("Page");
    RemovedAt(["Page", "Blog"], "Page", 0);
    assert siteGroup.members == ["Blog"];
    var a2 := IsAllowed(s, Name("User"), Aggregate(siteGroup.members), "View");
    ResourceGroupAnswers(s);
    answers := [a1, a2];
  }

  /** Page's rule decides while Page is the group's first member; with Page removed, Blog's does. */
  lemma ResourceGroupAnswers(s: Snapshot)
    requires s.roles == map[] && s.resources == map[] && |s.rules| == 2
    requires s.rules[0] == Record(0, "User", "Blog", Rule("View"), false)
    requires s.rules[1] == Record(1, "User", "Page", Rule("View"), true)
    ensures IsAllowed(s, Name("User"), Aggregate(["Page", "Blog"]), "View")
    ensures !IsAllowed(s, Name("User"), Aggregate(["Blog"]), "View")
  {
    FirstResourceDecides(s, "User", ["Page", "Blog"], "View", 1);
    FirstResourceDecides(s, "User", ["Blog"], "View", 0);
  }
}
