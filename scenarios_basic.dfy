/**
 * The ACL's answers on flat hierarchies (no `addChild`), built call by call as the test suite
 * builds them: default deny, one rule per action, the result list, and recency on exact ties.
 */
module BasicScenarios {

  import opened Wrappers
  import opened Rules
  import opened Resolution
  import opened Decisions
  import opened Fixtures
  import opened AccessControl

  /** An ACL without rules denies. */
  method EmptyAclDenies() returns (answer: bool)
    ensures answer == Ask(Flat([]), "User", "Page", "View")
    ensures !answer
  {
    var acl := new Acl();
    var s := Snapshot(acl.rules, map[], map[]);
    EmptyStoreDenies(s, Name("User"), Name("Page"), "View");
    answer := Ask(s, "User", "Page", "View");
  }

  /** An action no rule names is denied. */
  method UndefinedRuleDenies() returns (answer: bool)
    ensures answer == Ask(Flat([UserPage(0, "View", true)]), "User", "Page", "UnDefinedRule")
    ensures !answer
  {
    var acl := new Acl();
    acl.AddRule("User", "Page", Rule("View"), true);
    var s := Snapshot(acl.rules, map[], map[]);
    FlatNoRecord(s, "User", "Page", "UnDefinedRule");
    answer := Ask(s, "User", "Page", "UnDefinedRule");
  }

  /** Names no rule is bound to are denied, whether the role, the resource or both. */
  method UndefinedRoleOrResourceDenies() returns (answers: seq<bool>)
    ensures var s := Flat([UserPage(0, "View", true)]);
      answers == [Ask(s, "NotDefinedRole", "Page", "View"), Ask(s, "User", "NotDefinedResource", "View"),
                  Ask(s, "NotDefinedRole", "NotDefinedResource", "View")]
    ensures answers == [false, false, false]
  {
    var acl := new Acl();
    acl.AddRule("User", "Page", Rule("View"), true);
    var s := Flat(acl.rules);
    assert s == Flat([UserPage(0, "View", true)]);
    var unknownRole := AskUnruled(s, "NotDefinedRole", "Page", "View");
    var unknownResource := AskUnruled(s, "User", "NotDefinedResource", "View");
    var unknownBoth := AskUnruled(s, "NotDefinedRole", "NotDefinedResource", "View");
    answers := [unknownRole, unknownResource, unknownBoth];
  }

  /** A sole rule answers its own outcome on its own pair and action. */
  method OneRoleOneResourceOneRule() returns (answers: seq<bool>)
    ensures answers == [Ask(Flat([UserPage(0, "View", true)]), "User", "Page", "View"),
                        Ask(Flat([UserPage(0, "View", false)]), "User", "Page", "View")]
    ensures answers == [true, false]
  {
    var grant := new Acl();
    grant.AddRule("User", "Page", Rule("View"), true);
    var s := Flat(grant.rules);
    assert s == Flat([UserPage(0, "View", true)]);
    FlatOnlyRecord(s, "User", "Page", "View", 0);
    var deny := new Acl();
    deny.AddRule("User", "Page", Rule("View"), false);
    var t := Flat(deny.rules);
    assert t == Flat([UserPage(0, "View", false)]);
    FlatOnlyRecord(t, "User", "Page", "View", 0);
    answers := [Ask(s, "User", "Page", "View"), Ask(t, "User", "Page", "View")];
  }

  /** The record of the `id`-th `addRule('User', 'Page', action, allowed)`. */
  function UserPage(id: nat, action: string, allowed: bool): Record
  {
    Record(id, "User", "Page", Rule(action), allowed)
  }

  /** The answers for View, Edit and Remove on User and Page, in this order. */
  function AskThreeActions(s: Snapshot): seq<bool>
  {
    [Ask(s, "User", "Page", "View"), Ask(s, "User", "Page", "Edit"), Ask(s, "User", "Page", "Remove")]
  }

  /** The store after one rule per action on User and Page, all with the same outcome. */
  function ThreeActions(allowed: bool): seq<Record>
  {
    seq(|Actions|, j requires 0 <= j < |Actions| => Record(j, "User", "Page", Rule(Actions[j]), allowed))
  }

  /** One `addRule` call per action on User and Page, all with the outcome `allowed`. */
  method AddThreeActions(allowed: bool) returns (acl: Acl)
    ensures fresh(acl) && acl.Valid() && acl.rules == ThreeActions(allowed)
  {
    acl := new Acl();
    acl.AddRule("User", "Page", Rule("View"), allowed);
    acl.AddRule("User", "Page", Rule("Edit"), allowed);
    acl.AddRule("User", "Page", Rule("Remove"), allowed);
  }

  /** Each action on User and Page is decided by its own record. */
  lemma ThreeActionsAnswer(s: Snapshot, allowed: bool)
    requires s.rules == ThreeActions(allowed)
    ensures AskThreeActions(s) == [allowed, allowed, allowed]
  {
    assert s.rules[0] == UserPage(0, "View", allowed);
    assert s.rules[1] == UserPage(1, "Edit", allowed);
    assert s.rules[2] == UserPage(2, "Remove", allowed);
    DecidedAt(s, 0, allowed);
    DecidedAt(s, 1, allowed);
    DecidedAt(s, 2, allowed);
  }

  /** Three rules on one pair, one per action: each action answers its own rule's outcome. */
  method OneRoleOneResourceMultipleRule(allowed: bool) returns (answers: seq<bool>)
    ensures answers == AskThreeActions(Flat(ThreeActions(allowed)))
    ensures answers == [allowed, allowed, allowed]
  {
    var acl := AddThreeActions(allowed);
    var s := Flat(acl.rules);
    assert s == Flat(ThreeActions(allowed));
    ThreeActionsAnswer(s, allowed);
    answers := AskThreeActions(s);
  }

  /** `addRule` with bare action names stores the same records as with rule objects. */
  method StringAsRule(allowed: bool) returns (answers: seq<bool>)
    ensures answers == AskThreeActions(Flat(ThreeActions(allowed)))
    ensures answers == [allowed, allowed, allowed]
  {
    var acl := new Acl();
    acl.AddNamedRule("User", "Page", "View", allowed);
    acl.AddNamedRule("User", "Page", "Edit", allowed);
    acl.AddNamedRule("User", "Page", "Remove", allowed);
    assert acl.rules == ThreeActions(allowed);
    var s := Flat(acl.rules);
    assert s == Flat(ThreeActions(allowed));
    ThreeActionsAnswer(s, allowed);
    answers := AskThreeActions(s);
  }

  /** Each action on User and Page lists exactly its own record. */
  lemma ThreeActionsResult(s: Snapshot, allowed: bool)
    requires s == Snapshot(ThreeActions(allowed), map[], map[])
    ensures forall j :: 0 <= j < |Actions| ==> IsAllowedReturnResult(s, Name("User"), Name("Page"), Actions[j]) == [s.rules[j]]
  {
    ActionsDistinct();
    forall j | 0 <= j < |Actions| ensures IsAllowedReturnResult(s, Name("User"), Name("Page"), Actions[j]) == [s.rules[j]] {
      FlatOnlyResult(s, "User", "Page", Actions[j], j);
    }
  }

  /** Per action, `isAllowedReturnResult` lists the one rule added for it, whatever its outcome. */
  method GetResultPerAction(allowed: bool) returns (answers: seq<bool>, results: seq<seq<Record>>)
    ensures answers == AskThreeActions(Flat(ThreeActions(allowed)))
    ensures var s := Flat(ThreeActions(allowed));
      results == [IsAllowedReturnResult(s, Name("User"), Name("Page"), "View"),
                  IsAllowedReturnResult(s, Name("User"), Name("Page"), "Edit"),
                  IsAllowedReturnResult(s, Name("User"), Name("Page"), "Remove")]
    ensures answers == [allowed, allowed, allowed]
    ensures results == [[ThreeActions(allowed)[0]], [ThreeActions(allowed)[1]], [ThreeActions(allowed)[2]]]
  {
    var acl := AddThreeActions(allowed);
    var s := Flat(acl.rules);
    assert s == Flat(ThreeActions(allowed));
    ThreeActionsAnswer(s, allowed);
    ThreeActionsResult(s, allowed);
    answers := AskThreeActions(s);
    results := [
      IsAllowedReturnResult(s, Name("User"), Name("Page"), Actions[0]),
      IsAllowedReturnResult(s, Name("User"), Name("Page"), Actions[1]),
      IsAllowedReturnResult(s, Name("User"), Name("Page"), Actions[2])
    ];
  }

  /** Five rules on User, Page and View with alternating outcomes, in insertion order. */
  function FiveViews(): seq<Record>
  {
    [Record(0, "User", "Page", Rule("View"), false),
     Record(1, "User", "Page", Rule("View"), true),
     Record(2, "User", "Page", Rule("View"), false),
     Record(3, "User", "Page", Rule("View"), true),
     Record(4, "User", "Page", Rule("View"), false)]
  }

  lemma FiveViewsOnly()
    ensures IncreasingIds(FiveViews()) && ViewsOnly(FiveViews())
  {
  }

  /** Adds the five rules to a new ACL. */
  method AddFiveViews() returns (acl: Acl)
    ensures fresh(acl) && acl.Valid() && acl.rules == FiveViews()
  {
    acl := new Acl();
    acl.AddRule("User", "Page", Rule("View"), false);
    acl.AddRule("User", "Page", Rule("View"), true);
    acl.AddRule("User", "Page", Rule("View"), false);
    acl.AddRule("User", "Page", Rule("View"), true);
    acl.AddRule("User", "Page", Rule("View"), false);
  }

  /** Latest first, the five rules read in reverse insertion order. */
  lemma FiveViewsReversed()
    ensures Reverse(FiveViews()) == [
      Record(4, "User", "Page", Rule("View"), false),
      Record(3, "User", "Page", Rule("View"), true),
      Record(2, "User", "Page", Rule("View"), false),
      Record(1, "User", "Page", Rule("View"), true),
      Record(0, "User", "Page", Rule("View"), false)]
  {
  }

  /** Five rules on the same pair and action, with alternating outcomes, listed latest first. */
  method GetResultOrder() returns (result: seq<Record>)
    ensures result == IsAllowedReturnResult(Flat(FiveViews()), Name("User"), Name("Page"), "View")
    ensures result == [
      Record(4, "User", "Page", Rule("View"), false),
      Record(3, "User", "Page", Rule("View"), true),
      Record(2, "User", "Page", Rule("View"), false),
      Record(1, "User", "Page", Rule("View"), true),
      Record(0, "User", "Page", Rule("View"), false)]
  {
    var acl := AddFiveViews();
    var s := Snapshot(acl.rules, map[], map[]);
    FiveViewsOnly();
    FlatLatestOnPair(s, "User", "Page", "View");
    FiveViewsReversed();
    result := IsAllowedReturnResult(s, Name("User"), Name("Page"), "View");
  }

  /**
   * Of two rules on the same pair and action the later wins; `removeRule(null, null, 'View', false)`
   * deletes only that later one, and each rule added afterwards wins in turn.
   */
  method LastAddedRuleWins() returns (counts: seq<int>, answers: seq<bool>)
    ensures var first := [UserPage(0, "View", false), UserPage(1, "View", true)];
      var second := [UserPage(0, "View", false)];
      var third := second + [UserPage(2, "View", true)];
      var fourth := third + [UserPage(3, "View", false)];
      && counts == [|first|, |second|, |third|, |fourth|]
      && answers == [Ask(Flat(first), "User", "Page", "View"), Ask(Flat(second), "User", "Page", "View"),
                     Ask(Flat(third), "User", "Page", "View"), Ask(Flat(fourth), "User", "Page", "View")]
    ensures counts == [2, 1, 2, 3]
    ensures answers == [true, false, true, false]
  {
    var acl, n1, a1 := TwoViews();
    var n2, a2 := DropLatestView(acl);
    var n3, a3 := AddView(acl, true);
    var n4, a4 := AddView(acl, false);
    counts := [n1, n2, n3, n4];
    answers := [a1, a2, a3, a4];
  }

  /** A denying and then an allowing View rule on User and Page: the allowing one decides. */
  method TwoViews() returns (acl: Acl, count: int, answer: bool)
    ensures fresh(acl) && acl.Valid()
    ensures acl.rules == [UserPage(0, "View", false), UserPage(1, "View", true)] && acl.nextId == 2
    ensures count == |acl.rules| && answer == Ask(Flat(acl.rules), "User", "Page", "View")
    ensures count == 2 && answer
  {
    acl := new Acl();
    acl.AddRule("User", "Page", Rule("View"), false);
    ViewsOnlyGrow([], acl.rules[0]);
    acl.AddRule("User", "Page", Rule("View"), true);
    ViewsOnlyGrow([acl.rules[0]], acl.rules[1]);
    answer := AskUserPageView(acl);
    count := |acl.rules|;
  }

  /** Removing the latest View rule leaves the denying one, which then decides. */
  method DropLatestView(acl: Acl) returns (count: int, answer: bool)
    requires acl.Valid()
    requires acl.rules == [Record(0, "User", "Page", Rule("View"), false), Record(1, "User", "Page", Rule("View"), true)]
    modifies acl
    ensures acl.Valid() && acl.rules == [UserPage(0, "View", false)] && ViewsOnly(acl.rules)
    ensures acl.nextId == old(acl.nextId)
    ensures count == |acl.rules| && answer == Ask(Flat(acl.rules), "User", "Page", "View")
    ensures count == 1 && !answer
  {
    var before := acl.rules;
    acl.RemoveRule(None, None, Some("View"), false);
    LatestAt(before, None, None, Some("View"), 1);
    assert acl.rules == [before[0]];
    answer := AskUserPageView(acl);
    count := |acl.rules|;
  }

  /** A View rule added on User and Page is the latest, so it decides. */
  method AddView(acl: Acl, allowed: bool) returns (count: int, answer: bool)
    requires acl.Valid() && ViewsOnly(acl.rules)
    modifies acl
    ensures acl.Valid() && ViewsOnly(acl.rules)
    ensures acl.rules == old(acl.rules) + [UserPage(old(acl.nextId), "View", allowed)] && acl.nextId == old(acl.nextId) + 1
    ensures count == |acl.rules| && answer == Ask(Flat(acl.rules), "User", "Page", "View")
    ensures count == |old(acl.rules)| + 1 && answer == allowed
  {
    var before := acl.rules;
    acl.AddRule("User", "Page", Rule("View"), allowed);
    ViewsOnlyGrow(before, acl.rules[|before|]);
    answer := AskUserPageView(acl);
    count := |acl.rules|;
  }

  /** Every record is bound to User, Page and View. */
  ghost predicate ViewsOnly(rules: seq<Record>)
  {
    forall j :: 0 <= j < |rules| ==> OnPair(rules[j], "User", "Page", "View")
  }

  lemma ViewsOnlyGrow(rules: seq<Record>, rec: Record)
    requires ViewsOnly(rules) && OnPair(rec, "User", "Page", "View")
    ensures ViewsOnly(rules + [rec])
  {
  }

  /** `isAllowed('User', 'Page', 'View')` on a store holding only such rules: the latest decides. */
  method AskUserPageView(acl: Acl) returns (answer: bool)
    requires acl.Valid() && acl.rules != [] && ViewsOnly(acl.rules)
    ensures answer == Ask(Snapshot(acl.rules, map[], map[]), "User", "Page", "View")
    ensures answer == acl.rules[|acl.rules| - 1].allowed
  {
    var s := Snapshot(acl.rules, map[], map[]);
    FlatLatestOnPair(s, "User", "Page", "View");
    answer := Ask(s, "User", "Page", "View");
  }
}
