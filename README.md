# SimpleAcl rule resolution, modelled and verified in Dafny

SimpleAcl is a PHP access-control list. The caller builds three things:

- A **rule store**. `addRule(role, resource, rule, allowed)` appends a record, and `removeRule` deletes records a filter selects.
- **Hierarchies** of roles and of resources, linked with `addChild`. A rule bound to a node also bears on everything below it.
- **Aggregates** (`RoleAggregate`, `ResourceAggregate`). These are ordered groups of nodes, edited with `addRole`/`removeRole` and `addResource`/`removeResource`.

`isAllowed(role, resource, action)` works in four steps:

1. Expand each argument into candidates. A name gives one node, an aggregate gives its members in order, and anything else gives nothing.
2. Match every stored record for the action whose nodes reach a candidate pair down the hierarchies.
3. Rank the matches: smaller combined hop distance first, then the earlier role candidate, then the earlier resource candidate, then the more recently added record.
4. Answer the winner's `allowed` flag, or `false` when nothing matches.

`isAllowedReturnResult` yields the whole ranking.

The behaviour modelled is the one fixed by the repository's test suite, `tests/SimpleAcl/AclRuleApplyTest.php`. Each test method becomes one or more Dafny methods. Each builds the same hierarchies, aggregates and rules through the model's classes and returns the answers of the test's assertions, in order. Its postcondition states those answers twice. First as `IsAllowed` or `IsAllowedReturnResult` applied to the store and hierarchies the test builds, written out literally. Then as the literal values the test asserts. The general properties behind them are proved once as lemmas about the resolution functions.

Layout, one file per module:

- `rules.dfy` (`Rules`): rule payloads and stored records.
- `graph.dfy` (`Graph`): one hierarchy's child relation and its breadth-first distance. The distance is proved equal to the shortest hop count defined by `Within`.
- `hierarchy.dfy` (`Hierarchy`): the `Hierarchy` class with `AddChild`.
- `aggregate.dfy` (`Aggregates`): the `Aggregate` class with `Add` and `Remove`.
- `acl.dfy` (`AccessControl`): the `Acl` class with `AddRule`, `AddNamedRule` and `RemoveRule`.
- `resolution.dfy` (`Resolution`): candidates, matching, ranking, `IsAllowed` and `IsAllowedReturnResult`.
- `decisions.dfy` (`Decisions`): what resolution promises. This covers default deny, the ranking winner, cascading down and never up, indifference to records that do not bear on a query, and result order.
- `fixtures.dfy` (`Fixtures`): the names, chains and flat stores the tests use.
- `scenarios_*.dfy`: one method per test.

## Model

| member | source | states |
|---|---|---|
| Rules.IncreasingIdsAreUnique | tests/SimpleAcl/AclRuleApplyTest.php:558-567 | Records numbered in increasing insertion order are pairwise distinct, so separately added rules with one name (`view`, `view1`, …) stay distinguishable. |
| Graph.Search | tests/SimpleAcl/AclRuleApplyTest.php:178-252 | The breadth-first search answers the current level exactly when the target is in the current frontier, and never an earlier level. |
| Graph.SearchIsShortest | tests/SimpleAcl/AclRuleApplyTest.php:178-252 | A search started at level `k`, with the target not seen before it, answers the target's least hop count, or none when it is unreachable. |
| Graph.Distance | tests/SimpleAcl/AclRuleApplyTest.php:192-196 | The distance from a node to a node is 0 exactly when they are the same node. |
| Graph.DistanceIsShortest | tests/SimpleAcl/AclRuleApplyTest.php:178-252 | The breadth-first distance is `Some(d)` exactly when `d` is the least hop count reaching the target. It is `None` exactly when the target is unreachable. |
| Graph.DistanceAtMost | tests/SimpleAcl/AclRuleApplyTest.php:338-350 | A node reachable within `k` child edges has a distance of at most `k`. |
| Graph.DistanceTransitive | tests/SimpleAcl/AclRuleApplyTest.php:338-350 | A descendant of a descendant is a descendant, at no more than the sum of the two distances. |
| Graph.DistanceToChild | tests/SimpleAcl/AclRuleApplyTest.php:186-187 | A child is one hop below its parent, or at distance 0 when it is the parent itself. A descendant's child is at most one hop further. |
| Graph.ShortestUnique | tests/SimpleAcl/AclRuleApplyTest.php:178-252 | The shortest hop count between two nodes is unique. |
| Graph.NeverUpward | tests/SimpleAcl/AclRuleApplyTest.php:191-196 | In an acyclic hierarchy no node reaches one of its own strict ancestors. |
| Graph.RankedIsAcyclic | tests/SimpleAcl/AclRuleApplyTest.php:738-754 | A hierarchy whose edges all descend in some rank (as the two chains are, see `Fixtures.ChainsAcyclic`) is acyclic. |
| Graph.OutsideClosedUnreachable | tests/SimpleAcl/AclRuleApplyTest.php:191-196 | No node of a set closed under children reaches a node outside it. |
| Graph.DistanceStaysInGraph | tests/SimpleAcl/AclRuleApplyTest.php:30-38 | A node reaches only itself and names the hierarchy mentions, so an unregistered name is nobody's descendant. |
| Hierarchy.AddChildEffect | tests/SimpleAcl/AclRuleApplyTest.php:186-187 | After `addChild` the child is a direct child and one hop below the parent. Other nodes keep their children, and every existing descendant survives. |
| Hierarchy.DistanceSurvivesGrowth | tests/SimpleAcl/AclRuleApplyTest.php:691-692 | Adding edges after rules exist never cuts a descendant off and never makes it further away. |
| Hierarchy.Hierarchy.AddChild | tests/SimpleAcl/AclRuleApplyTest.php:738-754 | The new child relation is `AddEdge` of the old one: the edge is appended to the parent's children unless it is already there, and afterwards the child is a child of the parent. |
| Aggregates.Added | tests/SimpleAcl/AclRuleApplyTest.php:652-653 | Adding keeps the members free of duplicates. |
| Aggregates.Removed | tests/SimpleAcl/AclRuleApplyTest.php:660 | After removal the members are exactly the old members other than the removed name, still free of duplicates. |
| Aggregates.RemovedAt | tests/SimpleAcl/AclRuleApplyTest.php:660-661 | Removing a member deletes exactly its position and keeps the others in order. |
| Aggregates.ReAddMovesToTail | tests/SimpleAcl/AclRuleApplyTest.php:660-663 | Removing a member and adding it back puts it after all the others. Unless it was already last, the order changes. |
| Aggregates.Aggregate.Add | tests/SimpleAcl/AclRuleApplyTest.php:405-407 | `addRole`/`addResource`: the members become `Added(old members, name)` and stay distinct. |
| Aggregates.Aggregate.Remove | tests/SimpleAcl/AclRuleApplyTest.php:724 | `removeRole`/`removeResource`: the members become `Removed(old members, name)` and the name is gone. |
| AccessControl.DropKeepsOrder | tests/SimpleAcl/AclRuleApplyTest.php:591-593 | Removing one record keeps insertion numbers increasing and below the next number to hand out. |
| AccessControl.Unselected | tests/SimpleAcl/AclRuleApplyTest.php:591 | The records kept by a remove-all are exactly those the filter does not select. The store never grows, and insertion numbers stay increasing. |
| AccessControl.LatestSelected | tests/SimpleAcl/AclRuleApplyTest.php:591-594 | It finds the position of a selected record with no selected record after it, or reports that none is selected. |
| AccessControl.LatestAt | tests/SimpleAcl/AclRuleApplyTest.php:591-593 | The single-record removal deletes exactly the last selected position. |
| AccessControl.NoneSelected | tests/SimpleAcl/AclRuleApplyTest.php:591 | A filter that selects nothing deletes nothing. |
| AccessControl.UnselectedShrinks | tests/SimpleAcl/AclRuleApplyTest.php:591-593 | A remove-all whose filter selects some record strictly shrinks the store. |
| AccessControl.Acl.AddRule | tests/SimpleAcl/AclRuleApplyTest.php:585-602 | `addRule` appends exactly one record with the next insertion number, so the rule count grows by one. |
| AccessControl.Acl.AddNamedRule | tests/SimpleAcl/AclRuleApplyTest.php:483-485 | `addRule` with a bare action name appends the record of a rule of that name. |
| AccessControl.Acl.RemoveRule | tests/SimpleAcl/AclRuleApplyTest.php:591-593 | With `all`, the store becomes the unselected records. Without it, it becomes the store minus the latest selected record. |
| AccessControl.Acl.RemoveSelected | tests/SimpleAcl/AclRuleApplyTest.php:591 | Filtering in place leaves exactly `Unselected(old rules)`, proved by loop invariant. |
| AccessControl.Acl.RemoveLatestSelected | tests/SimpleAcl/AclRuleApplyTest.php:591-594 | The backward scan deletes exactly the latest selected record, or nothing. |
| Resolution.RecordMatches | tests/SimpleAcl/AclRuleApplyTest.php:178-252 | The matches for one candidate pair are exactly the records for the action whose role and resource both reach that pair, at the summed distance. |
| Resolution.AllMatches | tests/SimpleAcl/AclRuleApplyTest.php:391-474 | The matches over all candidate pairs are exactly the records reaching some pair of role and resource candidates, tagged with the pair's positions. |
| Resolution.Insert | tests/SimpleAcl/AclRuleApplyTest.php:555-569 | Inserting one match into the ranking adds exactly that match. |
| Resolution.InsertSorted | tests/SimpleAcl/AclRuleApplyTest.php:555-569 | Inserting into a ranked list keeps it ranked. |
| Resolution.Sort | tests/SimpleAcl/AclRuleApplyTest.php:555-569 | The ranking is a permutation of the matches, and no match comes after one it outranks. |
| Resolution.Ranked | tests/SimpleAcl/AclRuleApplyTest.php:606-703 | The ranked list is sorted and holds exactly the query's matches. |
| Resolution.IsAllowedReturnResult | tests/SimpleAcl/AclRuleApplyTest.php:537-569 | Only stored records for the queried action are listed. The list is empty exactly when nothing matches. Otherwise its head is a best match's record. |
| Resolution.IsAllowed | tests/SimpleAcl/AclRuleApplyTest.php:15-78 | True only when a best match allows. False only when nothing matches or a best match denies. |
| Decisions.BestMatchDecides | tests/SimpleAcl/AclRuleApplyTest.php:606-637 | A match outranking all others decides `isAllowed` and heads the result. |
| Decisions.AllowedIsHeadOfResult | tests/SimpleAcl/AclRuleApplyTest.php:533-539 | `isAllowed` is the first listed record's flag, and false when nothing is listed. |
| Decisions.UnanimousStore | tests/SimpleAcl/AclRuleApplyTest.php:80-175 | When all records carry one outcome, a query answers it exactly when something matches. |
| Decisions.BestIsUnique | tests/SimpleAcl/AclRuleApplyTest.php:577-589 | With distinct insertion numbers there is exactly one best match. |
| Decisions.AllowedIffBestAllows | tests/SimpleAcl/AclRuleApplyTest.php:15-78 | `isAllowed` holds if and only if the best match allows. |
| Decisions.IncreasingStoreAllowedIffBestAllows | tests/SimpleAcl/AclRuleApplyTest.php:577-604 | On a store numbered in insertion order, as every ACL keeps, `isAllowed` holds if and only if the best match allows. |
| Decisions.EmptyStoreDenies | tests/SimpleAcl/AclRuleApplyTest.php:15-20 | An empty ACL denies every query and lists nothing. |
| Decisions.UnknownActionDenies | tests/SimpleAcl/AclRuleApplyTest.php:22-28 | An action no record names is denied and lists nothing. |
| Decisions.UnknownNameDenies | tests/SimpleAcl/AclRuleApplyTest.php:30-38 | A role or resource name in no hierarchy and no record is denied and lists nothing. |
| Decisions.NoCandidatesDeny | tests/SimpleAcl/AclRuleApplyTest.php:353-389 | An empty aggregate or an argument of a foreign type is denied and lists nothing. |
| Decisions.NoScoreDenies | tests/SimpleAcl/AclRuleApplyTest.php:30-38 | When no record bears on any candidate pair, the query is denied and lists nothing. |
| Decisions.Winner | tests/SimpleAcl/AclRuleApplyTest.php:641-703 | A record whose match on some candidate pair outranks every other record's match on every pair decides and heads the result. |
| Decisions.SingleCandidateWinner | tests/SimpleAcl/AclRuleApplyTest.php:606-637 | For two names, the record at the smallest combined distance decides, and on equal distance the later record does. |
| Decisions.ExactLatestWins | tests/SimpleAcl/AclRuleApplyTest.php:577-604 | A record added on exactly the queried role, resource and action decides that query, whatever was stored before. |
| Decisions.SoleRuleScope | tests/SimpleAcl/AclRuleApplyTest.php:254-351 | A sole rule for an action answers its outcome exactly on pairs at or below both its nodes, and denies elsewhere. |
| Decisions.CascadesDown | tests/SimpleAcl/AclRuleApplyTest.php:198-205 | A record bearing on a pair also bears on every pair below it on both axes, at no more than the added distance. |
| Decisions.NeverCascadesUp | tests/SimpleAcl/AclRuleApplyTest.php:191-196 | In acyclic hierarchies a record never bears on a strict ancestor of its role or of its resource. |
| Decisions.IrrelevantRecord | tests/SimpleAcl/AclRuleApplyTest.php:814-836 | Adding a record that bears on no candidate pair changes neither `isAllowed` nor the result. |
| Decisions.OtherActionIrrelevant | tests/SimpleAcl/AclRuleApplyTest.php:51-78 | Adding a rule for one action never changes the answers for another. |
| Decisions.ChildRuleSparesAncestor | tests/SimpleAcl/AclRuleApplyTest.php:207-213 | In an acyclic role hierarchy, a rule added below a role never changes that role's answers. |
| Decisions.SortReverses | tests/SimpleAcl/AclRuleApplyTest.php:555-569 | Matches in strictly ascending rank come out of the ranking reversed. |
| Decisions.InsertLast | tests/SimpleAcl/AclRuleApplyTest.php:555-569 | A match outranked by every ranked match goes at the end. |
| Decisions.RecordsOnPair | tests/SimpleAcl/AclRuleApplyTest.php:555-569 | The records sitting exactly on the queried names and action come from the store and keep its insertion order. |
| Decisions.OnlyOnPair | tests/SimpleAcl/AclRuleApplyTest.php:537-539 | When exactly one record sits on the queried names and action, it is the only one selected. |
| Decisions.NoneOnPair | tests/SimpleAcl/AclRuleApplyTest.php:30-38 | When no record sits on them, none is selected. |
| Decisions.AllOnPair | tests/SimpleAcl/AclRuleApplyTest.php:555-569 | When every record sits on them, all are selected. |
| Decisions.ExactMatches | tests/SimpleAcl/AclRuleApplyTest.php:555-569 | When each record sits on the queried pair or misses it, the pair's matches are the records on it, at distance 0, in store order. |
| Decisions.ExactRanking | tests/SimpleAcl/AclRuleApplyTest.php:555-569 | When every record either sits on the queried nodes or misses them, the ranking is those records at distance 0, latest first. |
| Decisions.ResultIsReverseInsertion | tests/SimpleAcl/AclRuleApplyTest.php:555-569 | In that situation `isAllowedReturnResult` lists exactly the records on the queried nodes and action, in reverse insertion order. |
| Fixtures.NoEdges | tests/SimpleAcl/AclRuleApplyTest.php:40-49 | Without any `addChild` a node reaches only itself. |
| Fixtures.FlatLatestWins | tests/SimpleAcl/AclRuleApplyTest.php:577-604 | Without hierarchies, a query by two names lists the records on exactly those names, latest first, and answers the latest one's flag. |
| Fixtures.OwnPairMatches | tests/SimpleAcl/AclRuleApplyTest.php:40-49 | A record matches a query on its own role, resource and action at distance 0. |
| Fixtures.DecidedAt | tests/SimpleAcl/AclRuleApplyTest.php:80-175 | In a unanimous store every record's own role, resource and action answer its outcome. |
| Fixtures.FlatOnlyRecord | tests/SimpleAcl/AclRuleApplyTest.php:40-49 | Without hierarchies, the only record on the queried names decides. |
| Fixtures.FlatOnlyResult | tests/SimpleAcl/AclRuleApplyTest.php:537-539 | …and is the only record listed. |
| Fixtures.FlatLatestOnPair | tests/SimpleAcl/AclRuleApplyTest.php:563-569 | Without hierarchies, when every record sits on the queried names, the latest decides and the result is the store reversed. |
| Fixtures.FlatNoRecord | tests/SimpleAcl/AclRuleApplyTest.php:30-38 | Without hierarchies, a query on names no record sits on is denied. |
| Fixtures.DecidedOnCandidates | tests/SimpleAcl/AclRuleApplyTest.php:391-474 | In a unanimous store, a query whose candidates include a record's role and resource answers its outcome. |
| Fixtures.FirstMemberDecides | tests/SimpleAcl/AclRuleApplyTest.php:641-681 | For a role aggregate on flat hierarchies, the first member's latest rule decides, whatever later members' rules say. |
| Fixtures.FirstResourceDecides | tests/SimpleAcl/AclRuleApplyTest.php:706-727 | For a resource aggregate on flat hierarchies, the first member's latest rule decides. |
| Fixtures.Chain | tests/SimpleAcl/AclRuleApplyTest.php:186-187 | On a chain built with two `addChild` calls, distances run one hop down each edge and none run up. |
| Fixtures.ChainReach | tests/SimpleAcl/AclRuleApplyTest.php:254-351 | On such a chain, one node reaches another exactly when it is not lower. |
| Fixtures.ChainAcyclic | tests/SimpleAcl/AclRuleApplyTest.php:186-187 | A chain built with two `addChild` calls over three distinct nodes is acyclic. |
| Fixtures.ChainsAcyclic | tests/SimpleAcl/AclRuleApplyTest.php:254-268 | The role chain and the resource chain of the hierarchy tests are both acyclic. |
| BasicScenarios.EmptyAclDenies | tests/SimpleAcl/AclRuleApplyTest.php:15-20 | `testEmpty`: the answer is `isAllowed('User', 'Page', 'View')` on the empty store, and it is false. |
| BasicScenarios.UndefinedRuleDenies | tests/SimpleAcl/AclRuleApplyTest.php:22-28 | `testUnDefinedRule`: the answer is the query for `UnDefinedRule` on the store of the one User/Page View rule, and it is false. |
| BasicScenarios.UndefinedRoleOrResourceDenies | tests/SimpleAcl/AclRuleApplyTest.php:30-38 | `testUnDefinedRoleOrResource`: the three answers are the queries with an unknown role, an unknown resource and both, on the store of the one View rule, and all are false. |
| BasicScenarios.OneRoleOneResourceOneRule | tests/SimpleAcl/AclRuleApplyTest.php:40-49 | `testOneRoleOneResourceOneRule`: the answers are the queries on the granting store and then on the denying store: true, then false. |
| BasicScenarios.ThreeActionsAnswer | tests/SimpleAcl/AclRuleApplyTest.php:51-78 | With one rule per action on User/Page, every action answers that rule's outcome. |
| BasicScenarios.OneRoleOneResourceMultipleRule | tests/SimpleAcl/AclRuleApplyTest.php:51-78 | `testOneRoleOneResourceMultipleRule`: the answers are the View, Edit and Remove queries on the store of the three rules, and each is the shared outcome. |
| BasicScenarios.StringAsRule | tests/SimpleAcl/AclRuleApplyTest.php:476-505 | `testStringAsRule`: the store built from bare action names equals the one built from rule objects, and its three answers are the shared outcome. |
| BasicScenarios.ThreeActionsResult | tests/SimpleAcl/AclRuleApplyTest.php:537-553 | Each action's result lists exactly its own rule. |
| BasicScenarios.GetResultPerAction | tests/SimpleAcl/AclRuleApplyTest.php:520-553 | `testGetResult`, first two parts: the answers and results are `isAllowed` and `isAllowedReturnResult` on the three-rule store; each result lists exactly its action's rule. |
| BasicScenarios.GetResultOrder | tests/SimpleAcl/AclRuleApplyTest.php:555-569 | `testGetResult`, last part: the result is `isAllowedReturnResult` on the store of five View rules, and it lists them `[view4, view3, view2, view1, view]`. |
| BasicScenarios.LastAddedRuleWins | tests/SimpleAcl/AclRuleApplyTest.php:577-604 | `testEdgeConditionLastAddedRuleWins`: at each of the four stages the count is the store's length and the answer is the query on that stage's store; counts 2, 1, 2, 3 and answers true, false, true, false. |
| BasicScenarios.AddView | tests/SimpleAcl/AclRuleApplyTest.php:596-603 | One more View rule on User/Page appends exactly the record with the next number. The answer is the query on the new store, and it is the added rule's flag. |
| GridScenario.EmptyChecks | tests/SimpleAcl/AclRuleApplyTest.php:80-129 | Every one of the 27 checks denies on the empty ACL. |
| GridScenario.GridChecks | tests/SimpleAcl/AclRuleApplyTest.php:130-175 | Every one of the 27 checks grants once all 27 rules are in. |
| GridScenario.AddRulesOn | tests/SimpleAcl/AclRuleApplyTest.php:134-146 | One paragraph of nine `addRule` calls appends its block of records and keeps the earlier ones. |
| GridScenario.MultipleRolesMultipleResourcesMultipleRules | tests/SimpleAcl/AclRuleApplyTest.php:80-175 | `testMultipleRolesMultipleResourcesMultipleRules`: `before` is the empty store and `after` the 27-record grid, both without hierarchies; all checks deny on the first and grant on the second. |
| HierarchyScenarios.SoleRuleOnChains | tests/SimpleAcl/AclRuleApplyTest.php:254-351 | On both chains, a sole rule answers its outcome exactly for pairs at or below both its nodes. |
| HierarchyScenarios.ParentRolesDoNotGain | tests/SimpleAcl/AclRuleApplyTest.php:178-196 | `testParentRoles`, first part: the answers are the Page queries for User, Moderator and Admin on the role chain with the User/Page rule: true, false, false. |
| HierarchyScenarios.ChildRolesInherit | tests/SimpleAcl/AclRuleApplyTest.php:198-205 | `testParentRoles`, second part: the same queries with the Admin/Page rule: true, true, true. |
| HierarchyScenarios.NearerRoleRules | tests/SimpleAcl/AclRuleApplyTest.php:207-213 | After User and Moderator get denying rules, only Admin is still granted. |
| HierarchyScenarios.NearerRoleRulesOverride | tests/SimpleAcl/AclRuleApplyTest.php:198-213 | `testParentRoles`, last part: the same queries once User and Moderator get denying rules: false, false, true. |
| HierarchyScenarios.ParentResourcesDoNotGain | tests/SimpleAcl/AclRuleApplyTest.php:216-234 | `testParentResources`, first part: the answers are User's queries on Page, Blog and Site on the resource chain with the User/Page rule: true, false, false. |
| HierarchyScenarios.ChildResourcesInherit | tests/SimpleAcl/AclRuleApplyTest.php:236-243 | `testParentResources`, second part: the same queries with the User/Site rule: true, true, true. |
| HierarchyScenarios.NearerResourceRules | tests/SimpleAcl/AclRuleApplyTest.php:245-251 | After Page and Blog get denying rules, only Site is still granted. |
| HierarchyScenarios.NearerResourceRulesOverride | tests/SimpleAcl/AclRuleApplyTest.php:236-251 | `testParentResources`, last part: the same queries once Page and Blog get denying rules: false, false, true. |
| HierarchyScenarios.RuleOnUserAndPage | tests/SimpleAcl/AclRuleApplyTest.php:270-284 | `testParentRolesAndResources`, User/Page rule: the nine answers are the queries on both chains in the test's order, and only User/Page is granted. |
| HierarchyScenarios.UserAndPageAnswers | tests/SimpleAcl/AclRuleApplyTest.php:270-284 | With the sole User/Page rule on both chains, only User/Page is granted. |
| HierarchyScenarios.RuleOnAdminAndPage | tests/SimpleAcl/AclRuleApplyTest.php:286-300 | Admin/Page rule: the nine answers are the queries on both chains in the test's order, and every role is granted Page and nothing else. |
| HierarchyScenarios.AdminAndPageAnswers | tests/SimpleAcl/AclRuleApplyTest.php:286-300 | With the sole Admin/Page rule, every role is granted Page and nothing else. |
| HierarchyScenarios.RuleOnUserAndSite | tests/SimpleAcl/AclRuleApplyTest.php:302-316 | User/Site rule: the nine answers are the queries on both chains in the test's order, and User is granted every resource, the others nothing. |
| HierarchyScenarios.UserAndSiteAnswers | tests/SimpleAcl/AclRuleApplyTest.php:302-316 | With the sole User/Site rule, User is granted every resource and the other roles nothing. |
| HierarchyScenarios.RuleInTheMiddle | tests/SimpleAcl/AclRuleApplyTest.php:319-333 | Moderator/Blog rule: the nine answers are the queries on both chains in the test's order, and Moderator and User are granted Blog and Page only. |
| HierarchyScenarios.MiddleAnswers | tests/SimpleAcl/AclRuleApplyTest.php:319-333 | With the sole Moderator/Blog rule, Moderator and User are granted Blog and Page, and nothing else is granted. |
| HierarchyScenarios.RuleOnTheTop | tests/SimpleAcl/AclRuleApplyTest.php:336-350 | Admin/Site rule: the nine answers are the queries on both chains in the test's order, and every pair is granted. |
| HierarchyScenarios.TopAnswers | tests/SimpleAcl/AclRuleApplyTest.php:336-350 | With the sole Admin/Site rule, all nine pairs are granted. |
| HierarchyScenarios.TwoRulesOnChains | tests/SimpleAcl/AclRuleApplyTest.php:606-637 | Moderator/Blog allowed and User/Page denied: User/Page is denied, the other pairs below Moderator/Blog are granted, and nothing above is. |
| HierarchyScenarios.TwoRuleAnswers | tests/SimpleAcl/AclRuleApplyTest.php:606-637 | With Moderator/Blog allowed and User/Page denied, the nine answers in the test's order. |
| HierarchyScenarios.ParentRolesAndResourcesWithMultipleRules | tests/SimpleAcl/AclRuleApplyTest.php:606-637 | `testParentRolesAndResourcesWithMultipleRules`: the nine answers are the queries on both chains with the two rules, in the test's order, and their values. |
| AggregateScenarios.DiagonalGranted | tests/SimpleAcl/AclRuleApplyTest.php:391-474 | With the three diagonal rules, any query whose candidates include a rule's role and resource grants its action. |
| AggregateScenarios.BadRolesAndResources | tests/SimpleAcl/AclRuleApplyTest.php:353-365 | `testAggregateBadRolesAndResources`: the answers are the queries with a foreign resource and a foreign role on the one-rule store, and both are false. |
| AggregateScenarios.EmptyRolesAndResources | tests/SimpleAcl/AclRuleApplyTest.php:367-389 | `testAggregateEmptyRolesAndResources`: the answers are the three queries with two empty aggregates on the diagonal store, and all are false. |
| AggregateScenarios.AggregateRoles | tests/SimpleAcl/AclRuleApplyTest.php:391-416 | `testAggregateRoles`: the answers are the queries for the User, Moderator, Admin group on the diagonal store, and all are true. |
| AggregateScenarios.AggregateResources | tests/SimpleAcl/AclRuleApplyTest.php:418-443 | `testAggregateResources`: the answers are the queries on the Page, Blog, Site group on the diagonal store, and all are true. |
| AggregateScenarios.AggregateRolesAndResources | tests/SimpleAcl/AclRuleApplyTest.php:445-474 | `testAggregateRolesAndResources`: the answers are the queries with both groups on the diagonal store, and all are true. |
| AggregateScenarios.FirstAddedRoleWins | tests/SimpleAcl/AclRuleApplyTest.php:641-681 | In either rule order, the answers are the queries for the groups [User, Moderator], [Moderator] and [Moderator, User] on the store built: true, false, false. |
| AggregateScenarios.UserThenModerator | tests/SimpleAcl/AclRuleApplyTest.php:650-663 | The group steps of that test on any store holding the two rules: the answers are the queries for the three groups, true, false, false. |
| AggregateScenarios.RoleGroupAnswers | tests/SimpleAcl/AclRuleApplyTest.php:650-663 | User's rule decides while User is the group's first member. Once User is re-added last, Moderator's rule does. |
| AggregateScenarios.ContactDistances | tests/SimpleAcl/AclRuleApplyTest.php:691-692 | Contact is one hop below Page. |
| AggregateScenarios.NearRuleOutranksFirstMember | tests/SimpleAcl/AclRuleApplyTest.php:694-698 | Moderator/Contact at distance 0 outranks User/Page at distance 1, although User is the first member. |
| AggregateScenarios.EqualDistanceFirstMember | tests/SimpleAcl/AclRuleApplyTest.php:700-703 | Once User/Contact is added the distances tie and the first member's rule denies. |
| AggregateScenarios.PriorityOverMemberOrder | tests/SimpleAcl/AclRuleApplyTest.php:683-703 | The answers are the group's Contact queries on the stores before and after User/Contact is added, with Contact under Page: true, then false. |
| AggregateScenarios.FirstAddedResourceWins | tests/SimpleAcl/AclRuleApplyTest.php:706-727 | `testEdgeConditionAggregateResourcesFirstAddedResourceWins`: the answers are User's queries on the groups [Page, Blog] and [Blog] on the two-rule store: true, then false. |
| AggregateScenarios.PageThenBlog | tests/SimpleAcl/AclRuleApplyTest.php:715-727 | The group steps of that test on the two-rule store: the answers are User's queries on the groups [Page, Blog] and [Blog], true, then false. |
| AggregateScenarios.ResourceGroupAnswers | tests/SimpleAcl/AclRuleApplyTest.php:715-727 | Page's rule decides while Page is the group's first member. With Page removed, Blog's rule does. |
| ComplexScenario.RoleTreeDistances | tests/SimpleAcl/AclRuleApplyTest.php:738-740 | In the role tree U reaches every role at most one hop down, and U2 reaches only itself. |
| ComplexScenario.ResourceTreeDistances | tests/SimpleAcl/AclRuleApplyTest.php:749-754 | In the resource tree R reaches every node at its depth, R3 reaches R4 and R5, and the leaves reach only themselves. |
| ComplexScenario.FirstRound | tests/SimpleAcl/AclRuleApplyTest.php:758-783 | U/R granted: all 24 pairs are granted. |
| ComplexScenario.SecondRound | tests/SimpleAcl/AclRuleApplyTest.php:787-812 | With U/R3 denied as well, exactly the pairs on R3, R4 and R5 are denied. |
| ComplexScenario.ThirdRound | tests/SimpleAcl/AclRuleApplyTest.php:816-842 | After U2/R4 and U2/R5 are granted, exactly U2/R4 and U2/R5 change back to granted. |
| ComplexScenario.LeafRuleMisses | tests/SimpleAcl/AclRuleApplyTest.php:816-842 | A leaf rule for U2 changes no other pair's answer. |
| ComplexScenario.ComplexGraph | tests/SimpleAcl/AclRuleApplyTest.php:729-843 | `testComplexGraph`: the three snapshots are the ACL's store after each round, with the two trees built, and all 72 answers of the three rounds hold on them. |

## Left out

- Rule counting through PHPUnit's `assertAttributeCount` reflection is not modelled as such. The count is the length of the `rules` field.
- `setRuleClass`, the configurable payload factory, is not modelled. A bare action name is wrapped in a `Rule` directly.
- PHP object identity is not modelled. Nodes are identified by their names, which are unique per kind. A `\stdClass` argument is the `Other` argument, which gives no candidate.
- `removeRule` compares node arguments by object identity. The model compares names, which is equivalent under unique names.
- The 4th argument of `removeRule` reads here as "remove all selected records". When false, only the most recently added selected record goes. The test at tests/SimpleAcl/AclRuleApplyTest.php:585-594 demands this: after `removeRule(null, null, 'View', false)` on `[View false, View true]`, one rule is left and the answer is false. Read as a filter on `allowed`, the call would delete the denying record and the answer would be true, which the test refutes. So the model removes only the most recently added selected record.
- The result of `isAllowedReturnResult` is a lazy iterator in the source. Here it is a finite sequence.
- Cyclic hierarchies are not exercised by the tests. Distance is breadth-first with a visited set, so it is defined on every graph. Only the "never cascades up" lemmas assume acyclicity.
- The tie-break between two multi-member aggregates is not pinned down by the tests (they only check that something matches). The model orders role position before resource position, and no lemma claims more.
- The implementation files (`Acl.php`, `Role.php`, `Resource.php`, the aggregates, `RuleResult`) are not part of this model. Their behaviour is taken from the test suite alone.
