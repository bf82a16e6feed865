/**
 * The three-by-three-by-three test: every role, resource and action of the suite on flat
 * hierarchies, first with no rule at all and then with one granting rule for each
 * combination, added resource by resource, role by role, action by action.
 */
module GridScenario {
  import opened Rules
  import opened Resolution
  import opened Decisions
  import opened Fixtures
  import opened AccessControl

  /** The test's `runChecks`: every combination of the three lists answers `allowed`. */
  ghost predicate RunChecks(s: Snapshot, allowed: bool)
  {
    forall l, i, j :: 0 <= l < |Resources| && 0 <= i < |Roles| && 0 <= j < |Actions| ==>
      Ask(s, Roles[i], Resources[l], Actions[j]) == allowed
  }

  /**
   * From position `lo` on, the store holds one granting record per role and action on
   * `resource`, roles outer and actions inner, numbered by their positions.
   */
  ghost predicate BlockAt(rules: seq<Record>, lo: nat, resource: string)
  {
    && lo + 9 <= |rules|
    && forall i, j :: 0 <= i < |Roles| && 0 <= j < |Actions| ==>
      rules[lo + 3 * i + j] == Record(lo + 3 * i + j, Roles[i], resource, Rule(Actions[j]), true)
  }

  /** The store after all 27 `addRule` calls: one block per resource, in the order of `Resources`. */
  ghost predicate GridStore(rules: seq<Record>)
  {
    && |rules| == 9 * |Resources|
    && forall l :: 0 <= l < |Resources| ==> BlockAt(rules, 9 * l, Resources[l])
  }

  /** Before any rule is added, every check denies. */
  lemma EmptyChecks(s: Snapshot)
    requires s.rules == []
    ensures RunChecks(s, false)
  {
    forall q, o, a ensures !Ask(s, q, o, a) {
      EmptyStoreDenies(s, Name(q), Name(o), a);
    }
  }

  /** Every record of the full store grants. */
  lemma GridGrants(rules: seq<Record>)
    requires GridStore(rules)
    ensures forall rec :: rec in rules ==> rec.allowed
  {
    forall k | 0 <= k < |rules| ensures rules[k].allowed {
      var l, i, j := k / 9, k % 9 / 3, k % 3;
      assert 0 <= l < 3 && 0 <= i < 3 && 0 <= j < 3 && k == 9 * l + 3 * i + j;
      assert BlockAt(rules, 9 * l, Resources[l]);
      assert rules[9 * l + 3 * i + j] == Record(9 * l + 3 * i + j, Roles[i], Resources[l], Rule(Actions[j]), true);
    }
  }

  /** With the full store, every check grants. */
  lemma GridChecks(s: Snapshot)
    requires GridStore(s.rules)
    ensures RunChecks(s, true)
  {
    GridGrants(s.rules);
    forall l, i, j | 0 <= l < |Resources| && 0 <= i < |Roles| && 0 <= j < |Actions|
      ensures Ask(s, Roles[i], Resources[l], Actions[j])
    {
      assert BlockAt(s.rules, 9 * l, Resources[l]);
      DecidedAt(s, 9 * l + 3 * i + j, true);
    }
  }

  /** One "Rules for ..." paragraph of the test: nine granting `addRule` calls on `resource`. */
  method AddRulesOn(acl: Acl, resource: string)
    requires acl.Valid() && acl.nextId == |acl.rules|
    modifies acl
    ensures acl.Valid() && acl.nextId == |acl.rules| == |old(acl.rules)| + 9
    ensures acl.rules[..|old(acl.rules)|] == old(acl.rules)
    ensures BlockAt(acl.rules, |old(acl.rules)|, resource)
  {
    ghost var start, lo := acl.rules, |acl.rules|;
    AddRow(acl, "User", resource);
    ghost var first := acl.rules;
    AddRow(acl, "Moderator", resource);
    ghost var second := acl.rules;
    AddRow(acl, "Admin", resource);
    RowKept(first, second, lo, "User", resource);
    RowKept(second, acl.rules, lo, "User", resource);
    RowKept(second, acl.rules, lo + 3, "Moderator", resource);
    PrefixKept(start, first, second);
    PrefixKept(start, second, acl.rules);
    ListedBlock(acl.rules, lo, resource);
  }

  /** The three `addRule` calls of one role on `resource`: View, Edit, Remove. */
  method AddRow(acl: Acl, role: string, resource: string)
    requires acl.Valid() && acl.nextId == |acl.rules|
    modifies acl
    ensures acl.Valid() && acl.nextId == |acl.rules| == |old(acl.rules)| + 3
    ensures acl.rules[..|old(acl.rules)|] == old(acl.rules)
    ensures RowAt(acl.rules, |old(acl.rules)|, role, resource)
  {
    ghost var lo := |acl.rules|;
    acl.AddRule(role, resource, Rule("View"), true);
    acl.AddRule(role, resource, Rule("Edit"), true);
    acl.AddRule(role, resource, Rule("Remove"), true);
    assert acl.rules[lo] == Record(lo, role, resource, Rule("View"), true);
  }

  /** Appending records keeps a row where it was. */
  lemma RowKept(a: seq<Record>, b: seq<Record>, lo: nat, role: string, resource: string)
    requires RowAt(a, lo, role, resource)
    requires |a| <= |b| && b[..|a|] == a
    ensures RowAt(b, lo, role, resource)
  {
    assert b[..|a|][lo] == b[lo] && b[..|a|][lo + 1] == b[lo + 1] && b[..|a|][lo + 2] == b[lo + 2];
  }

  /** A prefix of a prefix is a prefix. */
  lemma PrefixKept(a: seq<Record>, b: seq<Record>, c: seq<Record>)
    requires |a| <= |b| <= |c| && b[..|a|] == a && c[..|b|] == b
    ensures c[..|a|] == a
  {
    assert c[..|a|] == c[..|b|][..|a|];
  }

  /** The three records of one role on `resource`, at positions `lo` to `lo + 2`. */
  predicate RowAt(rules: seq<Record>, lo: nat, role: string, resource: string)
  {
    && lo + 3 <= |rules|
    && rules[lo] == Record(lo, role, resource, Rule("View"), true)
    && rules[lo + 1] == Record(lo + 1, role, resource, Rule("Edit"), true)
    && rules[lo + 2] == Record(lo + 2, role, resource, Rule("Remove"), true)
  }

  /** Three rows in role order make a block. */
  lemma ListedBlock(rules: seq<Record>, lo: nat, resource: string)
    requires RowAt(rules, lo, "User", resource) && RowAt(rules, lo + 3, "Moderator", resource) && RowAt(rules, lo + 6, "Admin", resource)
    ensures BlockAt(rules, lo, resource)
  {
    forall i, j | 0 <= i < |Roles| && 0 <= j < |Actions|
      ensures rules[lo + 3 * i + j] == Record(lo + 3 * i + j, Roles[i], resource, Rule(Actions[j]), true)
    {
      assert i == 0 || i == 1 || i == 2;
      assert j == 0 || j == 1 || j == 2;
    }
  }

  /** Appending records keeps a block where it was. */
  lemma BlockKept(a: seq<Record>, b: seq<Record>, lo: nat, resource: string)
    requires BlockAt(a, lo, resource)
    requires |a| <= |b| && b[..|a|] == a
    ensures BlockAt(b, lo, resource)
  {
    forall i, j | 0 <= i < |Roles| && 0 <= j < |Actions|
      ensures b[lo + 3 * i + j] == Record(lo + 3 * i + j, Roles[i], resource, Rule(Actions[j]), true)
    {
      assert b[..|a|][lo + 3 * i + j] == b[lo + 3 * i + j];
    }
  }

  /** All 27 `addRule` calls of the test, on a fresh ACL. */
  method BuildGrid() returns (acl: Acl)
    ensures fresh(acl) && acl.Valid() && GridStore(acl.rules)
  {
    acl := new Acl();
    AddRulesOn(acl, "Page");
    var page := acl.rules;
    AddRulesOn(acl, "Blog");
    var blog := acl.rules;
    AddRulesOn(acl, "Site");
    BlockKept(page, blog, 0, "Page");
    BlockKept(blog, acl.rules, 0, "Page");
    BlockKept(blog, acl.rules, 9, "Blog");
    ThreeBlocks(acl.rules);
  }

  /** A store of 27 records holding the three blocks in resource order. */
  lemma ThreeBlocks(rules: seq<Record>)
    requires |rules| == 27
    requires BlockAt(rules, 0, "Page") && BlockAt(rules, 9, "Blog") && BlockAt(rules, 18, "Site")
    ensures GridStore(rules)
  {
    forall l | 0 <= l < |Resources| ensures BlockAt(rules, 9 * l, Resources[l]) {
      assert l == 0 || l == 1 || l == 2;
    }
  }

  /**
   * The test: every check denies on the empty ACL and grants once all 27 rules are in.  `before`
   * and `after` are the ACL's store at the two points of the test, with no `addChild` made.
   */
  method MultipleRolesMultipleResourcesMultipleRules() returns (before: Snapshot, after: Snapshot)
    ensures before == Snapshot([], map[], map[])
    ensures after.roles == map[] && after.resources == map[] && GridStore(after.rules)
    ensures RunChecks(before, false) && RunChecks(after, true)
  {
    var acl := new Acl();
    before := Snapshot(acl.rules, map[], map[]);
    EmptyChecks(before);
    acl := BuildGrid();
    after := Snapshot(acl.rules, map[], map[]);
    GridChecks(after);
  }
}
