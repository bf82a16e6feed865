/**
 * Role and resource hierarchies as the caller builds them with `addChild`.  All nodes of one
 * kind are kept in one object, keyed by their (unique) names; `Role` and `Resource` objects
 * linked by `addChild` correspond to one `Hierarchy` each.
 */
module Hierarchy {

  import opened Wrappers
  import opened Graph

  /** The child relation after `parent.addChild(child)`; adding an existing edge changes nothing. */
  function AddEdge(g: Graph, parent: string, child: string): Graph
  {
    if child in Children(g, parent) then g else g[parent := Children(g, parent) + [child]]
  }

  /** Every edge of `g` is an edge of `h`. */
  ghost predicate SubGraph(g: Graph, h: Graph)
  {
    forall p, c :: c in Children(g, p) ==> c in Children(h, p)
  }

  lemma {:induction false} WithinGrows(g: Graph, h: Graph, from: string, k: nat)
    requires SubGraph(g, h)
    ensures Within(g, from, k) <= Within(h, from, k)
  {
    if k > 0 {
      WithinGrows(g, h, from, k - 1);
      StepMono(h, Within(g, from, k - 1), Within(h, from, k - 1));
      assert Step(g, Within(g, from, k - 1)) <= Step(h, Within(g, from, k - 1));
    }
  }

  /** Adding edges never cuts a descendant off, nor makes it further away. */
  lemma DistanceSurvivesGrowth(g: Graph, h: Graph, a: string, b: string)
    requires SubGraph(g, h)
    requires Distance(g, a, b).Some?
    ensures Distance(h, a, b).Some? && Distance(h, a, b).value <= Distance(g, a, b).value
  {
    DistanceFound(g, a, b);
    WithinGrows(g, h, a, Distance(g, a, b).value);
    DistanceAtMost(h, a, b, Distance(g, a, b).value);
  }

  /**
   * `addChild` makes the child a direct descendant, keeps every other node's children,
   * and keeps every descendant already present.
   */
  lemma AddChildEffect(g: Graph, parent: string, child: string, a: string, b: string)
    ensures child in Children(AddEdge(g, parent, child), parent)
    ensures parent != child ==> Distance(AddEdge(g, parent, child), parent, child) == Some(1)
    ensures forall n :: n != parent ==> Children(AddEdge(g, parent, child), n) == Children(g, n)
    ensures Distance(g, a, b).Some? ==> Distance(AddEdge(g, parent, child), a, b).Some?
  {
    var h := AddEdge(g, parent, child);
    assert SubGraph(g, h);
    DistanceToChild(h, parent, parent, child);
    if Distance(g, a, b).Some? {
      DistanceSurvivesGrowth(g, h, a, b);
    }
  }

  class Hierarchy {
    var children: Graph

    constructor ()
      ensures children == map[]
    {
      children := map[];
    }

    /** `parent->addChild(child)`. */
    method AddChild(parent: string, child: string)
      modifies this
      ensures children == AddEdge(old(children), parent, child)
      ensures child in Children(children, parent)
    {
      if child !in Children(children, parent) {
        children := children[parent := Children(children, parent) + [child]];
      }
    }
  }
}
