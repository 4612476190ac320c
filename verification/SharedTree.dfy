/** The catalog of a shared volume: a tree of inode capabilities that only ever shrinks by
    whole subtrees. */
module SharedTree {
  import opened Bytes
  import opened Wrappers
  import opened SharedNames

  const ROOT := 2
  const FIRST := 3

  datatype Kind = File | Directory | Special

  datatype Purpose = Purpose(tag: nat)

  /** A source is the path of its components. */
  type Source = seq<Data>

  datatype Item = Item(parent: nat, name: Data, kind: Kind, size: nat, version: Data)

  datatype Node = Node(item: Item, source: Source, access: nat, selection: nat, published: bool, purposes: set<Purpose>)

  type Nodes = map<nat, Node>

  // ---- Well-formedness ----

  /** A node hangs under the root or under an older node, and shares its top ancestor. */
  predicate NodeOk(nodes: Nodes, nextID: nat, id: nat)
    requires id in nodes
  {
    var n := nodes[id];
    && FIRST <= id < nextID
    && (if n.item.parent == ROOT then n.selection == id
        else FIRST <= n.item.parent < id && n.item.parent in nodes
             && nodes[n.item.parent].selection == n.selection && nodes[n.item.parent].access == n.access)
  }

  predicate NamesDiffer(nodes: Nodes, a: nat, b: nat)
    requires a in nodes && b in nodes
  {
    a != b && nodes[a].item.parent == nodes[b].item.parent ==> nodes[a].item.name != nodes[b].item.name
  }

  ghost predicate TreeOk(nodes: Nodes, nextID: nat) {
    && nextID >= FIRST
    && (forall id <- nodes :: NodeOk(nodes, nextID, id))
    && (forall a <- nodes, b <- nodes :: NamesDiffer(nodes, a, b))
  }

  // ---- Subtrees ----

  /** `x` is `top` or hangs below it. */
  predicate InSubtree(nodes: Nodes, x: nat, top: nat)
    decreases x
  {
    x in nodes
    && (x == top || (FIRST <= nodes[x].item.parent < x && InSubtree(nodes, nodes[x].item.parent, top)))
  }

  function WithoutTree(nodes: Nodes, top: nat): Nodes {
    map x | x in nodes && !InSubtree(nodes, x, top) :: nodes[x]
  }

  function WithoutChildren(nodes: Nodes, top: nat): Nodes {
    map x | x in nodes && (x == top || !InSubtree(nodes, x, top)) :: nodes[x]
  }

  predicate IsPart(part: Nodes, nodes: Nodes) {
    forall x <- part :: x in nodes && part[x] == nodes[x]
  }

  /** A part that keeps the parents of what it keeps. */
  predicate IsUpward(part: Nodes, nodes: Nodes) {
    IsPart(part, nodes) && forall x <- part :: part[x].item.parent in nodes ==> part[x].item.parent in part
  }

  lemma UpwardOk(part: Nodes, nodes: Nodes, nextID: nat)
    requires TreeOk(nodes, nextID) && IsUpward(part, nodes)
    ensures TreeOk(part, nextID)
  {
    forall id <- part ensures NodeOk(part, nextID, id) { assert NodeOk(nodes, nextID, id); }
    forall a <- part, b <- part ensures NamesDiffer(part, a, b) { assert NamesDiffer(nodes, a, b); }
  }

  lemma {:induction false} UpwardSubtree(part: Nodes, nodes: Nodes, x: nat, top: nat)
    requires IsUpward(part, nodes) && x in part
    ensures InSubtree(part, x, top) <==> InSubtree(nodes, x, top)
    decreases x
  {
    var p := part[x].item.parent;
    if FIRST <= p < x {
      if p in part {
        UpwardSubtree(part, nodes, p, top);
      }
    }
  }

  lemma WithoutTreeUpward(nodes: Nodes, nextID: nat, top: nat)
    requires TreeOk(nodes, nextID)
    ensures IsUpward(WithoutTree(nodes, top), nodes) && IsUpward(WithoutChildren(nodes, top), nodes)
  {
    forall x <- nodes | nodes[x].item.parent in nodes && InSubtree(nodes, nodes[x].item.parent, top)
      ensures InSubtree(nodes, x, top) && x != top
    {
      assert NodeOk(nodes, nextID, x) && NodeOk(nodes, nextID, nodes[x].item.parent);
      SubtreeIsLater(nodes, nodes[x].item.parent, top);
    }
  }

  lemma {:induction false} SubtreeIsLater(nodes: Nodes, x: nat, top: nat)
    requires InSubtree(nodes, x, top)
    ensures top <= x && top in nodes
    decreases x
  {
    if x != top { SubtreeIsLater(nodes, nodes[x].item.parent, top); }
  }

  lemma WithoutTreeOk(nodes: Nodes, nextID: nat, top: nat)
    requires TreeOk(nodes, nextID)
    ensures TreeOk(WithoutTree(nodes, top), nextID) && TreeOk(WithoutChildren(nodes, top), nextID)
    ensures top !in WithoutTree(nodes, top)
  {
    WithoutTreeUpward(nodes, nextID, top);
    UpwardOk(WithoutTree(nodes, top), nodes, nextID);
    UpwardOk(WithoutChildren(nodes, top), nodes, nextID);
  }

  /** The subtree of a root is exactly what was selected with it. */
  lemma {:induction false} SubtreeIsSelection(nodes: Nodes, nextID: nat, x: nat, top: nat)
    requires TreeOk(nodes, nextID) && x in nodes && top in nodes && nodes[top].item.parent == ROOT
    ensures InSubtree(nodes, x, top) <==> nodes[x].selection == top
    decreases x
  {
    assert NodeOk(nodes, nextID, x) && NodeOk(nodes, nextID, top);
    if nodes[x].item.parent != ROOT { SubtreeIsSelection(nodes, nextID, nodes[x].item.parent, top); }
  }

  /** Every node's selection is a root of the catalog. */
  lemma {:induction false} SelectionIsRoot(nodes: Nodes, nextID: nat, x: nat)
    requires TreeOk(nodes, nextID) && x in nodes
    ensures nodes[x].selection in nodes && nodes[nodes[x].selection].item.parent == ROOT
    ensures nodes[nodes[x].selection].selection == nodes[x].selection
    decreases x
  {
    assert NodeOk(nodes, nextID, x);
    if nodes[x].item.parent != ROOT { SelectionIsRoot(nodes, nextID, nodes[x].item.parent); }
  }

  // ---- Removing children one after another ----

  function ChildrenOf(nodes: Nodes, id: nat): set<nat> { set x | x in nodes && nodes[x].item.parent == id }

  predicate Pruned(nodes: Nodes, x: nat, done: set<nat>) { exists k <- done :: InSubtree(nodes, x, k) }

  function Pruning(nodes: Nodes, done: set<nat>): Nodes {
    map x | x in nodes && !Pruned(nodes, x, done) :: nodes[x]
  }

  lemma PruningUpward(nodes: Nodes, nextID: nat, done: set<nat>)
    requires TreeOk(nodes, nextID)
    ensures IsUpward(Pruning(nodes, done), nodes)
  {
    forall x <- nodes, k <- done | nodes[x].item.parent in nodes && InSubtree(nodes, nodes[x].item.parent, k)
      ensures InSubtree(nodes, x, k)
    {
      assert NodeOk(nodes, nextID, x) && NodeOk(nodes, nextID, nodes[x].item.parent);
    }
  }

  lemma PruneNext(nodes: Nodes, nextID: nat, done: set<nat>, kid: nat)
    requires TreeOk(nodes, nextID)
    ensures WithoutTree(Pruning(nodes, done), kid) == Pruning(nodes, done + {kid})
  {
    var part := Pruning(nodes, done);
    PruningUpward(nodes, nextID, done);
    forall x <- part ensures InSubtree(part, x, kid) <==> InSubtree(nodes, x, kid) { UpwardSubtree(part, nodes, x, kid); }
    forall x <- nodes ensures Pruned(nodes, x, done + {kid}) <==> Pruned(nodes, x, done) || InSubtree(nodes, x, kid) {
      if InSubtree(nodes, x, kid) { assert kid in done + {kid}; }
      if Pruned(nodes, x, done) {
        var k :| k in done && InSubtree(nodes, x, k);
        assert k in done + {kid};
      }
    }
  }

  lemma {:induction false} BelowAChild(nodes: Nodes, nextID: nat, x: nat, k: nat, top: nat)
    requires TreeOk(nodes, nextID) && FIRST <= top && k in ChildrenOf(nodes, top) && InSubtree(nodes, x, k)
    ensures InSubtree(nodes, x, top) && x != top
    decreases x
  {
    assert NodeOk(nodes, nextID, x) && NodeOk(nodes, nextID, k);
    if x != k {
      BelowAChild(nodes, nextID, nodes[x].item.parent, k, top);
      SubtreeIsLater(nodes, x, k);
    }
  }

  lemma {:induction false} HasAChild(nodes: Nodes, x: nat, top: nat) returns (k: nat)
    requires InSubtree(nodes, x, top) && x != top
    ensures k in ChildrenOf(nodes, top) && InSubtree(nodes, x, k)
    decreases x
  {
    if nodes[x].item.parent == top { return x; }
    k := HasAChild(nodes, nodes[x].item.parent, top);
  }

  lemma PrunedAll(nodes: Nodes, nextID: nat, top: nat)
    requires TreeOk(nodes, nextID) && FIRST <= top
    ensures Pruning(nodes, ChildrenOf(nodes, top)) == WithoutChildren(nodes, top)
  {
    forall x <- nodes ensures Pruned(nodes, x, ChildrenOf(nodes, top)) <==> InSubtree(nodes, x, top) && x != top {
      if Pruned(nodes, x, ChildrenOf(nodes, top)) {
        var k :| k in ChildrenOf(nodes, top) && InSubtree(nodes, x, k);
        BelowAChild(nodes, nextID, x, k, top);
      }
      if InSubtree(nodes, x, top) && x != top { var k := HasAChild(nodes, x, top); }
    }
  }
}
