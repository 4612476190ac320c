/** Each section of the broker keeps the catalog sound and gives no identifier out twice. */
module BrokerSteps {
  import opened Bytes
  import opened Wrappers
  import opened SharedNames
  import opened SharedTree
  import opened BrokerState
  import opened BrokerInvariant

  // ---- Sharing ends ----

  /** The same nodes, shared differently. */
  ghost predicate Relabels(nodes: Nodes, nodes': Nodes) {
    nodes.Keys == nodes'.Keys && forall id <- nodes :: Same(nodes'[id], nodes[id])
  }

  lemma RelabelsOk(nodes: Nodes, nodes': Nodes, nextID: nat)
    requires NodesOk(nodes, nextID) && Relabels(nodes, nodes')
    ensures NodesOk(nodes', nextID) && Evolves(nodes, nextID, nodes', nextID)
  {
    forall x <- nodes' ensures NodeOk(nodes', nextID, x) { assert NodeOk(nodes, nextID, x); }
    forall a <- nodes', b <- nodes' ensures NamesDiffer(nodes', a, b) && SourcesDiffer(nodes', a, b) {
      assert NamesDiffer(nodes, a, b) && SourcesDiffer(nodes, a, b);
    }
  }

  lemma GrantOk(b: Broker, ids: seq<nat>, p: Purpose)
    requires BrokerOk(b) && !b.stopped
    ensures BrokerOk(b.(nodes := Grant(b.nodes, ids, p)))
    ensures Evolves(b.nodes, b.nextID, Grant(b.nodes, ids, p), b.nextID)
  {
    var nodes := Grant(b.nodes, ids, p);
    assert nodes.Keys == b.nodes.Keys;
    RelabelsOk(b.nodes, nodes, b.nextID);
    forall id <- b.pending ensures PendingOk(nodes, b.pending, id) { assert PendingOk(b.nodes, b.pending, id); }
  }

  lemma WithoutRoot(b: Broker, id: nat)
    requires NodesOk(b.nodes, b.nextID) && id in b.nodes && b.nodes[id].item.parent == ROOT
    ensures var nodes := WithoutTree(b.nodes, id);
            && NodesOk(nodes, b.nextID) && Evolves(b.nodes, b.nextID, nodes, b.nextID)
            && (forall x <- b.nodes :: b.nodes[x].item.parent == ROOT ==> (x in nodes <==> x != id))
  {
    WithoutTreeUpward(b.nodes, b.nextID, id);
    PartOk(WithoutTree(b.nodes, id), b.nodes, b.nextID);
    forall x <- b.nodes | b.nodes[x].item.parent == ROOT ensures InSubtree(b.nodes, x, id) <==> x == id {
      RootHasNoAncestor(b.nodes, x, id);
    }
  }

  /** Shares may change while something still holds the root. */
  lemma StillHeld(b: Broker, id: nat, shares: map<nat, Purpose>)
    requires BrokerOk(b) && id in b.pending && (shares != map[] || b.nodes[id].purposes != {})
    ensures BrokerOk(WithShares(b, id, shares))
  {
    var c := WithShares(b, id, shares);
    assert PendingOk(b.nodes, b.pending, id);
    forall x <- c.pending ensures PendingOk(c.nodes, c.pending, x) { if x != id { assert PendingOk(b.nodes, b.pending, x); } }
    forall x <- c.nodes | c.nodes[x].item.parent == ROOT ensures RootHeld(c.nodes[x], c.pending, x) {
      assert RootHeld(b.nodes[x], b.pending, x);
    }
  }

  lemma NoLongerHeld(b: Broker, id: nat)
    requires BrokerOk(b) && id in b.pending && b.nodes[id].purposes == {}
    ensures var c := Settle(WithShares(b, id, map[]), id);
            BrokerOk(c) && Evolves(b.nodes, b.nextID, c.nodes, c.nextID)
  {
    var c := Settle(WithShares(b, id, map[]), id);
    assert PendingOk(b.nodes, b.pending, id);
    WithoutRoot(b, id);
    forall x <- c.pending ensures PendingOk(c.nodes, c.pending, x) { assert PendingOk(b.nodes, b.pending, x); }
    forall x <- c.nodes | c.nodes[x].item.parent == ROOT ensures RootHeld(c.nodes[x], c.pending, x) {
      assert RootHeld(b.nodes[x], b.pending, x);
    }
  }

  lemma ReleaseOk(b: Broker, id: nat, publication: nat)
    requires BrokerOk(b) && (id in b.nodes ==> b.nodes[id].item.parent == ROOT)
    ensures var c := Release(b, id, publication);
            && BrokerOk(c) && Evolves(b.nodes, b.nextID, c.nodes, c.nextID)
            && c == b.(nodes := c.nodes, pending := c.pending)
  {
    if id in b.pending {
      assert PendingOk(b.nodes, b.pending, id);
      var shares := b.pending[id] - {publication};
      if shares != map[] || b.nodes[id].purposes != {} { StillHeld(b, id, shares); } else { NoLongerHeld(b, id); }
    } else if id in b.nodes {
      assert RootHeld(b.nodes[id], b.pending, id);
    }
  }

  ghost predicate AreRoots(nodes: Nodes, nextID: nat, ids: seq<nat>) {
    forall id <- ids :: id < nextID && (id in nodes ==> nodes[id].item.parent == ROOT)
  }

  lemma RootsStayRoots(nodes: Nodes, nextID: nat, nodes': Nodes, nextID': nat, ids: seq<nat>)
    requires AreRoots(nodes, nextID, ids) && Evolves(nodes, nextID, nodes', nextID')
    ensures AreRoots(nodes', nextID', ids)
  {
  }

  lemma {:induction false} ReleaseAllOk(b: Broker, ids: seq<nat>, publication: nat)
    requires BrokerOk(b) && AreRoots(b.nodes, b.nextID, ids)
    ensures var c := ReleaseAll(b, ids, publication);
            && BrokerOk(c) && Evolves(b.nodes, b.nextID, c.nodes, c.nextID)
            && c == b.(nodes := c.nodes, pending := c.pending)
    decreases |ids|
  {
    if ids != [] {
      var front, last := ids[..|ids| - 1], ids[|ids| - 1];
      ReleaseAllOk(b, front, publication);
      var before := ReleaseAll(b, front, publication);
      RootsStayRoots(b.nodes, b.nextID, before.nodes, before.nextID, ids);
      ReleaseOk(before, last, publication);
      var c := Release(before, last, publication);
      EvolvesFurther(b.nodes, b.nextID, before.nodes, before.nextID, c.nodes, c.nextID);
    }
  }

  // ---- Which roots a share takes along when it ends ----

  /** Nobody but this publication, if even that, shares the root. */
  predicate SharedOnlyBy(b: Broker, root: nat, publication: nat)
    requires root in b.nodes
  {
    b.nodes[root].purposes == {} && Shares(b, root).Keys <= {publication}
  }

  lemma ReleaseBeside(b: Broker, id: nat, publication: nat, root: nat)
    requires root in b.nodes && b.nodes[root].item.parent == ROOT && root != id
    ensures var c := Release(b, id, publication);
            root in c.nodes && c.nodes[root] == b.nodes[root] && Shares(c, root) == Shares(b, root)
  {
    assert !InSubtree(b.nodes, root, id);
  }

  lemma ReleaseItself(b: Broker, root: nat, publication: nat)
    requires BrokerOk(b) && root in b.nodes && b.nodes[root].item.parent == ROOT
    ensures var c := Release(b, root, publication);
            if SharedOnlyBy(b, root, publication) then root !in c.nodes
            else root in c.nodes && c.nodes[root] == b.nodes[root] && Shares(c, root) == Shares(b, root) - {publication}
  {
    assert RootHeld(b.nodes[root], b.pending, root);
    var left := Shares(b, root) - {publication};
    assert left == map[] <==> Shares(b, root).Keys <= {publication} by {
      if left == map[] { assert forall k <- Shares(b, root) :: k !in left; }
    }
  }

  /** What became of a root, of which the publication was released or not yet. */
  predicate Loosened(b: Broker, c: Broker, root: nat, publication: nat, released: bool)
    requires root in b.nodes
  {
    if released && SharedOnlyBy(b, root, publication) then root !in c.nodes
    else
      && root in c.nodes && c.nodes[root] == b.nodes[root]
      && Shares(c, root) == if released then Shares(b, root) - {publication} else Shares(b, root)
  }

  lemma ReleasedAgain(b: Broker, c: Broker, root: nat, publication: nat)
    requires root in b.nodes && root in c.nodes && Loosened(b, c, root, publication, true)
    ensures !SharedOnlyBy(c, root, publication) && Shares(c, root) - {publication} == Shares(b, root) - {publication}
  {
    if b.nodes[root].purposes == {} {
      var k :| k in Shares(b, root) && k != publication;
      assert k in Shares(c, root);
    }
  }

  lemma ReleasedNext(b: Broker, c: Broker, id: nat, root: nat, publication: nat, released: bool)
    requires root in b.nodes && b.nodes[root].item.parent == ROOT && Loosened(b, c, root, publication, released)
    requires BrokerOk(c)
    ensures Loosened(b, Release(c, id, publication), root, publication, released || id == root)
  {
    if root in c.nodes {
      if root == id {
        ReleaseItself(c, root, publication);
        if released { ReleasedAgain(b, c, root, publication); }
      } else {
        ReleaseBeside(c, id, publication, root);
      }
    } else {
      assert root !in Release(c, id, publication).nodes;
    }
  }

  /** When a publication is released a root goes if and only if it is one of its roots and
      nobody else shares it. */
  lemma {:induction false} ReleasedExactly(b: Broker, ids: seq<nat>, publication: nat, root: nat)
    requires BrokerOk(b) && AreRoots(b.nodes, b.nextID, ids) && root in b.nodes && b.nodes[root].item.parent == ROOT
    ensures Loosened(b, ReleaseAll(b, ids, publication), root, publication, root in ids)
    decreases |ids|
  {
    if ids != [] {
      var front, last := ids[..|ids| - 1], ids[|ids| - 1];
      ReleasedExactly(b, front, publication, root);
      ReleaseAllOk(b, front, publication);
      ReleasedNext(b, ReleaseAll(b, front, publication), last, root, publication, root in front);
      assert root in ids <==> root in front || last == root;
    }
  }

  lemma ResumeMountOk(b: Broker, op: Op, mounted: bool)
    requires BrokerOk(b) && op.Mounting? && AreRoots(b.nodes, b.nextID, op.ids)
    ensures var c := ResumeMount(b, op, mounted).0;
            && BrokerOk(c) && Evolves(b.nodes, b.nextID, c.nodes, c.nextID)
            && c == b.(nodes := c.nodes, pending := c.pending)
  {
    ReleaseAllOk(b, op.ids, op.publication);
    if !b.stopped {
      var granted := b.(nodes := Grant(b.nodes, op.ids, op.purpose));
      GrantOk(b, op.ids, op.purpose);
      RootsStayRoots(b.nodes, b.nextID, granted.nodes, b.nextID, op.ids);
      ReleaseAllOk(granted, op.ids, op.publication);
      var c := ReleaseAll(granted, op.ids, op.publication);
      EvolvesFurther(b.nodes, b.nextID, granted.nodes, b.nextID, c.nodes, c.nextID);
    }
  }

  // ---- Revoking ----

  lemma RevokeNodes(b: Broker, p: Purpose)
    requires BrokerOk(b)
    ensures NodesOk(Revoke(b, p).nodes, b.nextID) && Evolves(b.nodes, b.nextID, Revoke(b, p).nodes, b.nextID)
  {
    var part: Nodes := map x | x in b.nodes && !Loses(b, b.nodes[x].selection, p) :: b.nodes[x];
    forall x <- part | part[x].item.parent in b.nodes ensures part[x].item.parent in part {
      assert NodeOk(b.nodes, b.nextID, x) && NodeOk(b.nodes, b.nextID, part[x].item.parent);
    }
    PartOk(part, b.nodes, b.nextID);
    var after := Revoke(b, p).nodes;
    assert after.Keys == part.Keys;
    RelabelsOk(part, after, b.nextID);
  }

  lemma RevokedRoot(b: Broker, p: Purpose, id: nat)
    requires BrokerOk(b) && id in Revoke(b, p).nodes && b.nodes[id].item.parent == ROOT
    ensures RootHeld(Revoke(b, p).nodes[id], Revoke(b, p).pending, id)
  {
    assert NodeOk(b.nodes, b.nextID, id) && RootHeld(b.nodes[id], b.pending, id);
    if id in b.pending {
      assert PendingOk(b.nodes, b.pending, id);
      if !Holds(b, id, p) { assert WithoutPurpose(b.pending[id], p) == b.pending[id]; }
    } else {
      assert Shares(b, id) == map[] && WithoutPurpose(Shares(b, id), p) == map[];
    }
  }

  lemma RevokedPending(b: Broker, p: Purpose, id: nat)
    requires BrokerOk(b) && id in Revoke(b, p).pending
    ensures PendingOk(Revoke(b, p).nodes, Revoke(b, p).pending, id)
  {
    assert PendingOk(b.nodes, b.pending, id) && NodeOk(b.nodes, b.nextID, id);
  }

  lemma RevokeOk(b: Broker, p: Purpose)
    requires BrokerOk(b)
    ensures BrokerOk(Revoke(b, p)) && Evolves(b.nodes, b.nextID, Revoke(b, p).nodes, b.nextID)
  {
    RevokeNodes(b, p);
    var c := Revoke(b, p);
    forall id <- c.nodes | c.nodes[id].item.parent == ROOT ensures RootHeld(c.nodes[id], c.pending, id) { RevokedRoot(b, p, id); }
    forall id <- c.pending ensures PendingOk(c.nodes, c.pending, id) { RevokedPending(b, p, id); }
  }

  lemma RevokeAllOk(b: Broker)
    requires NodesOk(b.nodes, b.nextID)
    ensures BrokerOk(RevokeAll(b)) && Evolves(b.nodes, b.nextID, RevokeAll(b).nodes, b.nextID)
  {
  }

  // ---- Looking ----

  lemma RefreshedOk(b: Broker, id: nat, node: Node, info: Info)
    requires BrokerOk(b) && id in b.nodes && Same(b.nodes[id], node)
    ensures var nodes := Refreshed(b.nodes, id, node, info);
            BrokerOk(b.(nodes := nodes)) && Evolves(b.nodes, b.nextID, nodes, b.nextID)
  {
    var changed := node.item.kind.Directory? && (node.item.version != info.version || !info.kind.Directory?);
    var c := b.(nodes := if changed then WithoutChildren(b.nodes, id) else b.nodes);
    var item := ItemOf(info, node.item.parent, node.item.name);
    WithoutChildrenOk(b.nodes, b.nextID, id);
    if changed { RootsKept(b, c.nodes, b.nextID); }
    RenewedOk(c, id, item);
    EvolvesFurther(b.nodes, b.nextID, c.nodes, b.nextID, WithItem(c.nodes, id, item), b.nextID);
  }

  /** A node takes new metadata under its old name. */
  lemma RenewedOk(b: Broker, id: nat, item: Item)
    requires BrokerOk(b) && id in b.nodes
    requires item.parent == b.nodes[id].item.parent && item.name == b.nodes[id].item.name
    ensures var nodes := WithItem(b.nodes, id, item);
            BrokerOk(b.(nodes := nodes)) && Evolves(b.nodes, b.nextID, nodes, b.nextID)
  {
    ItemOk(b.nodes, b.nextID, id, item);
    RootsKept(b, WithItem(b.nodes, id, item), b.nextID);
  }

  lemma ResumeRefreshOk(b: Broker, op: Op, info: Info)
    requires BrokerOk(b) && op.Refreshing? && (op.id in b.nodes ==> Same(b.nodes[op.id], op.node))
    ensures var c := ResumeRefresh(b, op, info).0;
            && BrokerOk(c) && Evolves(b.nodes, b.nextID, c.nodes, c.nextID) && c == b.(nodes := c.nodes)
  {
    if op.id in b.nodes { RefreshedOk(b, op.id, op.node, info); }
  }

  /** The listed node stays what it was while its children are taken in. */
  ghost predicate StillThere(b: Broker, id: nat, node: Node) {
    BrokerOk(b) && !b.stopped && id in b.nodes && Same(b.nodes[id], node)
  }

  lemma NewRoots(nodes: Nodes, id: nat, n: Node)
    requires n.item.parent != ROOT && (id in nodes ==> nodes[id].item.parent != ROOT)
    ensures KeepsRoots(nodes, nodes[id := n])
  {
  }

  lemma AdoptAgainOk(b: Broker, id: nat, node: Node, info: Info, child: nat)
    requires StillThere(b, id, node) && IsFor(b.nodes, child, id, node.access, info.source)
    ensures var c := AdoptAgain(b, id, node, info, child);
            StillThere(c, id, node) && Evolves(b.nodes, b.nextID, c.nodes, c.nextID)
  {
    var existing := b.nodes[child].item;
    var changed := existing.kind.Directory? && (existing.version != info.version || !info.kind.Directory?);
    var nodes := if changed then WithoutChildren(b.nodes, child) else b.nodes;
    var n := Child(id, node, info, existing.name);
    WithoutChildrenOk(b.nodes, b.nextID, child);
    assert NodeOk(b.nodes, b.nextID, child) && NodeOk(b.nodes, b.nextID, id);
    if InSubtree(b.nodes, id, child) { SubtreeIsLater(b.nodes, id, child); }
    UpdatedOk(nodes, b.nextID, child, n);
    NewRoots(nodes, child, n);
    if changed { RootsKept(b, nodes, b.nextID); }
    RootsKept(b.(nodes := nodes), nodes[child := n], b.nextID);
    EvolvesFurther(b.nodes, b.nextID, nodes, b.nextID, nodes[child := n], b.nextID);
  }

  lemma AddedChildOk(b: Broker, id: nat, node: Node, n: Node)
    requires StillThere(b, id, node) && n.item.parent == id && PlaceOk(b.nodes, b.nextID, n) && NameFits(n.item.name, b.nextID)
    requires forall x <- b.nodes :: b.nodes[x].item.parent == id ==> b.nodes[x].item.name != n.item.name
    requires forall x: nat :: !IsFor(b.nodes, x, id, n.access, n.source)
    ensures var c := b.(nodes := b.nodes[b.nextID := n], nextID := b.nextID + 1);
            StillThere(c, id, node) && Evolves(b.nodes, b.nextID, c.nodes, c.nextID)
  {
    assert NodeOk(b.nodes, b.nextID, id);
    AddedOk(b.nodes, b.nextID, n);
    NewRoots(b.nodes, b.nextID, n);
    RootsKept(b, b.nodes[b.nextID := n], b.nextID + 1);
  }

  lemma AdoptNewOk(b: Broker, id: nat, node: Node, info: Info)
    requires StillThere(b, id, node) && Find(b.nodes, id, node.access, info.source).None?
    ensures var c := AdoptNew(b, id, node, info);
            StillThere(c, id, node) && Evolves(b.nodes, b.nextID, c.nodes, c.nextID)
  {
    var n := Child(id, node, info, UniqueName(UsedNames(b.nodes, id), info.offered));
    assert NodeOk(b.nodes, b.nextID, id);
    AddedName(b.nodes, b.nextID, id, info.offered);
    AddedChildOk(b, id, node, n);
    assert AdoptNew(b, id, node, info) == b.(nodes := b.nodes[b.nextID := n], nextID := b.nextID + 1);
  }

  lemma AdoptOk(b: Broker, id: nat, node: Node, info: Info)
    requires StillThere(b, id, node)
    ensures var c := Adopt(b, id, node, info).0;
            && StillThere(c, id, node) && Evolves(b.nodes, b.nextID, c.nodes, c.nextID)
            && c == b.(nodes := c.nodes, nextID := c.nextID)
  {
    match Find(b.nodes, id, node.access, info.source)
    case Some(child) => AdoptAgainOk(b, id, node, info, child);
    case None => AdoptNewOk(b, id, node, info);
  }

  lemma {:induction false} AdoptAllOk(b: Broker, id: nat, node: Node, infos: seq<Info>)
    requires StillThere(b, id, node)
    ensures var c := AdoptAll(b, id, node, infos).0;
            && StillThere(c, id, node) && Evolves(b.nodes, b.nextID, c.nodes, c.nextID)
            && c == b.(nodes := c.nodes, nextID := c.nextID)
    decreases |infos|
  {
    if infos != [] {
      var front, last := infos[..|infos| - 1], infos[|infos| - 1];
      AdoptAllOk(b, id, node, front);
      var before := AdoptAll(b, id, node, front).0;
      AdoptOk(before, id, node, last);
      var c := Adopt(before, id, node, last).0;
      EvolvesFurther(b.nodes, b.nextID, before.nodes, before.nextID, c.nodes, c.nextID);
    }
  }

  lemma MissingGone(b: Broker, id: nat, present: seq<nat>)
    requires BrokerOk(b) && !b.stopped && FIRST <= id
    ensures var nodes := Pruning(b.nodes, Missing(b.nodes, id, present));
            BrokerOk(b.(nodes := nodes)) && Evolves(b.nodes, b.nextID, nodes, b.nextID)
  {
    var missing := Missing(b.nodes, id, present);
    var nodes := Pruning(b.nodes, missing);
    PruningUpward(b.nodes, b.nextID, missing);
    PartOk(nodes, b.nodes, b.nextID);
    forall x <- b.nodes | b.nodes[x].item.parent == ROOT ensures KeepsRoot(b.nodes, nodes, x) {
      forall k <- missing ensures !InSubtree(b.nodes, x, k) { RootHasNoAncestor(b.nodes, x, k); }
    }
    RootsKept(b, nodes, b.nextID);
  }

  lemma ResumeListOk(b: Broker, op: Op, infos: seq<Info>)
    requires BrokerOk(b) && op.Listing? && (op.id in b.nodes ==> Same(b.nodes[op.id], op.node))
    ensures var c := ResumeList(b, op, infos).0;
            && BrokerOk(c) && Evolves(b.nodes, b.nextID, c.nodes, c.nextID)
            && c == b.(nodes := c.nodes, nextID := c.nextID)
  {
    if b.generation == op.token && op.id in b.nodes && !b.stopped && Fault(op.node.source, Listed(infos)).None? {
      AdoptAllOk(b, op.id, op.node, Listed(infos));
      var (c, children) := AdoptAll(b, op.id, op.node, Listed(infos));
      assert NodeOk(b.nodes, b.nextID, op.id);
      MissingGone(c, op.id, children);
      EvolvesFurther(b.nodes, b.nextID, c.nodes, c.nextID, Pruning(c.nodes, Missing(c.nodes, op.id, children)), c.nextID);
    }
  }
}
