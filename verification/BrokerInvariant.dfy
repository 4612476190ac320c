/** What every section of the broker keeps. */
module BrokerInvariant {
  import opened Bytes
  import opened Wrappers
  import opened SharedNames
  import opened SharedTree
  import opened BrokerState

  // ---- Nodes ----

  predicate SourcesDiffer(nodes: Nodes, a: nat, b: nat)
    requires a in nodes && b in nodes
  {
    a != b && nodes[a].item.parent == nodes[b].item.parent && nodes[a].access == nodes[b].access ==>
      nodes[a].source != nodes[b].source
  }

  /** Numbering a name takes at most twelve digits as long as fewer identifiers were issued. */
  predicate NameFits(name: Data, nextID: nat) { nextID + 2 < Power(12) ==> |name| <= MAXIMUM_NAME }

  ghost predicate NodesOk(nodes: Nodes, nextID: nat) {
    && TreeOk(nodes, nextID)
    && (forall a <- nodes, b <- nodes :: SourcesDiffer(nodes, a, b))
    && (forall id <- nodes :: NameFits(nodes[id].item.name, nextID))
  }

  /** What an identifier stands for never changes. */
  predicate Same(n: Node, m: Node) {
    && n.item.parent == m.item.parent && n.item.name == m.item.name
    && n.source == m.source && n.access == m.access && n.selection == m.selection
  }

  /** Identifiers once given out are never given out again. */
  ghost predicate Evolves(nodes: Nodes, nextID: nat, nodes': Nodes, nextID': nat) {
    && nextID <= nextID'
    && forall id <- nodes' :: id < nextID ==> id in nodes && Same(nodes'[id], nodes[id])
  }

  lemma EvolvesFurther(n0: Nodes, i0: nat, n1: Nodes, i1: nat, n2: Nodes, i2: nat)
    requires Evolves(n0, i0, n1, i1) && Evolves(n1, i1, n2, i2)
    ensures Evolves(n0, i0, n2, i2)
  {
  }

  lemma PartOk(part: Nodes, nodes: Nodes, nextID: nat)
    requires NodesOk(nodes, nextID) && IsUpward(part, nodes)
    ensures NodesOk(part, nextID) && Evolves(nodes, nextID, part, nextID)
  {
    UpwardOk(part, nodes, nextID);
    forall a <- part, b <- part ensures SourcesDiffer(part, a, b) { assert SourcesDiffer(nodes, a, b); }
  }

  lemma UpdatedOk(nodes: Nodes, nextID: nat, id: nat, n: Node)
    requires NodesOk(nodes, nextID) && id in nodes && Same(n, nodes[id])
    ensures NodesOk(nodes[id := n], nextID) && Evolves(nodes, nextID, nodes[id := n], nextID)
  {
    var after := nodes[id := n];
    forall x <- after ensures NodeOk(after, nextID, x) { assert NodeOk(nodes, nextID, x); }
    forall a <- after, b <- after ensures NamesDiffer(after, a, b) && SourcesDiffer(after, a, b) {
      assert NamesDiffer(nodes, a, b) && SourcesDiffer(nodes, a, b);
    }
  }

  /** Where a new node may hang. */
  predicate PlaceOk(nodes: Nodes, nextID: nat, n: Node) {
    if n.item.parent == ROOT then n.selection == nextID
    else FIRST <= n.item.parent && n.item.parent in nodes
         && nodes[n.item.parent].selection == n.selection && nodes[n.item.parent].access == n.access
  }

  lemma {:induction false} UsedFewer(nodes: Nodes, nextID: nat, parent: nat)
    requires forall id <- nodes :: id < nextID
    ensures |UsedNames(nodes, parent)| <= nextID
    decreases nextID
  {
    if nextID == 0 {
      assert UsedNames(nodes, parent) == {};
    } else {
      var rest := nodes - {nextID - 1};
      UsedFewer(rest, nextID - 1, parent);
      if nextID - 1 in nodes {
        var last := nodes[nextID - 1].item.name;
        forall name <- UsedNames(nodes, parent) ensures name in UsedNames(rest, parent) + {last} {
          var id :| id in nodes && nodes[id].item.parent == parent && nodes[id].item.name == name;
          if id != nextID - 1 { assert id in rest; }
        }
        UsedGrows(UsedNames(nodes, parent), UsedNames(rest, parent), last);
      } else {
        assert rest == nodes;
      }
    }
  }

  lemma UsedGrows(all: set<Data>, some: set<Data>, name: Data)
    requires all <= some + {name}
    ensures |all| <= |some| + 1
  {
    assert some + {name} == all + ((some + {name}) - all);
  }

  lemma AddedName(nodes: Nodes, nextID: nat, parent: nat, offered: Offered)
    requires NodesOk(nodes, nextID)
    ensures var name := UniqueName(UsedNames(nodes, parent), offered);
            NameFits(name, nextID) && forall id <- nodes :: nodes[id].item.parent == parent ==> nodes[id].item.name != name
  {
    UniqueNameIsFree(UsedNames(nodes, parent), offered);
    forall id <- nodes ensures id < nextID { assert NodeOk(nodes, nextID, id); }
    UsedFewer(nodes, nextID, parent);
  }

  lemma AddedOk(nodes: Nodes, nextID: nat, n: Node)
    requires NodesOk(nodes, nextID) && PlaceOk(nodes, nextID, n) && NameFits(n.item.name, nextID)
    requires forall id <- nodes :: nodes[id].item.parent == n.item.parent ==> nodes[id].item.name != n.item.name
    requires forall id: nat :: !IsFor(nodes, id, n.item.parent, n.access, n.source)
    ensures nextID !in nodes
    ensures NodesOk(nodes[nextID := n], nextID + 1) && Evolves(nodes, nextID, nodes[nextID := n], nextID + 1)
  {
    var after := nodes[nextID := n];
    forall x <- nodes ensures x < nextID && nodes[x].item.parent < nextID { assert NodeOk(nodes, nextID, x); }
    forall x <- after ensures NodeOk(after, nextID + 1, x) { if x != nextID { assert NodeOk(nodes, nextID, x); } }
    forall a <- after, b <- after ensures NamesDiffer(after, a, b) && SourcesDiffer(after, a, b) {
      if a != nextID && b != nextID {
        assert NamesDiffer(nodes, a, b) && SourcesDiffer(nodes, a, b);
      } else {
        assert a in nodes ==> !IsFor(nodes, a, n.item.parent, n.access, n.source);
        assert b in nodes ==> !IsFor(nodes, b, n.item.parent, n.access, n.source);
      }
    }
  }

  // ---- Roots and what holds them ----

  predicate RootHeld(n: Node, pending: map<nat, map<nat, Purpose>>, id: nat) {
    (n.purposes != {} ==> n.published) && (n.purposes != {} || id in pending)
  }

  predicate PendingOk(nodes: Nodes, pending: map<nat, map<nat, Purpose>>, id: nat)
    requires id in pending
  {
    id in nodes && nodes[id].item.parent == ROOT && pending[id] != map[]
  }

  ghost predicate BrokerOk(b: Broker) {
    && NodesOk(b.nodes, b.nextID)
    && (forall id <- b.nodes :: b.nodes[id].item.parent == ROOT ==> RootHeld(b.nodes[id], b.pending, id))
    && (forall id <- b.pending :: PendingOk(b.nodes, b.pending, id))
    && (b.stopped ==> b.nodes == map[])
  }

  /** The roots stay, with whom they are shared. */
  ghost predicate KeepsRoots(nodes: Nodes, nodes': Nodes) {
    && (forall id <- nodes :: nodes[id].item.parent == ROOT ==> KeepsRoot(nodes, nodes', id))
    && (forall id <- nodes' :: nodes'[id].item.parent == ROOT ==> id in nodes && nodes[id].item.parent == ROOT)
  }

  predicate KeepsRoot(nodes: Nodes, nodes': Nodes, id: nat)
    requires id in nodes
  {
    && id in nodes' && nodes'[id].item.parent == ROOT
    && nodes'[id].purposes == nodes[id].purposes && nodes'[id].published == nodes[id].published
  }

  lemma RootsKept(b: Broker, nodes: Nodes, nextID: nat)
    requires BrokerOk(b) && NodesOk(nodes, nextID) && KeepsRoots(b.nodes, nodes) && !b.stopped
    ensures BrokerOk(b.(nodes := nodes, nextID := nextID))
  {
    forall id <- b.pending ensures PendingOk(nodes, b.pending, id) { assert PendingOk(b.nodes, b.pending, id); }
  }

  lemma {:induction false} RootHasNoAncestor(nodes: Nodes, x: nat, top: nat)
    requires x in nodes && nodes[x].item.parent == ROOT
    ensures InSubtree(nodes, x, top) <==> x == top
  {
  }

  lemma WithoutChildrenOk(nodes: Nodes, nextID: nat, top: nat)
    requires NodesOk(nodes, nextID) && top in nodes
    ensures top in WithoutChildren(nodes, top) && WithoutChildren(nodes, top)[top] == nodes[top]
    ensures NodesOk(WithoutChildren(nodes, top), nextID)
    ensures Evolves(nodes, nextID, WithoutChildren(nodes, top), nextID) && KeepsRoots(nodes, WithoutChildren(nodes, top))
  {
    WithoutTreeUpward(nodes, nextID, top);
    PartOk(WithoutChildren(nodes, top), nodes, nextID);
    forall id <- nodes | nodes[id].item.parent == ROOT ensures id == top || !InSubtree(nodes, id, top) {
      RootHasNoAncestor(nodes, id, top);
    }
  }

  lemma ItemOk(nodes: Nodes, nextID: nat, id: nat, item: Item)
    requires NodesOk(nodes, nextID) && id in nodes && item.parent == nodes[id].item.parent && item.name == nodes[id].item.name
    ensures NodesOk(WithItem(nodes, id, item), nextID) && Evolves(nodes, nextID, WithItem(nodes, id, item), nextID)
    ensures KeepsRoots(nodes, WithItem(nodes, id, item))
  {
    UpdatedOk(nodes, nextID, id, nodes[id].(item := item));
  }

  // ---- Selecting ----

  /** Every root is held, or it is one of these. */
  ghost predicate SelectedOk(b: Broker, ids: seq<nat>) {
    && NodesOk(b.nodes, b.nextID) && !b.stopped
    && (forall id <- ids :: id in b.nodes && b.nodes[id].item.parent == ROOT)
    && (forall id <- b.nodes :: b.nodes[id].item.parent == ROOT ==>
          (b.nodes[id].purposes != {} ==> b.nodes[id].published)
          && (b.nodes[id].purposes != {} || id in b.pending || id in ids))
    && (forall id <- b.pending :: PendingOk(b.nodes, b.pending, id))
  }

  lemma SelectedKept(b: Broker, ids: seq<nat>, nodes: Nodes)
    requires SelectedOk(b, ids) && NodesOk(nodes, b.nextID) && KeepsRoots(b.nodes, nodes)
    ensures SelectedOk(b.(nodes := nodes), ids)
  {
    forall id <- b.pending ensures PendingOk(nodes, b.pending, id) { assert PendingOk(b.nodes, b.pending, id); }
  }

  lemma SelectAgainOk(b: Broker, ids: seq<nat>, id: nat, info: Info)
    requires SelectedOk(b, ids) && id in b.nodes && b.nodes[id].item.parent == ROOT
    ensures var c := SelectAgain(b, id, info);
            SelectedOk(c, ids + [id]) && Evolves(b.nodes, b.nextID, c.nodes, c.nextID)
  {
    var existing := b.nodes[id].item;
    var changed := existing.kind.Directory? && existing.version != info.version;
    var nodes := if changed then WithoutChildren(b.nodes, id) else b.nodes;
    WithoutChildrenOk(b.nodes, b.nextID, id);
    if changed { SelectedKept(b, ids, nodes); }
    var item := ItemOf(info, ROOT, existing.name);
    ItemOk(nodes, b.nextID, id, item);
    SelectedKept(b.(nodes := nodes), ids, WithItem(nodes, id, item));
    EvolvesFurther(b.nodes, b.nextID, nodes, b.nextID, WithItem(nodes, id, item), b.nextID);
  }

  lemma SelectedNew(b: Broker, ids: seq<nat>, n: Node)
    requires SelectedOk(b, ids) && NodesOk(b.nodes[b.nextID := n], b.nextID + 1) && b.nextID !in b.nodes
    requires n.item.parent == ROOT && n.purposes == {}
    ensures SelectedOk(b.(nodes := b.nodes[b.nextID := n], nextID := b.nextID + 1), ids + [b.nextID])
  {
    var nodes := b.nodes[b.nextID := n];
    forall id <- b.pending ensures PendingOk(nodes, b.pending, id) { assert PendingOk(b.nodes, b.pending, id); }
  }

  lemma SelectNewOk(b: Broker, ids: seq<nat>, info: Info, access: nat)
    requires SelectedOk(b, ids) && Find(b.nodes, ROOT, access, info.source).None?
    ensures var c := SelectNew(b, info, access);
            SelectedOk(c, ids + [b.nextID]) && Evolves(b.nodes, b.nextID, c.nodes, c.nextID)
  {
    var n := SelectNew(b, info, access).nodes[b.nextID];
    AddedName(b.nodes, b.nextID, ROOT, info.offered);
    AddedOk(b.nodes, b.nextID, n);
    SelectedNew(b, ids, n);
  }

  lemma SelectOk(b: Broker, ids: seq<nat>, info: Info, access: nat)
    requires SelectedOk(b, ids)
    ensures var (c, id) := Select(b, info, access);
            && SelectedOk(c, ids + [id]) && Evolves(b.nodes, b.nextID, c.nodes, c.nextID)
            && c == b.(nodes := c.nodes, nextID := c.nextID)
  {
    match Find(b.nodes, ROOT, access, info.source)
    case Some(id) => SelectAgainOk(b, ids, id, info);
    case None => SelectNewOk(b, ids, info, access);
  }

  lemma {:induction false} SelectAllOk(b: Broker, infos: seq<Info>, access: nat)
    requires BrokerOk(b) && !b.stopped
    ensures var (c, ids) := SelectAll(b, infos, access);
            && SelectedOk(c, ids) && Evolves(b.nodes, b.nextID, c.nodes, c.nextID)
            && c == b.(nodes := c.nodes, nextID := c.nextID)
    decreases |infos|
  {
    if infos != [] {
      var front, last := infos[..|infos| - 1], infos[|infos| - 1];
      SelectAllOk(b, front, access);
      var (before, ids) := SelectAll(b, front, access);
      SelectOk(before, ids, last, access);
      var (c, _) := Select(before, last, access);
      EvolvesFurther(b.nodes, b.nextID, before.nodes, before.nextID, c.nodes, c.nextID);
    }
  }

  lemma {:induction false} PendIs(b: Broker, ids: seq<nat>, publication: nat, p: Purpose)
    ensures var c := Pend(b, ids, publication, p);
            && c == b.(pending := c.pending)
            && (forall id: nat :: id in c.pending <==> id in b.pending || id in ids)
            && (forall id <- c.pending :: c.pending[id] == if id in ids then Shares(b, id)[publication := p] else b.pending[id])
  {
    if ids != [] {
      var front, last := ids[..|ids| - 1], ids[|ids| - 1];
      PendIs(b, front, publication, p);
      assert ids == front + [last];
    }
  }

  lemma CatalogOk(b: Broker, op: Op)
    requires BrokerOk(b) && !b.stopped && op.Measuring?
    ensures var (c, mounting) := Catalog(b, op);
            && BrokerOk(c) && Evolves(b.nodes, b.nextID, c.nodes, c.nextID)
            && c == b.(nodes := c.nodes, nextID := c.nextID, pending := c.pending, tokens := b.tokens + 1)
            && mounting.Mounting? && forall id <- mounting.ids :: id in c.nodes && id in c.pending
  {
    SelectAllOk(b, op.infos, op.access);
    var (selected, ids) := SelectAll(b, op.infos, op.access);
    PendIs(selected, ids, b.tokens, op.purpose);
    var c := Catalog(b, op).0;
    forall id <- c.pending ensures PendingOk(c.nodes, c.pending, id) {
      if id in selected.pending { assert PendingOk(selected.nodes, selected.pending, id); }
      assert id in ids ==> b.tokens in c.pending[id];
    }
  }
}
