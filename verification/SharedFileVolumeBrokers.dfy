/** The broker as the object its main actor updates. */
module SharedFileVolumeBrokers {
  import opened Bytes
  import opened Wrappers
  import opened SharedNames
  import opened SharedTree
  import opened BrokerState
  import opened BrokerInvariant
  import opened BrokerSteps
  import opened Collections

  lemma FindIsUnique(nodes: Nodes, nextID: nat, id: nat, parent: nat, access: nat, source: Source)
    requires NodesOk(nodes, nextID) && IsFor(nodes, id, parent, access, source)
    ensures Find(nodes, parent, access, source) == Some(id)
  {
    var other := Find(nodes, parent, access, source).value;
    assert IsFor(nodes, other, parent, access, source) && SourcesDiffer(nodes, id, other);
  }

  // ---- Revoking root by root ----

  function Shorn(n: Node, p: Purpose): Node { n.(purposes := n.purposes - {p}) }

  function RevokeOne(b: Broker, id: nat, p: Purpose): Broker
    requires id in b.nodes
  {
    var c := if id in b.pending then WithShares(b, id, WithoutPurpose(b.pending[id], p)) else b;
    Settle(c.(nodes := c.nodes[id := Shorn(c.nodes[id], p)]), id)
  }

  /** Hangs below a root that was looked at and that nothing keeps. */
  predicate Dropped(b: Broker, done: set<nat>, p: Purpose, x: nat)
    requires x in b.nodes
  {
    b.nodes[x].selection in done && Loses(b, b.nodes[x].selection, p)
  }

  function NodesAfter(b: Broker, done: set<nat>, p: Purpose): Nodes {
    map x | x in b.nodes && !Dropped(b, done, p, x) :: if x in done then Shorn(b.nodes[x], p) else b.nodes[x]
  }

  predicate Emptied(b: Broker, done: set<nat>, p: Purpose, id: nat)
    requires id in b.pending
  {
    id in done && WithoutPurpose(b.pending[id], p) == map[]
  }

  function PendingAfter(b: Broker, done: set<nat>, p: Purpose): map<nat, map<nat, Purpose>> {
    map id | id in b.pending && !Emptied(b, done, p, id)
      :: if id in done then WithoutPurpose(b.pending[id], p) else b.pending[id]
  }

  function RevokeSome(b: Broker, done: set<nat>, p: Purpose): Broker {
    b.(nodes := NodesAfter(b, done, p), pending := PendingAfter(b, done, p))
  }

  lemma NodesAfterOk(b: Broker, done: set<nat>, p: Purpose)
    requires BrokerOk(b) && done <= RootsWith(b, p)
    ensures NodesOk(NodesAfter(b, done, p), b.nextID)
  {
    var part: Nodes := map x | x in b.nodes && !Dropped(b, done, p, x) :: b.nodes[x];
    forall x <- part | part[x].item.parent in b.nodes ensures part[x].item.parent in part {
      assert NodeOk(b.nodes, b.nextID, x) && NodeOk(b.nodes, b.nextID, part[x].item.parent);
    }
    PartOk(part, b.nodes, b.nextID);
    assert NodesAfter(b, done, p).Keys == part.Keys;
    RelabelsOk(part, NodesAfter(b, done, p), b.nextID);
  }

  lemma PendingNext(b: Broker, done: set<nat>, id: nat, p: Purpose)
    requires id !in done
    ensures var before, after := PendingAfter(b, done, p), PendingAfter(b, done + {id}, p);
            && (id in before <==> id in b.pending) && (id in b.pending ==> before[id] == b.pending[id])
            && after == if id !in b.pending then before
                        else if WithoutPurpose(b.pending[id], p) == map[] then before - {id}
                        else before[id := WithoutPurpose(b.pending[id], p)]
  {
    forall x <- b.pending | x != id ensures Emptied(b, done + {id}, p, x) <==> Emptied(b, done, p, x) {}
  }

  lemma DroppedNext(b: Broker, done: set<nat>, id: nat, p: Purpose, x: nat)
    requires x in b.nodes && id !in done
    ensures Dropped(b, done + {id}, p, x) <==> Dropped(b, done, p, x) || (b.nodes[x].selection == id && Loses(b, id, p))
  {
  }

  lemma NodesNextKept(b: Broker, done: set<nat>, id: nat, p: Purpose)
    requires BrokerOk(b) && id in RootsWith(b, p) && id !in done && !Loses(b, id, p)
    ensures id in NodesAfter(b, done, p) && NodesAfter(b, done, p)[id] == b.nodes[id]
    ensures NodesAfter(b, done, p)[id := Shorn(b.nodes[id], p)] == NodesAfter(b, done + {id}, p)
  {
    assert NodeOk(b.nodes, b.nextID, id);
    forall x <- b.nodes ensures Dropped(b, done + {id}, p, x) <==> Dropped(b, done, p, x) { DroppedNext(b, done, id, p, x); }
  }

  lemma ShornSubtree(b: Broker, done: set<nat>, id: nat, p: Purpose)
    requires BrokerOk(b) && done <= RootsWith(b, p) && id in RootsWith(b, p) && id !in done
    ensures id in NodesAfter(b, done, p) && NodesAfter(b, done, p)[id] == b.nodes[id]
    ensures var relabeled := NodesAfter(b, done, p)[id := Shorn(b.nodes[id], p)];
            forall x <- relabeled :: InSubtree(relabeled, x, id) <==> b.nodes[x].selection == id
  {
    assert NodeOk(b.nodes, b.nextID, id);
    var before := NodesAfter(b, done, p);
    var relabeled := before[id := Shorn(b.nodes[id], p)];
    NodesAfterOk(b, done, p);
    UpdatedOk(before, b.nextID, id, Shorn(b.nodes[id], p));
    forall x <- relabeled ensures InSubtree(relabeled, x, id) <==> b.nodes[x].selection == id {
      SubtreeIsSelection(relabeled, b.nextID, x, id);
    }
  }

  lemma NodesNextLost(b: Broker, done: set<nat>, id: nat, p: Purpose)
    requires BrokerOk(b) && done <= RootsWith(b, p) && id in RootsWith(b, p) && id !in done && Loses(b, id, p)
    ensures id in NodesAfter(b, done, p) && NodesAfter(b, done, p)[id] == b.nodes[id]
    ensures WithoutTree(NodesAfter(b, done, p)[id := Shorn(b.nodes[id], p)], id) == NodesAfter(b, done + {id}, p)
  {
    assert NodeOk(b.nodes, b.nextID, id);
    ShornSubtree(b, done, id, p);
    forall x <- b.nodes ensures Dropped(b, done + {id}, p, x) <==> Dropped(b, done, p, x) || b.nodes[x].selection == id {
      DroppedNext(b, done, id, p, x);
    }
  }

  lemma LosesHere(b: Broker, id: nat, p: Purpose)
    requires id in RootsWith(b, p)
    ensures Loses(b, id, p) <==> Shorn(b.nodes[id], p).purposes == {}
                                 && (id !in b.pending || WithoutPurpose(b.pending[id], p) == map[])
  {
    if id !in b.pending { assert WithoutPurpose(Shares(b, id), p) == map[]; }
  }

  lemma RevokeNext(b: Broker, done: set<nat>, id: nat, p: Purpose)
    requires BrokerOk(b) && done <= RootsWith(b, p) && id in RootsWith(b, p) && id !in done
    ensures id in RevokeSome(b, done, p).nodes
    ensures RevokeOne(RevokeSome(b, done, p), id, p) == RevokeSome(b, done + {id}, p)
  {
    PendingNext(b, done, id, p);
    LosesHere(b, id, p);
    if Loses(b, id, p) { NodesNextLost(b, done, id, p); } else { NodesNextKept(b, done, id, p); }
  }

  lemma RevokeNone(b: Broker, p: Purpose)
    ensures RevokeSome(b, {}, p) == b
  {
  }

  lemma RevokeEveryShare(b: Broker, p: Purpose)
    requires BrokerOk(b)
    ensures PendingAfter(b, RootsWith(b, p), p) == Revoke(b, p).pending
  {
    forall id <- b.pending | id !in RootsWith(b, p)
      ensures WithoutPurpose(b.pending[id], p) == b.pending[id] && b.pending[id] != map[]
    {
      assert PendingOk(b.nodes, b.pending, id) && !Holds(b, id, p);
    }
  }

  lemma RevokeEveryNode(b: Broker, p: Purpose)
    requires BrokerOk(b)
    ensures NodesAfter(b, RootsWith(b, p), p) == Revoke(b, p).nodes
  {
    forall x <- b.nodes ensures Dropped(b, RootsWith(b, p), p, x) <==> Loses(b, b.nodes[x].selection, p) {}
  }

  lemma PruneStep(nodes: Nodes, nextID: nat, done: set<nat>, id: nat)
    requires TreeOk(nodes, nextID)
    ensures TreeOk(Pruning(nodes, done), nextID)
    ensures WithoutTree(Pruning(nodes, done), id) == Pruning(nodes, done + {id})
  {
    PruningUpward(nodes, nextID, done);
    UpwardOk(Pruning(nodes, done), nodes, nextID);
    PruneNext(nodes, nextID, done, id);
  }

  lemma ShornOk(nodes: Nodes, nextID: nat, id: nat, p: Purpose)
    requires NodesOk(nodes, nextID) && id in nodes
    ensures TreeOk(nodes[id := Shorn(nodes[id], p)], nextID) && FIRST <= id
  {
    assert NodeOk(nodes, nextID, id);
    UpdatedOk(nodes, nextID, id, Shorn(nodes[id], p));
  }

  lemma ChildIsLater(nodes: Nodes, nextID: nat, id: nat, child: nat)
    requires TreeOk(nodes, nextID) && child in ChildrenOf(nodes, id) && FIRST <= id
    ensures id < child < nextID
  {
    assert NodeOk(nodes, nextID, child);
  }

  // ---- The object ----

  class SharedFileVolumeBroker {
    var nodes: Nodes
    var nextID: nat
    var pendingShares: map<nat, map<nat, Purpose>>
    var generation: nat
    var purposeGenerations: map<Purpose, nat>
    var stopped: bool
    var tokens: nat

    ghost function View(): Broker
      reads this
    {
      Broker(nodes, nextID, pendingShares, generation, purposeGenerations, stopped, tokens)
    }

    constructor ()
      ensures View() == NewBroker
    {
      nodes, nextID, pendingShares, generation, purposeGenerations, stopped, tokens := map[], FIRST, map[], 0, map[], false, 1;
    }

    method AllocateID() returns (id: nat)
      modifies this`nextID
      ensures id == old(nextID) && nextID == id + 1
    {
      id := nextID;
      nextID := nextID + 1;
    }

    method NewToken() returns (token: nat)
      modifies this`tokens
      ensures token == old(tokens) && tokens == token + 1
    {
      token := tokens;
      tokens := tokens + 1;
    }

    method Lookup(parent: nat, access: nat, source: Source) returns (r: Option<nat>)
      requires NodesOk(nodes, nextID)
      ensures r == Find(nodes, parent, access, source)
    {
      var rest := nodes.Keys;
      while rest != {}
        invariant rest <= nodes.Keys && forall id: nat :: IsFor(nodes, id, parent, access, source) ==> id in rest
        decreases |rest|
      {
        var id :| id in rest;
        if IsFor(nodes, id, parent, access, source) {
          FindIsUnique(nodes, nextID, id, parent, access, source);
          return Some(id);
        }
        rest := rest - {id};
      }
      return None;
    }

    method RemoveTree(id: nat)
      requires TreeOk(nodes, nextID) && FIRST <= id
      modifies this`nodes
      ensures nodes == WithoutTree(old(nodes), id)
      decreases if id < nextID then nextID - id else 0, 1
    {
      RemoveChildren(id);
      nodes := nodes - {id};
      assert InSubtree(old(nodes), id, id) || id !in old(nodes);
    }

    /** The children are noted first and their trees removed one after another. */
    method RemoveChildren(id: nat)
      requires TreeOk(nodes, nextID) && FIRST <= id
      modifies this`nodes
      ensures nodes == WithoutChildren(old(nodes), id)
      decreases if id < nextID then nextID - id else 0, 0
    {
      var children := ChildrenOf(nodes, id);
      ghost var before, all := nodes, children;
      assert all - children == {} && Pruning(before, {}) == before;
      while children != {}
        invariant children <= all && nodes == Pruning(before, all - children)
        decreases |children|
      {
        var child :| child in children;
        ChildIsLater(before, nextID, id, child);
        PruneStep(before, nextID, all - children, child);
        MovedOver(all, children, child);
        RemoveTree(child);
        children := children - {child};
      }
      PrunedAll(before, nextID, id);
      assert all - children == all;
    }

    // ---- Publishing ----

    method SelectSource(info: Info, access: nat) returns (id: nat)
      requires NodesOk(nodes, nextID)
      modifies this`nodes, this`nextID
      ensures (View(), id) == Select(old(View()), info, access)
    {
      var existing := Lookup(ROOT, access, info.source);
      if existing.Some? {
        id := existing.value;
        var item := nodes[id].item;
        WithoutChildrenOk(nodes, nextID, id);
        assert NodeOk(nodes, nextID, id);
        if item.kind.Directory? && item.version != info.version { RemoveChildren(id); }
        nodes := nodes[id := nodes[id].(item := ItemOf(info, ROOT, item.name))];
      } else {
        var name := MakeUniqueName(UsedNames(nodes, ROOT), info.offered);
        id := AllocateID();
        nodes := nodes[id := Node(ItemOf(info, ROOT, name), info.source, access, id, false, {})];
      }
    }

    method SelectSources(infos: seq<Info>, access: nat) returns (ids: seq<nat>)
      requires BrokerOk(View()) && !stopped
      modifies this`nodes, this`nextID
      ensures (View(), ids) == SelectAll(old(View()), infos, access)
    {
      ids := [];
      for k := 0 to |infos|
        invariant (View(), ids) == SelectAll(old(View()), infos[..k], access)
      {
        SelectAllOk(old(View()), infos[..k], access);
        assert infos[..k + 1][..k] == infos[..k];
        var id := SelectSource(infos[k], access);
        ids := ids + [id];
      }
      assert infos[..|infos|] == infos;
    }

    method AddShares(ids: seq<nat>, publication: nat, p: Purpose)
      modifies this`pendingShares
      ensures View() == Pend(old(View()), ids, publication, p)
    {
      for k := 0 to |ids|
        invariant View() == Pend(old(View()), ids[..k], publication, p)
      {
        assert ids[..k + 1][..k] == ids[..k];
        var shares := if ids[k] in pendingShares then pendingShares[ids[k]] else map[];
        pendingShares := pendingShares[ids[k] := shares[publication := p]];
      }
      assert ids[..|ids|] == ids;
    }

    method CatalogFiles(op: Op) returns (mounting: Op)
      requires BrokerOk(View()) && !stopped && op.Measuring?
      modifies this
      ensures (View(), mounting) == Catalog(old(View()), op)
    {
      var ids := SelectSources(op.infos, op.access);
      var publication := NewToken();
      PendLater(old(View()), op, ids);
      AddShares(ids, publication, op.purpose);
      mounting := Mounting(ids, publication, op.purpose, op.token, op.purposeToken);
    }

    method StartPublish(files: seq<Source>, access: nat, p: Purpose) returns (outcome: Outcome)
      requires BrokerOk(View())
      modifies this
      ensures (View(), outcome) == BeginPublish(old(View()), files, access, p)
    {
      if stopped { return Fails(NotSupported); }
      var op := Measuring(files, [], access, p, generation, PurposeTokenNow(p));
      if files == [] {
        var mounting := CatalogFiles(op);
        return Waits(mounting);
      }
      return Waits(op);
    }

    function PurposeTokenNow(p: Purpose): Option<nat>
      reads this
    {
      if p in purposeGenerations then Some(purposeGenerations[p]) else None
    }

    predicate IsCurrent(op: Op)
      requires op.Measuring? || op.Mounting?
      reads this
    {
      generation == op.token && PurposeTokenNow(op.purpose) == op.purposeToken && !stopped
    }

    method Measured(op: Op, info: Info) returns (outcome: Outcome)
      requires BrokerOk(View()) && op.Measuring? && |op.infos| < |op.files|
      modifies this
      ensures (View(), outcome) == ResumeMeasure(old(View()), op, info)
    {
      if !IsCurrent(op) { return Fails(Interrupted); }
      if !Validate(info, op.files[|op.infos|]) { return Fails(Invalid); }
      var more := op.(infos := op.infos + [info]);
      if |more.infos| < |more.files| { return Waits(more); }
      var mounting := CatalogFiles(more);
      return Waits(mounting);
    }

    method EndShare(id: nat, publication: nat)
      requires TreeOk(nodes, nextID) && (id in nodes ==> FIRST <= id)
      modifies this`nodes, this`pendingShares
      ensures View() == Release(old(View()), id, publication)
    {
      if id in pendingShares {
        var shares := pendingShares[id] - {publication};
        pendingShares := if shares == map[] then pendingShares - {id} else pendingShares[id := shares];
      }
      if id !in pendingShares && id in nodes && nodes[id].purposes == {} { RemoveTree(id); }
    }

    method EndShares(ids: seq<nat>, publication: nat)
      requires BrokerOk(View()) && AreRoots(nodes, nextID, ids)
      modifies this`nodes, this`pendingShares
      ensures View() == ReleaseAll(old(View()), ids, publication)
    {
      for k := 0 to |ids|
        invariant View() == ReleaseAll(old(View()), ids[..k], publication)
      {
        ReleaseAllOk(old(View()), ids[..k], publication);
        assert ids[..k + 1][..k] == ids[..k];
        assert forall id <- nodes :: NodeOk(nodes, nextID, id);
        EndShare(ids[k], publication);
      }
      assert ids[..|ids|] == ids;
    }

    method GrantRoots(ids: seq<nat>, p: Purpose)
      requires forall id <- ids :: id in nodes
      modifies this`nodes
      ensures nodes == Grant(old(nodes), ids, p)
    {
      assert Grant(nodes, [], p) == nodes;
      for k := 0 to |ids|
        invariant nodes == Grant(old(nodes), ids[..k], p)
      {
        assert ids[..k + 1] == ids[..k] + [ids[k]];
        nodes := nodes[ids[k] := nodes[ids[k]].(published := true, purposes := nodes[ids[k]].purposes + {p})];
      }
      assert ids[..|ids|] == ids;
    }

    method Mounted(op: Op, mounted: bool) returns (outcome: Outcome)
      requires BrokerOk(View()) && op.Mounting? && AreRoots(nodes, nextID, op.ids)
      modifies this
      ensures (View(), outcome) == ResumeMount(old(View()), op, mounted)
    {
      outcome := Fails(Interrupted);
      if mounted && IsCurrent(op) {
        if exists id <- op.ids :: id !in nodes {
          outcome := Fails(Stale);
        } else {
          outcome := Answers(map id | id in nodes && id in op.ids :: nodes[id].item);
          GrantOk(View(), op.ids, op.purpose);
          RootsStayRoots(nodes, nextID, Grant(nodes, op.ids, op.purpose), nextID, op.ids);
          GrantRoots(op.ids, op.purpose);
        }
      }
      EndShares(op.ids, op.publication);
    }

    // ---- Revoking ----

    method RevokeRoot(id: nat, p: Purpose)
      requires NodesOk(nodes, nextID) && id in nodes
      modifies this`nodes, this`pendingShares
      ensures View() == RevokeOne(old(View()), id, p)
    {
      if id in pendingShares {
        var shares := WithoutPurpose(pendingShares[id], p);
        pendingShares := if shares == map[] then pendingShares - {id} else pendingShares[id := shares];
      }
      ShornOk(nodes, nextID, id, p);
      nodes := nodes[id := nodes[id].(purposes := nodes[id].purposes - {p})];
      if nodes[id].purposes == {} && id !in pendingShares { RemoveTree(id); }
    }

    method RevokeRoots(roots: set<nat>, p: Purpose)
      requires BrokerOk(View()) && roots == RootsWith(View(), p)
      modifies this`nodes, this`pendingShares
      ensures View() == RevokeSome(old(View()), roots, p)
    {
      ghost var before := View();
      var rest := roots;
      RevokeNone(before, p);
      assert roots - rest == {};
      while rest != {}
        invariant rest <= roots && View() == RevokeSome(before, roots - rest, p)
        decreases |rest|
      {
        var id :| id in rest;
        RevokeNext(before, roots - rest, id, p);
        NodesAfterOk(before, roots - rest, p);
        MovedOver(roots, rest, id);
        RevokeRoot(id, p);
        rest := rest - {id};
      }
      assert roots - rest == roots;
    }

    method RootsHeld(p: Purpose) returns (roots: set<nat>)
      ensures roots == RootsWith(View(), p)
    {
      roots := set id | id in nodes && nodes[id].item.parent == ROOT
                        && (p in nodes[id].purposes || (id in pendingShares && p in pendingShares[id].Values));
    }

    method RevokePurpose(p: Purpose)
      requires BrokerOk(View())
      modifies this
      ensures View() == Revoke(old(View()), p)
    {
      RevokeEveryNode(View(), p);
      RevokeEveryShare(View(), p);
      var roots := RootsHeld(p);
      RevokeRoots(roots, p);
      purposeGenerations := purposeGenerations[p := tokens];
      tokens := tokens + 1;
    }

    method RevokeEverything()
      modifies this
      ensures View() == RevokeAll(old(View()))
    {
      generation := NewToken();
      nodes, pendingShares := map[], map[];
    }

    method StopServing()
      modifies this
      ensures View() == Stop(old(View()))
    {
      if stopped { return; }
      stopped := true;
      RevokeEverything();
    }

    // ---- Looking ----

    method Refresh(op: Op, info: Info) returns (outcome: Outcome)
      requires BrokerOk(View()) && op.Refreshing?
      modifies this
      ensures (View(), outcome) == ResumeRefresh(old(View()), op, info)
    {
      if generation != op.token || op.id !in nodes || stopped { return Fails(Stale); }
      if !Validate(info, op.node.source) { return Fails(Invalid); }
      assert NodeOk(nodes, nextID, op.id);
      if op.node.item.kind.Directory? && (op.node.item.version != info.version || !info.kind.Directory?) {
        RemoveChildren(op.id);
      }
      var value := ItemOf(info, op.node.item.parent, op.node.item.name);
      nodes := nodes[op.id := nodes[op.id].(item := value)];
      return Answers(map[op.id := value]);
    }

    method UpdateChild(id: nat, node: Node, info: Info, child: nat)
      requires StillThere(View(), id, node) && child in nodes
      modifies this`nodes
      ensures View() == AdoptAgain(old(View()), id, node, info, child)
    {
      var item := nodes[child].item;
      assert NodeOk(nodes, nextID, child);
      if item.kind.Directory? && (item.version != info.version || !info.kind.Directory?) { RemoveChildren(child); }
      nodes := nodes[child := Node(ItemOf(info, id, item.name), info.source, node.access, node.selection, false, {})];
    }

    method AdoptChild(id: nat, node: Node, info: Info) returns (child: nat)
      requires StillThere(View(), id, node)
      modifies this`nodes, this`nextID
      ensures (View(), child) == Adopt(old(View()), id, node, info)
    {
      var existing := Lookup(id, node.access, info.source);
      if existing.Some? {
        child := existing.value;
        UpdateChild(id, node, info, child);
      } else {
        child := AddChild(id, node, info);
      }
    }

    method AddChild(id: nat, node: Node, info: Info) returns (child: nat)
      modifies this`nodes, this`nextID
      ensures View() == AdoptNew(old(View()), id, node, info) && child == old(nextID)
    {
      var name := MakeUniqueName(UsedNames(nodes, id), info.offered);
      child := AllocateID();
      nodes := nodes[child := Node(ItemOf(info, id, name), info.source, node.access, node.selection, false, {})];
    }

    method AdoptChildren(id: nat, node: Node, infos: seq<Info>) returns (children: seq<nat>)
      requires StillThere(View(), id, node)
      modifies this`nodes, this`nextID
      ensures (View(), children) == AdoptAll(old(View()), id, node, infos)
    {
      children := [];
      for k := 0 to |infos|
        invariant (View(), children) == AdoptAll(old(View()), id, node, infos[..k])
      {
        AdoptAllOk(old(View()), id, node, infos[..k]);
        assert infos[..k + 1][..k] == infos[..k];
        var child := AdoptChild(id, node, infos[k]);
        children := children + [child];
      }
      assert infos[..|infos|] == infos;
    }

    method DropMissing(missing: set<nat>)
      requires TreeOk(nodes, nextID) && forall id <- missing :: FIRST <= id
      modifies this`nodes
      ensures nodes == Pruning(old(nodes), missing)
    {
      ghost var before := nodes;
      var rest := missing;
      assert missing - rest == {} && Pruning(before, {}) == before;
      while rest != {}
        invariant rest <= missing && nodes == Pruning(before, missing - rest)
        decreases |rest|
      {
        var id :| id in rest;
        PruneStep(before, nextID, missing - rest, id);
        MovedOver(missing, rest, id);
        RemoveTree(id);
        rest := rest - {id};
      }
      assert missing - rest == missing;
    }

    method ListChildren(op: Op, infos: seq<Info>) returns (outcome: Outcome)
      requires BrokerOk(View()) && op.Listing? && (op.id in nodes ==> Same(nodes[op.id], op.node))
      modifies this
      ensures (View(), outcome) == ResumeList(old(View()), op, infos)
    {
      if generation != op.token || op.id !in nodes || stopped { return Fails(Stale); }
      var fault := Fault(op.node.source, Listed(infos));
      if fault.Some? { return Fails(fault.value); }
      AdoptAllOk(View(), op.id, op.node, Listed(infos));
      var children := AdoptChildren(op.id, op.node, Listed(infos));
      assert forall x <- nodes :: NodeOk(nodes, nextID, x);
      DropMissing(Missing(nodes, op.id, children));
      return Answers(map x | x in nodes && nodes[x].item.parent == op.id :: nodes[x].item);
    }

    predicate Shown(n: Node)
      reads this
    {
      (n.published && n.purposes != {}) || (n.selection in pendingShares && pendingShares[n.selection] != map[])
    }

    method StartRefresh(id: nat) returns (outcome: Outcome)
      ensures outcome == BeginRefresh(View(), id)
    {
      if id == ROOT { return TheRoot; }
      if id !in nodes { return Fails(Stale); }
      return Waits(Refreshing(id, nodes[id], generation));
    }

    method StartList(id: nat) returns (outcome: Outcome)
      ensures outcome == BeginList(View(), id)
    {
      if id == ROOT {
        return Answers(map r | r in nodes && nodes[r].item.parent == ROOT && Shown(nodes[r]) :: nodes[r].item);
      }
      if id !in nodes || !nodes[id].item.kind.Directory? { return Fails(NotDirectory); }
      return Waits(Listing(id, nodes[id], generation));
    }

    method StartRead(id: nat, offset: nat, length: nat, version: Data) returns (outcome: Outcome)
      ensures outcome == BeginRead(View(), id, offset, length, version)
    {
      if length > MAXIMUM_READ || version == [] || |version| > MAXIMUM_VERSION { return Fails(Invalid); }
      if id !in nodes || !nodes[id].item.kind.File? { return Fails(Stale); }
      var node := nodes[id];
      if node.selection !in nodes || !Shown(nodes[node.selection]) { return Fails(NoAccess); }
      if version != node.item.version { return Fails(Stale); }
      if offset + length > MAXIMUM_SIZE { return Fails(Invalid); }
      return Waits(Reading(id, node, generation, version, length));
    }

    method ReadBytes(op: Op, bytes: Data) returns (outcome: Outcome)
      requires op.Reading?
      ensures outcome == ResumeRead(View(), op, bytes)
    {
      if generation != op.token || op.id !in nodes || nodes[op.id].item.version != op.version { return Fails(Stale); }
      if nodes[op.id].source != op.node.source || nodes[op.id].access != op.node.access { return Fails(Stale); }
      if |bytes| > op.length || stopped { return Fails(Stale); }
      return BrokerState.Contents(bytes);
    }
  }

  /** Taking the token for a share before or after adding it is the same. */
  lemma PendLater(b: Broker, op: Op, ids: seq<nat>)
    requires op.Measuring? && SelectAll(b, op.infos, op.access).1 == ids
    ensures var selected := SelectAll(b, op.infos, op.access).0;
            Pend(selected.(tokens := b.tokens + 1), ids, b.tokens, op.purpose)
              == Pend(selected, ids, b.tokens, op.purpose).(tokens := b.tokens + 1)
  {
    PendTokens(SelectAll(b, op.infos, op.access).0, ids, b.tokens, op.purpose, b.tokens + 1);
  }

  lemma {:induction false} PendTokens(b: Broker, ids: seq<nat>, publication: nat, p: Purpose, tokens: nat)
    ensures Pend(b.(tokens := tokens), ids, publication, p) == Pend(b, ids, publication, p).(tokens := tokens)
  {
    if ids != [] { PendTokens(b, ids[..|ids| - 1], publication, p, tokens); }
  }
}
