/** What a listing of the broker answers: the directory, as the machine reported it. */
module BrokerListing {
  import opened Bytes
  import opened Wrappers
  import opened SharedNames
  import opened SharedTree
  import opened BrokerState
  import opened BrokerInvariant
  import opened BrokerSteps

  /** The item says of a file what the machine reported. */
  predicate Reports(info: Info, item: Item) {
    && item.kind == (if info.kind.Directory? then Directory else File)
    && item.size == info.size && item.version == info.version
  }

  /** A directory that is not what it was, so that what was known to be in it is forgotten. */
  predicate Changed(before: Item, info: Info) {
    before.kind.Directory? && (before.version != info.version || !info.kind.Directory?)
  }

  // ---- Subtrees of a catalog that evolves ----

  /** What hangs below an older node does not change while it is there. */
  lemma {:induction false} EvolvedSubtree(n: Nodes, i: nat, n': Nodes, i': nat, y: nat, top: nat)
    requires Evolves(n, i, n', i') && TreeOk(n', i') && TreeOk(n, i) && y in n' && y < i
    ensures InSubtree(n', y, top) <==> InSubtree(n, y, top)
    decreases y
  {
    assert NodeOk(n', i', y) && NodeOk(n, i, y);
    if n'[y].item.parent != ROOT { EvolvedSubtree(n, i, n', i', n'[y].item.parent, top); }
  }

  lemma NotBelowSibling(nodes: Nodes, nextID: nat, id: nat, x: nat, y: nat)
    requires TreeOk(nodes, nextID) && x in nodes && y in nodes && x != y && FIRST <= id
    requires nodes[x].item.parent == id && nodes[y].item.parent == id
    ensures !InSubtree(nodes, x, y)
  {
    assert NodeOk(nodes, nextID, x) && NodeOk(nodes, nextID, y);
    if InSubtree(nodes, x, y) { SubtreeIsLater(nodes, id, y); }
  }

  // ---- Taking in one entry ----

  /** After an entry was taken in there is one child for it, with its old identifier and name
      if it had one; the other children are as they were. */
  ghost predicate TakenIn(b: Broker, c: Broker, id: nat, node: Node, info: Info, child: nat) {
    && IsFor(c.nodes, child, id, node.access, info.source) && Reports(info, c.nodes[child].item)
    && (if child in b.nodes then Same(c.nodes[child], b.nodes[child]) else child == b.nextID)
    && (forall x: nat :: x != child ==> (IsChild(c.nodes, x, id) <==> IsChild(b.nodes, x, id)))
    && (forall x: nat :: x != child && IsChild(b.nodes, x, id) ==> c.nodes[x] == b.nodes[x])
  }

  predicate IsChild(nodes: Nodes, x: nat, id: nat) { x in nodes && nodes[x].item.parent == id }

  lemma AdoptedAgain(b: Broker, id: nat, node: Node, info: Info, child: nat)
    requires StillThere(b, id, node) && IsFor(b.nodes, child, id, node.access, info.source)
    ensures TakenIn(b, AdoptAgain(b, id, node, info, child), id, node, info, child)
  {
    assert NodeOk(b.nodes, b.nextID, id) && NodeOk(b.nodes, b.nextID, child);
    forall x <- b.nodes | x != child && b.nodes[x].item.parent == id ensures !InSubtree(b.nodes, x, child) {
      NotBelowSibling(b.nodes, b.nextID, id, x, child);
    }
  }

  lemma AdoptedNew(b: Broker, id: nat, node: Node, info: Info)
    requires StillThere(b, id, node)
    ensures TakenIn(b, AdoptNew(b, id, node, info), id, node, info, b.nextID)
  {
    forall x <- b.nodes ensures x < b.nextID { assert NodeOk(b.nodes, b.nextID, x); }
  }

  lemma Adopted(b: Broker, id: nat, node: Node, info: Info)
    requires StillThere(b, id, node)
    ensures var (c, child) := Adopt(b, id, node, info); TakenIn(b, c, id, node, info, child)
  {
    match Find(b.nodes, id, node.access, info.source)
    case Some(child) => AdoptedAgain(b, id, node, info, child);
    case None => AdoptedNew(b, id, node, info);
  }

  // ---- Taking in all entries ----

  /** One child for each entry, and the children there were before. */
  ghost predicate AllTakenIn(b: Broker, c: Broker, id: nat, node: Node, infos: seq<Info>, children: seq<nat>) {
    && |children| == |infos|
    && (forall k :: 0 <= k < |infos| ==>
          IsFor(c.nodes, children[k], id, node.access, infos[k].source) && Reports(infos[k], c.nodes[children[k]].item))
    && (forall x: nat :: IsChild(b.nodes, x, id) ==> IsChild(c.nodes, x, id) && Same(c.nodes[x], b.nodes[x]))
    && (forall x: nat :: IsChild(c.nodes, x, id) ==> IsChild(b.nodes, x, id) || x in children)
  }

  predicate SourcesDistinct(infos: seq<Info>) { forall j, k :: 0 <= j < k < |infos| ==> infos[j].source != infos[k].source }

  lemma AllTakenNext(b: Broker, before: Broker, c: Broker, id: nat, node: Node, infos: seq<Info>, children: seq<nat>, child: nat)
    requires infos != [] && SourcesDistinct(infos)
    requires AllTakenIn(b, before, id, node, infos[..|infos| - 1], children)
    requires TakenIn(before, c, id, node, infos[|infos| - 1], child)
    ensures AllTakenIn(b, c, id, node, infos, children + [child])
  {
    var last := |infos| - 1;
    forall k | 0 <= k < last
      ensures IsFor(c.nodes, children[k], id, node.access, infos[k].source) && Reports(infos[k], c.nodes[children[k]].item)
    {
      assert IsFor(before.nodes, children[k], id, node.access, infos[k].source) by { assert infos[..last][k] == infos[k]; }
      assert infos[k].source != infos[last].source;
    }
  }

  lemma {:induction false} AllAdopted(b: Broker, id: nat, node: Node, infos: seq<Info>)
    requires StillThere(b, id, node) && SourcesDistinct(infos)
    ensures var (c, children) := AdoptAll(b, id, node, infos); AllTakenIn(b, c, id, node, infos, children)
    decreases |infos|
  {
    if infos != [] {
      var front := infos[..|infos| - 1];
      AllAdopted(b, id, node, front);
      AdoptAllOk(b, id, node, front);
      var (before, children) := AdoptAll(b, id, node, front);
      Adopted(before, id, node, infos[|infos| - 1]);
      var (c, child) := Adopt(before, id, node, infos[|infos| - 1]);
      AllTakenNext(b, before, c, id, node, infos, children, child);
    }
  }

  // ---- Which entries are taken in ----

  predicate IsEntry(info: Info) { info.kind.File? || info.kind.Directory? }

  /** The files and directories among what was reported lie in the directory, are well-formed,
      and are all different. */
  predicate Listable(source: Source, infos: seq<Info>) {
    && (forall info <- infos | IsEntry(info) ::
          Validate(info, info.source) && info.source[..|info.source| - 1] == source)
    && EntriesDistinct(infos)
  }

  predicate EntriesDistinct(infos: seq<Info>) {
    forall j, k :: 0 <= j < k < |infos| && IsEntry(infos[j]) && IsEntry(infos[k]) ==> infos[j].source != infos[k].source
  }

  predicate AllListable(source: Source, infos: seq<Info>) {
    && (forall info <- infos :: Validate(info, info.source) && info.source[..|info.source| - 1] == source)
    && SourcesDistinct(infos)
  }

  lemma LastListable(source: Source, front: seq<Info>, last: Info)
    ensures AllListable(source, front + [last])
            <==> AllListable(source, front) && Validate(last, last.source) && last.source[..|last.source| - 1] == source
                 && forall info <- front :: info.source != last.source
  {
    LastDistinct(front, last);
    assert forall info :: info in front + [last] <==> info in front || info == last;
  }

  lemma {:induction false} FaultExactly(source: Source, infos: seq<Info>)
    ensures Fault(source, infos).None? <==> AllListable(source, infos)
  {
    if infos != [] {
      var front, last := infos[..|infos| - 1], infos[|infos| - 1];
      assert infos == front + [last];
      FaultExactly(source, front);
      LastListable(source, front, last);
    }
  }

  lemma {:induction false} ListedIs(infos: seq<Info>)
    ensures forall info :: info in Listed(infos) <==> info in infos && IsEntry(info)
  {
    if infos != [] {
      ListedIs(infos[..|infos| - 1]);
      assert infos == infos[..|infos| - 1] + [infos[|infos| - 1]];
    }
  }

  /** Leaving out what is no entry keeps the rest apart. */
  lemma {:induction false} ListedDistinct(infos: seq<Info>)
    ensures SourcesDistinct(Listed(infos)) <==> EntriesDistinct(infos)
  {
    if infos != [] {
      var front, last := infos[..|infos| - 1], infos[|infos| - 1];
      assert infos == front + [last];
      ListedDistinct(front);
      ListedIs(front);
      LastDistinct(Listed(front), last);
      LastEntryDistinct(front, last);
      ListedLast(front, last);
    }
  }

  lemma ListedLast(front: seq<Info>, last: Info)
    ensures Listed(front + [last]) == if IsEntry(last) then Listed(front) + [last] else Listed(front)
  {
    assert (front + [last])[..|front|] == front;
  }

  lemma LastDistinct(front: seq<Info>, last: Info)
    ensures SourcesDistinct(front + [last]) <==> SourcesDistinct(front) && forall info <- front :: info.source != last.source
  {
    var all := front + [last];
    assert forall j :: 0 <= j < |front| ==> all[j] == front[j];
    if SourcesDistinct(all) {
      forall info <- front ensures info.source != last.source {
        var j :| 0 <= j < |front| && front[j] == info;
        assert all[j].source != all[|front|].source;
      }
    }
  }

  lemma LastEntryDistinct(front: seq<Info>, last: Info)
    ensures EntriesDistinct(front + [last])
            <==> EntriesDistinct(front) && (IsEntry(last) ==> forall info <- front | IsEntry(info) :: info.source != last.source)
  {
    var all := front + [last];
    assert forall j :: 0 <= j < |front| ==> all[j] == front[j];
    if EntriesDistinct(all) && IsEntry(last) {
      forall info <- front | IsEntry(info) ensures info.source != last.source {
        var j :| 0 <= j < |front| && front[j] == info;
        assert IsEntry(all[j]) && IsEntry(all[|front|]);
      }
    }
  }

  lemma ListableExactly(source: Source, infos: seq<Info>)
    ensures Fault(source, Listed(infos)).None? <==> Listable(source, infos)
  {
    FaultExactly(source, Listed(infos));
    ListedIs(infos);
    ListedDistinct(infos);
  }

  // ---- The listing ----

  lemma ChildStays(c: Broker, id: nat, present: seq<nat>, x: nat)
    requires TreeOk(c.nodes, c.nextID) && id in c.nodes && FIRST <= id
    ensures IsChild(Pruning(c.nodes, Missing(c.nodes, id, present)), x, id) <==> IsChild(c.nodes, x, id) && x in present
  {
    var missing := Missing(c.nodes, id, present);
    if IsChild(c.nodes, x, id) {
      if x in present {
        forall k <- missing ensures !InSubtree(c.nodes, x, k) { NotBelowSibling(c.nodes, c.nextID, id, x, k); }
      } else {
        assert x in missing && InSubtree(c.nodes, x, x);
      }
    }
  }

  /** The node stands for what was reported. */
  predicate Stands(nodes: Nodes, x: nat, access: nat, info: Info) {
    x in nodes && nodes[x].source == info.source && nodes[x].access == access && Reports(info, nodes[x].item)
  }

  ghost predicate HasChildFor(nodes: Nodes, id: nat, access: nat, info: Info) {
    exists x: nat :: IsChild(nodes, x, id) && Stands(nodes, x, access, info)
  }

  predicate IsReported(nodes: Nodes, x: nat, access: nat, infos: seq<Info>) {
    exists info <- infos :: IsEntry(info) && Stands(nodes, x, access, info)
  }

  predicate SourceReported(source: Source, infos: seq<Info>) { exists info <- infos :: IsEntry(info) && info.source == source }

  /** The children of a directory are the files and directories that were reported, one for
      each, under the identifier and the name it had before if it had one. */
  ghost predicate HasListing(b: Broker, d: Broker, id: nat, access: nat, infos: seq<Info>) {
    && (forall info <- infos | IsEntry(info) :: HasChildFor(d.nodes, id, access, info))
    && (forall x: nat | IsChild(d.nodes, x, id) :: IsReported(d.nodes, x, access, infos))
    && (forall x: nat, y: nat :: IsChild(d.nodes, x, id) && IsChild(d.nodes, y, id) && x != y ==>
          d.nodes[x].source != d.nodes[y].source)
    && (forall x: nat :: IsChild(b.nodes, x, id) && SourceReported(b.nodes[x].source, infos) ==>
          IsChild(d.nodes, x, id) && Same(d.nodes[x], b.nodes[x]))
    && (forall x: nat :: IsChild(d.nodes, x, id) ==> IsChild(b.nodes, x, id) || x >= b.nextID)
  }

  lemma ChildAccess(nodes: Nodes, nextID: nat, id: nat, x: nat)
    requires TreeOk(nodes, nextID) && id in nodes && FIRST <= id && IsChild(nodes, x, id)
    ensures nodes[x].access == nodes[id].access
  {
    assert NodeOk(nodes, nextID, x);
  }

  /** Taken in and pruned of the rest. */
  ghost predicate Kept(c: Broker, d: Broker, id: nat, children: seq<nat>) {
    && (forall x: nat :: IsChild(d.nodes, x, id) <==> IsChild(c.nodes, x, id) && x in children)
    && (forall x <- d.nodes :: x in c.nodes && d.nodes[x] == c.nodes[x])
  }

  lemma EntriesHaveChildren(b: Broker, c: Broker, d: Broker, id: nat, node: Node, infos: seq<Info>, children: seq<nat>)
    requires AllTakenIn(b, c, id, node, Listed(infos), children) && Kept(c, d, id, children)
    ensures forall info <- infos | IsEntry(info) :: HasChildFor(d.nodes, id, node.access, info)
    ensures forall x: nat | IsChild(d.nodes, x, id) :: IsReported(d.nodes, x, node.access, infos)
  {
    var listed := Listed(infos);
    ListedIs(infos);
    forall info <- infos | IsEntry(info) ensures HasChildFor(d.nodes, id, node.access, info) {
      var k :| 0 <= k < |listed| && listed[k] == info;
      assert IsFor(c.nodes, children[k], id, node.access, listed[k].source);
      assert IsChild(d.nodes, children[k], id) && Stands(d.nodes, children[k], node.access, info);
    }
    forall x: nat | IsChild(d.nodes, x, id) ensures IsReported(d.nodes, x, node.access, infos) {
      var k :| 0 <= k < |children| && children[k] == x;
      assert listed[k] in listed && Stands(d.nodes, x, node.access, listed[k]);
    }
  }

  lemma ChildrenDiffer(c: Broker, d: Broker, id: nat, node: Node, children: seq<nat>)
    requires StillThere(c, id, node) && FIRST <= id && Kept(c, d, id, children)
    ensures forall x: nat, y: nat :: IsChild(d.nodes, x, id) && IsChild(d.nodes, y, id) && x != y ==>
              d.nodes[x].source != d.nodes[y].source
  {
    forall x: nat, y: nat | IsChild(d.nodes, x, id) && IsChild(d.nodes, y, id) && x != y
      ensures d.nodes[x].source != d.nodes[y].source
    {
      ChildAccess(c.nodes, c.nextID, id, x);
      ChildAccess(c.nodes, c.nextID, id, y);
      assert SourcesDiffer(c.nodes, x, y);
    }
  }

  lemma OldChildrenKept(b: Broker, c: Broker, d: Broker, id: nat, node: Node, infos: seq<Info>, children: seq<nat>)
    requires StillThere(c, id, node) && FIRST <= id && Kept(c, d, id, children)
    requires Evolves(b.nodes, b.nextID, c.nodes, c.nextID) && AllTakenIn(b, c, id, node, Listed(infos), children)
    ensures forall x: nat :: IsChild(b.nodes, x, id) && SourceReported(b.nodes[x].source, infos) ==>
              IsChild(d.nodes, x, id) && Same(d.nodes[x], b.nodes[x])
    ensures forall x: nat :: IsChild(d.nodes, x, id) ==> IsChild(b.nodes, x, id) || x >= b.nextID
  {
    var listed := Listed(infos);
    ListedIs(infos);
    forall x: nat | IsChild(b.nodes, x, id) && SourceReported(b.nodes[x].source, infos)
      ensures IsChild(d.nodes, x, id) && Same(d.nodes[x], b.nodes[x])
    {
      var info :| info in infos && IsEntry(info) && info.source == b.nodes[x].source;
      var k :| 0 <= k < |listed| && listed[k] == info;
      assert IsFor(c.nodes, children[k], id, node.access, listed[k].source) && IsChild(c.nodes, x, id);
      ChildAccess(c.nodes, c.nextID, id, x);
      assert SourcesDiffer(c.nodes, x, children[k]);
    }
    forall x: nat | IsChild(d.nodes, x, id) ensures IsChild(b.nodes, x, id) || x >= b.nextID {
      if x < b.nextID { assert x in c.nodes && Same(c.nodes[x], b.nodes[x]); }
    }
  }

  // ---- What hangs below ----

  /** Taking in the entry makes forget what hangs below the child there was for it. */
  predicate Drops(b: Broker, child: nat, info: Info, y: nat) {
    child in b.nodes && y != child && Changed(b.nodes[child].item, info) && InSubtree(b.nodes, y, child)
  }

  /** Nothing else happens to the other nodes. */
  ghost predicate LeavesRest(b: Broker, c: Broker, child: nat, info: Info) {
    && (forall y: nat :: y < b.nextID && y != child ==> (y in c.nodes <==> y in b.nodes && !Drops(b, child, info, y)))
    && (forall y: nat :: y < b.nextID && y != child && y in c.nodes ==> c.nodes[y] == b.nodes[y])
  }

  lemma AdoptAgainLeaves(b: Broker, id: nat, node: Node, info: Info, child: nat)
    requires child in b.nodes
    ensures LeavesRest(b, AdoptAgain(b, id, node, info, child), child, info)
  {
  }

  lemma AdoptNewLeaves(b: Broker, id: nat, node: Node, info: Info)
    requires BrokerOk(b)
    ensures LeavesRest(b, AdoptNew(b, id, node, info), b.nextID, info)
  {
    forall x <- b.nodes ensures x < b.nextID { assert NodeOk(b.nodes, b.nextID, x); }
  }

  lemma AdoptLeaves(b: Broker, id: nat, node: Node, info: Info)
    requires StillThere(b, id, node)
    ensures var (c, child) := Adopt(b, id, node, info); LeavesRest(b, c, child, info)
  {
    match Find(b.nodes, id, node.access, info.source)
    case Some(child) => AdoptAgainLeaves(b, id, node, info, child);
    case None => AdoptNewLeaves(b, id, node, info);
  }

  ghost predicate DropsAny(b: Broker, infos: seq<Info>, children: seq<nat>, y: nat)
    requires |children| == |infos|
  {
    exists k :: 0 <= k < |infos| && Drops(b, children[k], infos[k], y)
  }

  ghost predicate AllLeaveRest(b: Broker, c: Broker, infos: seq<Info>, children: seq<nat>) {
    && |children| == |infos|
    && (forall y: nat :: y < b.nextID && y !in children ==> (y in c.nodes <==> y in b.nodes && !DropsAny(b, infos, children, y)))
    && (forall y: nat :: y < b.nextID && y !in children && y in c.nodes ==> c.nodes[y] == b.nodes[y])
  }

  /** A child that is taken in now is as it was, if it was there at all. */
  lemma DropsLater(b: Broker, c: Broker, id: nat, child: nat, info: Info, y: nat)
    requires BrokerOk(b) && BrokerOk(c) && Evolves(b.nodes, b.nextID, c.nodes, c.nextID) && y < b.nextID && y in c.nodes
    requires child in c.nodes && child < b.nextID ==> c.nodes[child] == b.nodes[child]
    requires child in b.nodes ==> child in c.nodes
    ensures Drops(c, child, info, y) <==> Drops(b, child, info, y)
  {
    EvolvedSubtree(b.nodes, b.nextID, c.nodes, c.nextID, y, child);
    if child in c.nodes && child >= b.nextID && InSubtree(c.nodes, y, child) { SubtreeIsLater(c.nodes, y, child); }
    if child in b.nodes { assert NodeOk(b.nodes, b.nextID, child); }
  }

  lemma RestLeftNext(b: Broker, before: Broker, c: Broker, id: nat, infos: seq<Info>, children: seq<nat>, child: nat)
    requires infos != [] && AllLeaveRest(b, before, infos[..|infos| - 1], children)
    requires BrokerOk(b) && BrokerOk(before) && Evolves(b.nodes, b.nextID, before.nodes, before.nextID)
    requires LeavesRest(before, c, child, infos[|infos| - 1]) && child !in children
    requires child in before.nodes && child < b.nextID ==> before.nodes[child] == b.nodes[child]
    requires child in b.nodes ==> child in before.nodes
    ensures AllLeaveRest(b, c, infos, children + [child])
  {
    var last := |infos| - 1;
    var front, all := infos[..last], children + [child];
    forall y: nat | y < b.nextID && y !in all
      ensures y in c.nodes <==> y in b.nodes && !DropsAny(b, infos, all, y)
      ensures y in c.nodes ==> c.nodes[y] == b.nodes[y]
    {
      if y in before.nodes { DropsLater(b, before, id, child, infos[last], y); }
      DropsOneMore(b, infos, children, child, y);
    }
  }

  lemma DropsOneMore(b: Broker, infos: seq<Info>, children: seq<nat>, child: nat, y: nat)
    requires infos != [] && |children| == |infos| - 1
    ensures DropsAny(b, infos, children + [child], y)
            <==> DropsAny(b, infos[..|infos| - 1], children, y) || Drops(b, child, infos[|infos| - 1], y)
  {
    var front, all := infos[..|infos| - 1], children + [child];
    assert all[|infos| - 1] == child;
    if DropsAny(b, front, children, y) {
      var k :| 0 <= k < |front| && Drops(b, children[k], front[k], y);
      assert Drops(b, all[k], infos[k], y);
    }
    if DropsAny(b, infos, all, y) {
      var k :| 0 <= k < |infos| && Drops(b, all[k], infos[k], y);
      if k < |front| { assert Drops(b, children[k], front[k], y); }
    }
  }

  /** The child for the next entry is none of those before, and was not touched. */
  lemma NextIsAnother(b: Broker, before: Broker, c: Broker, id: nat, node: Node, infos: seq<Info>, children: seq<nat>, child: nat)
    requires infos != [] && SourcesDistinct(infos) && StillThere(b, id, node)
    requires AllTakenIn(b, before, id, node, infos[..|infos| - 1], children)
    requires TakenIn(before, c, id, node, infos[|infos| - 1], child)
    ensures child !in children
  {
    var front := infos[..|infos| - 1];
    forall k | 0 <= k < |children| ensures children[k] != child {
      assert IsFor(before.nodes, children[k], id, node.access, front[k].source) && front[k] == infos[k];
    }
  }

  lemma {:induction false} AllLeave(b: Broker, id: nat, node: Node, infos: seq<Info>)
    requires StillThere(b, id, node) && SourcesDistinct(infos)
    ensures var (c, children) := AdoptAll(b, id, node, infos); AllLeaveRest(b, c, infos, children)
    decreases |infos|
  {
    if infos != [] {
      var front, last := infos[..|infos| - 1], infos[|infos| - 1];
      AllLeave(b, id, node, front);
      AllAdopted(b, id, node, front);
      AdoptAllOk(b, id, node, front);
      var (before, children) := AdoptAll(b, id, node, front);
      Adopted(before, id, node, last);
      AdoptLeaves(before, id, node, last);
      var (c, child) := Adopt(before, id, node, last);
      NextIsAnother(b, before, c, id, node, infos, children, child);
      NextUntouched(b, before, c, id, node, infos, children, child);
      RestLeftNext(b, before, c, id, infos, children, child);
    }
  }

  lemma NextUntouched(b: Broker, before: Broker, c: Broker, id: nat, node: Node, infos: seq<Info>, children: seq<nat>, child: nat)
    requires infos != [] && StillThere(b, id, node) && StillThere(before, id, node)
    requires AllLeaveRest(b, before, infos[..|infos| - 1], children) && child !in children
    requires AllTakenIn(b, before, id, node, infos[..|infos| - 1], children)
    requires Evolves(b.nodes, b.nextID, before.nodes, before.nextID)
    requires TakenIn(before, c, id, node, infos[|infos| - 1], child) && c.nextID >= before.nextID
    ensures child in before.nodes && child < b.nextID ==> before.nodes[child] == b.nodes[child]
    ensures child in b.nodes ==> child in before.nodes
  {
    if child in b.nodes {
      assert NodeOk(b.nodes, b.nextID, child);
      assert child < before.nextID;
    }
  }

  /** Some child above was not reported any more, or was a directory that changed. */
  ghost predicate Forgets(b: Broker, id: nat, infos: seq<Info>, y: nat) {
    exists x: nat :: ForgetsBelow(b, id, infos, x) && InSubtree(b.nodes, y, x)
  }

  predicate ForgetsBelow(b: Broker, id: nat, infos: seq<Info>, x: nat) {
    IsChild(b.nodes, x, id)
    && forall info <- infos :: IsEntry(info) && info.source == b.nodes[x].source ==> Changed(b.nodes[x].item, info)
  }

  /** The one entry for a child there was before. */
  lemma EntryOfChild(b: Broker, c: Broker, id: nat, node: Node, infos: seq<Info>, children: seq<nat>, x: nat, k: nat)
    requires StillThere(b, id, node) && StillThere(c, id, node) && FIRST <= id
    requires AllTakenIn(b, c, id, node, Listed(infos), children)
    requires IsChild(b.nodes, x, id) && 0 <= k < |Listed(infos)| && Listed(infos)[k].source == b.nodes[x].source
    ensures children[k] == x
  {
    assert IsFor(c.nodes, children[k], id, node.access, Listed(infos)[k].source) && IsChild(c.nodes, x, id);
    ChildAccess(c.nodes, c.nextID, id, x);
    assert SourcesDiffer(c.nodes, x, children[k]);
  }

  /** What the listing drops is what is below a child it forgets. */
  lemma DroppedIsForgotten(b: Broker, c: Broker, id: nat, node: Node, infos: seq<Info>, children: seq<nat>, y: nat)
    requires StillThere(b, id, node) && StillThere(c, id, node) && FIRST <= id && SourcesDistinct(Listed(infos))
    requires AllTakenIn(b, c, id, node, Listed(infos), children) && Evolves(b.nodes, b.nextID, c.nodes, c.nextID)
    requires y in b.nodes && !IsChild(b.nodes, y, id) && DropsAny(b, Listed(infos), children, y)
    ensures Forgets(b, id, infos, y)
  {
    var listed := Listed(infos);
    ListedIs(infos);
    var k :| 0 <= k < |listed| && Drops(b, children[k], listed[k], y);
    var x := children[k];
    assert IsFor(c.nodes, x, id, node.access, listed[k].source);
    assert NodeOk(b.nodes, b.nextID, x);
    assert Same(c.nodes[x], b.nodes[x]);
    forall info <- infos | IsEntry(info) && info.source == b.nodes[x].source ensures Changed(b.nodes[x].item, info) {
      var j :| 0 <= j < |listed| && listed[j] == info;
      assert j == k;
    }
    assert ForgetsBelow(b, id, infos, x);
  }

  lemma ForgottenIsDropped(b: Broker, c: Broker, id: nat, node: Node, infos: seq<Info>, children: seq<nat>, x: nat, y: nat)
    requires StillThere(b, id, node) && StillThere(c, id, node) && FIRST <= id
    requires AllTakenIn(b, c, id, node, Listed(infos), children)
    requires y in b.nodes && !IsChild(b.nodes, y, id) && ForgetsBelow(b, id, infos, x) && InSubtree(b.nodes, y, x)
    ensures DropsAny(b, Listed(infos), children, y) || (IsChild(c.nodes, x, id) && x !in children)
  {
    var listed := Listed(infos);
    ListedIs(infos);
    if x in children {
      var k :| 0 <= k < |children| && children[k] == x;
      assert IsFor(c.nodes, children[k], id, node.access, listed[k].source) && Same(c.nodes[x], b.nodes[x]);
      assert listed[k] in listed && Drops(b, children[k], listed[k], y);
    }
  }

  /** The listing leaves exactly what it does not forget of everything that is not in the
      directory itself. */
  ghost predicate ForgetsExactly(b: Broker, d: Broker, id: nat, infos: seq<Info>) {
    forall y <- b.nodes | !IsChild(b.nodes, y, id) ::
      && (y in d.nodes <==> !Forgets(b, id, infos, y))
      && (y in d.nodes ==> d.nodes[y] == b.nodes[y])
  }

  lemma PrunedExactly(c: Broker, id: nat, children: seq<nat>, y: nat)
    ensures y in Pruning(c.nodes, Missing(c.nodes, id, children)) <==>
            y in c.nodes && forall x: nat :: IsChild(c.nodes, x, id) && x !in children ==> !InSubtree(c.nodes, y, x)
  {
    var missing := Missing(c.nodes, id, children);
    assert forall x: nat :: x in missing <==> IsChild(c.nodes, x, id) && x !in children;
  }

  lemma RestOfListing(b: Broker, c: Broker, id: nat, node: Node, infos: seq<Info>, children: seq<nat>, y: nat)
    requires StillThere(b, id, node) && StillThere(c, id, node) && FIRST <= id && SourcesDistinct(Listed(infos))
    requires AllTakenIn(b, c, id, node, Listed(infos), children) && Evolves(b.nodes, b.nextID, c.nodes, c.nextID)
    requires AllLeaveRest(b, c, Listed(infos), children) && y in b.nodes && !IsChild(b.nodes, y, id)
    ensures y in Pruning(c.nodes, Missing(c.nodes, id, children)) <==> !Forgets(b, id, infos, y)
    ensures y in c.nodes ==> c.nodes[y] == b.nodes[y]
  {
    assert NodeOk(b.nodes, b.nextID, y);
    NotAmongChildren(b, c, id, node, infos, children, y);
    PrunedExactly(c, id, children, y);
    if y in c.nodes { RestStays(b, c, id, node, infos, children, y); }
    if DropsAny(b, Listed(infos), children, y) { DroppedIsForgotten(b, c, id, node, infos, children, y); }
  }

  lemma NotAmongChildren(b: Broker, c: Broker, id: nat, node: Node, infos: seq<Info>, children: seq<nat>, y: nat)
    requires BrokerOk(b) && AllTakenIn(b, c, id, node, Listed(infos), children) && Evolves(b.nodes, b.nextID, c.nodes, c.nextID)
    requires y in b.nodes && !IsChild(b.nodes, y, id)
    ensures y !in children && y < b.nextID
  {
    assert NodeOk(b.nodes, b.nextID, y);
    forall k | 0 <= k < |children| ensures children[k] != y {
      assert IsFor(c.nodes, children[k], id, node.access, Listed(infos)[k].source);
    }
  }

  lemma RestStays(b: Broker, c: Broker, id: nat, node: Node, infos: seq<Info>, children: seq<nat>, y: nat)
    requires StillThere(b, id, node) && StillThere(c, id, node) && FIRST <= id && SourcesDistinct(Listed(infos))
    requires AllTakenIn(b, c, id, node, Listed(infos), children) && Evolves(b.nodes, b.nextID, c.nodes, c.nextID)
    requires y in b.nodes && !IsChild(b.nodes, y, id) && y in c.nodes && !DropsAny(b, Listed(infos), children, y)
    ensures Forgets(b, id, infos, y) <==> exists x: nat :: IsChild(c.nodes, x, id) && x !in children && InSubtree(c.nodes, y, x)
  {
    assert NodeOk(b.nodes, b.nextID, y);
    if Forgets(b, id, infos, y) {
      var x: nat :| ForgetsBelow(b, id, infos, x) && InSubtree(b.nodes, y, x);
      ForgottenIsDropped(b, c, id, node, infos, children, x, y);
      EvolvedSubtree(b.nodes, b.nextID, c.nodes, c.nextID, y, x);
    }
    if x: nat :| IsChild(c.nodes, x, id) && x !in children && InSubtree(c.nodes, y, x) {
      EvolvedSubtree(b.nodes, b.nextID, c.nodes, c.nextID, y, x);
      MissingIsForgotten(b, c, id, node, infos, children, x);
    }
  }

  lemma MissingIsForgotten(b: Broker, c: Broker, id: nat, node: Node, infos: seq<Info>, children: seq<nat>, x: nat)
    requires StillThere(b, id, node) && StillThere(c, id, node) && FIRST <= id
    requires AllTakenIn(b, c, id, node, Listed(infos), children) && IsChild(c.nodes, x, id) && x !in children
    ensures ForgetsBelow(b, id, infos, x)
  {
    var listed := Listed(infos);
    ListedIs(infos);
    assert IsChild(b.nodes, x, id);
    forall info <- infos ensures !(IsEntry(info) && info.source == b.nodes[x].source) {
      if IsEntry(info) && info.source == b.nodes[x].source {
        var k :| 0 <= k < |listed| && listed[k] == info;
        EntryOfChild(b, c, id, node, infos, children, x, k);
      }
    }
  }

  /** A listing is answered exactly if nothing was revoked meanwhile and the directory can be
      listed, and then it is what the machine reported, with nothing left of what is gone. */
  lemma ListingAnswers(b: Broker, op: Op, infos: seq<Info>)
    requires BrokerOk(b) && op.Listing? && (op.id in b.nodes ==> Same(b.nodes[op.id], op.node))
    ensures var (d, outcome) := ResumeList(b, op, infos);
            && (outcome.Answers? || outcome.Fails?)
            && (outcome.Answers? <==>
                  b.generation == op.token && op.id in b.nodes && !b.stopped && Listable(op.node.source, infos))
            && (outcome.Answers? ==>
                  && HasListing(b, d, op.id, op.node.access, infos)
                  && ForgetsExactly(b, d, op.id, infos)
                  && (forall x: nat :: x in outcome.items <==> IsChild(d.nodes, x, op.id))
                  && (forall x <- outcome.items :: outcome.items[x] == d.nodes[x].item))
            && (outcome.Fails? ==> d == b)
  {
    ListableExactly(op.node.source, infos);
    if b.generation == op.token && op.id in b.nodes && !b.stopped && Listable(op.node.source, infos) {
      FaultExactly(op.node.source, Listed(infos));
      assert NodeOk(b.nodes, b.nextID, op.id);
      ListingTaken(b, op.id, op.node, infos);
    }
  }

  lemma ListingTaken(b: Broker, id: nat, node: Node, infos: seq<Info>)
    requires StillThere(b, id, node) && FIRST <= id && SourcesDistinct(Listed(infos))
    ensures var (c, children) := AdoptAll(b, id, node, Listed(infos));
            var d := c.(nodes := Pruning(c.nodes, Missing(c.nodes, id, children)));
            HasListing(b, d, id, node.access, infos) && ForgetsExactly(b, d, id, infos)
  {
    AllAdopted(b, id, node, Listed(infos));
    AdoptAllOk(b, id, node, Listed(infos));
    var (c, children) := AdoptAll(b, id, node, Listed(infos));
    var d := c.(nodes := Pruning(c.nodes, Missing(c.nodes, id, children)));
    forall x: nat ensures IsChild(d.nodes, x, id) <==> IsChild(c.nodes, x, id) && x in children { ChildStays(c, id, children, x); }
    assert Kept(c, d, id, children);
    EntriesHaveChildren(b, c, d, id, node, infos, children);
    ChildrenDiffer(c, d, id, node, children);
    OldChildrenKept(b, c, d, id, node, infos, children);
    AllLeave(b, id, node, Listed(infos));
    forall y <- b.nodes | !IsChild(b.nodes, y, id)
      ensures (y in d.nodes <==> !Forgets(b, id, infos, y)) && (y in d.nodes ==> d.nodes[y] == b.nodes[y])
    {
      RestOfListing(b, c, id, node, infos, children, y);
    }
  }
}
