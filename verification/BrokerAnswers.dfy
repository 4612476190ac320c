/** What the broker answers otherwise: a refresh the file, a read its bytes, a publication the
    files that were selected; and when each of these begins. */
module BrokerAnswers {
  import opened Bytes
  import opened Wrappers
  import opened SharedNames
  import opened SharedTree
  import opened BrokerState
  import opened BrokerInvariant
  import opened BrokerSteps
  import opened BrokerRuns
  import opened BrokerListing

  // ---- Beginning ----

  /** In every reachable state an operation begins exactly if there is something to do it on: a
      publication unless the broker stopped, a refresh of any node, a listing of a directory, a
      read within the limits of a file that has the version asked for. */
  lemma OperationsBegin(w: World, id: nat, offset: nat, length: nat, version: Data, files: seq<Source>, access: nat, p: Purpose)
    requires WorldOk(w) && id != ROOT
    ensures BeginRefresh(w.b, id) == if id in w.b.nodes then Waits(Refreshing(id, w.b.nodes[id], w.b.generation)) else Fails(Stale)
    ensures BeginList(w.b, id) == if id in w.b.nodes && w.b.nodes[id].item.kind.Directory?
                                  then Waits(Listing(id, w.b.nodes[id], w.b.generation)) else Fails(NotDirectory)
    ensures BeginRead(w.b, id, offset, length, version).Waits? <==>
              && length <= MAXIMUM_READ && offset + length <= MAXIMUM_SIZE && 0 < |version| <= MAXIMUM_VERSION
              && id in w.b.nodes && w.b.nodes[id].item.kind.File? && w.b.nodes[id].item.version == version
    ensures BeginRead(w.b, id, offset, length, version).Waits? ==>
              BeginRead(w.b, id, offset, length, version).op == Reading(id, w.b.nodes[id], w.b.generation, version, length)
    ensures BeginPublish(w.b, files, access, p).1 == Fails(NotSupported) <==> w.b.stopped
    ensures !w.b.stopped ==>
              var outcome := BeginPublish(w.b, files, access, p).1;
              outcome.Waits? &&
              if files == [] then outcome.op.Mounting?
              else outcome.op == Measuring(files, [], access, p, w.b.generation, PurposeToken(w.b, p))
  {
    if id in w.b.nodes { AnswersAreShared(w, id); }
  }

  // ---- Refreshing ----

  /** A refresh is answered with what the machine reported, under the old name and in the old
      place, and only what hangs below a directory that changed is forgotten. */
  lemma RefreshAnswers(b: Broker, op: Op, info: Info)
    requires BrokerOk(b) && op.Refreshing? && (op.id in b.nodes ==> Same(b.nodes[op.id], op.node))
    ensures var (d, outcome) := ResumeRefresh(b, op, info);
            && (outcome.Answers? || outcome.Fails?)
            && (outcome.Answers? <==> b.generation == op.token && op.id in b.nodes && !b.stopped && Validate(info, op.node.source))
            && (outcome.Answers? ==>
                  && op.id in d.nodes && outcome.items == map[op.id := d.nodes[op.id].item]
                  && Same(d.nodes[op.id], b.nodes[op.id]) && Reports(info, d.nodes[op.id].item)
                  && (forall y: nat :: y != op.id ==>
                        (y in d.nodes <==> y in b.nodes && !(Changed(op.node.item, info) && InSubtree(b.nodes, y, op.id)))
                        && (y in d.nodes ==> d.nodes[y] == b.nodes[y])))
            && (outcome.Fails? ==> d == b)
  {
  }

  // ---- Reading ----

  /** Bytes that are returned were read from a file that had the version asked for when the read
      began and has it still, and there are no more than asked for. */
  lemma ReadAnswers(b: Broker, id: nat, offset: nat, length: nat, version: Data, b': Broker, bytes: Data)
    requires BeginRead(b, id, offset, length, version).Waits?
    requires ResumeRead(b', BeginRead(b, id, offset, length, version).op, bytes).Contents?
    ensures id in b.nodes && b.nodes[id].item.kind.File? && b.nodes[id].item.version == version
    ensures id in b'.nodes && b'.nodes[id].item.version == version && b'.nodes[id].source == b.nodes[id].source
    ensures b'.nodes[id].access == b.nodes[id].access && b'.generation == b.generation && !b'.stopped
    ensures ResumeRead(b', BeginRead(b, id, offset, length, version).op, bytes).bytes == bytes
    ensures |bytes| <= length <= MAXIMUM_READ && offset + length <= MAXIMUM_SIZE
  {
  }

  /** Such bytes are returned exactly if nothing was revoked and the file is still the one it
      was. */
  lemma ReadReturns(b: Broker, op: Op, bytes: Data)
    requires op.Reading?
    ensures ResumeRead(b, op, bytes).Contents? <==>
              && b.generation == op.token && !b.stopped && op.id in b.nodes && |bytes| <= op.length
              && b.nodes[op.id].item.version == op.version && b.nodes[op.id].source == op.node.source
              && b.nodes[op.id].access == op.node.access
  {
  }

  /** The root of the volume lists every root of the catalog. */
  lemma RootsAreListed(w: World)
    requires WorldOk(w)
    ensures BeginList(w.b, ROOT).Answers?
    ensures forall x: nat :: x in BeginList(w.b, ROOT).items <==> IsChild(w.b.nodes, x, ROOT)
    ensures forall x <- BeginList(w.b, ROOT).items :: BeginList(w.b, ROOT).items[x] == w.b.nodes[x].item
  {
    forall x <- w.b.nodes | w.b.nodes[x].item.parent == ROOT ensures IsVisible(w.b, w.b.nodes[x]) {
      AnswersAreShared(w, x);
      assert NodeOk(w.b.nodes, w.b.nextID, x);
    }
  }

  // ---- Publishing ----

  /** After a source was selected there is one root for it. */
  ghost predicate SelectedIn(b: Broker, c: Broker, access: nat, info: Info, id: nat) {
    && IsFor(c.nodes, id, ROOT, access, info.source) && Reports(info, c.nodes[id].item)
    && (if id in b.nodes then Same(c.nodes[id], b.nodes[id]) else id == b.nextID)
    && (forall x: nat :: x != id ==> (IsChild(c.nodes, x, ROOT) <==> IsChild(b.nodes, x, ROOT)))
    && (forall x: nat :: x != id && IsChild(b.nodes, x, ROOT) ==> c.nodes[x] == b.nodes[x])
  }

  lemma SelectedAgain(b: Broker, info: Info, access: nat, id: nat)
    requires NodesOk(b.nodes, b.nextID) && IsFor(b.nodes, id, ROOT, access, info.source)
    ensures SelectedIn(b, SelectAgain(b, id, info), access, info, id)
  {
    forall x <- b.nodes | x != id && b.nodes[x].item.parent == ROOT ensures !InSubtree(b.nodes, x, id) {
      RootHasNoAncestor(b.nodes, x, id);
    }
  }

  lemma SelectedAnew(b: Broker, info: Info, access: nat)
    requires NodesOk(b.nodes, b.nextID)
    ensures SelectedIn(b, SelectNew(b, info, access), access, info, b.nextID)
  {
    forall x <- b.nodes ensures x < b.nextID { assert NodeOk(b.nodes, b.nextID, x); }
  }

  lemma Selected(b: Broker, info: Info, access: nat)
    requires NodesOk(b.nodes, b.nextID)
    ensures var (c, id) := Select(b, info, access); SelectedIn(b, c, access, info, id)
  {
    match Find(b.nodes, ROOT, access, info.source)
    case Some(id) => SelectedAgain(b, info, access, id);
    case None => SelectedAnew(b, info, access);
  }

  /** One root for each source that was selected; the last report about it is what is shown. */
  ghost predicate AllSelectedIn(b: Broker, c: Broker, access: nat, infos: seq<Info>, ids: seq<nat>) {
    && |ids| == |infos|
    && (forall k :: 0 <= k < |infos| ==> IsFor(c.nodes, ids[k], ROOT, access, infos[k].source))
    && (forall k :: 0 <= k < |infos| && (forall j :: k < j < |infos| ==> infos[j].source != infos[k].source) ==>
          ids[k] in c.nodes && Reports(infos[k], c.nodes[ids[k]].item))
    && (forall x: nat :: IsChild(b.nodes, x, ROOT) ==> IsChild(c.nodes, x, ROOT) && Same(c.nodes[x], b.nodes[x]))
    && (forall x: nat :: IsChild(c.nodes, x, ROOT) ==> IsChild(b.nodes, x, ROOT) || x in ids)
  }

  lemma AllSelectedNext(b: Broker, before: Broker, c: Broker, access: nat, infos: seq<Info>, ids: seq<nat>, id: nat)
    requires infos != [] && AllSelectedIn(b, before, access, infos[..|infos| - 1], ids)
    requires SelectedIn(before, c, access, infos[|infos| - 1], id)
    ensures AllSelectedIn(b, c, access, infos, ids + [id])
  {
    var last := |infos| - 1;
    var front, all := infos[..last], ids + [id];
    forall k | 0 <= k < last
      ensures IsFor(c.nodes, all[k], ROOT, access, infos[k].source)
      ensures (forall j :: k < j < |infos| ==> infos[j].source != infos[k].source) ==> Reports(infos[k], c.nodes[all[k]].item)
    {
      assert front[k] == infos[k] && IsFor(before.nodes, ids[k], ROOT, access, front[k].source);
      assert all[k] == ids[k] && IsChild(before.nodes, ids[k], ROOT);
      if forall j :: k < j < |infos| ==> infos[j].source != infos[k].source {
        assert infos[last].source != infos[k].source;
        assert forall j :: k < j < |front| ==> front[j] == infos[j];
      }
    }
  }

  lemma {:induction false} AllSelected(b: Broker, infos: seq<Info>, access: nat)
    requires BrokerOk(b) && !b.stopped
    ensures var (c, ids) := SelectAll(b, infos, access); AllSelectedIn(b, c, access, infos, ids)
    decreases |infos|
  {
    if infos != [] {
      var front := infos[..|infos| - 1];
      AllSelected(b, front, access);
      SelectAllOk(b, front, access);
      var (before, ids) := SelectAll(b, front, access);
      Selected(before, infos[|infos| - 1], access);
      var (c, id) := Select(before, infos[|infos| - 1], access);
      AllSelectedNext(b, before, c, access, infos, ids, id);
    }
  }

  /** A mount is answered exactly if it succeeded, nothing it was for was revoked meanwhile, and
      every root is still there; then each root is shared for its purpose and visible. */
  lemma MountAnswers(b: Broker, op: Op, mounted: bool)
    requires BrokerOk(b) && op.Mounting? && AreRoots(b.nodes, b.nextID, op.ids)
    ensures var (d, outcome) := ResumeMount(b, op, mounted);
            && (outcome.Answers? || outcome.Fails?)
            && (outcome.Answers? <==> !Misses(b, op, mounted))
            && (outcome.Answers? ==>
                  && (forall x: nat :: x in outcome.items <==> x in op.ids)
                  && forall x <- outcome.items ::
                       && x in b.nodes && x in d.nodes && outcome.items[x] == b.nodes[x].item == d.nodes[x].item
                       && d.nodes[x].purposes == b.nodes[x].purposes + {op.purpose} && IsVisible(d, d.nodes[x]))
  {
    if !Misses(b, op, mounted) {
      forall x <- op.ids ensures var d := ResumeMount(b, op, mounted).0;
        x in b.nodes && x in d.nodes && d.nodes[x].item == b.nodes[x].item
        && d.nodes[x].purposes == b.nodes[x].purposes + {op.purpose} && d.nodes[x].published
      {
        MountedRoot(b, op, x);
      }
    }
  }

  lemma MountedRoot(b: Broker, op: Op, x: nat)
    requires BrokerOk(b) && op.Mounting? && AreRoots(b.nodes, b.nextID, op.ids) && !Misses(b, op, true) && x in op.ids
    ensures var d := ResumeMount(b, op, true).0;
            x in b.nodes && x in d.nodes && d.nodes[x].item == b.nodes[x].item
            && d.nodes[x].purposes == b.nodes[x].purposes + {op.purpose} && d.nodes[x].published
  {
    var granted := b.(nodes := Grant(b.nodes, op.ids, op.purpose));
    GrantOk(b, op.ids, op.purpose);
    ReleasedExactly(granted, op.ids, op.publication, x);
    assert op.purpose in granted.nodes[x].purposes;
  }

  /** The items are the roots of these files, one for each. */
  predicate ListsFiles(nodes: Nodes, access: nat, files: seq<Source>, items: map<nat, Item>) {
    && (forall x <- items ::
          IsChild(nodes, x, ROOT) && nodes[x].item == items[x] && nodes[x].access == access && nodes[x].source in files)
    && (forall source <- files :: exists x <- items :: x in nodes && nodes[x].source == source)
    && (forall x <- items, y <- items :: x in nodes && y in nodes && nodes[x].source == nodes[y].source ==> x == y)
  }

  /** The last file is measured and the publication goes on to be mounted. */
  ghost predicate Catalogs(w: World, k: nat, info: Info) {
    Allowed(w, Measures(k, info)) && Section(w, Measures(k, info)).1.Waits? && Section(w, Measures(k, info)).1.op.Mounting?
  }

  lemma Cataloged(w: World, k: nat, info: Info)
    requires WorldOk(w) && Catalogs(w, k, info)
    ensures var next, op, ids := After(w, Measures(k, info)), w.ops[k], Section(w, Measures(k, info)).1.op.ids;
            && |ids| == |op.files|
            && forall j :: 0 <= j < |op.files| ==> IsFor(next.b.nodes, ids[j], ROOT, op.access, op.files[j])
  {
    var op := w.ops[k];
    assert OpOk(w.b, op);
    var more := op.(infos := op.infos + [info]);
    CatalogSelects(w.b, more);
    assert forall j :: 0 <= j < |op.files| ==> more.infos[j].source == op.files[j];
  }

  /** From the last file measured to the answer, whatever happens in between: a publication that
      is answered lists exactly the roots of the files that were selected, one for each. */
  lemma PublicationAnswers(w: World, k: nat, info: Info, steps: seq<Step>, end: World, mounted: bool)
    requires WorldOk(w) && Catalogs(w, k, info) && Reaches(After(w, Measures(k, info)), steps, end)
    requires w.count in end.ops && end.ops[w.count] == Section(w, Measures(k, info)).1.op
    ensures var outcome := Section(end, Mounts(w.count, mounted)).1;
            outcome.Answers? ==> ListsFiles(end.b.nodes, w.ops[k].access, w.ops[k].files, outcome.items)
  {
    var next := After(w, Measures(k, info));
    Cataloged(w, k, info);
    AfterOk(w, Measures(k, info));
    PublicationRuns(next, w.count, end.ops[w.count], steps, end, w.ops[k].access, w.ops[k].files, mounted);
  }

  lemma PublicationRuns(next: World, j: nat, op: Op, steps: seq<Step>, end: World, access: nat, files: seq<Source>, mounted: bool)
    requires WorldOk(next) && Reaches(next, steps, end) && j in end.ops && end.ops[j] == op && op.Mounting?
    requires |op.ids| == |files| && forall i :: 0 <= i < |files| ==> IsFor(next.b.nodes, op.ids[i], ROOT, access, files[i])
    ensures var outcome := Section(end, Mounts(j, mounted)).1;
            outcome.Answers? ==> ListsFiles(end.b.nodes, access, files, outcome.items)
  {
    RunOk(next, steps, end);
    assert OpOk(end.b, op);
    MountListsFiles(next, end, op, access, files, mounted);
    assert Section(end, Mounts(j, mounted)).1 == ResumeMount(end.b, op, mounted).1;
  }

  lemma MountListsFiles(next: World, end: World, op: Op, access: nat, files: seq<Source>, mounted: bool)
    requires WorldOk(next) && WorldOk(end) && Evolves(next.b.nodes, next.b.nextID, end.b.nodes, end.b.nextID)
    requires op.Mounting? && OpOk(end.b, op) && |op.ids| == |files|
    requires forall j :: 0 <= j < |files| ==> IsFor(next.b.nodes, op.ids[j], ROOT, access, files[j])
    ensures var outcome := ResumeMount(end.b, op, mounted).1;
            outcome.Answers? ==> ListsFiles(end.b.nodes, access, files, outcome.items)
  {
    MountAnswers(end.b, op, mounted);
    var outcome := ResumeMount(end.b, op, mounted).1;
    if outcome.Answers? { RootsOfFiles(next.b, end.b, access, files, op.ids, outcome.items); }
  }

  lemma CatalogSelects(b: Broker, op: Op)
    requires BrokerOk(b) && !b.stopped && op.Measuring?
    ensures var (c, m) := Catalog(b, op);
            && m.Mounting? && |m.ids| == |op.infos|
            && forall k :: 0 <= k < |op.infos| ==> IsFor(c.nodes, m.ids[k], ROOT, op.access, op.infos[k].source)
  {
    AllSelected(b, op.infos, op.access);
    var (selected, ids) := SelectAll(b, op.infos, op.access);
    PendIs(selected, ids, b.tokens, op.purpose);
  }

  lemma RootsOfFiles(b: Broker, c: Broker, access: nat, files: seq<Source>, ids: seq<nat>, items: map<nat, Item>)
    requires BrokerOk(b) && BrokerOk(c) && Evolves(b.nodes, b.nextID, c.nodes, c.nextID) && |ids| == |files|
    requires forall k :: 0 <= k < |files| ==> IsFor(b.nodes, ids[k], ROOT, access, files[k])
    requires forall x: nat :: x in items <==> x in ids
    requires forall x <- items :: x in c.nodes && items[x] == c.nodes[x].item
    ensures ListsFiles(c.nodes, access, files, items)
  {
    forall x <- items ensures IsFor(c.nodes, x, ROOT, access, c.nodes[x].source) && c.nodes[x].source in files {
      var k :| 0 <= k < |ids| && ids[k] == x;
      assert IsFor(b.nodes, ids[k], ROOT, access, files[k]) && NodeOk(b.nodes, b.nextID, x);
    }
    forall source <- files ensures exists x <- items :: x in c.nodes && c.nodes[x].source == source {
      var k :| 0 <= k < |files| && files[k] == source;
      assert IsFor(b.nodes, ids[k], ROOT, access, files[k]) && NodeOk(b.nodes, b.nextID, ids[k]);
      assert ids[k] in items;
    }
    forall x <- items, y <- items | c.nodes[x].source == c.nodes[y].source ensures x == y { assert SourcesDiffer(c.nodes, x, y); }
  }
}
