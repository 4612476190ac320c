/** Whatever the machine reports, the catalog only ever shows well-formed items. */
module BrokerItems {
  import opened Bytes
  import opened Wrappers
  import opened SharedNames
  import opened SharedTree
  import opened BrokerState
  import opened BrokerInvariant
  import opened BrokerSteps
  import opened BrokerRuns
  import opened BrokerListing

  /** A version of 1 to 8192 bytes, a size that fits a signed 64-bit number, and a source whose last
      component is a file name. */
  predicate ItemValid(n: Node) {
    && 0 < |n.item.version| <= 8192 && n.item.size < 0x8000_0000_0000_0000 && !n.item.kind.Special?
    && n.source != []
    && var name := n.source[|n.source| - 1];
       0 < |name| <= 255 && name != [46] && name != [46, 46] && forall k :: 0 <= k < |name| ==> name[k] != 47 && name[k] != 0
  }

  ghost predicate ItemsValid(nodes: Nodes) { forall id <- nodes :: ItemValid(nodes[id]) }

  predicate InfoValid(info: Info) {
    && 0 < |info.version| <= 8192 && info.size < 0x8000_0000_0000_0000
    && info.source != []
    && var name := info.source[|info.source| - 1];
       0 < |name| <= 255 && name != [46] && name != [46, 46] && forall k :: 0 <= k < |name| ==> name[k] != 47 && name[k] != 0
  }

  lemma ValidateMeans(info: Info, source: Source)
    ensures Validate(info, source) <==> InfoValid(info) && info.source == source && !info.kind.Special?
  {
    if info.source != [] {
      var name := info.source[|info.source| - 1];
      assert (47 !in name && 0 !in name) <==> forall k :: 0 <= k < |name| ==> name[k] != 47 && name[k] != 0;
    }
  }

  ghost predicate OpValid(op: Op) {
    match op
    case Measuring(_, infos, _, _, _, _) => forall info <- infos :: InfoValid(info)
    case Refreshing(_, node, _) => ItemValid(node)
    case _ => true
  }

  ghost predicate WorldValid(w: World) { ItemsValid(w.b.nodes) && forall k <- w.ops :: OpValid(w.ops[k]) }

  lemma SelectValid(b: Broker, info: Info, access: nat)
    requires ItemsValid(b.nodes) && InfoValid(info)
    ensures ItemsValid(Select(b, info, access).0.nodes)
  {
  }

  lemma {:induction false} SelectAllValid(b: Broker, infos: seq<Info>, access: nat)
    requires ItemsValid(b.nodes) && forall info <- infos :: InfoValid(info)
    ensures ItemsValid(SelectAll(b, infos, access).0.nodes)
    decreases |infos|
  {
    if infos != [] {
      var front, last := infos[..|infos| - 1], infos[|infos| - 1];
      assert last in infos;
      SelectAllValid(b, front, access);
      SelectValid(SelectAll(b, front, access).0, last, access);
    }
  }

  lemma CatalogValid(b: Broker, op: Op)
    requires ItemsValid(b.nodes) && op.Measuring? && OpValid(op)
    ensures ItemsValid(Catalog(b, op).0.nodes)
  {
    SelectAllValid(b, op.infos, op.access);
    PendIs(SelectAll(b, op.infos, op.access).0, SelectAll(b, op.infos, op.access).1, b.tokens, op.purpose);
  }

  lemma AdoptValid(b: Broker, id: nat, node: Node, info: Info)
    requires ItemsValid(b.nodes) && InfoValid(info)
    ensures ItemsValid(Adopt(b, id, node, info).0.nodes)
  {
  }

  lemma {:induction false} AdoptAllValid(b: Broker, id: nat, node: Node, infos: seq<Info>)
    requires ItemsValid(b.nodes) && forall info <- infos :: InfoValid(info)
    ensures ItemsValid(AdoptAll(b, id, node, infos).0.nodes)
    decreases |infos|
  {
    if infos != [] {
      var front, last := infos[..|infos| - 1], infos[|infos| - 1];
      assert last in infos;
      AdoptAllValid(b, id, node, front);
      AdoptValid(AdoptAll(b, id, node, front).0, id, node, last);
    }
  }

  lemma ListValid(b: Broker, op: Op, infos: seq<Info>)
    requires ItemsValid(b.nodes) && op.Listing?
    ensures ItemsValid(ResumeList(b, op, infos).0.nodes)
  {
    var listed := Listed(infos);
    FaultExactly(op.node.source, listed);
    if Fault(op.node.source, listed).None? {
      forall info <- listed ensures InfoValid(info) { ValidateMeans(info, info.source); }
      AdoptAllValid(b, op.id, op.node, listed);
    }
  }

  lemma {:induction false} ReleaseAllValid(b: Broker, ids: seq<nat>, publication: nat)
    requires ItemsValid(b.nodes)
    ensures ItemsValid(ReleaseAll(b, ids, publication).nodes)
    decreases |ids|
  {
    if ids != [] { ReleaseAllValid(b, ids[..|ids| - 1], publication); }
  }

  lemma SectionValid(w: World, step: Step)
    requires WorldValid(w) && Allowed(w, step)
    ensures ItemsValid(Section(w, step).0.nodes)
    ensures Section(w, step).1.Waits? ==> OpValid(Section(w, step).1.op)
  {
    var b := w.b;
    match step
    case BeginsPublish(files, access, p) => CatalogValid(b, Measuring(files, [], access, p, b.generation, PurposeToken(b, p)));
    case Measures(k, info) => MeasureValid(w, k, info);
    case Mounts(k, mounted) => MountValid(b, w.ops[k]);
    case Refreshes(k, info) => RefreshValid(b, w.ops[k], info);
    case Lists(k, infos) => ListValid(b, w.ops[k], infos);
    case _ =>
  }

  lemma MeasureValid(w: World, k: nat, info: Info)
    requires WorldValid(w) && Allowed(w, Measures(k, info))
    ensures ItemsValid(ResumeMeasure(w.b, w.ops[k], info).0.nodes)
    ensures ResumeMeasure(w.b, w.ops[k], info).1.Waits? ==> OpValid(ResumeMeasure(w.b, w.ops[k], info).1.op)
  {
    var op := w.ops[k];
    assert OpValid(op);
    ValidateMeans(info, op.files[|op.infos|]);
    if Validate(info, op.files[|op.infos|]) { CatalogValid(w.b, op.(infos := op.infos + [info])); }
  }

  lemma MountValid(b: Broker, op: Op)
    requires ItemsValid(b.nodes) && op.Mounting?
    ensures forall mounted :: ItemsValid(ResumeMount(b, op, mounted).0.nodes)
  {
    ReleaseAllValid(b, op.ids, op.publication);
    ReleaseAllValid(b.(nodes := Grant(b.nodes, op.ids, op.purpose)), op.ids, op.publication);
  }

  lemma RefreshValid(b: Broker, op: Op, info: Info)
    requires ItemsValid(b.nodes) && op.Refreshing?
    ensures ItemsValid(ResumeRefresh(b, op, info).0.nodes)
  {
    ValidateMeans(info, op.node.source);
  }

  lemma StepValid(w: World, step: Step)
    requires WorldValid(w) && Allowed(w, step)
    ensures WorldValid(After(w, step))
  {
    SectionValid(w, step);
  }

  lemma {:induction false} RunValid(w: World, steps: seq<Step>, end: World)
    requires WorldValid(w) && Reaches(w, steps, end)
    ensures WorldValid(end)
    decreases |steps|
  {
    if steps != [] {
      StepValid(w, steps[0]);
      RunValid(After(w, steps[0]), steps[1..], end);
    }
  }

  /** In every reachable state. */
  lemma ItemsAreValid(steps: seq<Step>, end: World, id: nat)
    requires Reaches(Idle, steps, end) && id in end.b.nodes
    ensures ItemValid(end.b.nodes[id])
  {
    RunValid(Idle, steps, end);
  }

  // ---- Stopping ----

  lemma StaysStopped(w: World, step: Step)
    requires WorldOk(w) && Allowed(w, step) && w.b.stopped
    ensures After(w, step).b.stopped
  {
    SectionStopped(w, step);
  }

  lemma SectionStopped(w: World, step: Step)
    requires WorldOk(w) && Allowed(w, step) && w.b.stopped
    ensures Section(w, step).0.stopped
  {
    if step.Mounts? {
      assert OpOk(w.b, w.ops[step.op]);
      ReleaseAllOk(w.b, w.ops[step.op].ids, w.ops[step.op].publication);
    }
  }

  lemma {:induction false} RunStopped(w: World, steps: seq<Step>, end: World)
    requires WorldOk(w) && Reaches(w, steps, end) && w.b.stopped
    ensures WorldOk(end) && end.b.stopped
    decreases |steps|
  {
    if steps != [] {
      AfterOk(w, steps[0]);
      StaysStopped(w, steps[0]);
      RunStopped(After(w, steps[0]), steps[1..], end);
    }
  }

  /** A broker that was stopped shares nothing ever again. */
  lemma StoppedForGood(w: World, steps: seq<Step>, end: World, files: seq<Source>, access: nat, p: Purpose)
    requires WorldOk(w) && Reaches(After(w, Stops), steps, end)
    ensures end.b.stopped && end.b.nodes == map[] && BeginPublish(end.b, files, access, p) == (end.b, Fails(NotSupported))
  {
    AfterOk(w, Stops);
    RunStopped(After(w, Stops), steps, end);
  }
}
