/** Whole runs of the broker, with any number of operations waiting at once. */
module BrokerRuns {
  import opened Bytes
  import opened Wrappers
  import opened SharedTree
  import opened BrokerState
  import opened BrokerInvariant
  import opened BrokerSteps

  /** The broker and the operations that wait, numbered as they began. */
  datatype World = World(b: Broker, ops: map<nat, Op>, count: nat)

  datatype Step =
    | BeginsPublish(files: seq<Source>, access: nat, purpose: Purpose)
    | BeginsRefresh(id: nat)
    | BeginsList(id: nat)
    | BeginsRead(id: nat, offset: nat, length: nat, version: Data)
    | Measures(op: nat, info: Info)
    | Mounts(op: nat, mounted: bool)
    | Refreshes(op: nat, info: Info)
    | Lists(op: nat, infos: seq<Info>)
    | Reads(op: nat, bytes: Data)
    | Abandons(op: nat)
    | Revokes(purpose: Purpose)
    | RevokesAll
    | Stops

  /** An operation is resumed by what it waits for; only a mount cannot be abandoned, because
      it ends the share when it fails. */
  predicate Allowed(w: World, step: Step) {
    match step
    case Measures(k, _) => k in w.ops && w.ops[k].Measuring? && |w.ops[k].infos| < |w.ops[k].files|
    case Mounts(k, _) => k in w.ops && w.ops[k].Mounting?
    case Refreshes(k, _) => k in w.ops && w.ops[k].Refreshing?
    case Lists(k, _) => k in w.ops && w.ops[k].Listing?
    case Reads(k, _) => k in w.ops && w.ops[k].Reading?
    case Abandons(k) => k in w.ops && !w.ops[k].Mounting?
    case _ => true
  }

  /** What the section does to the broker, and what it answers. */
  ghost function Section(w: World, step: Step): (Broker, Outcome)
    requires Allowed(w, step)
  {
    var b := w.b;
    match step
    case BeginsPublish(files, access, p) => BeginPublish(b, files, access, p)
    case BeginsRefresh(id) => (b, BeginRefresh(b, id))
    case BeginsList(id) => (b, BeginList(b, id))
    case BeginsRead(id, offset, length, version) => (b, BeginRead(b, id, offset, length, version))
    case Measures(k, info) => ResumeMeasure(b, w.ops[k], info)
    case Mounts(k, mounted) => ResumeMount(b, w.ops[k], mounted)
    case Refreshes(k, info) => ResumeRefresh(b, w.ops[k], info)
    case Lists(k, infos) => ResumeList(b, w.ops[k], infos)
    case Reads(k, bytes) => (b, ResumeRead(b, w.ops[k], bytes))
    case Abandons(k) => (b, Fails(Interrupted))
    case Revokes(p) => (Revoke(b, p), TheRoot)
    case RevokesAll => (RevokeAll(b), TheRoot)
    case Stops => (Stop(b), TheRoot)
  }

  function Resumed(step: Step): Option<nat> {
    match step
    case Measures(k, _) => Some(k)
    case Mounts(k, _) => Some(k)
    case Refreshes(k, _) => Some(k)
    case Lists(k, _) => Some(k)
    case Reads(k, _) => Some(k)
    case Abandons(k) => Some(k)
    case _ => None
  }

  ghost function After(w: World, step: Step): World
    requires Allowed(w, step)
  {
    var (b, outcome) := Section(w, step);
    var others := if Resumed(step).Some? then w.ops - {Resumed(step).value} else w.ops;
    if outcome.Waits? then World(b, others[w.count := outcome.op], w.count + 1) else World(b, others, w.count)
  }

  // ---- The invariant ----

  predicate PurposeTokenOk(b: Broker, token: Option<nat>) { token.Some? ==> token.value < b.tokens }

  predicate TokensOk(b: Broker) {
    b.generation < b.tokens && forall p <- b.purposeGenerations :: b.purposeGenerations[p] < b.tokens
  }

  predicate LooksAt(b: Broker, id: nat, node: Node) { id < b.nextID && (id in b.nodes ==> Same(b.nodes[id], node)) }

  ghost predicate OpOk(b: Broker, op: Op) {
    match op
    case Measuring(files, infos, _, _, token, purposeToken) =>
      && token < b.tokens && PurposeTokenOk(b, purposeToken)
      && |infos| <= |files| && forall j :: 0 <= j < |infos| ==> infos[j].source == files[j]
    case Mounting(ids, _, _, token, purposeToken) =>
      AreRoots(b.nodes, b.nextID, ids) && token < b.tokens && PurposeTokenOk(b, purposeToken)
    case Refreshing(id, node, _) => LooksAt(b, id, node)
    case Listing(id, node, _) => LooksAt(b, id, node)
    case Reading(id, node, _, _, _) => LooksAt(b, id, node)
  }

  ghost predicate WorldOk(w: World) {
    BrokerOk(w.b) && TokensOk(w.b) && forall k <- w.ops :: OpOk(w.b, w.ops[k])
  }

  ghost predicate Moves(b: Broker, c: Broker) {
    Evolves(b.nodes, b.nextID, c.nodes, c.nextID) && b.tokens <= c.tokens
  }

  lemma OpStays(b: Broker, c: Broker, op: Op)
    requires OpOk(b, op) && Moves(b, c)
    ensures OpOk(c, op)
  {
    if op.Mounting? { RootsStayRoots(b.nodes, b.nextID, c.nodes, c.nextID, op.ids); }
  }

  lemma CatalogFits(b: Broker, op: Op)
    requires BrokerOk(b) && TokensOk(b) && !b.stopped && op.Measuring? && OpOk(b, op)
    ensures var (c, mounting) := Catalog(b, op);
            BrokerOk(c) && TokensOk(c) && Moves(b, c) && OpOk(c, mounting)
  {
    CatalogOk(b, op);
    var (c, mounting) := Catalog(b, op);
    SelectAllOk(b, op.infos, op.access);
    forall id <- mounting.ids ensures id < c.nextID && c.nodes[id].item.parent == ROOT {
      assert NodeOk(c.nodes, c.nextID, id) && PendingOk(c.nodes, c.pending, id);
    }
  }

  ghost predicate SectionOk(b: Broker, c: Broker, outcome: Outcome) {
    BrokerOk(c) && TokensOk(c) && Moves(b, c) && (outcome.Waits? ==> OpOk(c, outcome.op))
  }

  lemma StartSectionOk(w: World, step: Step)
    requires WorldOk(w) && step.BeginsPublish?
    ensures SectionOk(w.b, Section(w, step).0, Section(w, step).1)
  {
    var op := Measuring(step.files, [], step.access, step.purpose, w.b.generation, PurposeToken(w.b, step.purpose));
    if !w.b.stopped && step.files == [] { CatalogFits(w.b, op); }
  }

  lemma MeasureSectionOk(w: World, step: Step)
    requires WorldOk(w) && Allowed(w, step) && step.Measures?
    ensures SectionOk(w.b, Section(w, step).0, Section(w, step).1)
  {
    var op := w.ops[step.op];
    assert OpOk(w.b, op);
    if Current(w.b, op.token, op.purpose, op.purposeToken) && Validate(step.info, op.files[|op.infos|]) {
      CatalogFits(w.b, op.(infos := op.infos + [step.info]));
    }
  }

  lemma MountSectionOk(w: World, step: Step)
    requires WorldOk(w) && Allowed(w, step) && step.Mounts?
    ensures SectionOk(w.b, Section(w, step).0, Section(w, step).1)
  {
    assert OpOk(w.b, w.ops[step.op]);
    ResumeMountOk(w.b, w.ops[step.op], step.mounted);
  }

  lemma BeginSectionOk(w: World, step: Step)
    requires WorldOk(w) && Allowed(w, step) && (step.BeginsRefresh? || step.BeginsList? || step.BeginsRead? || step.Reads? || step.Abandons?)
    ensures SectionOk(w.b, Section(w, step).0, Section(w, step).1)
  {
    var outcome := Section(w, step).1;
    if outcome.Waits? {
      var op := outcome.op;
      assert op.id in w.b.nodes && NodeOk(w.b.nodes, w.b.nextID, op.id);
    }
  }

  lemma LookSectionOk(w: World, step: Step)
    requires WorldOk(w) && Allowed(w, step) && (step.Refreshes? || step.Lists?)
    ensures SectionOk(w.b, Section(w, step).0, Section(w, step).1)
  {
    match step
    case Refreshes(k, info) =>
      assert OpOk(w.b, w.ops[k]);
      ResumeRefreshOk(w.b, w.ops[k], info);
    case Lists(k, infos) =>
      assert OpOk(w.b, w.ops[k]);
      ResumeListOk(w.b, w.ops[k], infos);
  }

  lemma RevokeSectionOk(w: World, step: Step)
    requires WorldOk(w) && Allowed(w, step) && (step.Revokes? || step.RevokesAll? || step.Stops?)
    ensures SectionOk(w.b, Section(w, step).0, Section(w, step).1)
  {
    match step
    case Revokes(p) => RevokeOk(w.b, p);
    case RevokesAll => RevokeAllOk(w.b);
    case Stops => RevokeAllOk(w.b.(stopped := true));
  }

  lemma SectionsOk(w: World, step: Step)
    requires WorldOk(w) && Allowed(w, step)
    ensures SectionOk(w.b, Section(w, step).0, Section(w, step).1)
  {
    match step
    case BeginsPublish(_, _, _) => StartSectionOk(w, step);
    case Measures(_, _) => MeasureSectionOk(w, step);
    case Mounts(_, _) => MountSectionOk(w, step);
    case Refreshes(_, _) => LookSectionOk(w, step);
    case Lists(_, _) => LookSectionOk(w, step);
    case Revokes(_) => RevokeSectionOk(w, step);
    case RevokesAll => RevokeSectionOk(w, step);
    case Stops => RevokeSectionOk(w, step);
    case _ => BeginSectionOk(w, step);
  }

  lemma AfterOk(w: World, step: Step)
    requires WorldOk(w) && Allowed(w, step)
    ensures WorldOk(After(w, step)) && Moves(w.b, After(w, step).b)
  {
    SectionsOk(w, step);
    var (b, outcome) := Section(w, step);
    var end := After(w, step);
    forall k <- end.ops ensures OpOk(b, end.ops[k]) {
      if k in w.ops && end.ops[k] == w.ops[k] { OpStays(w.b, b, w.ops[k]); }
    }
  }

  // ---- Runs ----

  /** Each step is possible when its turn comes. */
  ghost predicate Reaches(w: World, steps: seq<Step>, end: World)
    decreases |steps|
  {
    if steps == [] then end == w else Allowed(w, steps[0]) && Reaches(After(w, steps[0]), steps[1..], end)
  }

  /** The catalog is sound in every reachable state: parents exist and are older, siblings
      differ in name and in source, every node has the selection of its parent, every root is
      shared or about to be; and no identifier is ever used twice. */
  lemma {:induction false} RunOk(w: World, steps: seq<Step>, end: World)
    requires WorldOk(w) && Reaches(w, steps, end)
    ensures WorldOk(end) && Moves(w.b, end.b)
    decreases |steps|
  {
    if steps != [] {
      var next := After(w, steps[0]);
      AfterOk(w, steps[0]);
      RunOk(next, steps[1..], end);
      EvolvesFurther(w.b.nodes, w.b.nextID, next.b.nodes, next.b.nextID, end.b.nodes, end.b.nextID);
    }
  }

  const Idle := World(NewBroker, map[], 0)

  lemma {:induction false} AlwaysOk(steps: seq<Step>, end: World)
    requires Reaches(Idle, steps, end)
    ensures WorldOk(end)
  {
    RunOk(Idle, steps, end);
  }

  // ---- Revocation ----

  predicate About(op: Op, id: nat) { (op.Refreshing? || op.Listing? || op.Reading?) && op.id == id }

  /** Neither begun nor resumed does any operation on the identifier get an answer. */
  ghost predicate Unreachable(b: Broker, id: nat) {
    && BeginRefresh(b, id).Fails? && BeginList(b, id).Fails?
    && (forall offset: nat, length: nat, version :: BeginRead(b, id, offset, length, version).Fails?)
    && (forall op, info :: About(op, id) && op.Refreshing? ==> ResumeRefresh(b, op, info) == (b, Fails(Stale)))
    && (forall op, infos :: About(op, id) && op.Listing? ==> ResumeList(b, op, infos) == (b, Fails(Stale)))
    && (forall op, bytes :: About(op, id) && op.Reading? ==> ResumeRead(b, op, bytes) == Fails(Stale))
  }

  lemma GoneIsUnreachable(b: Broker, id: nat)
    requires id !in b.nodes && id != ROOT
    ensures Unreachable(b, id)
  {
  }

  /** What left the catalog never answers again, for operations that began before it left as
      well as for later ones. */
  lemma GoneForGood(w: World, steps: seq<Step>, end: World, id: nat)
    requires WorldOk(w) && Reaches(w, steps, end) && id < w.b.nextID && id !in w.b.nodes && id != ROOT
    ensures id !in end.b.nodes && Unreachable(end.b, id)
  {
    RunOk(w, steps, end);
    GoneIsUnreachable(end.b, id);
  }

  /** Revoking the last purpose of a root: nothing that was selected with it ever answers
      again. */
  lemma RevokedForGood(w: World, p: Purpose, root: nat, id: nat, steps: seq<Step>, end: World)
    requires WorldOk(w) && Loses(w.b, root, p) && InSubtree(w.b.nodes, id, root)
    requires Reaches(After(w, Revokes(p)), steps, end)
    ensures Unreachable(end.b, id)
  {
    SubtreeIsSelection(w.b.nodes, w.b.nextID, id, root);
    assert NodeOk(w.b.nodes, w.b.nextID, id);
    AfterOk(w, Revokes(p));
    GoneForGood(After(w, Revokes(p)), steps, end, id);
  }

  /** Revoking everything, or ejecting the volume: no identifier given out so far answers. */
  lemma AllRevokedForGood(w: World, id: nat, steps: seq<Step>, end: World)
    requires WorldOk(w) && id < w.b.nextID && id != ROOT && Reaches(After(w, RevokesAll), steps, end)
    ensures Unreachable(end.b, id)
  {
    AfterOk(w, RevokesAll);
    GoneForGood(After(w, RevokesAll), steps, end, id);
  }

  /** A mount comes to nothing: it failed, what it was for was revoked, or a root is gone. */
  predicate Misses(b: Broker, op: Op, mounted: bool)
    requires op.Mounting?
  {
    !mounted || !Current(b, op.token, op.purpose, op.purposeToken) || exists id <- op.ids :: id !in b.nodes
  }

  lemma MissedExactly(b: Broker, op: Op, mounted: bool, root: nat)
    requires BrokerOk(b) && op.Mounting? && AreRoots(b.nodes, b.nextID, op.ids) && Misses(b, op, mounted)
    requires root in b.nodes && b.nodes[root].item.parent == ROOT
    ensures root !in ResumeMount(b, op, mounted).0.nodes <==> root in op.ids && SharedOnlyBy(b, root, op.publication)
  {
    ReleasedExactly(b, op.ids, op.publication, root);
  }

  lemma MountedKeeps(b: Broker, op: Op, root: nat)
    requires BrokerOk(b) && op.Mounting? && AreRoots(b.nodes, b.nextID, op.ids) && !Misses(b, op, true)
    requires root in b.nodes && b.nodes[root].item.parent == ROOT
    ensures root in ResumeMount(b, op, true).0.nodes
  {
    var granted := b.(nodes := Grant(b.nodes, op.ids, op.purpose));
    GrantOk(b, op.ids, op.purpose);
    ReleasedExactly(granted, op.ids, op.publication, root);
    if root in op.ids { assert op.purpose in granted.nodes[root].purposes; }
  }

  /** The end of a share takes a root along if and only if the mount came to nothing, the root
      is one of the share's, and nobody else shares it. */
  lemma EndedExactly(w: World, k: nat, mounted: bool, root: nat)
    requires WorldOk(w) && k in w.ops && w.ops[k].Mounting?
    requires root in w.b.nodes && w.b.nodes[root].item.parent == ROOT
    ensures var op := w.ops[k];
            root !in After(w, Mounts(k, mounted)).b.nodes
            <==> Misses(w.b, op, mounted) && root in op.ids && SharedOnlyBy(w.b, root, op.publication)
  {
    var op := w.ops[k];
    assert OpOk(w.b, op);
    assert After(w, Mounts(k, mounted)).b == ResumeMount(w.b, op, mounted).0;
    if Misses(w.b, op, mounted) { MissedExactly(w.b, op, mounted, root); } else { MountedKeeps(w.b, op, root); }
  }

  /** A share that comes to nothing takes a root nobody else shares along, for good: nothing
      that was selected with it ever answers again. */
  lemma EndedForGood(w: World, k: nat, mounted: bool, root: nat, id: nat, steps: seq<Step>, end: World)
    requires WorldOk(w) && k in w.ops && w.ops[k].Mounting? && Misses(w.b, w.ops[k], mounted)
    requires root in w.b.nodes && w.b.nodes[root].item.parent == ROOT && InSubtree(w.b.nodes, id, root)
    requires root in w.ops[k].ids && SharedOnlyBy(w.b, root, w.ops[k].publication)
    requires Reaches(After(w, Mounts(k, mounted)), steps, end)
    ensures Unreachable(end.b, id)
  {
    var next := After(w, Mounts(k, mounted));
    EndedExactly(w, k, mounted, root);
    AfterOk(w, Mounts(k, mounted));
    assert NodeOk(w.b.nodes, w.b.nextID, id);
    SubtreeIsSelection(w.b.nodes, w.b.nextID, id, root);
    if id in next.b.nodes { SelectionIsRoot(next.b.nodes, next.b.nextID, id); }
    GoneForGood(next, steps, end, id);
  }

  /** Whatever answers belongs to a root shared at that very moment. */
  lemma AnswersAreShared(w: World, id: nat)
    requires WorldOk(w) && id in w.b.nodes
    ensures var root := w.b.nodes[id].selection;
            root in w.b.nodes && w.b.nodes[root].item.parent == ROOT && IsVisible(w.b, w.b.nodes[root])
  {
    var root := w.b.nodes[id].selection;
    SelectionIsRoot(w.b.nodes, w.b.nextID, id);
    assert RootHeld(w.b.nodes[root], w.b.pending, root);
    if root in w.b.pending { assert PendingOk(w.b.nodes, w.b.pending, root); }
  }

  lemma ReadsAreShared(w: World, op: Op, bytes: Data)
    requires WorldOk(w) && op.Reading? && ResumeRead(w.b, op, bytes).Contents?
    ensures op.id in w.b.nodes && w.b.nodes[op.id].selection in w.b.nodes
    ensures IsVisible(w.b, w.b.nodes[w.b.nodes[op.id].selection])
  {
    AnswersAreShared(w, op.id);
  }
}
