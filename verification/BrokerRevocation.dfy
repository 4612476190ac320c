/** A revoked purpose stays revoked until it is published for again. */
module BrokerRevocation {
  import opened Bytes
  import opened Wrappers
  import opened SharedTree
  import opened BrokerState
  import opened BrokerInvariant
  import opened BrokerSteps
  import opened BrokerRuns

  // ---- What is shared for a purpose ----

  ghost predicate NodesFree(nodes: Nodes, p: Purpose) {
    forall x <- nodes :: nodes[x].item.parent == ROOT ==> p !in nodes[x].purposes
  }

  predicate SharesFree(shares: map<nat, Purpose>, p: Purpose) { forall k <- shares :: shares[k] != p }

  ghost predicate PendingFree(pending: map<nat, map<nat, Purpose>>, p: Purpose) { forall id <- pending :: SharesFree(pending[id], p) }

  /** Nothing is shared or about to be shared for the purpose. */
  ghost predicate Free(b: Broker, p: Purpose) { NodesFree(b.nodes, p) && PendingFree(b.pending, p) }

  lemma {:induction false} SelectAllFree(b: Broker, infos: seq<Info>, access: nat, p: Purpose)
    requires NodesFree(b.nodes, p)
    ensures var c := SelectAll(b, infos, access).0; NodesFree(c.nodes, p) && c.pending == b.pending
    decreases |infos|
  {
    if infos != [] { SelectAllFree(b, infos[..|infos| - 1], access, p); }
  }

  lemma CatalogFree(b: Broker, op: Op, p: Purpose)
    requires Free(b, p) && op.Measuring? && op.purpose != p
    ensures Free(Catalog(b, op).0, p)
  {
    SelectAllFree(b, op.infos, op.access, p);
    var (selected, ids) := SelectAll(b, op.infos, op.access);
    PendIs(selected, ids, b.tokens, op.purpose);
  }

  lemma {:induction false} ReleaseAllFree(b: Broker, ids: seq<nat>, publication: nat, p: Purpose)
    requires Free(b, p)
    ensures Free(ReleaseAll(b, ids, publication), p)
    decreases |ids|
  {
    if ids != [] { ReleaseAllFree(b, ids[..|ids| - 1], publication, p); }
  }

  lemma ResumeMountFree(b: Broker, op: Op, mounted: bool, p: Purpose)
    requires Free(b, p) && op.Mounting?
    requires op.purpose != p || !Current(b, op.token, p, op.purposeToken)
    ensures Free(ResumeMount(b, op, mounted).0, p)
  {
    ReleaseAllFree(b, op.ids, op.publication, p);
    if op.purpose != p { ReleaseAllFree(b.(nodes := Grant(b.nodes, op.ids, op.purpose)), op.ids, op.publication, p); }
  }

  lemma RevokeFrees(b: Broker, p: Purpose)
    ensures Free(Revoke(b, p), p)
  {
  }

  lemma RevokeFree(b: Broker, q: Purpose, p: Purpose)
    requires Free(b, p)
    ensures Free(Revoke(b, q), p)
  {
  }

  lemma {:induction false} AdoptAllFree(b: Broker, id: nat, node: Node, infos: seq<Info>, p: Purpose)
    requires NodesFree(b.nodes, p)
    ensures var c := AdoptAll(b, id, node, infos).0; NodesFree(c.nodes, p) && c.pending == b.pending
    decreases |infos|
  {
    if infos != [] { AdoptAllFree(b, id, node, infos[..|infos| - 1], p); }
  }

  lemma ResumeListFree(b: Broker, op: Op, infos: seq<Info>, p: Purpose)
    requires Free(b, p) && op.Listing?
    ensures Free(ResumeList(b, op, infos).0, p)
  {
    AdoptAllFree(b, op.id, op.node, Listed(infos), p);
  }

  lemma ResumeRefreshFree(b: Broker, op: Op, info: Info, p: Purpose)
    requires Free(b, p) && op.Refreshing? && (op.id in b.nodes ==> Same(b.nodes[op.id], op.node))
    ensures Free(ResumeRefresh(b, op, info).0, p)
  {
  }

  // ---- Publications that began before ----

  /** A publication for the purpose that can no longer succeed. */
  predicate Outdated(b: Broker, op: Op, p: Purpose) {
    (op.Measuring? || op.Mounting?) && op.purpose == p ==> PurposeToken(b, p) != op.purposeToken
  }

  ghost predicate Revoked(w: World, p: Purpose) {
    WorldOk(w) && Free(w.b, p) && forall k <- w.ops :: Outdated(w.b, w.ops[k], p)
  }

  predicate PublishesFor(step: Step, p: Purpose) { step.BeginsPublish? && step.purpose == p }

  lemma SectionFree(w: World, step: Step, p: Purpose)
    requires Revoked(w, p) && Allowed(w, step) && !PublishesFor(step, p)
    ensures Free(Section(w, step).0, p)
  {
    match step
    case BeginsPublish(files, access, q) =>
      CatalogFree(w.b, Measuring(files, [], access, q, w.b.generation, PurposeToken(w.b, q)), p);
    case Measures(k, info) =>
      var op := w.ops[k];
      assert Outdated(w.b, op, p);
      if op.purpose != p { CatalogFree(w.b, op.(infos := op.infos + [info]), p); }
    case Mounts(k, mounted) =>
      assert Outdated(w.b, w.ops[k], p);
      ResumeMountFree(w.b, w.ops[k], mounted, p);
    case Refreshes(k, info) =>
      assert OpOk(w.b, w.ops[k]);
      ResumeRefreshFree(w.b, w.ops[k], info, p);
    case Lists(k, infos) => ResumeListFree(w.b, w.ops[k], infos, p);
    case Revokes(q) => RevokeFree(w.b, q, p);
    case _ =>
  }

  /** The purpose's token only changes to a new one. */
  lemma SectionToken(w: World, step: Step, p: Purpose)
    requires WorldOk(w) && Allowed(w, step)
    ensures var c := Section(w, step).0;
            PurposeToken(c, p) == PurposeToken(w.b, p) || (step == Revokes(p) && PurposeToken(c, p) == Some(w.b.tokens))
  {
    SectionsOk(w, step);
    match step
    case BeginsPublish(files, access, q) =>
      if !w.b.stopped { CatalogOk(w.b, Measuring(files, [], access, q, w.b.generation, PurposeToken(w.b, q))); }
    case Measures(k, info) =>
      if !w.b.stopped { CatalogOk(w.b, w.ops[k].(infos := w.ops[k].infos + [info])); }
    case Mounts(k, mounted) =>
      assert OpOk(w.b, w.ops[k]);
      ResumeMountOk(w.b, w.ops[k], mounted);
    case Lists(k, infos) =>
      assert OpOk(w.b, w.ops[k]);
      ResumeListOk(w.b, w.ops[k], infos);
    case _ =>
  }

  lemma OpOutdated(w: World, step: Step, p: Purpose, op: Op)
    requires WorldOk(w) && Allowed(w, step) && OpOk(w.b, op) && Outdated(w.b, op, p)
    ensures Outdated(Section(w, step).0, op, p)
  {
    SectionToken(w, step, p);
  }

  /** A publication keeps the purpose and the token it began with. */
  lemma WaitsFor(w: World, step: Step, p: Purpose)
    requires Revoked(w, p) && Allowed(w, step) && !PublishesFor(step, p) && Section(w, step).1.Waits?
    ensures Outdated(w.b, Section(w, step).1.op, p)
  {
    match step
    case Measures(k, info) => assert Outdated(w.b, w.ops[k], p);
    case _ =>
  }

  lemma RevokedStep(w: World, step: Step, p: Purpose)
    requires Revoked(w, p) && Allowed(w, step) && !PublishesFor(step, p)
    ensures Revoked(After(w, step), p)
  {
    AfterOk(w, step);
    SectionFree(w, step, p);
    SectionsOk(w, step);
    SectionToken(w, step, p);
    var (b, outcome) := Section(w, step);
    var end := After(w, step);
    forall k <- end.ops ensures Outdated(b, end.ops[k], p) {
      if k in w.ops && end.ops[k] == w.ops[k] {
        OpOutdated(w, step, p, w.ops[k]);
      } else {
        WaitsFor(w, step, p);
      }
    }
  }

  lemma {:induction false} RevokedRun(w: World, p: Purpose, steps: seq<Step>, end: World)
    requires Revoked(w, p) && Reaches(w, steps, end) && forall step <- steps :: !PublishesFor(step, p)
    ensures Revoked(end, p)
    decreases |steps|
  {
    if steps != [] {
      RevokedStep(w, steps[0], p);
      RevokedRun(After(w, steps[0]), p, steps[1..], end);
    }
  }

  /** After a revocation nothing is shared for the purpose, however many publications for it
      were under way, until a new one begins. */
  lemma RevokedStaysRevoked(w: World, p: Purpose, steps: seq<Step>, end: World)
    requires WorldOk(w) && Reaches(After(w, Revokes(p)), steps, end)
    requires forall step <- steps :: !PublishesFor(step, p)
    ensures Free(end.b, p)
  {
    var next := After(w, Revokes(p));
    AfterOk(w, Revokes(p));
    RevokeFrees(w.b, p);
    forall k <- next.ops ensures Outdated(next.b, next.ops[k], p) { assert OpOk(w.b, w.ops[k]); }
    RevokedRun(next, p, steps, end);
  }

  // ---- Everything revoked ----

  predicate Expired(b: Broker, op: Op) { op.Measuring? || op.Mounting? ==> op.token != b.generation }

  ghost predicate Closed(w: World) {
    WorldOk(w) && w.b.nodes == map[] && w.b.pending == map[] && forall k <- w.ops :: Expired(w.b, w.ops[k])
  }

  lemma {:induction false} ReleaseNothing(b: Broker, ids: seq<nat>, publication: nat)
    requires b.nodes == map[] && b.pending == map[]
    ensures ReleaseAll(b, ids, publication) == b
    decreases |ids|
  {
    if ids != [] { ReleaseNothing(b, ids[..|ids| - 1], publication); }
  }

  lemma ClosedStep(w: World, step: Step)
    requires Closed(w) && Allowed(w, step) && !step.BeginsPublish?
    ensures Closed(After(w, step))
  {
    AfterOk(w, step);
    var (b, outcome) := Section(w, step);
    if step.Measures? { assert Expired(w.b, w.ops[step.op]); }
    if step.Mounts? {
      assert Expired(w.b, w.ops[step.op]);
      ReleaseNothing(w.b, w.ops[step.op].ids, w.ops[step.op].publication);
    }
    assert b.nodes == map[] && b.pending == map[] && !outcome.Waits?;
    forall k <- After(w, step).ops ensures Expired(b, w.ops[k]) { assert Expired(w.b, w.ops[k]) && OpOk(w.b, w.ops[k]); }
  }

  lemma {:induction false} ClosedRun(w: World, steps: seq<Step>, end: World)
    requires Closed(w) && Reaches(w, steps, end) && forall step <- steps :: !step.BeginsPublish?
    ensures Closed(end)
    decreases |steps|
  {
    if steps != [] {
      ClosedStep(w, steps[0]);
      ClosedRun(After(w, steps[0]), steps[1..], end);
    }
  }

  /** After everything was revoked the catalog stays empty until a new publication begins;
      those under way cannot bring anything back. */
  lemma RevokedAllStaysEmpty(w: World, steps: seq<Step>, end: World)
    requires WorldOk(w) && Reaches(After(w, RevokesAll), steps, end)
    requires forall step <- steps :: !step.BeginsPublish?
    ensures end.b.nodes == map[] && end.b.pending == map[]
  {
    var next := After(w, RevokesAll);
    AfterOk(w, RevokesAll);
    forall k <- next.ops ensures Expired(next.b, next.ops[k]) { assert OpOk(w.b, w.ops[k]); }
    ClosedRun(next, steps, end);
  }
}
