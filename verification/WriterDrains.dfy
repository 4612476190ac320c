/** The blocks that run the writer: a writer that is scheduled has one queued or running. */
module WriterDrains {
  import opened Bytes
  import opened Wrappers
  import opened WindowCommands
  import opened WriterState
  import opened WriterRuns

  /** `drains` counts the blocks on the serial queue that have not ended, the running one
      included. */
  datatype Driven = Driven(r: Run, drains: nat)

  /** Only a block takes from the queues. */
  predicate Possible(q: Driven, step: Step) { Allowed(q.r, step) && (step.Takes? ==> q.drains > 0) }

  /** A block ends when there is nothing to take, or when its write failed. */
  predicate Ends(r: Run, step: Step)
    requires WriterOk(r.w)
  {
    match step
    case Takes(now, descriptor, _) => Take(r.w, now, descriptor).1.None?
    case Finishes => r.drain.Failing?
    case _ => false
  }

  /** Whoever schedules the writer puts a block on the queue. */
  function Drive(q: Driven, step: Step): Driven
    requires WriterOk(q.r.w)
  {
    var next := After(q.r, step);
    var queued := q.drains + if !q.r.w.scheduled && next.w.scheduled then 1 else 0;
    Driven(next, if Ends(q.r, step) && queued > 0 then queued - 1 else queued)
  }

  /** The block whose write failed on a connection that is gone will not run the writer. */
  predicate Leaving(r: Run) { r.drain.Failing? && r.w.connection != Some(r.drain.owner) }

  predicate DrainsOk(q: Driven) {
    && (!q.r.drain.Resting? ==> q.drains >= 1)
    && (q.r.w.scheduled ==> q.drains >= if Leaving(q.r) then 2 else 1)
  }

  lemma TurnedSchedule(w: Writer, now: real)
    requires WriterOk(w) && (Choice(w).Next? ==> w.head <= Choice(w).index < |w.pending|)
    ensures var (v, out) := Turned(w, now);
            v.connection == w.connection && if out.Some? then v.scheduled == w.scheduled else !v.scheduled
  {
  }

  lemma TakeSchedule(w: Writer, now: real, descriptor: bool)
    requires WriterOk(w)
    ensures var (v, out) := Take(w, now, descriptor);
            if out.Some? then v.scheduled == w.scheduled && v.connection == w.connection else !v.scheduled
  {
    PreparedOk(w);
    if w.connection.Some? { TurnedSchedule(Prepared(w), now); }
  }

  lemma TakesOk(q: Driven, step: Step)
    requires WriterOk(q.r.w) && Possible(q, step) && DrainsOk(q) && step.Takes?
    ensures DrainsOk(Drive(q, step))
  {
    TakeSchedule(q.r.w, step.now, step.descriptor);
  }

  lemma FinishesOk(q: Driven)
    requires RunOk(q.r) && DrainsOk(q)
    ensures DrainsOk(Drive(q, Finishes))
  {
  }

  lemma InstallsOk(q: Driven, step: Step)
    requires RunOk(q.r) && DrainsOk(q) && (step.Installs? || step.Disconnects?)
    ensures DrainsOk(Drive(q, step))
  {
  }

  lemma SendConnection(w: Writer, c: Command)
    requires w.head <= |w.pending|
    ensures Send(w, c).0.connection == w.connection
  {
  }

  lemma SectionConnection(r: Run, step: Step)
    requires WriterOk(r.w)
    requires step.Sees? || step.SendsFileBytes? || step.Acknowledges? || step.Presents?
    ensures After(r, step).w.connection == r.w.connection
  {
  }

  /** The sections that neither take from the queues nor change the connection. */
  lemma BesideDrainsOk(q: Driven, step: Step)
    requires WriterOk(q.r.w) && DrainsOk(q)
    requires step.Sends? || step.Sees? || step.SendsFileBytes? || step.Acknowledges? || step.Presents?
    ensures DrainsOk(Drive(q, step))
  {
    if step.Sends? { SendConnection(q.r.w, step.command); } else { SectionConnection(q.r, step); }
    var next := After(q.r, step);
    assert next.drain == q.r.drain && next.w.connection == q.r.w.connection;
    assert Leaving(next) == Leaving(q.r);
  }

  lemma DriveOk(q: Driven, step: Step)
    requires RunOk(q.r) && Possible(q, step) && DrainsOk(q)
    ensures RunOk(Drive(q, step).r) && DrainsOk(Drive(q, step))
  {
    AfterOk(q.r, step);
    match step
    case Takes(_, _, _) => TakesOk(q, step);
    case Finishes => FinishesOk(q);
    case Installs => InstallsOk(q, step);
    case Disconnects => InstallsOk(q, step);
    case _ => BesideDrainsOk(q, step);
  }

  ghost predicate Drives(q: Driven, steps: seq<Step>, end: Driven)
    requires RunOk(q.r) && DrainsOk(q)
    decreases |steps|
  {
    if steps == [] then end == q
    else Possible(q, steps[0]) && (DriveOk(q, steps[0]); Drives(Drive(q, steps[0]), steps[1..], end))
  }

  lemma {:induction false} DrivesOk(q: Driven, steps: seq<Step>, end: Driven)
    requires RunOk(q.r) && DrainsOk(q) && Drives(q, steps, end)
    ensures RunOk(end.r) && DrainsOk(end) && Reaches(q.r, steps, end.r)
    decreases |steps|
  {
    if steps != [] {
      DriveOk(q, steps[0]);
      DrivesOk(Drive(q, steps[0]), steps[1..], end);
    }
  }

  /** Whenever a connected writer has something to send, a block that will send it is queued or
      running. */
  lemma DrainComes(path: Option<Path>, remote: bool, steps: seq<Step>, end: Driven, now: real)
    requires Drives(Driven(Start(path, remote), 0), steps, end)
    requires end.r.w.connection.Some?
    ensures WriterOk(end.r.w)
    ensures end.r.w.scheduled || Take(end.r.w, now, true).1.Some? ==> end.drains > 0
  {
    DrivesOk(Driven(Start(path, remote), 0), steps, end);
    if !end.r.w.scheduled { RestsOnlyWhenIdle(path, remote, steps, end.r, now); }
  }
}
