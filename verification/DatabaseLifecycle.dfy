/** Provisioning one database while any number of deletions of it run concurrently and the process may be
    restarted at any moment, which cleans up stale rows. Every Docker and database call is one step and may
    fail.

    Main results, in every interleaving: once the row is gone neither the container nor the volume
    exists (DeletedLeavesNothing); a ready row of a successful creation has both, unless a deletion has
    failed halfway (ReadyHasBoth); a failed creation whose cleanup calls succeed leaves neither
    and that no restart has cut short leaves neither (FailedCreateLeavesNothing); and a restart whose own
    calls work strands resources exactly at certain points of a creation (RestartStrandsIff). Two promises
    fail on a row whose container was never recorded (UnrecordedIsReachable), and exactly there: it can
    never be deleted (DeletableIff), and a restart does not clear it (RestartClearsIff). */
module DatabaseLifecycle {
  import opened Common

  datatype Status = Provisioning | Ready | Failed

  /** `recorded`: container_id is not NULL. */
  datatype Row = Absent | Row(status: Status, recorded: bool)

  /** Where the creation stands: the call it makes next, or how it ended. */
  datatype CreatePC =
    | Insert | MakeVolume | RunContainer | RecordContainer | Probe | MarkReady
    | FailAfterVolume | FailAfterRun | FailUnhealthy
    | CleanContainer | CleanVolume
    | Created | CreateFailed

  /** Where a deletion stands. */
  datatype DeletePC = Get | StopContainer | RemoveContainer | RemoveVolume | DeleteRow | Deleted | Refused | FailedMidway

  /** `leaked`: a failed call left something behind, or a cleanup call failed. `stranded`: a restart ended the
      creation while it had resources, and its clean-up did not take them up. */
  datatype State = State(
    row: Row, container: bool, volume: bool, create: CreatePC, deletes: map<nat, DeletePC>, leaked: bool, stranded: bool)

  const START := State(Absent, false, false, Insert, map[], false, false)

  /** `ok`: the call succeeds (for Probe: the database answers in time). `partial`: a failing Docker call
      had its effect nevertheless. */
  datatype Step =
    | Create(ok: bool, partial: bool)
    | BeginDelete(d: nat)
    | Delete(d: nat, ok: bool)
    | Restart(calls: CleanupCalls)

  /** The answers of the calls made for stale rows at process start. */
  datatype CleanupCalls = CleanupCalls(query: bool, container: bool, volume: bool, status: bool)

  /** Updates the status of the row if it is there and the statement works. */
  function WithStatus(row: Row, status: Status, ok: bool): Row {
    if row.Absent? || !ok then row else row.(status := status)
  }

  /** Where the creation goes on after the call at `pc`; `present`: the row is there. */
  function NextPC(pc: CreatePC, ok: bool, present: bool): CreatePC {
    match pc
    case Insert => if ok then MakeVolume else CreateFailed
    case MakeVolume => if ok then RunContainer else FailAfterVolume
    case FailAfterVolume => CreateFailed
    case RunContainer => if ok then RecordContainer else FailAfterRun
    case FailAfterRun => CleanVolume
    case RecordContainer => if ok && present then Probe else CleanContainer
    case Probe => if ok then MarkReady else FailUnhealthy
    case FailUnhealthy => CleanContainer
    case MarkReady => if ok && present then Created else CleanContainer
    case CleanContainer => CleanVolume
    case CleanVolume => CreateFailed
    case Created => Created
    case CreateFailed => CreateFailed
  }

  function RowAfter(row: Row, pc: CreatePC, ok: bool): Row {
    match pc
    case Insert => if ok then Row(Provisioning, false) else row
    case RecordContainer => if ok && row.Row? then row.(recorded := true) else row
    case MarkReady => WithStatus(row, Ready, ok)
    case FailAfterVolume => WithStatus(row, Failed, ok)
    case FailAfterRun => WithStatus(row, Failed, ok)
    case FailUnhealthy => WithStatus(row, Failed, ok)
    case _ => row
  }

  /** A resource made by the call at `make` and removed by the one at `clean`. */
  function ResourceAfter(there: bool, pc: CreatePC, make: CreatePC, clean: CreatePC, ok: bool, partial: bool): bool {
    if pc == make then ok || partial else if pc == clean then there && !ok else there
  }

  function Leaks(pc: CreatePC, ok: bool, partial: bool): bool {
    match pc
    case MakeVolume => !ok && partial
    case RunContainer => !ok && partial
    case CleanContainer => !ok
    case CleanVolume => !ok
    case _ => false
  }

  function CreateStep(s: State, ok: bool, partial: bool): State {
    State(RowAfter(s.row, s.create, ok),
          ResourceAfter(s.container, s.create, RunContainer, CleanContainer, ok, partial),
          ResourceAfter(s.volume, s.create, MakeVolume, CleanVolume, ok, partial),
          NextPC(s.create, ok, s.row.Row?),
          s.deletes,
          s.leaked || Leaks(s.create, ok, partial),
          s.stranded)
  }

  /** Get scans container_id into a string, which fails on NULL. "Not found" from Docker counts as
      success; any other error keeps the row. */
  function NextDelete(pc: DeletePC, ok: bool, row: Row): DeletePC {
    match pc
    case Get => if ok && row.Row? && row.recorded then StopContainer else Refused
    case StopContainer => RemoveContainer
    case RemoveContainer => if ok then RemoveVolume else FailedMidway
    case RemoveVolume => if ok then DeleteRow else FailedMidway
    case DeleteRow => if ok then Deleted else FailedMidway
    case _ => pc
  }

  function DeleteStep(s: State, d: nat, ok: bool): State
    requires d in s.deletes
  {
    var pc := s.deletes[d];
    State(if pc.DeleteRow? && ok then Absent else s.row,
          s.container && !(pc.RemoveContainer? && ok),
          s.volume && !(pc.RemoveVolume? && ok),
          s.create,
          s.deletes[d := NextDelete(pc, ok, s.row)],
          s.leaked, s.stranded)
  }

  predicate Ended(pc: CreatePC) {
    pc.Created? || pc.CreateFailed?
  }

  predicate Over(pc: DeletePC) {
    pc.Deleted? || pc.Refused? || pc.FailedMidway?
  }

  function Interrupted(pc: DeletePC): DeletePC {
    if Over(pc) then pc else if pc.Get? then Refused else FailedMidway
  }

  /** A row the clean-up takes up: it is still provisioning, and scanning it does not fail on a NULL. */
  predicate Stale(row: Row) {
    row.Row? && row.status == Provisioning && row.recorded
  }

  /** A clean-up call that should have removed something failed. */
  predicate CleanupLeaks(s: State, calls: CleanupCalls) {
    Stale(s.row) && ((s.container && !(calls.query && calls.container)) || (s.volume && !(calls.query && calls.volume)))
  }

  /** All operations end where they stand, then stale rows are cleaned up. */
  function RestartStep(s: State, calls: CleanupCalls): State {
    var stale := calls.query && Stale(s.row);
    State(if stale then WithStatus(s.row, Failed, calls.status) else s.row,
          s.container && !(stale && calls.container),
          s.volume && !(stale && calls.volume),
          if s.create.Created? then Created else CreateFailed,
          map d | d in s.deletes :: Interrupted(s.deletes[d]),
          s.leaked || CleanupLeaks(s, calls),
          s.stranded || (!Ended(s.create) && !Stale(s.row) && (s.container || s.volume)))
  }

  predicate Enabled(s: State, step: Step) {
    match step
    case Create(_, _) => true
    case BeginDelete(d) => d !in s.deletes
    case Delete(d, _) => d in s.deletes
    case Restart(_) => true
  }

  function Next(s: State, step: Step): State
    requires Enabled(s, step)
  {
    match step
    case Create(ok, partial) => CreateStep(s, ok, partial)
    case BeginDelete(d) => s.(deletes := s.deletes[d := Get])
    case Delete(d, ok) => DeleteStep(s, d, ok)
    case Restart(calls) => RestartStep(s, calls)
  }

  predicate Run(s: State, steps: seq<Step>)
    decreases |steps|
  {
    steps == [] || (Enabled(s, steps[0]) && Run(Next(s, steps[0]), steps[1..]))
  }

  function After(s: State, steps: seq<Step>): State
    requires Run(s, steps)
    decreases |steps|
  {
    if steps == [] then s else After(Next(s, steps[0]), steps[1..])
  }

  // ----- Invariant -----

  /** The container ID is in the row, or was before the row went. */
  predicate Recorded(pc: CreatePC) {
    pc.Probe? || pc.MarkReady? || pc.FailUnhealthy? || pc.Created?
  }

  /** This deletion got past reading the row. */
  predicate Underway(pc: DeletePC) {
    !pc.Get? && !pc.Refused?
  }

  predicate RemovedContainer(pc: DeletePC) {
    pc.RemoveVolume? || pc.DeleteRow? || pc.Deleted? || pc.FailedMidway?
  }

  predicate RemovedVolume(pc: DeletePC) {
    pc.DeleteRow? || pc.Deleted? || pc.FailedMidway?
  }

  /** The container has not been recorded yet, and the creation may still do so. */
  predicate Unrecorded(pc: CreatePC) {
    pc.MakeVolume? || pc.RunContainer? || pc.RecordContainer? || pc.FailAfterVolume? || pc.FailAfterRun?
  }

  /** Before the container is recorded the row cannot go. */
  ghost predicate Placed(s: State) {
    && (s.create.Insert? ==> s.row.Absent?)
    && (Unrecorded(s.create) ==> s.row.Row? && !s.row.recorded)
  }

  /** What the creation knows about the row and the resources. */
  ghost predicate Provisioned(s: State) {
    && Placed(s)
    && (s.create.Insert? ==> !s.container && !s.volume && !s.leaked)
    && (!Ended(s.create) ==> !s.stranded)
    && (s.create.Created? && s.row.Row? ==> s.row.status == Ready)
    && (s.create.MakeVolume? ==> !s.container && !s.volume && !s.leaked)
    && (s.create.RunContainer? ==> !s.container && s.volume && !s.leaked)
    && (s.create.RecordContainer? ==> s.container && s.volume)
    && (s.row.Row? && s.row.status == Ready ==> s.create.Created?)
    && (s.row.Row? && Recorded(s.create) ==> s.row.recorded)
    && (s.row.Absent? && !s.create.Insert? ==> !s.container && !s.volume)
  }

  /** A failed creation has cleaned up as far as its calls worked and it was not cut short. */
  ghost predicate CleanedUp(s: State) {
    !s.leaked && !s.stranded ==>
      && (s.create.FailAfterVolume? ==> !s.volume && !s.container)
      && (s.create.FailAfterRun? || s.create.CleanVolume? ==> !s.container)
      && (s.create.CreateFailed? ==> !s.container && !s.volume)
  }

  /** Deletions act only on a recorded row, and what they have removed stays removed. */
  ghost predicate Deleting(s: State) {
    forall d :: d in s.deletes ==> InStep(s, s.deletes[d])
  }

  ghost predicate InStep(s: State, pc: DeletePC) {
    && (Underway(pc) ==> !s.create.Insert? && !Unrecorded(s.create) && (s.row.Row? ==> s.row.recorded))
    && (pc.RemoveVolume? ==> !s.container)
    && (pc.DeleteRow? ==> !s.container && !s.volume)
    && (pc.Deleted? ==> s.row.Absent?)
  }

  /** What is missing beside a recorded row was removed by some deletion. */
  ghost predicate Accounted(s: State) {
    && (Recorded(s.create) && !s.container ==> exists d :: d in s.deletes && RemovedContainer(s.deletes[d]))
    && (Recorded(s.create) && !s.volume ==> exists d :: d in s.deletes && RemovedVolume(s.deletes[d]))
  }

  ghost predicate Invariant(s: State) {
    Provisioned(s) && CleanedUp(s) && Deleting(s) && Accounted(s)
  }

  lemma CreateLeavesDeletions(s: State, ok: bool, partial: bool)
    ensures CreateStep(s, ok, partial).deletes == s.deletes
  {
  }

  lemma DeleteKeepsRemovals(s: State, e: nat, ok: bool, d: nat)
    requires e in s.deletes && d in s.deletes
    ensures var t := DeleteStep(s, e, ok);
      && d in t.deletes
      && (RemovedContainer(s.deletes[d]) ==> RemovedContainer(t.deletes[d]))
      && (RemovedVolume(s.deletes[d]) ==> RemovedVolume(t.deletes[d]))
  {
  }

  lemma RemovalsStay(s: State, step: Step, d: nat)
    requires Enabled(s, step) && d in s.deletes
    ensures d in Next(s, step).deletes
    ensures RemovedContainer(s.deletes[d]) ==> RemovedContainer(Next(s, step).deletes[d])
    ensures RemovedVolume(s.deletes[d]) ==> RemovedVolume(Next(s, step).deletes[d])
  {
    match step
    case Create(ok, partial) => CreateLeavesDeletions(s, ok, partial);
    case BeginDelete(_) =>
    case Delete(e, ok) => DeleteKeepsRemovals(s, e, ok, d);
    case Restart(_) =>
  }

  lemma AccountedNext(s: State, step: Step)
    requires Provisioned(s) && Accounted(s) && Enabled(s, step)
    ensures Accounted(Next(s, step))
  {
    var t := Next(s, step);
    if Recorded(t.create) && !t.container {
      var d := if step.Delete? && s.container then step.d
               else var e :| e in s.deletes && RemovedContainer(s.deletes[e]); e;
      RemovalsStay(s, step, d);
      assert RemovedContainer(t.deletes[d]);
    }
    if Recorded(t.create) && !t.volume {
      var d := if step.Delete? && s.volume then step.d
               else var e :| e in s.deletes && RemovedVolume(s.deletes[e]); e;
      RemovalsStay(s, step, d);
      assert RemovedVolume(t.deletes[d]);
    }
  }

  lemma CreateKeepsInStep(s: State, ok: bool, partial: bool, pc: DeletePC)
    requires InStep(s, pc)
    ensures InStep(CreateStep(s, ok, partial), pc)
  {
  }

  lemma OtherDeleteKeepsInStep(s: State, d: nat, ok: bool, pc: DeletePC)
    requires d in s.deletes && InStep(s, pc)
    ensures InStep(DeleteStep(s, d, ok), pc)
  {
  }

  lemma OwnDeleteKeepsInStep(s: State, d: nat, ok: bool)
    requires Placed(s) && d in s.deletes && InStep(s, s.deletes[d])
    ensures InStep(DeleteStep(s, d, ok), DeleteStep(s, d, ok).deletes[d])
  {
  }

  lemma RestartKeepsInStep(s: State, calls: CleanupCalls, pc: DeletePC)
    requires InStep(s, pc)
    ensures InStep(RestartStep(s, calls), Interrupted(pc))
  {
  }

  lemma CreateKeepsDeleting(s: State, ok: bool, partial: bool)
    requires Deleting(s)
    ensures Deleting(CreateStep(s, ok, partial))
  {
    var t := CreateStep(s, ok, partial);
    assert t.deletes == s.deletes;
    forall e | e in t.deletes ensures InStep(t, t.deletes[e]) { CreateKeepsInStep(s, ok, partial, s.deletes[e]); }
  }

  lemma DeleteKeepsDeleting(s: State, d: nat, ok: bool)
    requires Placed(s) && Deleting(s) && d in s.deletes
    ensures Deleting(DeleteStep(s, d, ok))
  {
    forall e | e in s.deletes { OtherDeleteKeepsInStep(s, d, ok, s.deletes[e]); }
    OwnDeleteKeepsInStep(s, d, ok);
  }

  lemma RestartKeepsDeleting(s: State, calls: CleanupCalls)
    requires Deleting(s)
    ensures Deleting(RestartStep(s, calls))
  {
    forall e | e in s.deletes { RestartKeepsInStep(s, calls, s.deletes[e]); }
  }

  lemma DeletingNext(s: State, step: Step)
    requires Placed(s) && Deleting(s) && Enabled(s, step)
    ensures Deleting(Next(s, step))
  {
    match step
    case Create(ok, partial) => CreateKeepsDeleting(s, ok, partial);
    case BeginDelete(d) =>
    case Delete(d, ok) => DeleteKeepsDeleting(s, d, ok);
    case Restart(calls) => RestartKeepsDeleting(s, calls);
  }

  lemma CreateKeepsProvisioned(s: State, ok: bool, partial: bool)
    requires Provisioned(s)
    ensures Provisioned(CreateStep(s, ok, partial))
  {
  }

  lemma CreateKeepsCleanedUp(s: State, ok: bool, partial: bool)
    requires Provisioned(s) && CleanedUp(s)
    ensures CleanedUp(CreateStep(s, ok, partial))
  {
  }

  lemma DeleteKeepsProvisioned(s: State, d: nat, ok: bool)
    requires Provisioned(s) && CleanedUp(s) && d in s.deletes && InStep(s, s.deletes[d])
    ensures Provisioned(DeleteStep(s, d, ok)) && CleanedUp(DeleteStep(s, d, ok))
  {
  }

  lemma RestartKeepsProvisioned(s: State, calls: CleanupCalls)
    requires Provisioned(s) && CleanedUp(s)
    ensures Provisioned(RestartStep(s, calls)) && CleanedUp(RestartStep(s, calls))
  {
  }

  lemma ProvisionedNext(s: State, step: Step)
    requires Provisioned(s) && Deleting(s) && CleanedUp(s) && Enabled(s, step)
    ensures Provisioned(Next(s, step)) && CleanedUp(Next(s, step))
  {
    match step
    case Create(ok, partial) => CreateKeepsProvisioned(s, ok, partial); CreateKeepsCleanedUp(s, ok, partial);
    case BeginDelete(d) =>
    case Delete(d, ok) => DeleteKeepsProvisioned(s, d, ok);
    case Restart(calls) => RestartKeepsProvisioned(s, calls);
  }

  lemma InvariantNext(s: State, step: Step)
    requires Invariant(s) && Enabled(s, step)
    ensures Invariant(Next(s, step))
  {
    ProvisionedNext(s, step);
    DeletingNext(s, step);
    AccountedNext(s, step);
  }

  lemma {:induction false} InvariantHolds(s: State, steps: seq<Step>)
    requires Invariant(s) && Run(s, steps)
    ensures Invariant(After(s, steps))
    decreases |steps|
  {
    if steps != [] {
      InvariantNext(s, steps[0]);
      InvariantHolds(Next(s, steps[0]), steps[1..]);
    }
  }

  // ----- Main results -----

  /** Whenever the row has gone, so have the container and the volume. */
  lemma DeletedLeavesNothing(steps: seq<Step>)
    requires Run(START, steps) && After(START, steps).row.Absent?
    ensures !After(START, steps).container && !After(START, steps).volume
  {
    InvariantHolds(START, steps);
  }

  /** No deletion is past reading the row without having deleted it. */
  ghost predicate Settled(s: State) {
    forall d :: d in s.deletes ==> s.deletes[d].Deleted? || s.deletes[d].Refused?
  }

  /** This deletion has removed something and has not (yet) deleted the row. */
  predicate HalfDone(pc: DeletePC) {
    pc.RemoveVolume? || pc.DeleteRow? || pc.FailedMidway?
  }

  /** A ready row belongs to a successful creation; it lacks its container or its volume only if some
      deletion is half done, so with all deletions ended and none failed halfway it has both. */
  lemma ReadyHasBoth(steps: seq<Step>)
    requires Run(START, steps) && After(START, steps).row.Row? && After(START, steps).row.status == Ready
    ensures var s := After(START, steps);
            && s.create.Created?
            && (!s.container || !s.volume ==> exists d :: d in s.deletes && HalfDone(s.deletes[d]))
            && (Settled(s) ==> s.container && s.volume)
  {
    InvariantHolds(START, steps);
    var s := After(START, steps);
    if !s.container {
      var d :| d in s.deletes && RemovedContainer(s.deletes[d]);
      assert HalfDone(s.deletes[d]);
    } else if !s.volume {
      var d :| d in s.deletes && RemovedVolume(s.deletes[d]);
      assert HalfDone(s.deletes[d]);
    }
  }

  /** A failed creation leaves something only if a call left something behind or failed to clean it up, or a
      restart stranded it. */
  lemma FailedCreateLeavesNothing(steps: seq<Step>)
    requires Run(START, steps) && After(START, steps).create.CreateFailed?
    requires !After(START, steps).leaked && !After(START, steps).stranded
    ensures !After(START, steps).container && !After(START, steps).volume
  {
    InvariantHolds(START, steps);
  }

  // ----- Where a restart strands resources -----

  /** The creation may still record the container. */
  predicate WillRecord(pc: CreatePC) {
    pc.MakeVolume? || pc.RunContainer? || pc.RecordContainer?
  }

  const WORKING := CleanupCalls(true, true, true, true)

  /** From here on the creation has a volume, or both, until it has cleaned up. */
  predicate HasVolume(pc: CreatePC) {
    HasContainer(pc) || pc.RunContainer? || pc.FailAfterRun? || pc.CleanVolume?
  }

  predicate HasContainer(pc: CreatePC) {
    pc.RecordContainer? || pc.Probe? || pc.MarkReady? || pc.FailUnhealthy? || pc.CleanContainer? || pc.Created?
  }

  /** Leaks aside, a creation has no more than this; and as long as no deletion removed anything, no less. */
  ghost predicate Holding(s: State) {
    && (!s.leaked && !s.create.CreateFailed? ==>
          (s.container ==> HasContainer(s.create)) && (s.volume ==> HasVolume(s.create)))
    && (Untouched(s) ==>
          (HasContainer(s.create) ==> s.container) && (HasVolume(s.create) ==> s.volume))
    && (s.row.Row? && (WillRecord(s.create) || (Recorded(s.create) && !s.create.Created?)) ==> s.row.status == Provisioning)
  }

  /** No deletion has come to removing anything. */
  ghost predicate Untouched(s: State) {
    forall d :: d in s.deletes ==> !RemovedContainer(s.deletes[d])
  }

  lemma UntouchedBefore(s: State, step: Step)
    requires Enabled(s, step) && Untouched(Next(s, step))
    ensures Untouched(s)
  {
    forall d | d in s.deletes ensures !RemovedContainer(s.deletes[d]) { RemovalsStay(s, step, d); }
  }

  lemma CreateKeepsHolding(s: State, ok: bool, partial: bool)
    requires Provisioned(s) && Holding(s)
    ensures Holding(CreateStep(s, ok, partial))
  {
  }

  lemma DeleteKeepsHolding(s: State, d: nat, ok: bool)
    requires Holding(s) && d in s.deletes && (Untouched(DeleteStep(s, d, ok)) ==> Untouched(s))
    ensures Holding(DeleteStep(s, d, ok))
  {
    var t := DeleteStep(s, d, ok);
    assert d in t.deletes;
    if Untouched(t) { assert !RemovedContainer(t.deletes[d]); }
  }

  lemma RestartKeepsHolding(s: State, calls: CleanupCalls)
    requires Provisioned(s) && Holding(s) && (Untouched(RestartStep(s, calls)) ==> Untouched(s))
    ensures Holding(RestartStep(s, calls))
  {
  }

  lemma HoldingNext(s: State, step: Step)
    requires Provisioned(s) && Holding(s) && Enabled(s, step)
    ensures Holding(Next(s, step))
  {
    if Untouched(Next(s, step)) { UntouchedBefore(s, step); }
    match step
    case Create(ok, partial) => CreateKeepsHolding(s, ok, partial);
    case BeginDelete(d) =>
    case Delete(d, ok) => DeleteKeepsHolding(s, d, ok);
    case Restart(calls) => RestartKeepsHolding(s, calls);
  }

  lemma {:induction false} HoldingHolds(s: State, steps: seq<Step>)
    requires Invariant(s) && Holding(s) && Run(s, steps)
    ensures Holding(After(s, steps))
    decreases |steps|
  {
    if steps != [] {
      InvariantNext(s, steps[0]);
      HoldingNext(s, steps[0]);
      HoldingHolds(Next(s, steps[0]), steps[1..]);
    }
  }

  /** The points at which a creation has resources that a restart may not take up. */
  predicate Strandable(pc: CreatePC) {
    pc.RunContainer? || pc.RecordContainer? || pc.FailAfterRun? || pc.CleanContainer? || pc.CleanVolume?
  }

  /** A restart whose calls work and that cuts a creation short, with nothing leaked before, leaves something
      behind only at one of these points, with a row that is not both provisioning and recorded; and there
      it does, unless a deletion has begun to remove things itself. What it leaves counts as stranded. */
  lemma RestartStrandsIff(steps: seq<Step>)
    requires Run(START, steps) && !Ended(After(START, steps).create) && !After(START, steps).leaked
    ensures var s := After(START, steps);
            var t := Next(s, Restart(WORKING));
      && (t.container || t.volume ==> Strandable(s.create) && !Stale(s.row))
      && (Untouched(s) && Strandable(s.create) && !Stale(s.row) ==> t.container || t.volume)
      && (t.stranded <==> t.container || t.volume)
      && !t.leaked
  {
    InvariantHolds(START, steps);
    HoldingHolds(START, steps);
  }

  // ----- Rows whose container was never recorded -----

  ghost predicate Hopeless(s: State) {
    s.row.Row? && !s.row.recorded && !WillRecord(s.create)
  }

  lemma HopelessNext(s: State, step: Step)
    requires Invariant(s) && Enabled(s, step) && Hopeless(s)
    ensures Hopeless(Next(s, step))
    ensures s.create.CreateFailed? ==>
              Next(s, step).row == s.row && Next(s, step).create.CreateFailed? && Next(s, step).volume == s.volume
  {
    if step.Delete? { assert InStep(s, s.deletes[step.d]); }
  }

  /** No run deletes such a row, and once its creation has ended none changes it or removes its volume. */
  lemma {:induction false} UnrecordedIsPermanent(s: State, steps: seq<Step>)
    requires Invariant(s) && Run(s, steps) && Hopeless(s)
    ensures Hopeless(After(s, steps))
    ensures s.create.CreateFailed? ==> After(s, steps).row == s.row && After(s, steps).volume == s.volume
    decreases |steps|
  {
    if steps != [] {
      InvariantNext(s, steps[0]);
      HopelessNext(s, steps[0]);
      UnrecordedIsPermanent(Next(s, steps[0]), steps[1..]);
    }
  }

  /** It takes no more than a volume that cannot be made. */
  lemma UnrecordedIsReachable() returns (steps: seq<Step>)
    ensures Run(START, steps)
    ensures var s := After(START, steps); s.create.CreateFailed? && s.row == Row(Failed, false)
  {
    steps := [Create(true, false), Create(false, false), Create(true, false)];
    assert steps[1..] == [Create(false, false), Create(true, false)];
    assert steps[1..][1..] == [Create(true, false)] && steps[1..][1..][1..] == [];
  }

  lemma {:induction false} RunSnoc(s: State, steps: seq<Step>, last: Step)
    requires Run(s, steps) && Enabled(After(s, steps), last)
    ensures Run(s, steps + [last]) && After(s, steps + [last]) == Next(After(s, steps), last)
    decreases |steps|
  {
    if steps == [] {
      assert steps + [last] == [last] && [last][1..] == [];
    } else {
      assert (steps + [last])[1..] == steps[1..] + [last];
      RunSnoc(Next(s, steps[0]), steps[1..], last);
    }
  }

  ghost predicate Reaches(steps: seq<Step>, s: State) {
    Run(START, steps) && After(START, steps) == s
  }

  lemma OneMore(steps: seq<Step>, s: State, last: Step, t: State)
    requires Reaches(steps, s) && Enabled(s, last) && t == Next(s, last)
    ensures Reaches(steps + [last], t)
  {
    RunSnoc(START, steps, last);
  }

  /** The creation after its first calls, all of which worked. */
  const MADE_VOLUME := State(Row(Provisioning, false), false, true, RunContainer, map[], false, false)
  const STARTED := State(Row(Provisioning, false), true, true, RecordContainer, map[], false, false)
  const RECORDED := State(Row(Provisioning, true), true, true, Probe, map[], false, false)

  lemma StartedIsReachable() returns (steps: seq<Step>)
    ensures Reaches(steps, STARTED)
  {
    var call := Create(true, false);
    var inserted := State(Row(Provisioning, false), false, false, MakeVolume, map[], false, false);
    steps := [];
    OneMore(steps, START, call, inserted);
    steps := steps + [call];
    OneMore(steps, inserted, call, MADE_VOLUME);
    steps := steps + [call];
    OneMore(steps, MADE_VOLUME, call, STARTED);
    steps := steps + [call];
  }

  /** Nor than a restart while the container is being started; then the row stays provisioning. */
  lemma RestartCanStrandRow() returns (steps: seq<Step>)
    ensures Run(START, steps)
    ensures var s := After(START, steps);
      && s.create.CreateFailed? && s.row == Row(Provisioning, false)
      && s.container && s.volume && s.stranded && !s.leaked
  {
    var before := StartedIsReachable();
    OneMore(before, STARTED, Restart(WORKING), Next(STARTED, Restart(WORKING)));
    steps := before + [Restart(WORKING)];
  }

  lemma UnhealthyIsReachable(s: State) returns (steps: seq<Step>)
    requires s == RECORDED.(row := Row(Failed, true), create := CleanContainer)
    ensures Reaches(steps, s)
  {
    steps := StartedIsReachable();
    OneMore(steps, STARTED, Create(true, false), RECORDED);
    steps := steps + [Create(true, false)];
    var unhealthy := RECORDED.(create := FailUnhealthy);
    OneMore(steps, RECORDED, Create(false, false), unhealthy);
    steps := steps + [Create(false, false)];
    OneMore(steps, unhealthy, Create(true, false), s);
    steps := steps + [Create(true, false)];
  }

  /** A failed row can be stranded too, by a restart between writing the status and cleaning up. */
  lemma RestartCanStrandFailedRow() returns (steps: seq<Step>)
    ensures Run(START, steps)
    ensures var s := After(START, steps);
      && s.create.CreateFailed? && s.row == Row(Failed, true)
      && s.container && s.volume && s.stranded && !s.leaked
  {
    var s := RECORDED.(row := Row(Failed, true), create := CleanContainer);
    var before := UnhealthyIsReachable(s);
    OneMore(before, s, Restart(WORKING), Next(s, Restart(WORKING)));
    steps := before + [Restart(WORKING)];
  }

  lemma {:induction false} ReachesRecorded(s: State) returns (steps: seq<Step>)
    requires s.row.Row? && (s.row.recorded || WillRecord(s.create))
    ensures Run(s, steps) && After(s, steps).row.Row? && After(s, steps).row.recorded
    decreases if s.create.MakeVolume? then 2 else if s.create.RunContainer? then 1 else 0
  {
    if s.row.recorded {
      steps := [];
    } else if s.create.RecordContainer? {
      steps := [Create(true, false)];
      assert steps[1..] == [];
    } else {
      var rest := ReachesRecorded(Next(s, Create(true, false)));
      RunCons(s, Create(true, false), rest);
      steps := [Create(true, false)] + rest;
    }
  }

  lemma RunCons(s: State, first: Step, rest: seq<Step>)
    requires Enabled(s, first) && Run(Next(s, first), rest)
    ensures Run(s, [first] + rest) && After(s, [first] + rest) == After(Next(s, first), rest)
  {
    assert ([first] + rest)[1..] == rest;
  }

  lemma {:induction false} RunConcat(s: State, a: seq<Step>, b: seq<Step>)
    requires Run(s, a) && Run(After(s, a), b)
    ensures Run(s, a + b) && After(s, a + b) == After(After(s, a), b)
    decreases |a|
  {
    if a == [] {
      assert a + b == b;
    } else {
      RunConcat(Next(s, a[0]), a[1..], b);
      RunCons(s, a[0], a[1..] + b);
      assert [a[0]] + (a[1..] + b) == a + b;
    }
  }

  /** A deletion already begun, all of whose calls work from here on. */
  lemma {:induction false} DeleteWorks(s: State, d: nat) returns (steps: seq<Step>)
    requires d in s.deletes && !Over(s.deletes[d]) && s.row.Row? && s.row.recorded
    ensures Run(s, steps) && After(s, steps).row.Absent?
    decreases match s.deletes[d]
              case Get => 5 case StopContainer => 4 case RemoveContainer => 3 case RemoveVolume => 2 case _ => 1
  {
    var first := Delete(d, true);
    if s.deletes[d].DeleteRow? {
      steps := [first];
      assert steps[1..] == [];
    } else {
      var rest := DeleteWorks(Next(s, first), d);
      RunCons(s, first, rest);
      steps := [first] + rest;
    }
  }

  ghost predicate Deletes(s: State, steps: seq<Step>) {
    Run(s, steps) && After(s, steps).row.Absent?
  }

  /** In every reachable state a row can still be deleted by some continuation if and only if its container
      is recorded, or the creation is still on its way to record it. */
  lemma DeletableIff(steps: seq<Step>)
    requires Run(START, steps) && After(START, steps).row.Row?
    ensures var s := After(START, steps);
      (exists more :: Deletes(s, more)) <==> s.row.recorded || WillRecord(s.create)
  {
    InvariantHolds(START, steps);
    var s := After(START, steps);
    if Hopeless(s) {
      forall more | Run(s, more) ensures !Deletes(s, more) { UnrecordedIsPermanent(s, more); }
    } else {
      var first := ReachesRecorded(s);
      var t := After(s, first);
      var d := FreshNat(t.deletes.Keys);
      var rest := DeleteWorks(Next(t, BeginDelete(d)), d);
      RunCons(t, BeginDelete(d), rest);
      RunConcat(s, first, [BeginDelete(d)] + rest);
      assert Deletes(s, first + ([BeginDelete(d)] + rest));
    }
  }

  /** In every reachable state a restart whose clean-up calls all work leaves the row provisioning if and
      only if it was, with no container recorded, and then it stays so in every run; any other provisioning
      row is marked failed, and neither its container nor its volume is left. */
  lemma RestartClearsIff(steps: seq<Step>)
    requires Run(START, steps) && After(START, steps).row.Row?
    ensures var s := After(START, steps);
            var t := Next(s, Restart(WORKING));
      && (t.row.Row? && t.row.status == Provisioning <==> s.row.status == Provisioning && !s.row.recorded)
      && (!s.row.recorded ==> forall more :: Run(t, more) ==> After(t, more).row == s.row)
      && (s.row.status == Provisioning && s.row.recorded ==> t.row.status == Failed && !t.container && !t.volume)
      && (s.row.status != Provisioning ==> t.row == s.row)
  {
    InvariantHolds(START, steps);
    var s := After(START, steps);
    var restart := Restart(WORKING);
    var t := Next(s, restart);
    InvariantNext(s, restart);
    if !s.row.recorded {
      forall more | Run(t, more) ensures After(t, more).row == s.row { UnrecordedIsPermanent(t, more); }
    }
  }

  /** What a restart does to the row and its resources, call by call: it takes up only a row that is provisioning
      and has its container recorded. */
  lemma RestartWrites(s: State, calls: CleanupCalls)
    ensures var t, taken := Next(s, Restart(calls)), calls.query && s.row == Row(Provisioning, true);
      && t.row == (if taken && calls.status then Row(Failed, true) else s.row)
      && t.container == (s.container && !(taken && calls.container))
      && t.volume == (s.volume && !(taken && calls.volume))
  {
  }
}
