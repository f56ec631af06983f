/** The database manager's operations as they are written, one call after another: reserving a port,
    creating a database, deleting one. Each is proved to do exactly what the interleaved machines of Ports
    and DatabaseLifecycle do when nobody interferes, so their laws hold of it (AloneIsRun), and a deletion
    after a creation undoes it (DeleteUndoesCreate). */
module DatabaseManager {
  import opened Common
  import opened DatabaseLifecycle
  import Ports

  // ---------------------------------------------------------------------------------------------------
  // Reserving a port

  datatype Reservation = Reserved(port: nat, attempt: nat) | NoFreePort(attempt: nat) | InsertFailed(attempt: nat) | Exhausted

  /** What one attempt meets: the table and the host's ports when it scans, the table when it inserts, and
      whether the insert fails for another reason than the unique index. */
  datatype Attempt = Attempt(scanned: map<string, Ports.Row>, listening: set<nat>, inserting: map<string, Ports.Row>, broken: bool)

  function Scanned(t: Ports.DbType, a: Attempt): Option<nat> {
    Ports.FirstFree(t, Ports.MinPort(t), Ports.UsedPorts(a.scanned), a.listening)
  }

  /** The unique index refuses the scanned port. */
  ghost predicate Clashes(t: Ports.DbType, a: Attempt) {
    Scanned(t, a).Some? && !a.broken && exists h :: Ports.Holds(a.inserting, h, Scanned(t, a).value)
  }

  /** The ports of a table, as the index sees them. */
  lemma UsedIffHeld(rows: map<string, Ports.Row>, port: nat)
    ensures port in Ports.UsedPorts(rows) <==> exists h :: Ports.Holds(rows, h, port)
  {
    if port in Ports.UsedPorts(rows) {
      var h :| h in rows && !rows[h].failed && rows[h].port == port;
      assert Ports.Holds(rows, h, port);
    }
  }

  /** At most five attempts; each one before the last ended in a clash. A reserved port was free at its
      scan and is held by nobody at its insert. */
  method ReservePort(t: Ports.DbType, attempts: seq<Attempt>) returns (r: Reservation)
    requires |attempts| == Ports.MAX_RETRIES
    ensures r.Exhausted? || r.attempt < 5
    ensures forall k :: 0 <= k < (if r.Exhausted? then 5 else r.attempt) ==> Clashes(t, attempts[k])
    ensures r.Reserved? ==> Scanned(t, attempts[r.attempt]) == Some(r.port) && !attempts[r.attempt].broken
                            && !exists h :: Ports.Holds(attempts[r.attempt].inserting, h, r.port)
    ensures r.NoFreePort? ==> Scanned(t, attempts[r.attempt]).None?
    ensures r.InsertFailed? ==> Scanned(t, attempts[r.attempt]).Some? && attempts[r.attempt].broken
  {
    for attempt := 0 to Ports.MAX_RETRIES
      invariant forall k :: 0 <= k < attempt ==> Clashes(t, attempts[k])
    {
      var a := attempts[attempt];
      var port := Ports.FindFreePort(t, Ports.UsedPorts(a.scanned), a.listening);
      if port.None? {
        return NoFreePort(attempt);
      }
      UsedIffHeld(a.inserting, port.value);
      if a.broken {
        return InsertFailed(attempt);
      }
      if port.value !in Ports.UsedPorts(a.inserting) {
        return Reserved(port.value, attempt);
      }
    }
    return Exhausted;
  }

  /** A clash is the work of a row that was not there, or had failed, when this attempt scanned. */
  lemma ClashIsNew(t: Ports.DbType, a: Attempt) returns (h: string)
    requires Clashes(t, a)
    ensures Ports.Holds(a.inserting, h, Scanned(t, a).value) && !Ports.Holds(a.scanned, h, Scanned(t, a).value)
  {
    h :| Ports.Holds(a.inserting, h, Scanned(t, a).value);
    UsedIffHeld(a.scanned, Scanned(t, a).value);
  }

  // ---------------------------------------------------------------------------------------------------
  // Creating and deleting without interference

  function CallsLeft(pc: CreatePC): nat {
    match pc
    case Insert => 9 case MakeVolume => 8 case RunContainer => 7 case RecordContainer => 6 case Probe => 5
    case MarkReady => 4 case FailUnhealthy => 4 case CleanContainer => 3 case FailAfterRun => 3
    case CleanVolume => 2 case FailAfterVolume => 1 case Created => 0 case CreateFailed => 0
  }

  /** The calls' answers are given by the place they are made at. */
  function CreateAlone(s: State, ok: CreatePC -> bool, partial: CreatePC -> bool): (t: State)
    ensures Ended(t.create) && t.deletes == s.deletes
    decreases CallsLeft(s.create)
  {
    if Ended(s.create) then s else CreateAlone(CreateStep(s, ok(s.create), partial(s.create)), ok, partial)
  }

  function DeleteCallsLeft(pc: DeletePC): nat {
    match pc
    case Get => 5 case StopContainer => 4 case RemoveContainer => 3 case RemoveVolume => 2 case DeleteRow => 1
    case _ => 0
  }

  function DeleteAlone(s: State, d: nat, ok: DeletePC -> bool): (t: State)
    requires d in s.deletes
    ensures d in t.deletes && Over(t.deletes[d]) && t.create == s.create
    decreases DeleteCallsLeft(s.deletes[d])
  {
    if Over(s.deletes[d]) then s else DeleteAlone(DeleteStep(s, d, ok(s.deletes[d])), d, ok)
  }

  /** One database: its row and its Docker resources. */
  class Manager {
    var row: Row
    var container: bool
    var volume: bool
    ghost var leaked: bool

    ghost function View(create: CreatePC, del: DeletePC): State
      reads this
    {
      State(row, container, volume, create, map[0 := del], leaked, false)
    }

    constructor ()
      ensures Creating(Insert) == READY_TO_CREATE
    {
      row, container, volume, leaked := Absent, false, false, false;
    }

    method UpdateStatus(status: Status, works: bool) returns (updated: bool)
      modifies this`row
      ensures row == WithStatus(old(row), status, works)
      ensures updated == (works && old(row).Row?)
    {
      if !works || row.Absent? {
        return false;
      }
      row := row.(status := status);
      return true;
    }

    method CleanUp(ok: CreatePC -> bool, partial: CreatePC -> bool)
      modifies this
      ensures Creating(CreateFailed) == CreateAlone(old(Creating(CleanContainer)), ok, partial)
    {
      ghost var was := Creating(CleanContainer);
      if ok(CleanContainer) { container := false; } else { leaked := true; }
      UnfoldCreate(was, Creating(CleanVolume), ok, partial);
      RemoveVolumeOnly(ok, partial);
    }

    method RemoveVolumeOnly(ok: CreatePC -> bool, partial: CreatePC -> bool)
      modifies this
      ensures Creating(CreateFailed) == CreateAlone(old(Creating(CleanVolume)), ok, partial)
    {
      ghost var was := Creating(CleanVolume);
      if ok(CleanVolume) { volume := false; } else { leaked := true; }
      UnfoldCreate(was, Creating(CreateFailed), ok, partial);
    }

    ghost function Creating(create: CreatePC): State
      reads this
    {
      View(create, Get)
    }

    method Create(ok: CreatePC -> bool, partial: CreatePC -> bool) returns (created: bool)
      modifies this
      ensures Creating(if created then Created else CreateFailed) == CreateAlone(old(Creating(Insert)), ok, partial)
    {
      ghost var was := Creating(Insert);
      if !ok(Insert) {
        UnfoldCreate(was, Creating(CreateFailed), ok, partial);
        return false;
      }
      row := DatabaseLifecycle.Row.Row(Provisioning, false);
      UnfoldCreate(was, Creating(MakeVolume), ok, partial);
      created := Provision(ok, partial);
    }

    /** From the creation of the volume on. */
    method Provision(ok: CreatePC -> bool, partial: CreatePC -> bool) returns (created: bool)
      modifies this
      ensures Creating(if created then Created else CreateFailed) == CreateAlone(old(Creating(MakeVolume)), ok, partial)
    {
      ghost var was := Creating(MakeVolume);
      if !ok(MakeVolume) {
        volume, leaked := partial(MakeVolume), leaked || partial(MakeVolume);
        UnfoldCreate(was, Creating(FailAfterVolume), ok, partial);
        GiveUpVolume(ok, partial);
        return false;
      }
      volume := true;
      UnfoldCreate(was, Creating(RunContainer), ok, partial);
      created := Launch(ok, partial);
    }

    method GiveUpVolume(ok: CreatePC -> bool, partial: CreatePC -> bool)
      modifies this
      ensures Creating(CreateFailed) == CreateAlone(old(Creating(FailAfterVolume)), ok, partial)
    {
      ghost var was := Creating(FailAfterVolume);
      var _ := UpdateStatus(Failed, ok(FailAfterVolume));
      UnfoldCreate(was, Creating(CreateFailed), ok, partial);
    }

    method GiveUpRun(ok: CreatePC -> bool, partial: CreatePC -> bool)
      modifies this
      ensures Creating(CreateFailed) == CreateAlone(old(Creating(FailAfterRun)), ok, partial)
    {
      ghost var was := Creating(FailAfterRun);
      var _ := UpdateStatus(Failed, ok(FailAfterRun));
      UnfoldCreate(was, Creating(CleanVolume), ok, partial);
      RemoveVolumeOnly(ok, partial);
    }

    /** From the start of the container on. */
    method Launch(ok: CreatePC -> bool, partial: CreatePC -> bool) returns (created: bool)
      modifies this
      ensures Creating(if created then Created else CreateFailed) == CreateAlone(old(Creating(RunContainer)), ok, partial)
    {
      ghost var was := Creating(RunContainer);
      if !ok(RunContainer) {
        container, leaked := partial(RunContainer), leaked || partial(RunContainer);
        UnfoldCreate(was, Creating(FailAfterRun), ok, partial);
        GiveUpRun(ok, partial);
        return false;
      }
      container := true;
      UnfoldCreate(was, Creating(RecordContainer), ok, partial);
      created := Record(ok, partial);
    }

    /** From the recording of the container on. */
    method Record(ok: CreatePC -> bool, partial: CreatePC -> bool) returns (created: bool)
      modifies this
      ensures Creating(if created then Created else CreateFailed) == CreateAlone(old(Creating(RecordContainer)), ok, partial)
    {
      ghost var was := Creating(RecordContainer);
      if !ok(RecordContainer) || row.Absent? {
        UnfoldCreate(was, Creating(CleanContainer), ok, partial);
        CleanUp(ok, partial);
        return false;
      }
      row := row.(recorded := true);
      UnfoldCreate(was, Creating(Probe), ok, partial);
      created := AwaitReady(ok, partial);
    }

    method GiveUpUnhealthy(ok: CreatePC -> bool, partial: CreatePC -> bool)
      modifies this
      ensures Creating(CreateFailed) == CreateAlone(old(Creating(FailUnhealthy)), ok, partial)
    {
      ghost var was := Creating(FailUnhealthy);
      var _ := UpdateStatus(Failed, ok(FailUnhealthy));
      UnfoldCreate(was, Creating(CleanContainer), ok, partial);
      CleanUp(ok, partial);
    }

    /** From the health probe on. */
    method AwaitReady(ok: CreatePC -> bool, partial: CreatePC -> bool) returns (created: bool)
      modifies this
      ensures Creating(if created then Created else CreateFailed) == CreateAlone(old(Creating(Probe)), ok, partial)
    {
      ghost var was := Creating(Probe);
      if !ok(Probe) {
        UnfoldCreate(was, Creating(FailUnhealthy), ok, partial);
        GiveUpUnhealthy(ok, partial);
        return false;
      }
      UnfoldCreate(was, Creating(MarkReady), ok, partial);
      created := SetReady(ok, partial);
    }

    method SetReady(ok: CreatePC -> bool, partial: CreatePC -> bool) returns (created: bool)
      modifies this
      ensures Creating(if created then Created else CreateFailed) == CreateAlone(old(Creating(MarkReady)), ok, partial)
    {
      ghost var was := Creating(MarkReady);
      created := UpdateStatus(Ready, ok(MarkReady));
      if created {
        UnfoldCreate(was, Creating(Created), ok, partial);
      } else {
        UnfoldCreate(was, Creating(CleanContainer), ok, partial);
        CleanUp(ok, partial);
      }
    }

    ghost function Deleting(del: DeletePC): State
      reads this
    {
      View(Created, del)
    }

    /** A failed row read is Refused; a failed call later on is FailedMidway and keeps the row. */
    method Delete(ok: DeletePC -> bool) returns (end: DeletePC)
      modifies this
      ensures Deleting(end) == DeleteAlone(old(Deleting(Get)), 0, ok)
    {
      if !ok(Get) || row.Absent? || !row.recorded {
        Unfold(Deleting(Get), Deleting(Refused), ok);
        return Refused;
      }
      Unfold(Deleting(Get), Deleting(StopContainer), ok);
      end := StopAndRemove(ok);
    }

    /** Whether the stop works does not matter. */
    method StopAndRemove(ok: DeletePC -> bool) returns (end: DeletePC)
      modifies this
      ensures Deleting(end) == DeleteAlone(old(Deleting(StopContainer)), 0, ok)
    {
      Unfold(Deleting(StopContainer), Deleting(RemoveContainer), ok);
      end := RemoveResources(ok);
    }

    /** From the removal of the container on. */
    method RemoveResources(ok: DeletePC -> bool) returns (end: DeletePC)
      modifies this
      ensures Deleting(end) == DeleteAlone(old(Deleting(RemoveContainer)), 0, ok)
    {
      ghost var was := Deleting(RemoveContainer);
      if !ok(RemoveContainer) {
        Unfold(was, Deleting(FailedMidway), ok);
        return FailedMidway;
      }
      container := false;
      Unfold(was, Deleting(RemoveVolume), ok);
      end := RemoveVolumeAndRow(ok);
    }

    method RemoveVolumeAndRow(ok: DeletePC -> bool) returns (end: DeletePC)
      modifies this
      ensures Deleting(end) == DeleteAlone(old(Deleting(RemoveVolume)), 0, ok)
    {
      ghost var was := Deleting(RemoveVolume);
      if !ok(RemoveVolume) {
        Unfold(was, Deleting(FailedMidway), ok);
        return FailedMidway;
      }
      volume := false;
      Unfold(was, Deleting(DeleteRow), ok);
      end := RemoveRow(ok);
    }

    method RemoveRow(ok: DeletePC -> bool) returns (end: DeletePC)
      modifies this
      ensures Deleting(end) == DeleteAlone(old(Deleting(DeleteRow)), 0, ok)
    {
      ghost var was := Deleting(DeleteRow);
      if !ok(DeleteRow) {
        Unfold(was, Deleting(FailedMidway), ok);
        return FailedMidway;
      }
      row := Absent;
      Unfold(was, Deleting(Deleted), ok);
      return Deleted;
    }
  }

  /** One call of a creation. */
  lemma UnfoldCreate(s: State, t: State, ok: CreatePC -> bool, partial: CreatePC -> bool)
    requires !Ended(s.create) && t == CreateStep(s, ok(s.create), partial(s.create))
    ensures CreateAlone(s, ok, partial) == CreateAlone(t, ok, partial)
    ensures Ended(t.create) ==> CreateAlone(s, ok, partial) == t
  {
  }

  /** One call of a deletion. */
  lemma Unfold(s: State, t: State, ok: DeletePC -> bool)
    requires 0 in s.deletes && !Over(s.deletes[0]) && t == DeleteStep(s, 0, ok(s.deletes[0]))
    ensures DeleteAlone(s, 0, ok) == DeleteAlone(t, 0, ok)
    ensures Over(t.deletes[0]) ==> DeleteAlone(s, 0, ok) == t
  {
  }

  // ---------------------------------------------------------------------------------------------------
  // The operations as runs of the machine

  lemma {:induction false} CreateAloneIsRun(s: State, ok: CreatePC -> bool, partial: CreatePC -> bool) returns (steps: seq<Step>)
    ensures Run(s, steps) && After(s, steps) == CreateAlone(s, ok, partial)
    decreases CallsLeft(s.create)
  {
    steps := [];
    if !Ended(s.create) {
      var first := Step.Create(ok(s.create), partial(s.create));
      var rest := CreateAloneIsRun(Next(s, first), ok, partial);
      RunCons(s, first, rest);
      steps := [first] + rest;
    }
  }

  lemma {:induction false} DeleteAloneIsRun(s: State, d: nat, ok: DeletePC -> bool) returns (steps: seq<Step>)
    requires d in s.deletes
    ensures Run(s, steps) && After(s, steps) == DeleteAlone(s, d, ok)
    decreases DeleteCallsLeft(s.deletes[d])
  {
    steps := [];
    if !Over(s.deletes[d]) {
      var first := Step.Delete(d, ok(s.deletes[d]));
      var rest := DeleteAloneIsRun(Next(s, first), d, ok);
      RunCons(s, first, rest);
      steps := [first] + rest;
    }
  }

  const READY_TO_CREATE := START.(deletes := map[0 := Get])

  /** A creation followed by a deletion, each run alone. */
  function CreateThenDelete(s: State, d: nat, ok: CreatePC -> bool, partial: CreatePC -> bool, deleteOk: DeletePC -> bool): State
    requires d in s.deletes
  {
    DeleteAlone(CreateAlone(s, ok, partial), d, deleteOk)
  }

  /** From any state, both operations back to back are one run of the machine, so all its laws hold of them. */
  lemma AloneIsRun(s: State, d: nat, ok: CreatePC -> bool, partial: CreatePC -> bool, deleteOk: DeletePC -> bool)
    returns (steps: seq<Step>)
    requires d in s.deletes
    ensures Run(s, steps) && After(s, steps) == CreateThenDelete(s, d, ok, partial, deleteOk)
  {
    var create := CreateAloneIsRun(s, ok, partial);
    var del := DeleteAloneIsRun(CreateAlone(s, ok, partial), d, deleteOk);
    RunConcat(s, create, del);
    steps := create + del;
  }

  /** The calls a creation standing at `pc` still needs. */
  predicate WorksFrom(pc: CreatePC, ok: CreatePC -> bool)
    decreases CallsLeft(pc)
  {
    match pc
    case Insert => ok(pc) && WorksFrom(MakeVolume, ok)
    case MakeVolume => ok(pc) && WorksFrom(RunContainer, ok)
    case RunContainer => ok(pc) && WorksFrom(RecordContainer, ok)
    case RecordContainer => ok(pc) && WorksFrom(Probe, ok)
    case Probe => ok(pc) && WorksFrom(MarkReady, ok)
    case MarkReady => ok(pc)
    case Created => true
    case _ => false
  }

  predicate DeletesFrom(pc: DeletePC, ok: DeletePC -> bool)
    decreases DeleteCallsLeft(pc)
  {
    match pc
    case Get => ok(pc) && DeletesFrom(RemoveContainer, ok)
    case StopContainer => DeletesFrom(RemoveContainer, ok)
    case RemoveContainer => ok(pc) && DeletesFrom(RemoveVolume, ok)
    case RemoveVolume => ok(pc) && DeletesFrom(DeleteRow, ok)
    case DeleteRow => ok(pc)
    case Deleted => true
    case _ => false
  }

  /** The row of a creation under way is there, and names its container once that is recorded. */
  predicate RowFollows(s: State) {
    && (s.row.Absent? ==> s.create.Insert? || s.create.CreateFailed?)
    && (s.create.Probe? || s.create.MarkReady? || s.create.Created? ==> s.row.Row? && s.row.recorded)
  }

  lemma StepWorks(s: State, ok: CreatePC -> bool, partial: bool)
    requires RowFollows(s) && !Ended(s.create)
    ensures RowFollows(CreateStep(s, ok(s.create), partial))
    ensures WorksFrom(CreateStep(s, ok(s.create), partial).create, ok) == WorksFrom(s.create, ok)
  {
  }

  /** What every call of a creation keeps, the whole creation keeps. */
  lemma {:induction false} CreateAlonePreserves(s: State, ok: CreatePC -> bool, partial: CreatePC -> bool, kept: State -> bool)
    requires kept(s)
    requires forall u :: kept(u) && !Ended(u.create) ==> kept(CreateStep(u, ok(u.create), partial(u.create)))
    ensures kept(CreateAlone(s, ok, partial))
    decreases CallsLeft(s.create)
  {
    if !Ended(s.create) {
      CreateAlonePreserves(CreateStep(s, ok(s.create), partial(s.create)), ok, partial, kept);
    }
  }

  lemma CreatedIff(s: State, ok: CreatePC -> bool, partial: CreatePC -> bool)
    requires RowFollows(s)
    ensures CreateAlone(s, ok, partial).create.Created? <==> WorksFrom(s.create, ok)
    ensures RowFollows(CreateAlone(s, ok, partial))
  {
    var works := WorksFrom(s.create, ok);
    var kept := (u: State) => RowFollows(u) && WorksFrom(u.create, ok) == works;
    forall u | kept(u) && !Ended(u.create)
      ensures kept(CreateStep(u, ok(u.create), partial(u.create)))
    {
      StepWorks(u, ok, partial(u.create));
    }
    CreateAlonePreserves(s, ok, partial, kept);
  }

  lemma {:induction false} DeletedIff(s: State, d: nat, ok: DeletePC -> bool)
    requires d in s.deletes && (s.deletes[d].Deleted? <==> s.row.Absent?) && (s.row.Row? ==> s.row.recorded)
    ensures DeleteAlone(s, d, ok).row.Absent? <==> DeletesFrom(s.deletes[d], ok)
    ensures !DeletesFrom(s.deletes[d], ok) ==> DeleteAlone(s, d, ok).row == s.row
    decreases DeleteCallsLeft(s.deletes[d])
  {
    if !Over(s.deletes[d]) { DeletedIff(DeleteStep(s, d, ok(s.deletes[d])), d, ok); }
  }

  /** In every reachable state in which the creation is still to come, a deletion undoes a creation that
      works: the row goes if and only if all its calls but the stop work, and with it the container and the
      volume. */
  lemma DeleteUndoesCreate(before: seq<Step>, d: nat, ok: CreatePC -> bool, partial: CreatePC -> bool, deleteOk: DeletePC -> bool)
    requires Run(START, before) && After(START, before).create == Insert && WorksFrom(Insert, ok)
    requires d in After(START, before).deletes && After(START, before).deletes[d] == Get
    ensures var s := CreateThenDelete(After(START, before), d, ok, partial, deleteOk);
      && s.create.Created?
      && (s.row.Absent? <==> DeletesFrom(Get, deleteOk))
      && (s.row.Absent? ==> !s.container && !s.volume)
      && (s.row.Row? ==> s.row.recorded)
  {
    var s := After(START, before);
    InvariantHolds(START, before);
    CreatedIff(s, ok, partial);
    DeletedIff(CreateAlone(s, ok, partial), d, deleteOk);
    var steps := AloneIsRun(s, d, ok, partial, deleteOk);
    RunConcat(START, before, steps);
    if CreateThenDelete(s, d, ok, partial, deleteOk).row.Absent? { DeletedLeavesNothing(before + steps); }
  }

  // ----- How a creation ends, call by call -----

  /** The rows and resources of a creation that fails: `containerMade` and `volumeMade` are what it has when the
      first call fails, cleaned up as far as the calls for it work. */
  ghost predicate EndsFailed(t: State, row: Row, container: bool, volume: bool) {
    t.create.CreateFailed? && t.row == row && t.container == container && t.volume == volume
  }

  function Marked(row: Row, ok: bool): Row
    requires row.Row?
  {
    if ok then row.(status := Failed) else row
  }

  lemma CleanUpOutcome(s: State, ok: CreatePC -> bool, partial: CreatePC -> bool)
    requires s.create == CleanContainer
    ensures EndsFailed(CreateAlone(s, ok, partial), s.row, s.container && !ok(CleanContainer), s.volume && !ok(CleanVolume))
  {
    var s1 := CreateStep(s, ok(CleanContainer), partial(CleanContainer));
    UnfoldCreate(s, s1, ok, partial);
    UnfoldCreate(s1, CreateStep(s1, ok(CleanVolume), partial(CleanVolume)), ok, partial);
  }

  /** From the health probe on: an unhealthy database is failed and removed, a status that cannot be written
      leaves the row provisioning and removes it too. */
  lemma ProbeOutcome(s: State, ok: CreatePC -> bool, partial: CreatePC -> bool)
    requires s.create == Probe && s.row.Row?
    ensures var t := CreateAlone(s, ok, partial);
      if !ok(Probe) then
        EndsFailed(t, Marked(s.row, ok(FailUnhealthy)), s.container && !ok(CleanContainer), s.volume && !ok(CleanVolume))
      else if !ok(MarkReady) then
        EndsFailed(t, s.row, s.container && !ok(CleanContainer), s.volume && !ok(CleanVolume))
      else t == s.(row := s.row.(status := Ready), create := Created)
  {
    var s1 := CreateStep(s, ok(Probe), partial(Probe));
    UnfoldCreate(s, s1, ok, partial);
    var s2 := CreateStep(s1, ok(s1.create), partial(s1.create));
    UnfoldCreate(s1, s2, ok, partial);
    if s2.create.CleanContainer? { CleanUpOutcome(s2, ok, partial); }
  }

  /** From the recording of the container on: a container that cannot be recorded is removed, with its volume,
      and the row stays provisioning. */
  lemma RecordOutcome(s: State, ok: CreatePC -> bool, partial: CreatePC -> bool)
    requires s.create == RecordContainer && s.row == Row(Provisioning, false) && s.container && s.volume
    ensures var t := CreateAlone(s, ok, partial);
      if !ok(RecordContainer) then EndsFailed(t, Row(Provisioning, false), !ok(CleanContainer), !ok(CleanVolume))
      else if !ok(Probe) then
        EndsFailed(t, Marked(Row(Provisioning, true), ok(FailUnhealthy)), !ok(CleanContainer), !ok(CleanVolume))
      else if !ok(MarkReady) then EndsFailed(t, Row(Provisioning, true), !ok(CleanContainer), !ok(CleanVolume))
      else t.create.Created? && t.row == Row(Ready, true) && t.container && t.volume
  {
    var s1 := CreateStep(s, ok(RecordContainer), partial(RecordContainer));
    UnfoldCreate(s, s1, ok, partial);
    if ok(RecordContainer) { ProbeOutcome(s1, ok, partial); } else { CleanUpOutcome(s1, ok, partial); }
  }

  /** From the start of the container on: one that cannot be started fails the row and removes the volume. */
  lemma RunOutcome(s: State, ok: CreatePC -> bool, partial: CreatePC -> bool)
    requires s.create == RunContainer && s.row == Row(Provisioning, false) && !s.container && s.volume
    ensures var t := CreateAlone(s, ok, partial);
      && (!ok(RunContainer) ==>
            EndsFailed(t, Marked(Row(Provisioning, false), ok(FailAfterRun)), partial(RunContainer), !ok(CleanVolume)))
      && (ok(RunContainer) ==>
            t == CreateAlone(s.(container := true, create := RecordContainer), ok, partial))
  {
    var s1 := CreateStep(s, ok(RunContainer), partial(RunContainer));
    UnfoldCreate(s, s1, ok, partial);
    if !ok(RunContainer) {
      var s2 := CreateStep(s1, ok(FailAfterRun), partial(FailAfterRun));
      UnfoldCreate(s1, s2, ok, partial);
      UnfoldCreate(s2, CreateStep(s2, ok(CleanVolume), partial(CleanVolume)), ok, partial);
    }
  }

  /** From the creation of the volume on. */
  lemma VolumeOutcome(s: State, ok: CreatePC -> bool, partial: CreatePC -> bool)
    requires s.create == MakeVolume && s.row == Row(Provisioning, false) && !s.container && !s.volume
    ensures var t := CreateAlone(s, ok, partial);
      && (!ok(MakeVolume) ==>
            EndsFailed(t, Marked(Row(Provisioning, false), ok(FailAfterVolume)), false, partial(MakeVolume)))
      && (ok(MakeVolume) ==> t == CreateAlone(s.(volume := true, create := RunContainer), ok, partial))
  {
    var s1 := CreateStep(s, ok(MakeVolume), partial(MakeVolume));
    UnfoldCreate(s, s1, ok, partial);
    if !ok(MakeVolume) {
      UnfoldCreate(s1, CreateStep(s1, ok(FailAfterVolume), partial(FailAfterVolume)), ok, partial);
    }
  }

  /** Every way a creation alone can end: what the row says and what is left, by the first call that fails. */
  lemma CreateOutcome(s: State, ok: CreatePC -> bool, partial: CreatePC -> bool)
    requires s.create == Insert && s.row == Absent && !s.container && !s.volume
    ensures var t := CreateAlone(s, ok, partial);
      if !ok(Insert) then EndsFailed(t, Absent, false, false)
      else if !ok(MakeVolume) then EndsFailed(t, Row(if ok(FailAfterVolume) then Failed else Provisioning, false), false, partial(MakeVolume))
      else if !ok(RunContainer) then
        EndsFailed(t, Row(if ok(FailAfterRun) then Failed else Provisioning, false), partial(RunContainer), !ok(CleanVolume))
      else if !ok(RecordContainer) then EndsFailed(t, Row(Provisioning, false), !ok(CleanContainer), !ok(CleanVolume))
      else if !ok(Probe) then
        EndsFailed(t, Row(if ok(FailUnhealthy) then Failed else Provisioning, true), !ok(CleanContainer), !ok(CleanVolume))
      else if !ok(MarkReady) then EndsFailed(t, Row(Provisioning, true), !ok(CleanContainer), !ok(CleanVolume))
      else t.create.Created? && t.row == Row(Ready, true) && t.container && t.volume
  {
    var s1 := CreateStep(s, ok(Insert), partial(Insert));
    UnfoldCreate(s, s1, ok, partial);
    if ok(Insert) {
      VolumeOutcome(s1, ok, partial);
      if ok(MakeVolume) {
        var s2 := s1.(volume := true, create := RunContainer);
        RunOutcome(s2, ok, partial);
        if ok(RunContainer) { RecordOutcome(s2.(container := true, create := RecordContainer), ok, partial); }
      }
    }
  }

  /** Every way a deletion alone can end: the calls run in order, and the first that fails, the stop aside, ends
      it and keeps the rest. */
  lemma DeleteOutcome(s: State, ok: DeletePC -> bool)
    requires s.deletes == map[0 := Get]
    ensures var t := DeleteAlone(s, 0, ok);
            var begins := ok(Get) && s.row.Row? && s.row.recorded;
      && t.container == (s.container && !(begins && ok(RemoveContainer)))
      && t.volume == (s.volume && !(begins && ok(RemoveContainer) && ok(RemoveVolume)))
      && t.row == if begins && ok(RemoveContainer) && ok(RemoveVolume) && ok(DeleteRow) then Absent else s.row
  {
    var s1 := DeleteStep(s, 0, ok(Get));
    Unfold(s, s1, ok);
    if ok(Get) && s.row.Row? && s.row.recorded {
      var s2 := DeleteStep(s1, 0, ok(StopContainer));
      Unfold(s1, s2, ok);
      DeleteRest(s2, ok);
    }
  }

  lemma DeleteRest(s: State, ok: DeletePC -> bool)
    requires s.deletes == map[0 := RemoveContainer]
    ensures var t := DeleteAlone(s, 0, ok);
      && t.container == (s.container && !ok(RemoveContainer))
      && t.volume == (s.volume && !(ok(RemoveContainer) && ok(RemoveVolume)))
      && t.row == if ok(RemoveContainer) && ok(RemoveVolume) && ok(DeleteRow) then Absent else s.row
  {
    var s1 := DeleteStep(s, 0, ok(RemoveContainer));
    Unfold(s, s1, ok);
    if ok(RemoveContainer) {
      var s2 := DeleteStep(s1, 0, ok(RemoveVolume));
      Unfold(s1, s2, ok);
      if ok(RemoveVolume) { Unfold(s2, DeleteStep(s2, 0, ok(DeleteRow)), ok); }
    }
  }
}
