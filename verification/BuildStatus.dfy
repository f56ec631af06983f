/** The status of one build row, written by its own run, by any number of cancellations and by the
    clean-up at process start. Cancellation reads the status first and later writes `failed` no matter
    what the status is by then.

    Main results, in every interleaving: the status only moves along pending, running, succeeded, failed
    (StatusOnlyAdvances), so `failed` is final and a build starts at most once; every finished row has its
    time (TerminalRowsAreStamped); a build that failed before its run took it up never reaches the builder
    (FailedEarlyIsNeverBuilt). Without a restart a deploy is attempted if and only if the builder
    succeeded, cancelled or not, and the image is deployed if and only if that attempt worked
    (AttemptedIffBuilt, DeployedIffAttemptWorks). So the row can contradict what happened in two ways, and
    RowTellsTruthIff says exactly when: a cancelled build is deployed (CancelledBuildCanDeploy), or a
    build reads succeeded and is not deployed (SucceededNeedNotDeploy). */
module BuildStatus {
  import opened Common

  datatype Status = Pending | Running | Succeeded | Failed

  datatype Row = Row(status: Status, startedAt: Option<nat>, finishedAt: Option<nat>)

  /** Where the run stands: before its guarded UPDATE, in the builder, before its final UPDATE, before
      the deploy, done. */
  datatype RunPC = Guarding | Building | Finishing(ok: bool) | Deploying | Over

  /** `deployer`: the manager was given a deploy function. `started` counts the moves to running; `handed`,
      `built`, `attempted` and `deployed` record what happened. */
  datatype State = State(
    deployer: bool, row: Row, run: RunPC, cancels: set<nat>,
    started: nat, handed: bool, built: bool, attempted: bool, deployed: bool)

  datatype Step =
    | QueueFull(works: bool, now: nat)
    | Guard(works: bool, now: nat)
    | BuilderReturns(ok: bool)
    | Finalize(works: bool, now: nat)
    | DeployImage(ok: bool)
    | CancelRead(c: nat)
    | CancelWrite(c: nat, works: bool, now: nat)
    | Restart(works: bool, now: nat)

  function Inserted(deployer: bool): State {
    State(deployer, Row(Pending, None, None), Guarding, {}, 0, false, false, false, false)
  }

  predicate InProgress(status: Status) {
    status == Pending || status == Running
  }

  predicate Enabled(s: State, step: Step) {
    match step
    case QueueFull(_, _) => s.run.Guarding?
    case Guard(_, _) => s.run.Guarding?
    case BuilderReturns(_) => s.run.Building?
    case Finalize(_, _) => s.run.Finishing?
    case DeployImage(_) => s.run.Deploying?
    case CancelRead(c) => c !in s.cancels && InProgress(s.row.status)
    case CancelWrite(c, _, _) => c in s.cancels
    case Restart(_, _) => true
  }

  function Finished(row: Row, status: Status, now: nat): Row {
    row.(status := status, finishedAt := Some(now))
  }

  function Next(s: State, step: Step): State
    requires Enabled(s, step)
  {
    match step
    case QueueFull(works, now) =>
      s.(row := if works then Finished(s.row, Failed, now) else s.row, run := Over)
    case Guard(works, now) =>
      if works && s.row.status == Pending
      then s.(row := s.row.(status := Running, startedAt := Some(now)), run := Building,
              started := s.started + 1, handed := true)
      else s.(run := Over)
    case BuilderReturns(ok) => s.(run := Finishing(ok), built := ok)
    case Finalize(works, now) =>
      var ok := s.run.ok;
      s.(row := if works && s.row.status == Running then Finished(s.row, if ok then Succeeded else Failed, now) else s.row,
         run := if ok then Deploying else Over)
    case DeployImage(ok) => s.(run := Over, attempted := s.deployer, deployed := s.deployer && ok)
    case CancelRead(c) => s.(cancels := s.cancels + {c})
    case CancelWrite(c, works, now) =>
      s.(cancels := s.cancels - {c}, row := if works then Finished(s.row, Failed, now) else s.row)
    case Restart(works, now) =>
      s.(run := Over, cancels := {}, row := if works && InProgress(s.row.status) then Finished(s.row, Failed, now) else s.row)
  }

  predicate Run(s: State, steps: seq<Step>)
    decreases |steps|
  {
    steps == [] || (Enabled(s, steps[0]) && Run(Next(s, steps[0]), steps[1..]))
  }

  function After(s: State, steps: seq<Step>): State
    requires Run(s, steps)
    decreases |steps|
  {
    if steps == [] then s else After(Next(s, steps[0]), steps[1..])
  }

  function Position(status: Status): nat {
    match status case Pending => 0 case Running => 1 case Succeeded => 2 case Failed => 3
  }

  ghost predicate Invariant(s: State) {
    && (!InProgress(s.row.status) ==> s.row.finishedAt.Some?)
    && (s.row.status == Running || s.row.status == Succeeded ==> s.row.startedAt.Some?)
    && s.started == (if s.row.startedAt.Some? then 1 else 0)
    && (s.row.status == Pending ==> s.row.startedAt.None?)
    && (s.handed <==> s.row.startedAt.Some?)
    && (s.run.Guarding? ==> !s.handed && !s.built && !s.attempted)
    && (s.run.Building? ==> s.handed && !s.built && !s.attempted)
    && (s.run.Finishing? ==> s.handed && s.built == s.run.ok && !s.attempted)
    && (s.run.Deploying? ==> s.handed && s.built && !s.attempted)
    && (s.deployed ==> s.attempted) && (s.attempted ==> s.built && s.deployer) && (s.built ==> s.handed)
  }

  lemma {:induction false} InvariantHolds(s: State, steps: seq<Step>)
    requires Invariant(s) && Run(s, steps)
    ensures Invariant(After(s, steps))
    decreases |steps|
  {
    if steps != [] { InvariantHolds(Next(s, steps[0]), steps[1..]); }
  }

  /** Nothing ever moves the status back. */
  lemma {:induction false} StatusOnlyAdvances(s: State, steps: seq<Step>)
    requires Run(s, steps)
    ensures Position(s.row.status) <= Position(After(s, steps).row.status)
    decreases |steps|
  {
    if steps != [] { StatusOnlyAdvances(Next(s, steps[0]), steps[1..]); }
  }

  /** Finished rows carry their time, and no row is started twice. */
  lemma TerminalRowsAreStamped(deployer: bool, steps: seq<Step>)
    requires Run(Inserted(deployer), steps)
    ensures var s := After(Inserted(deployer), steps);
            (!InProgress(s.row.status) ==> s.row.finishedAt.Some?) && s.started <= 1
  {
    InvariantHolds(Inserted(deployer), steps);
  }

  /** If the row has failed (by a cancellation, a full queue or a restart) before the run took it up, the
      builder never sees it. */
  lemma {:induction false} FailedEarlyIsNeverBuilt(s: State, steps: seq<Step>)
    requires Invariant(s) && Run(s, steps) && s.row.status == Failed && !s.handed
    ensures !After(s, steps).handed && !After(s, steps).attempted
    decreases |steps|
  {
    if steps != [] { FailedEarlyIsNeverBuilt(Next(s, steps[0]), steps[1..]); }
  }

  predicate Restarts(step: Step) {
    step.Restart?
  }

  /** The step's status statement is executed. */
  predicate Works(step: Step) {
    !(step.QueueFull? || step.Guard? || step.Finalize? || step.CancelWrite? || step.Restart?) || step.works
  }

  predicate Cancels(step: Step) {
    step.CancelWrite?
  }

  predicate Deploys(step: Step) {
    step == DeployImage(true)
  }

  ghost predicate SomeStep(steps: seq<Step>, p: Step -> bool) {
    exists i :: 0 <= i < |steps| && p(steps[i])
  }

  lemma SomeStepSplits(steps: seq<Step>, p: Step -> bool)
    requires steps != []
    ensures SomeStep(steps, p) <==> p(steps[0]) || SomeStep(steps[1..], p)
  {
    if SomeStep(steps, p) && !p(steps[0]) {
      var i :| 0 <= i < |steps| && p(steps[i]);
      assert p(steps[1..][i - 1]);
    }
    if SomeStep(steps[1..], p) {
      var i :| 0 <= i < |steps[1..]| && p(steps[1..][i]);
      assert p(steps[i + 1]);
    }
  }

  /** A run that is over tried to deploy what was built, if it can deploy at all. */
  ghost predicate Attempts(s: State) {
    s.run.Over? ==> s.attempted == (s.built && s.deployer)
  }

  lemma {:induction false} AttemptsHold(s: State, steps: seq<Step>)
    requires Invariant(s) && Attempts(s) && Run(s, steps) && !SomeStep(steps, Restarts)
    ensures Attempts(After(s, steps)) && After(s, steps).deployer == s.deployer
    decreases |steps|
  {
    if steps != [] {
      SomeStepSplits(steps, Restarts);
      AttemptsHold(Next(s, steps[0]), steps[1..]);
    }
  }

  lemma {:induction false} DeployedIffCallWorked(s: State, steps: seq<Step>)
    requires Invariant(s) && Run(s, steps)
    ensures After(s, steps).deployed <==> s.deployed || (s.deployer && SomeStep(steps, Deploys))
    ensures After(s, steps).deployer == s.deployer
    decreases |steps|
  {
    if steps != [] {
      SomeStepSplits(steps, Deploys);
      DeployedIffCallWorked(Next(s, steps[0]), steps[1..]);
    }
  }

  /** Run to its end without a restart, a build is handed to the deploy function if and only if the
      builder succeeded, whatever was cancelled meanwhile. */
  lemma AttemptedIffBuilt(deployer: bool, steps: seq<Step>)
    requires Run(Inserted(deployer), steps) && After(Inserted(deployer), steps).run.Over? && !SomeStep(steps, Restarts)
    ensures After(Inserted(deployer), steps).attempted <==> After(Inserted(deployer), steps).built && deployer
  {
    AttemptsHold(Inserted(deployer), steps);
  }

  /** Run to its end without a restart, the image is deployed if and only if it was built and the deploy
      call worked. */
  lemma DeployedIffAttemptWorks(deployer: bool, steps: seq<Step>)
    requires Run(Inserted(deployer), steps) && After(Inserted(deployer), steps).run.Over? && !SomeStep(steps, Restarts)
    ensures After(Inserted(deployer), steps).deployed
            <==> After(Inserted(deployer), steps).built && deployer && SomeStep(steps, Deploys)
  {
    InvariantHolds(Inserted(deployer), steps);
    DeployedIffCallWorked(Inserted(deployer), steps);
    AttemptsHold(Inserted(deployer), steps);
  }

  /** What the row says while every statement works; `cancelled` says whether a cancellation was written. */
  ghost predicate Tells(s: State, cancelled: bool) {
    && (cancelled ==> s.row.status == Failed)
    && (!cancelled ==> match s.run
                       case Guarding => s.row.status == Pending
                       case Building => s.row.status == Running
                       case Finishing(_) => s.row.status == Running
                       case Deploying => s.row.status == Succeeded
                       case Over => s.row.status == if s.built then Succeeded else Failed)
  }

  lemma {:induction false} RowTells(s: State, steps: seq<Step>, cancelled: bool)
    requires Invariant(s) && Tells(s, cancelled) && Run(s, steps)
    requires !SomeStep(steps, Restarts)
    requires forall i :: 0 <= i < |steps| ==> Works(steps[i])
    ensures Tells(After(s, steps), cancelled || SomeStep(steps, Cancels))
    decreases |steps|
  {
    if steps != [] {
      SomeStepSplits(steps, Restarts);
      SomeStepSplits(steps, Cancels);
      RowTells(Next(s, steps[0]), steps[1..], cancelled || Cancels(steps[0]));
    }
  }

  /** With working statements and no restart, a finished build reads succeeded if and only if it was built
      and no cancellation was written; the deploy plays no part in it. */
  lemma StatusIsBuiltUnlessCancelled(deployer: bool, steps: seq<Step>)
    requires Run(Inserted(deployer), steps) && After(Inserted(deployer), steps).run.Over? && !SomeStep(steps, Restarts)
    requires forall i :: 0 <= i < |steps| ==> Works(steps[i])
    ensures var s := After(Inserted(deployer), steps);
      && (s.row.status == Succeeded <==> s.built && !SomeStep(steps, Cancels))
      && (s.row.status == Failed <==> !s.built || SomeStep(steps, Cancels))
  {
    RowTells(Inserted(deployer), steps, false);
    InvariantHolds(Inserted(deployer), steps);
  }

  /** Hence `succeeded` and `deployed` agree, except exactly for a built image whose cancellation and whose
      deploy both worked, or neither did. */
  lemma RowTellsTruthIff(deployer: bool, steps: seq<Step>)
    requires Run(Inserted(deployer), steps) && After(Inserted(deployer), steps).run.Over? && !SomeStep(steps, Restarts)
    requires forall i :: 0 <= i < |steps| ==> Works(steps[i])
    ensures var s := After(Inserted(deployer), steps);
      (s.row.status == Succeeded) == s.deployed <==>
        (s.built ==> SomeStep(steps, Cancels) != (deployer && SomeStep(steps, Deploys)))
  {
    StatusIsBuiltUnlessCancelled(deployer, steps);
    DeployedIffAttemptWorks(deployer, steps);
  }

  /** A restart fails exactly the builds in progress, and stamps them. */
  lemma RestartFailsInProgress(s: State, now: nat)
    ensures Next(s, Restart(true, now)).row ==
      if s.row.status == Pending || s.row.status == Running
      then Row(Failed, s.row.startedAt, Some(now)) else s.row
  {
  }

  /** After a restart whose statement works, a build never is in progress again, in any run. */
  lemma {:induction false} NothingResumes(s: State, steps: seq<Step>)
    requires Run(s, steps) && s.run.Over? && (s.row.status == Succeeded || s.row.status == Failed)
    ensures After(s, steps).run.Over? && (After(s, steps).row.status == s.row.status || After(s, steps).row.status == Failed)
    ensures After(s, steps).attempted == s.attempted && After(s, steps).deployed == s.deployed
    decreases |steps|
  {
    if steps != [] { NothingResumes(Next(s, steps[0]), steps[1..]); }
  }

  lemma RestartEndsBuild(deployer: bool, before: seq<Step>, now: nat, after: seq<Step>)
    requires Run(Inserted(deployer), before)
    requires Run(Next(After(Inserted(deployer), before), Restart(true, now)), after)
    ensures var s := After(Next(After(Inserted(deployer), before), Restart(true, now)), after);
      && (s.row.status == Succeeded || s.row.status == Failed)
      && s.attempted == After(Inserted(deployer), before).attempted
  {
    NothingResumes(Next(After(Inserted(deployer), before), Restart(true, now)), after);
  }

  /** What each statement writes: the guard starts a pending build, the last one finishes a running one, a full
      queue and a cancellation fail it whatever it is. */
  lemma StatementsWrite(s: State, c: nat, ok: bool, now: nat)
    ensures s.run.Guarding? ==>
              (Next(s, Guard(true, now)).row ==
               if s.row.status == Pending then s.row.(status := Running, startedAt := Some(now)) else s.row)
    ensures s.run == Finishing(ok) ==>
              (Next(s, Finalize(true, now)).row ==
               if s.row.status == Running then s.row.(status := if ok then Succeeded else Failed, finishedAt := Some(now))
               else s.row)
    ensures s.run.Guarding? ==> Next(s, QueueFull(true, now)).row == s.row.(status := Failed, finishedAt := Some(now))
    ensures c in s.cancels ==> Next(s, CancelWrite(c, true, now)).row == s.row.(status := Failed, finishedAt := Some(now))
  {
  }

  /** A deploy that fails leaves the row `succeeded`. */
  lemma SucceededNeedNotDeploy() returns (steps: seq<Step>)
    ensures Run(Inserted(true), steps)
    ensures var s := After(Inserted(true), steps); s.run.Over? && s.row.status == Succeeded && s.attempted && !s.deployed
  {
    var s1 := Next(Inserted(true), Guard(true, 1));
    var tail := [BuilderReturns(true), Finalize(true, 2), DeployImage(false)];
    assert tail[1..] == [Finalize(true, 2), DeployImage(false)] && tail[1..][1..] == [DeployImage(false)] && [DeployImage(false)][1..] == [];
    assert Run(s1, tail) && After(s1, tail).row.status == Succeeded;
    steps := [Guard(true, 1)] + tail;
    assert steps[1..] == tail;
  }

  /** A cancellation that commits while the builder runs does not stop the deploy. */
  lemma CancelledBuildCanDeploy() returns (steps: seq<Step>)
    ensures Run(Inserted(true), steps)
    ensures After(Inserted(true), steps).row.status == Failed && After(Inserted(true), steps).deployed
  {
    var s1 := Next(Inserted(true), Guard(true, 1));
    var s2 := Next(s1, CancelRead(0));
    var s3 := Next(s2, CancelWrite(0, true, 2));
    var tail := [BuilderReturns(true), Finalize(true, 3), DeployImage(true)];
    assert tail[1..] == [Finalize(true, 3), DeployImage(true)] && tail[1..][1..] == [DeployImage(true)] && [DeployImage(true)][1..] == [];
    assert Run(s3, tail) && After(s3, tail).deployed && After(s3, tail).row.status == Failed;
    var mid := [CancelWrite(0, true, 2)] + tail;
    assert mid[1..] == tail;
    assert Run(s2, mid) && After(s2, mid) == After(s3, tail);
    var most := [CancelRead(0)] + mid;
    assert most[1..] == mid;
    assert Run(s1, most) && After(s1, most) == After(s2, mid);
    steps := [Guard(true, 1)] + most;
    assert steps[1..] == most;
  }
}
