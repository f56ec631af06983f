/** A service's circuit while starts and deploys interleave with everything else: an operation reads that the
    circuit is closed, and sets the row to running in a later statement.

    Main results: without DeployImage, a service runs on an open circuit only if an operation read the
    circuit closed before it opened and wrote afterwards (OpenRunIsLateWrite), and this happens
    (LateWriteIsReachable); while a circuit is open and stays open, the service can come to run if and only
    if such an operation is still on its way (RunsOpenLaterIff). */
module CircuitRace {
  import opened Common
  import opened Services
  import opened CircuitBreaker

  /** `pending`: starts, restarts and deploys that have read the circuit closed and have not ended. */
  datatype State = State(svc: Service, pending: set<nat>)

  /** Mark is a status a deploy writes on its way. Ticks, stops, resets, suspensions and the write of a
      DeployImage are one statement or one tick each. */
  datatype Step =
    | Atomic(op: Op)
    | Check(p: nat)
    | Mark(p: nat, failed: bool, now: nat)
    | WriteRunning(p: nat, containerID: Option<string>, now: nat)
    | Leave(p: nat)

  predicate Enabled(s: State, step: Step) {
    match step
    case Atomic(op) => !op.Deploy? && !op.Start?
    case Check(p) => p !in s.pending && !s.svc.circuitOpen
    case Mark(p, _, _) => p in s.pending
    case WriteRunning(p, _, _) => p in s.pending
    case Leave(p) => p in s.pending
  }

  function Next(s: State, step: Step): State {
    match step
    case Atomic(op) => s.(svc := Apply(s.svc, op))
    case Check(p) => s.(pending := s.pending + {p})
    case Mark(_, failed, now) => s.(svc := SetStatus(s.svc, if failed then Failed else Deploying, now))
    case WriteRunning(p, containerID, now) =>
      var running := SetStatus(s.svc, Running, now);
      State(if containerID.Some? then running.(containerID := containerID.value) else running, s.pending - {p})
    case Leave(p) => s.(pending := s.pending - {p})
  }

  function Initially(now: nat): State {
    State(NewService(now), {})
  }

  predicate Run(now: nat, steps: seq<Step>)
    decreases |steps|
  {
    steps == [] || (Run(now, steps[..|steps| - 1]) && Enabled(After(now, steps[..|steps| - 1]), steps[|steps| - 1]))
  }

  function After(now: nat, steps: seq<Step>): State
    decreases |steps|
  {
    if steps == [] then Initially(now) else Next(After(now, steps[..|steps| - 1]), steps[|steps| - 1])
  }

  /** A DeployImage that starts its container. */
  predicate Bypasses(step: Step) {
    step.Atomic? && step.op.DeployImage? && step.op.end.Deployed?
  }

  predicate NoBypass(steps: seq<Step>) {
    forall i :: 0 <= i < |steps| ==> !Bypasses(steps[i])
  }

  lemma ImageNeedsDeployed(s: Service, end: DeployEnd, now: nat)
    requires !RunsOpen(s) && !end.Deployed?
    ensures !RunsOpen(Services.DeployImage(s, end, now))
  {
  }

  /** Only a write can bring a service to run on an open circuit. */
  lemma OnlyWritesRunOpen(s: State, step: Step)
    requires Enabled(s, step) && !Bypasses(step) && !RunsOpen(s.svc) && RunsOpen(Next(s, step).svc)
    ensures step.WriteRunning? && s.svc.circuitOpen
  {
    if step.Atomic? {
      if step.op.DeployImage? {
        ImageNeedsDeployed(s.svc, step.op.end, step.op.now);
      } else {
        OpNeverRunsOpen(s.svc, step.op);
      }
    }
  }

  /** What is pending once read a closed circuit. */
  lemma {:induction false} PendingWasChecked(now: nat, steps: seq<Step>, p: nat) returns (i: nat)
    requires Run(now, steps) && p in After(now, steps).pending
    ensures i < |steps| && steps[i] == Check(p) && !After(now, steps[..i]).svc.circuitOpen
    decreases |steps|
  {
    var rest, last := steps[..|steps| - 1], steps[|steps| - 1];
    if last == Check(p) {
      i := |steps| - 1;
    } else {
      i := PendingWasChecked(now, rest, p);
      assert rest[..i] == steps[..i];
    }
  }

  /** Operation number i read the closed circuit, and number j set the service to running on the open one. */
  ghost predicate IsLateWrite(now: nat, steps: seq<Step>, i: nat, j: nat) {
    && i < j < |steps| && steps[i].Check? && steps[j].WriteRunning? && steps[i].p == steps[j].p
    && !After(now, steps[..i]).svc.circuitOpen && After(now, steps[..j]).svc.circuitOpen
  }

  /** In every interleaving without a bypass that ends with a service running on an open circuit, some
      operation read the circuit while it was closed and set the service to running while it was open. */
  lemma {:induction false} OpenRunIsLateWrite(now: nat, steps: seq<Step>) returns (i: nat, j: nat)
    requires Run(now, steps) && NoBypass(steps)
    ensures RunsOpen(After(now, steps).svc) ==> IsLateWrite(now, steps, i, j)
    decreases |steps|
  {
    i, j := 0, 0;
    if !RunsOpen(After(now, steps).svc) { return; }
    var rest, last := steps[..|steps| - 1], steps[|steps| - 1];
    if RunsOpen(After(now, rest).svc) {
      i, j := OpenRunIsLateWrite(now, rest);
      assert rest[..i] == steps[..i] && rest[..j] == steps[..j];
    } else {
      OnlyWritesRunOpen(After(now, rest), last);
      j := |steps| - 1;
      i := PendingWasChecked(now, rest, last.p);
      assert rest[..i] == steps[..i];
    }
  }

  // ----- While a circuit is open -----

  /** From here on the circuit is open before every step and after the last. */
  predicate StaysOpen(s: State, steps: seq<Step>)
    decreases |steps|
  {
    s.svc.circuitOpen && (steps == [] || (Enabled(s, steps[0]) && StaysOpen(Next(s, steps[0]), steps[1..])))
  }

  function Then(s: State, steps: seq<Step>): State
    decreases |steps|
  {
    if steps == [] then s else Then(Next(s, steps[0]), steps[1..])
  }

  ghost predicate ComesToRun(s: State, steps: seq<Step>) {
    StaysOpen(s, steps) && NoBypass(steps) && RunsOpen(Then(s, steps).svc)
  }

  lemma {:induction false} NothingPendingNeverRuns(s: State, steps: seq<Step>)
    requires StaysOpen(s, steps) && NoBypass(steps) && s.pending == {} && !RunsOpen(s.svc)
    ensures !RunsOpen(Then(s, steps).svc)
    decreases |steps|
  {
    if steps != [] {
      assert !Bypasses(steps[0]);
      if RunsOpen(Next(s, steps[0]).svc) { OnlyWritesRunOpen(s, steps[0]); }
      NothingPendingNeverRuns(Next(s, steps[0]), steps[1..]);
    }
  }

  /** A service that does not run and whose circuit is open can come to run, with the circuit open all along
      and without DeployImage, if and only if an operation that read the circuit closed is still pending. */
  lemma RunsOpenLaterIff(s: State)
    requires s.svc.circuitOpen && s.svc.status != Running
    ensures (exists steps :: ComesToRun(s, steps)) <==> s.pending != {}
  {
    if s.pending != {} {
      var p :| p in s.pending;
      var steps := [WriteRunning(p, None, 0)];
      var t := Next(s, steps[0]);
      assert steps[1..] == [] && StaysOpen(t, []) && Then(t, []) == t;
      assert Then(s, steps) == t;
      assert ComesToRun(s, steps);
    } else {
      forall steps | StaysOpen(s, steps) && NoBypass(steps) ensures !ComesToRun(s, steps) {
        NothingPendingNeverRuns(s, steps);
      }
    }
  }

  // ----- Such a run -----

  /** A tick that finds the container exited. */
  const EXITED := Observation(true, Found(true, false), DockerError, false, false, 0,
                              DockerError, false, false, false, 0, false, false, 0)

  /** After n crashes, all at time 0, while operation 1 is pending. */
  function AfterCrashes(n: nat): State {
    State(if n == 0 then NewService(0)
          else Service(Crashed, "c", n, Some(0), n >= 5, if n >= 5 then Some(1800) else None, if n >= 5 then 1 else 0, 0),
          {1})
  }

  ghost predicate Reaches(steps: seq<Step>, s: State) {
    Run(0, steps) && NoBypass(steps) && After(0, steps) == s
  }

  lemma OneMore(steps: seq<Step>, s: State, last: Step, t: State)
    requires Reaches(steps, s) && Enabled(s, last) && !Bypasses(last) && t == Next(s, last)
    ensures Reaches(steps + [last], t)
  {
    assert (steps + [last])[..|steps|] == steps;
  }

  lemma CrashAgain(n: nat)
    requires n < 5
    ensures var running := SetStatus(AfterCrashes(n).svc, Running, 0).(containerID := "c");
            Apply(running, Tick(EXITED)) == AfterCrashes(n + 1).svc
  {
  }

  lemma {:induction false} CrashesAreReachable(n: nat) returns (steps: seq<Step>)
    requires n <= 5
    ensures Reaches(steps, AfterCrashes(n))
  {
    if n == 0 {
      OneMore([], Initially(0), Check(1), AfterCrashes(0));
      steps := [] + [Check(1)];
    } else {
      var before := AfterCrashes(n - 1);
      var running := SetStatus(before.svc, Running, 0).(containerID := "c");
      steps := CrashesAreReachable(n - 1);
      OneMore(steps, before, Check(0), State(before.svc, {0, 1}));
      steps := steps + [Check(0)];
      OneMore(steps, State(before.svc, {0, 1}), WriteRunning(0, Some("c"), 0), State(running, {1}));
      steps := steps + [WriteRunning(0, Some("c"), 0)];
      CrashAgain(n - 1);
      OneMore(steps, State(running, {1}), Atomic(Tick(EXITED)), AfterCrashes(n));
      steps := steps + [Atomic(Tick(EXITED))];
    }
  }

  /** One operation reads the closed circuit, five crashes open it, and the operation writes. */
  lemma LateWriteIsReachable() returns (steps: seq<Step>)
    ensures Run(0, steps) && NoBypass(steps) && RunsOpen(After(0, steps).svc)
  {
    var fifth := CrashesAreReachable(5);
    var last := WriteRunning(1, None, 0);
    OneMore(fifth, AfterCrashes(5), last, Next(AfterCrashes(5), last));
    steps := fifth + [last];
  }
}
