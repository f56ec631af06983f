/** One service row, and every statement that changes it: the deploy paths, start, stop, restart, reset,
    tenant suspension, and the reconciler's updates. Each SQL UPDATE reads the old row and writes the new
    one at once. Times are in seconds.

    The circuit-breaker UPDATE is taken by what its text says: reconciler.go:207 and :276 pass eight arguments
    for its seven placeholders, and EvaluateCircuit binds the seven it names (NamedBindingIsEvaluation). As
    written and bound in order, the statement finds no row (WrittenBindingFindsNoRow), which is what
    `circuitFails` stands for. */
module Services {
  import opened Common

  const CRASH_WINDOW: nat := 600
  const CRASH_LIMIT: nat := 5
  const DEPLOY_TIMEOUT: nat := 600

  datatype Status = Created | Deploying | Running | Stopped | Crashed | Failed

  datatype Service = Service(
    status: Status,
    containerID: string,
    crashCount: nat,
    windowStart: Option<nat>,
    circuitOpen: bool,
    retryAt: Option<nat>,
    openCount: nat,
    updatedAt: nat)

  function NewService(now: nat): Service {
    Service(Created, "", 0, None, false, None, 0, now)
  }

  function SetStatus(s: Service, status: Status, now: nat): Service {
    s.(status := status, updatedAt := now)
  }

  // ----- Crash window and circuit -----

  function RetryBackoff(openCount: int): nat {
    if openCount <= 1 then 30 * 60 else if openCount == 2 then 60 * 60 else 4 * 60 * 60
  }

  /** First UPDATE of a crash: the window is anchored at its first crash and lasts 600 seconds. */
  function CountCrash(s: Service, now: nat): Service {
    var restarts := s.windowStart.None? || now - s.windowStart.value >= CRASH_WINDOW;
    s.(status := Crashed, updatedAt := now,
       windowStart := if restarts then Some(now) else s.windowStart,
       crashCount := if restarts then 1 else s.crashCount + 1)
  }

  predicate Trips(s: Service, now: nat) {
    s.crashCount >= CRASH_LIMIT && s.windowStart.Some? && now - s.windowStart.value < CRASH_WINDOW
  }

  /** Second UPDATE of a crash. The retry delay is always the first one. */
  function EvaluateCircuit(s: Service, now: nat): Service {
    if Trips(s, now) then
      s.(circuitOpen := true, retryAt := Some(now + RetryBackoff(1)), openCount := s.openCount + 1)
    else if s.windowStart.Some? && now - s.windowStart.value >= CRASH_WINDOW then s.(circuitOpen := false)
    else s
  }

  datatype Arg = Number(n: nat) | Text(t: string)

  /** Decimal digits. */
  function Decimal(n: nat): string {
    if n < 10 then [('0' as int + n) as char] else Decimal(n / 10) + [('0' as int + n % 10) as char]
  }

  /** A text column compared with an argument; a number is compared by its digits. */
  predicate Equals(column: string, arg: Arg) {
    match arg case Number(n) => column == Decimal(n) case Text(t) => column == t
  }

  /** The statement on the row of service `id` of `tenant`, its placeholders filled in order; what exceeds
      their number is dropped. */
  function CircuitStatement(s: Service, id: string, tenant: string, args: seq<Arg>): Service
    requires |args| >= 7 && forall i :: 0 <= i < 5 ==> args[i].Number?
  {
    var full := s.crashCount >= CRASH_LIMIT && s.windowStart.Some?;
    if !Equals(id, args[5]) || !Equals(tenant, args[6]) then s
    else s.(circuitOpen :=
              if full && args[0].n - s.windowStart.value < CRASH_WINDOW then true
              else if s.windowStart.Some? && args[1].n - s.windowStart.value >= CRASH_WINDOW then false
              else s.circuitOpen,
            retryAt := if full && args[2].n - s.windowStart.value < CRASH_WINDOW then Some(args[3].n) else s.retryAt,
            openCount := if full && args[4].n - s.windowStart.value < CRASH_WINDOW then s.openCount + 1 else s.openCount)
  }

  function NamedArgs(id: string, tenant: string, now: nat): seq<Arg> {
    [Number(now), Number(now), Number(now), Number(now + RetryBackoff(1)), Number(now), Text(id), Text(tenant)]
  }

  function WrittenArgs(id: string, tenant: string, now: nat): seq<Arg> {
    [Number(now), Number(now), Number(now), Number(now), Number(now + RetryBackoff(1)), Number(now), Text(id), Text(tenant)]
  }

  lemma NamedBindingIsEvaluation(s: Service, id: string, tenant: string, now: nat)
    ensures CircuitStatement(s, id, tenant, NamedArgs(id, tenant, now)) == EvaluateCircuit(s, now)
  {
  }

  lemma {:induction false} DecimalIsDigits(n: nat)
    ensures forall c :: c in Decimal(n) ==> '0' <= c <= '9'
  {
    if n >= 10 { DecimalIsDigits(n / 10); }
  }

  /** The statement as written compares the ID with the time, and the tenant with the ID. Unless the ID spells
      the time, and so has no hexadecimal letter, every row stays as it was. */
  lemma WrittenBindingFindsNoRow(s: Service, id: string, tenant: string, now: nat)
    ensures id != Decimal(now) || tenant != id ==> CircuitStatement(s, id, tenant, WrittenArgs(id, tenant, now)) == s
    ensures (exists c :: c in id && 'a' <= c <= 'f') ==> CircuitStatement(s, id, tenant, WrittenArgs(id, tenant, now)) == s
  {
    DecimalIsDigits(now);
  }

  predicate Recoverable(s: Service, now: nat) {
    s.circuitOpen && s.retryAt.Some? && s.retryAt.value <= now
  }

  function Recover(s: Service, now: nat): Service {
    s.(circuitOpen := false, crashCount := 0, windowStart := None, retryAt := None, status := Stopped, updatedAt := now)
  }

  function FailStaleDeploy(s: Service, now: nat): Service {
    if s.status == Deploying && s.updatedAt < now - DEPLOY_TIMEOUT then SetStatus(s, Failed, now) else s
  }

  // ----- What the reconciler learns about a container -----

  datatype Inspection = NotFound | DockerError | Found(exited: bool, unhealthy: bool)

  /** Step 1: the container is in the listing or not, and one or two inspections follow. */
  function MarksCrashed(listed: bool, first: Inspection, second: Inspection): bool {
    if !listed then
      match first
      case NotFound => true
      case DockerError => false
      case Found(_, _) => second.Found? && second.exited
    else first.Found? && first.exited
  }

  /** Everything one tick observes about one service, and which of its statements fail. `stopped` says
      whether stopping an unhealthy container succeeded. */
  datatype Observation = Observation(
    listed: bool, first: Inspection, second: Inspection, countFails: bool, circuitFails: bool, crashAt: nat,
    health: Inspection, stopped: bool, recountFails: bool, recircuitFails: bool, unhealthyAt: nat,
    recoverFails: bool, staleFails: bool, endAt: nat)

  /** A tick is over within its two-minute timeout. */
  predicate Timely(o: Observation) {
    o.crashAt <= o.unhealthyAt <= o.endAt <= o.crashAt + 120
  }

  predicate Watched(s: Service) {
    s.status == Running && s.containerID != ""
  }

  function Crash(s: Service, now: nat, circuitFails: bool): Service {
    if circuitFails then CountCrash(s, now) else EvaluateCircuit(CountCrash(s, now), now)
  }

  predicate CountsCrash(o: Observation) {
    MarksCrashed(o.listed, o.first, o.second) && !o.countFails
  }

  predicate CountsUnhealthy(o: Observation) {
    o.health.Found? && o.health.unhealthy && o.stopped && !o.recountFails
  }

  function AfterCrashCheck(s: Service, o: Observation): Service {
    if CountsCrash(o) then Crash(s, o.crashAt, o.circuitFails) else s
  }

  function AfterHealthCheck(s: Service, o: Observation): Service {
    if CountsUnhealthy(o) then Crash(s, o.unhealthyAt, o.recircuitFails) else s
  }

  function AfterRecovery(s: Service, o: Observation): Service {
    if Recoverable(s, o.endAt) && !o.recoverFails then Recover(s, o.endAt) else s
  }

  function AfterStaleCheck(s: Service, o: Observation): Service {
    if o.staleFails then s else FailStaleDeploy(s, o.endAt)
  }

  /** Steps 1 and 1a work on the same snapshot of running services. */
  function AfterChecks(s: Service, o: Observation): Service {
    if Watched(s) then AfterHealthCheck(AfterCrashCheck(s, o), o) else s
  }

  function Tick(s: Service, o: Observation): Service {
    AfterStaleCheck(AfterRecovery(AfterChecks(s, o), o), o)
  }

  /** How many crashes a tick counts, and when. */
  function CrashTimes(s: Service, o: Observation): seq<nat> {
    if !Watched(s) then [] else
      (if CountsCrash(o) then [o.crashAt] else []) + (if CountsUnhealthy(o) then [o.unhealthyAt] else [])
  }

  /** The reconciler's pass over all rows. */
  class Reconciler {
    var services: map<string, Service>

    method ReconcileOnce(obs: map<string, Observation>, order: seq<string>)
      requires Enumerates(order, services.Keys) && services.Keys <= obs.Keys
      modifies this
      ensures services == map id | id in old(services) :: Tick(old(services)[id], obs[id])
    {
      ghost var before := services;
      var running := Snapshot(order);
      CrashPass(running, obs);
      HealthPass(running, obs);
      assert forall id :: id in before ==> services[id] == AfterChecks(before[id], obs[id]);
      var toRecover := Overdue(order, obs);
      RecoveryPass(toRecover, obs);
      services := map id | id in services :: AfterStaleCheck(services[id], obs[id]);
    }

    /** Step 1b. */
    method RecoveryPass(toRecover: seq<string>, obs: map<string, Observation>)
      requires services.Keys <= obs.Keys
      requires forall id :: id in toRecover <==> id in services && Recoverable(services[id], obs[id].endAt)
      requires forall i, j :: 0 <= i < j < |toRecover| ==> toRecover[i] != toRecover[j]
      modifies this
      ensures services.Keys == old(services).Keys
      ensures forall id :: id in services ==> services[id] == AfterRecovery(old(services)[id], obs[id])
    {
      ghost var before := services;
      for i := 0 to |toRecover|
        invariant services.Keys == before.Keys
        invariant forall id :: id in before ==>
                    services[id] == if id in toRecover[..i] then AfterRecovery(before[id], obs[id]) else before[id]
      {
        var id := toRecover[i];
        assert id !in toRecover[..i];
        if !obs[id].recoverFails {
          services := services[id := Recover(services[id], obs[id].endAt)];
        }
      }
      assert toRecover[..|toRecover|] == toRecover;
    }

    /** The running services with a container, in query order. */
    method Snapshot(order: seq<string>) returns (running: seq<string>)
      requires Enumerates(order, services.Keys)
      ensures forall id :: id in running <==> id in services && Watched(services[id])
      ensures forall i, j :: 0 <= i < j < |running| ==> running[i] != running[j]
    {
      running := [];
      for i := 0 to |order|
        invariant forall id :: id in running <==> id in order[..i] && Watched(services[id])
        invariant forall i, j :: 0 <= i < j < |running| ==> running[i] != running[j]
      {
        assert order[i] !in order[..i];
        if Watched(services[order[i]]) {
          running := running + [order[i]];
        }
      }
      assert order[..|order|] == order;
    }

    method Overdue(order: seq<string>, obs: map<string, Observation>) returns (overdue: seq<string>)
      requires Enumerates(order, services.Keys) && services.Keys <= obs.Keys
      ensures forall id :: id in overdue <==> id in services && Recoverable(services[id], obs[id].endAt)
      ensures forall i, j :: 0 <= i < j < |overdue| ==> overdue[i] != overdue[j]
    {
      overdue := [];
      for i := 0 to |order|
        invariant forall id :: id in overdue <==> id in order[..i] && Recoverable(services[id], obs[id].endAt)
        invariant forall i, j :: 0 <= i < j < |overdue| ==> overdue[i] != overdue[j]
      {
        assert order[i] !in order[..i];
        if Recoverable(services[order[i]], obs[order[i]].endAt) {
          overdue := overdue + [order[i]];
        }
      }
      assert order[..|order|] == order;
    }

    /** Step 1: containers that are gone or have exited. */
    method CrashPass(running: seq<string>, obs: map<string, Observation>)
      requires services.Keys <= obs.Keys && forall id :: id in running ==> id in services
      requires forall i, j :: 0 <= i < j < |running| ==> running[i] != running[j]
      modifies this
      ensures services.Keys == old(services).Keys
      ensures forall id :: id in services ==>
                services[id] == if id in running then AfterCrashCheck(old(services)[id], obs[id]) else old(services)[id]
    {
      ghost var before := services;
      for i := 0 to |running|
        invariant services.Keys == before.Keys
        invariant forall id :: id in before ==>
                    services[id] == if id in running[..i] then AfterCrashCheck(before[id], obs[id]) else before[id]
      {
        var id, o := running[i], obs[running[i]];
        assert id !in running[..i];
        if MarksCrashed(o.listed, o.first, o.second) && !o.countFails {
          services := services[id := CountCrash(services[id], o.crashAt)];
          if !o.circuitFails {
            services := services[id := EvaluateCircuit(services[id], o.crashAt)];
          }
        }
      }
      assert running[..|running|] == running;
    }

    /** Step 1a: unhealthy containers, over the same list. */
    method HealthPass(running: seq<string>, obs: map<string, Observation>)
      requires services.Keys <= obs.Keys && forall id :: id in running ==> id in services
      requires forall i, j :: 0 <= i < j < |running| ==> running[i] != running[j]
      modifies this
      ensures services.Keys == old(services).Keys
      ensures forall id :: id in services ==>
                services[id] == if id in running then AfterHealthCheck(old(services)[id], obs[id]) else old(services)[id]
    {
      ghost var before := services;
      for i := 0 to |running|
        invariant services.Keys == before.Keys
        invariant forall id :: id in before ==>
                    services[id] == if id in running[..i] then AfterHealthCheck(before[id], obs[id]) else before[id]
      {
        var id, o := running[i], obs[running[i]];
        assert id !in running[..i];
        if o.health.Found? && o.health.unhealthy && o.stopped && !o.recountFails {
          services := services[id := CountCrash(services[id], o.unhealthyAt)];
          if !o.recircuitFails {
            services := services[id := EvaluateCircuit(services[id], o.unhealthyAt)];
          }
        }
      }
      assert running[..|running|] == running;
    }
  }

  // ----- The service manager's operations -----

  /** Where a deploy ends. Untouched: nothing was written, because nothing was due or the statements failed.
      Touched: only the image was. Lost: the container was started, but recording it failed. */
  datatype DeployEnd =
    | TenantInactive | QueueFull | Untouched | Touched | DiskFull | StepFailed | Abandoned | Lost | Deployed(containerID: string)

  function Deploy(s: Service, end: DeployEnd, now: nat): Service {
    match end
    case TenantInactive => SetStatus(s, Failed, now)
    case QueueFull => SetStatus(s, Failed, now)
    case Untouched => s
    case _ =>
      if s.circuitOpen then SetStatus(s, Failed, now)
      else
        match end
        case Deployed(cid) => SetStatus(s, Running, now).(containerID := cid)
        case Abandoned => SetStatus(s, Deploying, now)
        case Lost => SetStatus(s, Deploying, now)
        case Touched => s.(updatedAt := now)
        case _ => SetStatus(s, Failed, now)
  }

  /** The path for built images: no look at the circuit, and early refusals leave the row alone. */
  function DeployImage(s: Service, end: DeployEnd, now: nat): Service {
    match end
    case Deployed(cid) => SetStatus(s, Running, now).(containerID := cid)
    case StepFailed => SetStatus(s, Failed, now)
    case Abandoned => SetStatus(s, Deploying, now)
    case Lost => SetStatus(s, Deploying, now)
    case Touched => s.(updatedAt := now)
    case _ => s
  }

  /** Start and Restart differ in the tenant check and the Docker calls, not in what they write. */
  function Start(s: Service, allowed: bool, succeeds: bool, now: nat): Service {
    if allowed && !s.circuitOpen && s.containerID != "" && succeeds then SetStatus(s, Running, now) else s
  }

  function Stop(s: Service, succeeds: bool, now: nat): Service {
    if s.containerID != "" && succeeds then SetStatus(s, Stopped, now) else s
  }

  /** Leaves `retryAt` as it was. */
  function ResetCircuitBreaker(s: Service, succeeds: bool, now: nat): Service {
    if !succeeds then s
    else SetStatus(s.(crashCount := 0, circuitOpen := false, windowStart := None), Stopped, now)
  }

  function Suspend(s: Service, cleaned: bool, now: nat): Service {
    SetStatus(s, if cleaned then Stopped else Failed, now)
  }
}
