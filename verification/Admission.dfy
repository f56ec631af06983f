/** Admission of builds and deploys: the ten-slot build queue, one build per tenant, three build slots,
    and behind them a twenty-place deploy queue with five deploy slots. Deploys of built images and deploys
    asked for directly go through two different service managers, each with a queue and slots of its own.

    Main results, in every interleaving: every counter is exactly the number of jobs it stands for and
    within its bound, and the locked tenants are exactly those of the builds between acquire and release,
    one each (CountersAreExact); so at most ten jobs deploy at once, and more than five can
    (AtMostTenDeploy, TenCanDeploy), and the limits are the only reason to refuse or wait (AdmittedIff); a build never finds its deploy queue full (BuildsNeverMeetFullQueue);
    some job that is still going can always take a step, even if no wait ever times out (NoDeadlock); and
    once nobody submits any more, every run ends after boundedly many steps with all jobs gone and every
    slot returned (EverythingIsReturned). */
module Admission {
  import opened Common

  const BUILD_QUEUE: nat := 10
  const BUILD_SLOTS: nat := 3
  const DEPLOY_QUEUE: nat := 20
  const DEPLOY_SLOTS: nat := 5

  /** Where a job stands. A build passes through all stages, a plain deploy starts at Deploy. */
  datatype Stage =
    | Queued | Admitted | Waiting | Building | Leaving
    | Deploy | DeployWaiting | Deploying | DeployLeaving
    | Finishing | Gone

  datatype Job = Job(tenant: string, isBuild: bool, stage: Stage)

  /** The two channels of a service manager. */
  datatype Manager = Manager(deployQueue: nat, deploySem: nat)

  datatype State = State(
    jobs: map<nat, Job>,
    tenantBuilds: set<string>,
    buildQueue: nat, buildSem: nat,
    forBuilds: Manager, forRequests: Manager)

  const EMPTY := State(map[], {}, 0, 0, Manager(0, 0), Manager(0, 0))

  /** The manager a job deploys through. */
  function ManagerOf(s: State, isBuild: bool): Manager {
    if isBuild then s.forBuilds else s.forRequests
  }

  function WithManager(s: State, isBuild: bool, m: Manager): State {
    if isBuild then s.(forBuilds := m) else s.(forRequests := m)
  }

  /** `ok` is the outcome of whatever the stage calls. TimeOut is the end of a context while waiting. */
  datatype Step =
    | SubmitBuild(j: nat, tenant: string)
    | SubmitDeploy(j: nat, tenant: string)
    | Guard(j: nat, ok: bool)
    | AcquireTenant(j: nat)
    | TakeSlot(j: nat)
    | TimeOut(j: nat)
    | Build(j: nat)
    | ReleaseTenant(j: nat, ok: bool)
    | EnterDeployQueue(j: nat)
    | TakeDeploySlot(j: nat)
    | RunDeploy(j: nat)
    | LeaveDeployQueue(j: nat)
    | Finish(j: nat)

  predicate Submits(step: Step) {
    step.SubmitBuild? || step.SubmitDeploy?
  }

  predicate At(s: State, j: nat, stage: Stage) {
    j in s.jobs && s.jobs[j].stage == stage
  }

  /** Taking from a slot channel blocks while it is full, giving back while it is empty. */
  predicate Enabled(s: State, step: Step) {
    match step
    case SubmitBuild(j, _) => j !in s.jobs
    case SubmitDeploy(j, _) => j !in s.jobs
    case Guard(j, _) => At(s, j, Queued)
    case AcquireTenant(j) => At(s, j, Admitted)
    case TakeSlot(j) => At(s, j, Waiting) && s.buildSem < BUILD_SLOTS
    case TimeOut(j) => At(s, j, Waiting) || At(s, j, DeployWaiting)
    case Build(j) => At(s, j, Building) && s.buildSem > 0
    case ReleaseTenant(j, _) => At(s, j, Leaving)
    case EnterDeployQueue(j) => At(s, j, Deploy)
    case TakeDeploySlot(j) => At(s, j, DeployWaiting) && ManagerOf(s, s.jobs[j].isBuild).deploySem < DEPLOY_SLOTS
    case RunDeploy(j) => At(s, j, Deploying) && ManagerOf(s, s.jobs[j].isBuild).deploySem > 0
    case LeaveDeployQueue(j) => At(s, j, DeployLeaving) && ManagerOf(s, s.jobs[j].isBuild).deployQueue > 0
    case Finish(j) => At(s, j, Finishing) && (s.jobs[j].isBuild ==> s.buildQueue > 0)
  }

  function Move(s: State, j: nat, to: Stage): State
    requires j in s.jobs
  {
    s.(jobs := s.jobs[j := s.jobs[j].(stage := to)])
  }

  function Next(s: State, step: Step): State
    requires Enabled(s, step)
  {
    match step
    case SubmitBuild(j, tenant) =>
      if s.buildQueue < BUILD_QUEUE
      then s.(jobs := s.jobs[j := Job(tenant, true, Queued)], buildQueue := s.buildQueue + 1)
      else s
    case SubmitDeploy(j, tenant) => s.(jobs := s.jobs[j := Job(tenant, false, Deploy)])
    case Guard(j, ok) => Move(s, j, if ok then Admitted else Finishing)
    case AcquireTenant(j) =>
      var tenant := s.jobs[j].tenant;
      if tenant in s.tenantBuilds then Move(s, j, Finishing)
      else Move(s, j, Waiting).(tenantBuilds := s.tenantBuilds + {tenant})
    case TakeSlot(j) => Move(s, j, Building).(buildSem := s.buildSem + 1)
    case TimeOut(j) => Move(s, j, if s.jobs[j].stage == Waiting then Leaving else DeployLeaving)
    case Build(j) => Move(s, j, Leaving).(buildSem := s.buildSem - 1)
    case ReleaseTenant(j, ok) =>
      Move(s, j, if ok then Deploy else Finishing).(tenantBuilds := s.tenantBuilds - {s.jobs[j].tenant})
    case EnterDeployQueue(j) =>
      var m := ManagerOf(s, s.jobs[j].isBuild);
      if m.deployQueue < DEPLOY_QUEUE
      then WithManager(Move(s, j, DeployWaiting), s.jobs[j].isBuild, m.(deployQueue := m.deployQueue + 1))
      else Move(s, j, Finishing)
    case TakeDeploySlot(j) =>
      var m := ManagerOf(s, s.jobs[j].isBuild);
      WithManager(Move(s, j, Deploying), s.jobs[j].isBuild, m.(deploySem := m.deploySem + 1))
    case RunDeploy(j) =>
      var m := ManagerOf(s, s.jobs[j].isBuild);
      WithManager(Move(s, j, DeployLeaving), s.jobs[j].isBuild, m.(deploySem := m.deploySem - 1))
    case LeaveDeployQueue(j) =>
      var m := ManagerOf(s, s.jobs[j].isBuild);
      WithManager(Move(s, j, Finishing), s.jobs[j].isBuild, m.(deployQueue := m.deployQueue - 1))
    case Finish(j) => Move(s, j, Gone).(buildQueue := if s.jobs[j].isBuild then s.buildQueue - 1 else s.buildQueue)
  }

  /** The tenant lock as the builder keeps it. */
  class TenantLock {
    var tenantBuilds: set<string>

    constructor ()
      ensures tenantBuilds == {}
    {
      tenantBuilds := {};
    }

    method Acquire(tenant: string) returns (ok: bool)
      modifies this
      ensures ok == (tenant !in old(tenantBuilds))
      ensures tenantBuilds == old(tenantBuilds) + {tenant}
    {
      if tenant in tenantBuilds {
        return false;
      }
      tenantBuilds := tenantBuilds + {tenant};
      return true;
    }

    method Release(tenant: string)
      modifies this
      ensures tenantBuilds == old(tenantBuilds) - {tenant}
    {
      tenantBuilds := tenantBuilds - {tenant};
    }
  }

  ghost predicate Run(s: State, steps: seq<Step>)
    decreases |steps|
  {
    steps == [] || (Enabled(s, steps[0]) && Run(Next(s, steps[0]), steps[1..]))
  }

  ghost function After(s: State, steps: seq<Step>): State
    requires Run(s, steps)
    decreases |steps|
  {
    if steps == [] then s else After(Next(s, steps[0]), steps[1..])
  }

  // ----- What the counters stand for -----

  predicate IsLiveBuild(job: Job) {
    job.isBuild && job.stage != Gone
  }

  predicate HasBuildSlot(job: Job) {
    job.stage == Building
  }

  predicate InQueueStage(job: Job) {
    job.stage == DeployWaiting || job.stage == Deploying || job.stage == DeployLeaving
  }

  /** The jobs holding a place, or a slot, of the manager for builds or of the one for requests. */
  function InDeployQueue(isBuild: bool): Job -> bool {
    (job: Job) => job.isBuild == isBuild && InQueueStage(job)
  }

  function HasDeploySlot(isBuild: bool): Job -> bool {
    (job: Job) => job.isBuild == isBuild && job.stage == Deploying
  }

  predicate HoldsLock(job: Job) {
    job.stage == Waiting || job.stage == Building || job.stage == Leaving
  }

  type Jobs = map<nat, Job>

  ghost function Members(jobs: Jobs, group: Job -> bool): set<nat> {
    set j | j in jobs && group(jobs[j])
  }

  function One(b: bool): nat {
    if b then 1 else 0
  }

  lemma WithOrWithout(a: set<nat>, j: nat)
    ensures |a| == |a - {j}| + One(j in a)
  {
    if j in a { assert a == (a - {j}) + {j}; } else { assert a == a - {j}; }
  }

  lemma OtherMembersUnchanged(jobs: Jobs, j: nat, job: Job, group: Job -> bool)
    ensures Members(jobs[j := job], group) - {j} == Members(jobs, group) - {j}
  {
  }

  /** Changing one job changes the size of a group by that job alone. */
  lemma MembersUpdate(jobs: Jobs, j: nat, job: Job, group: Job -> bool)
    ensures |Members(jobs[j := job], group)| + One(j in jobs && group(jobs[j]))
            == |Members(jobs, group)| + One(group(job))
  {
    var before, after := Members(jobs, group), Members(jobs[j := job], group);
    OtherMembersUnchanged(jobs, j, job, group);
    WithOrWithout(before, j);
    WithOrWithout(after, j);
    assert (j in before) == (j in jobs && group(jobs[j])) && (j in after) == group(job);
  }

  /** A counter that stands for the size of a group. */
  ghost predicate Counts(counter: nat, jobs: Jobs, group: Job -> bool, bound: nat) {
    counter == |Members(jobs, group)| <= bound
  }

  ghost predicate ManagerCounted(s: State, isBuild: bool) {
    && Counts(ManagerOf(s, isBuild).deployQueue, s.jobs, InDeployQueue(isBuild), DEPLOY_QUEUE)
    && Counts(ManagerOf(s, isBuild).deploySem, s.jobs, HasDeploySlot(isBuild), DEPLOY_SLOTS)
  }

  ghost predicate Counted(s: State) {
    && Counts(s.buildQueue, s.jobs, IsLiveBuild, BUILD_QUEUE)
    && Counts(s.buildSem, s.jobs, HasBuildSlot, BUILD_SLOTS)
    && ManagerCounted(s, true) && ManagerCounted(s, false)
  }

  lemma CountsNext(before: nat, after: nat, jobs: Jobs, j: nat, job: Job, group: Job -> bool, bound: nat)
    requires Counts(before, jobs, group, bound) && after <= bound
    requires after + One(j in jobs && group(jobs[j])) == before + One(group(job))
    ensures Counts(after, jobs[j := job], group, bound)
  {
    MembersUpdate(jobs, j, job, group);
  }

  lemma CounterHasMember(jobs: Jobs, group: Job -> bool, j: nat)
    requires j in jobs && group(jobs[j])
    ensures |Members(jobs, group)| > 0
  {
    assert j in Members(jobs, group);
  }

  /** A counter moves exactly when the job enters or leaves its group. */
  predicate Follows(before: nat, after: nat, s: State, j: nat, job: Job, group: Job -> bool) {
    after + One(j in s.jobs && group(s.jobs[j])) == before + One(group(job))
  }

  lemma BuildCountersFollow(s: State, step: Step, t: State)
    requires Enabled(s, step) && t == Next(s, step) && step.j in t.jobs
    requires step.SubmitBuild? ==> s.buildQueue < BUILD_QUEUE
    ensures Follows(s.buildQueue, t.buildQueue, s, step.j, t.jobs[step.j], IsLiveBuild)
    ensures Follows(s.buildSem, t.buildSem, s, step.j, t.jobs[step.j], HasBuildSlot)
  {
  }

  lemma QueueFollows(s: State, step: Step, t: State, isBuild: bool)
    requires Enabled(s, step) && t == Next(s, step) && step.j in t.jobs
    requires step.SubmitBuild? ==> s.buildQueue < BUILD_QUEUE
    ensures Follows(ManagerOf(s, isBuild).deployQueue, ManagerOf(t, isBuild).deployQueue, s, step.j, t.jobs[step.j], InDeployQueue(isBuild))
  {
  }

  lemma SlotsFollow(s: State, step: Step, t: State, isBuild: bool)
    requires Enabled(s, step) && t == Next(s, step) && step.j in t.jobs
    requires step.SubmitBuild? ==> s.buildQueue < BUILD_QUEUE
    ensures Follows(ManagerOf(s, isBuild).deploySem, ManagerOf(t, isBuild).deploySem, s, step.j, t.jobs[step.j], HasDeploySlot(isBuild))
  {
  }

  lemma BoundsRespected(s: State, step: Step, t: State)
    requires Enabled(s, step) && t == Next(s, step)
    requires s.buildQueue <= BUILD_QUEUE && s.buildSem <= BUILD_SLOTS
    ensures t.buildQueue <= BUILD_QUEUE && t.buildSem <= BUILD_SLOTS
  {
  }

  lemma ManagerBoundsRespected(s: State, step: Step, t: State, isBuild: bool)
    requires Enabled(s, step) && t == Next(s, step)
    requires ManagerOf(s, isBuild).deployQueue <= DEPLOY_QUEUE && ManagerOf(s, isBuild).deploySem <= DEPLOY_SLOTS
    ensures ManagerOf(t, isBuild).deployQueue <= DEPLOY_QUEUE && ManagerOf(t, isBuild).deploySem <= DEPLOY_SLOTS
  {
  }

  lemma ManagerCountedNext(s: State, step: Step, t: State, isBuild: bool)
    requires ManagerCounted(s, isBuild) && Enabled(s, step) && t == Next(s, step) && step.j in t.jobs
    requires t.jobs == s.jobs[step.j := t.jobs[step.j]]
    requires step.SubmitBuild? ==> s.buildQueue < BUILD_QUEUE
    ensures ManagerCounted(t, isBuild)
  {
    var j := step.j;
    ManagerBoundsRespected(s, step, t, isBuild);
    QueueFollows(s, step, t, isBuild);
    SlotsFollow(s, step, t, isBuild);
    CountsNext(ManagerOf(s, isBuild).deployQueue, ManagerOf(t, isBuild).deployQueue, s.jobs, j, t.jobs[j], InDeployQueue(isBuild), DEPLOY_QUEUE);
    CountsNext(ManagerOf(s, isBuild).deploySem, ManagerOf(t, isBuild).deploySem, s.jobs, j, t.jobs[j], HasDeploySlot(isBuild), DEPLOY_SLOTS);
  }

  lemma CountedNext(s: State, step: Step, t: State)
    requires Counted(s) && Enabled(s, step) && t == Next(s, step)
    ensures Counted(t)
  {
    var j := step.j;
    if j in t.jobs && t != s {
      assert t.jobs == s.jobs[j := t.jobs[j]];
      BoundsRespected(s, step, t);
      BuildCountersFollow(s, step, t);
      CountsNext(s.buildQueue, t.buildQueue, s.jobs, j, t.jobs[j], IsLiveBuild, BUILD_QUEUE);
      CountsNext(s.buildSem, t.buildSem, s.jobs, j, t.jobs[j], HasBuildSlot, BUILD_SLOTS);
      ManagerCountedNext(s, step, t, true);
      ManagerCountedNext(s, step, t, false);
    }
  }

  /** The locked tenants are those of the lock holders, and no two holders share one. */
  ghost predicate Locked(jobs: Jobs, tenants: set<string>) {
    && (forall j :: j in jobs && HoldsLock(jobs[j]) ==> jobs[j].tenant in tenants)
    && (forall t :: t in tenants ==> exists j :: Holder(jobs, j, t))
    && (forall i, j, t :: Holder(jobs, i, t) && Holder(jobs, j, t) ==> i == j)
  }

  ghost predicate Holder(jobs: Jobs, j: nat, tenant: string) {
    j in jobs && HoldsLock(jobs[j]) && jobs[j].tenant == tenant
  }

  lemma LockUnchanged(jobs: Jobs, tenants: set<string>, j: nat, job: Job)
    requires Locked(jobs, tenants)
    requires if j in jobs then job.tenant == jobs[j].tenant && HoldsLock(job) == HoldsLock(jobs[j]) else !HoldsLock(job)
    ensures Locked(jobs[j := job], tenants)
  {
    var after := jobs[j := job];
    assert forall i, t :: Holder(after, i, t) <==> Holder(jobs, i, t);
    forall t | t in tenants
      ensures exists i :: Holder(after, i, t)
    {
      var i :| Holder(jobs, i, t);
      assert Holder(after, i, t);
    }
    forall i | i in after && HoldsLock(after[i])
      ensures after[i].tenant in tenants
    {
      assert Holder(jobs, i, after[i].tenant);
    }
  }

  lemma LockAcquired(jobs: Jobs, tenants: set<string>, j: nat, job: Job)
    requires Locked(jobs, tenants) && j in jobs && !HoldsLock(jobs[j]) && HoldsLock(job)
    requires job.tenant !in tenants
    ensures Locked(jobs[j := job], tenants + {job.tenant})
  {
    var after := jobs[j := job];
    assert Holder(after, j, job.tenant);
    assert forall i, t :: Holder(jobs, i, t) ==> Holder(after, i, t) && t in tenants;
    assert forall i, t :: Holder(after, i, t) ==> Holder(jobs, i, t) || (i == j && t == job.tenant);
  }

  lemma LockReleased(jobs: Jobs, tenants: set<string>, j: nat, job: Job)
    requires Locked(jobs, tenants) && j in jobs && HoldsLock(jobs[j]) && !HoldsLock(job)
    ensures Locked(jobs[j := job], tenants - {jobs[j].tenant})
  {
    var after := jobs[j := job];
    assert Holder(jobs, j, jobs[j].tenant);
    assert forall i, t :: Holder(after, i, t) <==> Holder(jobs, i, t) && i != j;
    forall t | t in tenants - {jobs[j].tenant}
      ensures exists i :: Holder(after, i, t)
    {
      var i :| Holder(jobs, i, t);
      assert Holder(after, i, t);
    }
    forall i | i in after && HoldsLock(after[i])
      ensures after[i].tenant in tenants - {jobs[j].tenant}
    {
      assert Holder(jobs, i, after[i].tenant);
    }
  }

  lemma LockedNext(s: State, step: Step)
    requires Locked(s.jobs, s.tenantBuilds) && Enabled(s, step)
    ensures Locked(Next(s, step).jobs, Next(s, step).tenantBuilds)
  {
    var j, t := step.j, Next(s, step);
    if step.AcquireTenant? && s.jobs[j].tenant !in s.tenantBuilds {
      LockAcquired(s.jobs, s.tenantBuilds, j, t.jobs[j]);
    } else if step.ReleaseTenant? {
      LockReleased(s.jobs, s.tenantBuilds, j, t.jobs[j]);
    } else if j in t.jobs {
      LockUnchanged(s.jobs, s.tenantBuilds, j, t.jobs[j]);
    }
  }

  ghost predicate Invariant(s: State) {
    Counted(s) && Locked(s.jobs, s.tenantBuilds)
  }

  lemma {:induction false} InvariantHolds(s: State, steps: seq<Step>)
    requires Invariant(s) && Run(s, steps)
    ensures Invariant(After(s, steps))
    decreases |steps|
  {
    if steps != [] {
      CountedNext(s, steps[0], Next(s, steps[0]));
      LockedNext(s, steps[0]);
      InvariantHolds(Next(s, steps[0]), steps[1..]);
    }
  }

  // ----- Progress -----

  /** A job that is not gone and not waiting for a slot can take a step by itself. */
  lemma OwnStep(s: State, j: nat) returns (step: Step)
    requires Counted(s) && j in s.jobs && s.jobs[j].stage != Gone
    requires s.jobs[j].stage == Waiting ==> s.buildSem < BUILD_SLOTS
    requires s.jobs[j].stage == DeployWaiting ==> ManagerOf(s, s.jobs[j].isBuild).deploySem < DEPLOY_SLOTS
    ensures Enabled(s, step) && !Submits(step) && !step.TimeOut? && step.j == j
  {
    match s.jobs[j].stage
    case Queued => step := Guard(j, true);
    case Admitted => step := AcquireTenant(j);
    case Waiting => step := TakeSlot(j);
    case Building => CounterHasMember(s.jobs, HasBuildSlot, j); step := Build(j);
    case Leaving => step := ReleaseTenant(j, true);
    case Deploy => step := EnterDeployQueue(j);
    case DeployWaiting => step := TakeDeploySlot(j);
    case Deploying => CounterHasMember(s.jobs, HasDeploySlot(s.jobs[j].isBuild), j); step := RunDeploy(j);
    case DeployLeaving => CounterHasMember(s.jobs, InDeployQueue(s.jobs[j].isBuild), j); step := LeaveDeployQueue(j);
    case Finishing => if s.jobs[j].isBuild { CounterHasMember(s.jobs, IsLiveBuild, j); } step := Finish(j);
  }

  /** While any job is still going, some job can take a step other than a timeout: if the one at hand
      waits for a slot, a holder of that slot can. */
  lemma ProgressStep(s: State, j: nat) returns (step: Step)
    requires Counted(s) && j in s.jobs && s.jobs[j].stage != Gone
    ensures Enabled(s, step) && !Submits(step) && !step.TimeOut?
  {
    var runner := j;
    if s.jobs[j].stage == Waiting && s.buildSem >= BUILD_SLOTS {
      runner :| runner in Members(s.jobs, HasBuildSlot);
    } else if s.jobs[j].stage == DeployWaiting && ManagerOf(s, s.jobs[j].isBuild).deploySem >= DEPLOY_SLOTS {
      runner :| runner in Members(s.jobs, HasDeploySlot(s.jobs[j].isBuild));
    }
    step := OwnStep(s, runner);
  }

  /** How many steps a job has left at most. */
  function Rank(stage: Stage): nat {
    match stage
    case Queued => 10 case Admitted => 9 case Waiting => 8 case Building => 7 case Leaving => 6
    case Deploy => 5 case DeployWaiting => 4 case Deploying => 3 case DeployLeaving => 2
    case Finishing => 1 case Gone => 0
  }

  ghost function Remaining(jobs: Jobs): set<(nat, int)> {
    set j, k | j in jobs && 0 <= k < 10 && k < Rank(jobs[j].stage) :: (j, k)
  }

  lemma LowerRankIsLess(jobs: Jobs, j: nat, job: Job)
    requires j in jobs && Rank(job.stage) < Rank(jobs[j].stage)
    ensures |Remaining(jobs[j := job])| < |Remaining(jobs)|
  {
    var used := (j, Rank(jobs[j].stage) - 1);
    assert used in Remaining(jobs) && used !in Remaining(jobs[j := job]);
    SubsetCardinality(Remaining(jobs[j := job]), Remaining(jobs) - {used});
  }

  /** Every step but a submission uses up some of the remaining work. */
  lemma StepsConsume(s: State, step: Step)
    requires Enabled(s, step) && !Submits(step)
    ensures |Remaining(Next(s, step).jobs)| < |Remaining(s.jobs)|
  {
    LowerRankIsLess(s.jobs, step.j, Next(s, step).jobs[step.j]);
  }

  lemma {:induction false} RunsAreBounded(s: State, steps: seq<Step>)
    requires Run(s, steps) && forall i :: 0 <= i < |steps| ==> !Submits(steps[i])
    ensures |steps| + |Remaining(After(s, steps).jobs)| <= |Remaining(s.jobs)|
    decreases |steps|
  {
    if steps != [] {
      StepsConsume(s, steps[0]);
      RunsAreBounded(Next(s, steps[0]), steps[1..]);
    }
  }

  // ----- Main results -----

  lemma CountersAreExact(steps: seq<Step>)
    requires Run(EMPTY, steps)
    ensures Counted(After(EMPTY, steps))
    ensures Locked(After(EMPTY, steps).jobs, After(EMPTY, steps).tenantBuilds)
  {
    EmptyIsFine();
    InvariantHolds(EMPTY, steps);
  }

  ghost function AllDeploying(jobs: Jobs): set<nat> {
    set j | j in jobs && jobs[j].stage == Deploying
  }

  lemma DeployingSplits(jobs: Jobs)
    ensures |AllDeploying(jobs)| == |Members(jobs, HasDeploySlot(true))| + |Members(jobs, HasDeploySlot(false))|
  {
    var builds, requests := Members(jobs, HasDeploySlot(true)), Members(jobs, HasDeploySlot(false));
    assert AllDeploying(jobs) == builds + requests;
    assert builds * requests == {};
  }

  /** Five slots of each manager: at most ten jobs deploy at once. */
  lemma AtMostTenDeploy(steps: seq<Step>)
    requires Run(EMPTY, steps)
    ensures |AllDeploying(After(EMPTY, steps).jobs)| <= 10
  {
    CountersAreExact(steps);
    DeployingSplits(After(EMPTY, steps).jobs);
  }

  /** A live build outside the deploy queue is one of the live builds, but not of the queued ones. */
  lemma OutsideQueue(jobs: Jobs, j: nat)
    requires j in jobs && IsLiveBuild(jobs[j]) && !InQueueStage(jobs[j])
    ensures |Members(jobs, InDeployQueue(true))| < |Members(jobs, IsLiveBuild)|
  {
    var queued, live := Members(jobs, InDeployQueue(true)), Members(jobs, IsLiveBuild);
    assert queued <= live - {j} && j in live;
    SubsetCardinality(queued, live - {j});
  }

  /** At most ten builds are live, so whenever one is about to deploy there is a place in its queue. */
  lemma BuildsNeverMeetFullQueue(steps: seq<Step>, j: nat)
    requires Run(EMPTY, steps) && Enabled(After(EMPTY, steps), EnterDeployQueue(j)) && After(EMPTY, steps).jobs[j].isBuild
    ensures After(EMPTY, steps).forBuilds.deployQueue < 10
    ensures Next(After(EMPTY, steps), EnterDeployQueue(j)).jobs[j].stage == DeployWaiting
  {
    CountersAreExact(steps);
    QueueHasRoom(After(EMPTY, steps), j);
  }

  lemma QueueHasRoom(s: State, j: nat)
    requires Counts(s.buildQueue, s.jobs, IsLiveBuild, BUILD_QUEUE) && ManagerCounted(s, true)
    requires At(s, j, Deploy) && s.jobs[j].isBuild
    ensures s.forBuilds.deployQueue < 10
  {
    OutsideQueue(s.jobs, j);
  }

  lemma {:induction false} Then(s: State, steps: seq<Step>, step: Step)
    requires Run(s, steps) && Enabled(After(s, steps), step)
    ensures Run(s, steps + [step]) && After(s, steps + [step]) == Next(After(s, steps), step)
    decreases |steps|
  {
    if steps == [] {
      assert steps + [step] == [step] && [step][1..] == [];
    } else {
      assert (steps + [step])[1..] == steps[1..] + [step];
      Then(Next(s, steps[0]), steps[1..], step);
    }
  }

  /** A request deploys. */
  lemma RequestDeploys(steps: seq<Step>, j: nat) returns (all: seq<Step>)
    requires Run(EMPTY, steps) && j !in After(EMPTY, steps).jobs
    requires After(EMPTY, steps).forRequests.deployQueue < DEPLOY_QUEUE && After(EMPTY, steps).forRequests.deploySem < DEPLOY_SLOTS
    ensures Run(EMPTY, all)
    ensures var s := After(EMPTY, steps);
      After(EMPTY, all) == s.(jobs := s.jobs[j := Job("t", false, Deploying)],
                              forRequests := Manager(s.forRequests.deployQueue + 1, s.forRequests.deploySem + 1))
  {
    var s := After(EMPTY, steps);
    Then(EMPTY, steps, SubmitDeploy(j, "t"));
    all := steps + [SubmitDeploy(j, "t")];
    Then(EMPTY, all, EnterDeployQueue(j));
    all := all + [EnterDeployQueue(j)];
    Then(EMPTY, all, TakeDeploySlot(j));
    all := all + [TakeDeploySlot(j)];
    assert After(EMPTY, all).jobs == s.jobs[j := Job("t", false, Deploying)];
  }

  /** A build gets a build slot. */
  lemma BuildStarts(steps: seq<Step>, j: nat) returns (all: seq<Step>)
    requires Run(EMPTY, steps) && j !in After(EMPTY, steps).jobs && After(EMPTY, steps).tenantBuilds == {}
    requires After(EMPTY, steps).buildQueue < BUILD_QUEUE && After(EMPTY, steps).buildSem == 0
    ensures Run(EMPTY, all)
    ensures var s := After(EMPTY, steps);
      After(EMPTY, all) == s.(jobs := s.jobs[j := Job("t", true, Building)], tenantBuilds := {"t"},
                              buildQueue := s.buildQueue + 1, buildSem := 1)
  {
    var s := After(EMPTY, steps);
    Then(EMPTY, steps, SubmitBuild(j, "t"));
    all := steps + [SubmitBuild(j, "t")];
    Then(EMPTY, all, Guard(j, true));
    all := all + [Guard(j, true)];
    Then(EMPTY, all, AcquireTenant(j));
    all := all + [AcquireTenant(j)];
    Then(EMPTY, all, TakeSlot(j));
    all := all + [TakeSlot(j)];
    assert After(EMPTY, all).jobs == s.jobs[j := Job("t", true, Building)];
  }

  /** And goes on to deploy. */
  lemma BuildDeploys(steps: seq<Step>, j: nat) returns (all: seq<Step>)
    requires Run(EMPTY, steps) && At(After(EMPTY, steps), j, Building) && After(EMPTY, steps).jobs[j] == Job("t", true, Building)
    requires After(EMPTY, steps).tenantBuilds == {"t"} && After(EMPTY, steps).buildSem == 1
    requires After(EMPTY, steps).forBuilds.deployQueue < DEPLOY_QUEUE && After(EMPTY, steps).forBuilds.deploySem < DEPLOY_SLOTS
    ensures Run(EMPTY, all)
    ensures var s := After(EMPTY, steps);
      After(EMPTY, all) == s.(jobs := s.jobs[j := Job("t", true, Deploying)], tenantBuilds := {}, buildSem := 0,
                              forBuilds := Manager(s.forBuilds.deployQueue + 1, s.forBuilds.deploySem + 1))
  {
    var s := After(EMPTY, steps);
    Then(EMPTY, steps, Build(j));
    all := steps + [Build(j)];
    Then(EMPTY, all, ReleaseTenant(j, true));
    all := all + [ReleaseTenant(j, true)];
    Then(EMPTY, all, EnterDeployQueue(j));
    all := all + [EnterDeployQueue(j)];
    Then(EMPTY, all, TakeDeploySlot(j));
    all := all + [TakeDeploySlot(j)];
    assert After(EMPTY, all).jobs == s.jobs[j := Job("t", true, Deploying)];
    assert After(EMPTY, all).tenantBuilds == {};
  }

  /** The first `builds` jobs deploy as builds, the next `requests` as requests. */
  ghost predicate Busy(s: State, builds: nat, requests: nat) {
    && AllDeploying(s.jobs) == s.jobs.Keys == FirstNats(builds + requests)
    && s.tenantBuilds == {} && s.buildQueue == builds && s.buildSem == 0
    && s.forBuilds == Manager(builds, builds) && s.forRequests == Manager(requests, requests)
  }

  lemma OneMoreDeploys(before: Jobs, n: nat, job: Job)
    requires AllDeploying(before) == before.Keys == FirstNats(n) && job.stage == Deploying
    ensures n !in before
    ensures AllDeploying(before[n := job]) == before[n := job].Keys == FirstNats(n + 1)
  {
    assert n !in FirstNats(n);
    assert before[n := job].Keys == before.Keys + {n};
    assert AllDeploying(before[n := job]) == AllDeploying(before) + {n};
  }

  lemma OneMoreRequest(steps: seq<Step>, builds: nat, requests: nat) returns (all: seq<Step>)
    requires Run(EMPTY, steps) && Busy(After(EMPTY, steps), builds, requests) && requests < DEPLOY_SLOTS
    ensures Run(EMPTY, all) && Busy(After(EMPTY, all), builds, requests + 1)
  {
    OneMoreDeploys(After(EMPTY, steps).jobs, builds + requests, Job("t", false, Deploying));
    all := RequestDeploys(steps, builds + requests);
  }

  lemma OneMoreBuild(steps: seq<Step>, builds: nat) returns (all: seq<Step>)
    requires Run(EMPTY, steps) && Busy(After(EMPTY, steps), builds, 0) && builds < DEPLOY_SLOTS
    ensures Run(EMPTY, all) && Busy(After(EMPTY, all), builds + 1, 0)
  {
    ghost var jobs := After(EMPTY, steps).jobs;
    OneMoreDeploys(jobs, builds, Job("t", true, Deploying));
    var started := BuildStarts(steps, builds);
    all := BuildDeploys(started, builds);
    assert After(EMPTY, all).jobs == jobs[builds := Job("t", true, Deploying)];
  }

  lemma {:induction false} BusyIsReachable(builds: nat, requests: nat) returns (steps: seq<Step>)
    requires builds <= DEPLOY_SLOTS && requests <= DEPLOY_SLOTS
    ensures Run(EMPTY, steps) && Busy(After(EMPTY, steps), builds, requests)
  {
    if requests > 0 {
      var fewer := BusyIsReachable(builds, requests - 1);
      steps := OneMoreRequest(fewer, builds, requests - 1);
    } else if builds > 0 {
      var fewer := BusyIsReachable(builds - 1, 0);
      steps := OneMoreBuild(fewer, builds - 1);
    } else {
      steps := [];
      assert AllDeploying(EMPTY.jobs) == EMPTY.jobs.Keys == FirstNats(0);
    }
  }

  /** Ten at once is reached: the limit of five holds for each manager, not for the program. */
  lemma TenCanDeploy() returns (steps: seq<Step>)
    ensures Run(EMPTY, steps) && |AllDeploying(After(EMPTY, steps).jobs)| == 10
  {
    steps := BusyIsReachable(5, 5);
  }

  lemma EmptyIsFine()
    ensures Invariant(EMPTY)
  {
    assert Members(EMPTY.jobs, IsLiveBuild) == Members(EMPTY.jobs, HasBuildSlot) == {};
    assert forall b :: Members(EMPTY.jobs, InDeployQueue(b)) == Members(EMPTY.jobs, HasDeploySlot(b)) == {};
  }

  lemma NoDeadlock(steps: seq<Step>, j: nat)
    requires Run(EMPTY, steps) && j in After(EMPTY, steps).jobs && After(EMPTY, steps).jobs[j].stage != Gone
    ensures exists step :: Enabled(After(EMPTY, steps), step) && !Submits(step) && !step.TimeOut?
  {
    CountersAreExact(steps);
    var step := ProgressStep(After(EMPTY, steps), j);
  }

  ghost predicate Stuck(s: State) {
    forall step :: Enabled(s, step) ==> Submits(step) || step.TimeOut?
  }

  lemma StuckMeansGone(s: State)
    requires Counted(s) && Stuck(s)
    ensures forall j :: j in s.jobs ==> s.jobs[j].stage == Gone
  {
    forall j | j in s.jobs
      ensures s.jobs[j].stage == Gone
    {
      if s.jobs[j].stage != Gone { var step := ProgressStep(s, j); }
    }
  }

  lemma GoneMeansReturned(s: State)
    requires Invariant(s) && forall j :: j in s.jobs ==> s.jobs[j].stage == Gone
    ensures s.tenantBuilds == {} && s.buildQueue == s.buildSem == 0 && s.forBuilds == s.forRequests == Manager(0, 0)
  {
    assert Members(s.jobs, IsLiveBuild) == Members(s.jobs, HasBuildSlot) == {};
    assert forall b :: Members(s.jobs, InDeployQueue(b)) == Members(s.jobs, HasDeploySlot(b)) == {};
    assert forall j, t :: !Holder(s.jobs, j, t);
  }

  /** After the last submission only boundedly many steps are left; and when no step but a submission or a
      timeout is possible any more, every job is gone, no tenant is locked and every slot is returned. */
  lemma EverythingIsReturned(before: seq<Step>, after: seq<Step>)
    requires Run(EMPTY, before) && Run(After(EMPTY, before), after)
    requires forall i :: 0 <= i < |after| ==> !Submits(after[i])
    ensures |after| <= |Remaining(After(EMPTY, before).jobs)|
    ensures var s := After(After(EMPTY, before), after);
            Stuck(s) ==>
              && (forall j :: j in s.jobs ==> s.jobs[j].stage == Gone)
              && s.tenantBuilds == {} && s.buildQueue == s.buildSem == 0 && s.forBuilds == s.forRequests == Manager(0, 0)
  {
    EmptyIsFine();
    InvariantHolds(EMPTY, before);
    InvariantHolds(After(EMPTY, before), after);
    RunsAreBounded(After(EMPTY, before), after);
    var s := After(After(EMPTY, before), after);
    if Stuck(s) {
      StuckMeansGone(s);
      GoneMeansReturned(s);
    }
  }

  // ----- The limits, and when they admit -----

  ghost function InStage(jobs: Jobs, stage: Stage): set<nat> {
    set j | j in jobs && jobs[j].stage == stage
  }

  ghost function Live(jobs: Jobs): set<nat> {
    set j | j in jobs && jobs[j].isBuild && jobs[j].stage != Gone
  }

  /** The places taken in the deploy queue for builds, or for requests. */
  ghost function PlacesOf(jobs: Jobs, isBuild: bool): set<nat> {
    set j | j in jobs && jobs[j].isBuild == isBuild
            && (jobs[j].stage == DeployWaiting || jobs[j].stage == Deploying || jobs[j].stage == DeployLeaving)
  }

  ghost function DeployingOf(jobs: Jobs, isBuild: bool): set<nat> {
    set j | j in jobs && jobs[j].isBuild == isBuild && jobs[j].stage == Deploying
  }

  lemma GroupsByStage(jobs: Jobs)
    ensures Members(jobs, IsLiveBuild) == Live(jobs) && Members(jobs, HasBuildSlot) == InStage(jobs, Building)
    ensures forall b :: Members(jobs, InDeployQueue(b)) == PlacesOf(jobs, b) && Members(jobs, HasDeploySlot(b)) == DeployingOf(jobs, b)
  {
  }

  /** In every interleaving: ten live builds, three of them building, and for builds and for requests twenty
      in the deploy queue and five deploying, at most. */
  lemma LimitsHold(steps: seq<Step>)
    requires Run(EMPTY, steps)
    ensures var jobs := After(EMPTY, steps).jobs;
      && |Live(jobs)| <= 10 && |InStage(jobs, Building)| <= 3
      && (forall b :: |PlacesOf(jobs, b)| <= 20 && |DeployingOf(jobs, b)| <= 5)
  {
    CountersAreExact(steps);
    GroupsByStage(After(EMPTY, steps).jobs);
    var s := After(EMPTY, steps);
    assert ManagerCounted(s, true) && ManagerCounted(s, false);
  }

  /** Another build of this tenant is between taking and giving back its lock. */
  ghost predicate TenantBusy(jobs: Jobs, tenant: string) {
    exists j :: j in jobs && jobs[j].tenant == tenant
                && (jobs[j].stage == Waiting || jobs[j].stage == Building || jobs[j].stage == Leaving)
  }

  lemma BusyIffLocked(jobs: Jobs, tenants: set<string>, tenant: string)
    requires Locked(jobs, tenants)
    ensures TenantBusy(jobs, tenant) <==> tenant in tenants
  {
    if tenant in tenants {
      var j :| Holder(jobs, j, tenant);
    }
  }

  lemma BuildsAdmittedIff(s: State, j: nat, tenant: string)
    requires Counts(s.buildQueue, s.jobs, IsLiveBuild, BUILD_QUEUE) && Counts(s.buildSem, s.jobs, HasBuildSlot, BUILD_SLOTS)
    ensures j !in s.jobs ==> (j in Next(s, SubmitBuild(j, tenant)).jobs <==> |Live(s.jobs)| < 10)
    ensures At(s, j, Waiting) ==> (Enabled(s, TakeSlot(j)) <==> |InStage(s.jobs, Building)| < 3)
  {
    GroupsByStage(s.jobs);
  }

  lemma LockAdmitsIff(s: State, j: nat)
    requires Locked(s.jobs, s.tenantBuilds) && At(s, j, Admitted)
    ensures Next(s, AcquireTenant(j)).jobs[j].stage == if TenantBusy(s.jobs, s.jobs[j].tenant) then Finishing else Waiting
  {
    BusyIffLocked(s.jobs, s.tenantBuilds, s.jobs[j].tenant);
  }

  lemma DeploysAdmittedIff(s: State, j: nat)
    requires j in s.jobs && ManagerCounted(s, s.jobs[j].isBuild)
    ensures var job := s.jobs[j];
      && (job.stage == Deploy ==>
            Next(s, EnterDeployQueue(j)).jobs[j].stage == if |PlacesOf(s.jobs, job.isBuild)| < 20 then DeployWaiting else Finishing)
      && (job.stage == DeployWaiting ==> (Enabled(s, TakeDeploySlot(j)) <==> |DeployingOf(s.jobs, job.isBuild)| < 5))
  {
    GroupsByStage(s.jobs);
  }

  /** And the limits are the only reason to refuse or to wait: a build is taken up exactly while fewer than ten
      are live, goes on exactly when its tenant has no other, gets a slot exactly while fewer than three are
      building; a job is queued for deploying exactly while fewer than twenty are, and gets a slot exactly
      while fewer than five are deploying. */
  lemma AdmittedIff(steps: seq<Step>, j: nat, tenant: string)
    requires Run(EMPTY, steps)
    ensures var s := After(EMPTY, steps);
      && (j !in s.jobs ==> (j in Next(s, SubmitBuild(j, tenant)).jobs <==> |Live(s.jobs)| < 10))
      && (At(s, j, Admitted) ==>
            Next(s, AcquireTenant(j)).jobs[j].stage == if TenantBusy(s.jobs, s.jobs[j].tenant) then Finishing else Waiting)
      && (At(s, j, Waiting) ==> (Enabled(s, TakeSlot(j)) <==> |InStage(s.jobs, Building)| < 3))
      && (At(s, j, Deploy) ==>
            Next(s, EnterDeployQueue(j)).jobs[j].stage == if |PlacesOf(s.jobs, s.jobs[j].isBuild)| < 20 then DeployWaiting else Finishing)
      && (At(s, j, DeployWaiting) ==> (Enabled(s, TakeDeploySlot(j)) <==> |DeployingOf(s.jobs, s.jobs[j].isBuild)| < 5))
  {
    CountersAreExact(steps);
    var s := After(EMPTY, steps);
    assert ManagerCounted(s, true) && ManagerCounted(s, false);
    BuildsAdmittedIff(s, j, tenant);
    if At(s, j, Admitted) { LockAdmitsIff(s, j); }
    if j in s.jobs { DeploysAdmittedIff(s, j); }
  }

  /** Only a build that worked goes on to deploy, and only one that passed its guard is built; leaving gives the
      tenant's lock back, whatever the outcome. */
  lemma OutcomesDecide(s: State, j: nat, ok: bool)
    ensures At(s, j, Queued) ==> Next(s, Guard(j, ok)).jobs[j].stage == if ok then Admitted else Finishing
    ensures At(s, j, Leaving) ==> Next(s, ReleaseTenant(j, ok)).jobs[j].stage == if ok then Deploy else Finishing
    ensures At(s, j, Leaving) ==> Next(s, ReleaseTenant(j, ok)).tenantBuilds == s.tenantBuilds - {s.jobs[j].tenant}
  {
  }
}
