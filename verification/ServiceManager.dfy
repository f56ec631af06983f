/** The two deploy paths as they are written: through the queue and a slot, then call after call, with the
    row updated on the way. Each is proved to give back its queue place and its slot on every path, and to
    leave the row as Services.Deploy and Services.DeployImage say, which is what the laws of CircuitBreaker
    are about. */
module ServiceManager {
  import opened Common
  import Services
  import Admission

  /** The answers of the calls a deploy makes. The last three are the statements that refuse a deploy, set
      the row to deploying, and record a later failure. */
  datatype Calls = Calls(
    tenantActive: bool, slotInTime: bool, owned: bool, diskOk: bool, networkOk: bool, imageOk: bool,
    stillThere: bool, envOk: bool, container: Option<string>, recorded: bool,
    refusalWrites: bool, deployingWrites: bool, failureWrites: bool)

  /** The deploy stops here with the row as it was set before. */
  function Stays(c: Calls, imageStored: bool): Services.DeployEnd {
    if c.deployingWrites then Services.Abandoned else if imageStored then Services.Touched else Services.Untouched
  }

  function Failing(c: Calls, imageStored: bool): Services.DeployEnd {
    if c.failureWrites then Services.StepFailed else Stays(c, imageStored)
  }

  function FromRun(c: Calls, imageStored: bool): Services.DeployEnd {
    if !c.envOk || c.container.None? then Failing(c, imageStored)
    else if !c.recorded then Stays(c, imageStored)
    else Services.Deployed(c.container.value)
  }

  /** A refusal of Deploy. */
  function Refusing(c: Calls, end: Services.DeployEnd): Services.DeployEnd {
    if c.refusalWrites then end else Services.Untouched
  }

  predicate GetsSlot(c: Calls, room: bool) {
    c.tenantActive && room && c.slotInTime && c.owned
  }

  /** How Deploy ends, on an open circuit or a closed one. */
  function DeployEndOf(c: Calls, room: bool, circuitOpen: bool): Services.DeployEnd {
    if !c.tenantActive then Refusing(c, Services.TenantInactive)
    else if !room then Refusing(c, Services.QueueFull)
    else if !c.slotInTime || !c.owned then Services.Untouched
    else if circuitOpen || !c.diskOk then Refusing(c, Services.DiskFull)
    else if !c.networkOk || !c.imageOk then Failing(c, false)
    else if !c.stillThere then Stays(c, false)
    else FromRun(c, false)
  }

  /** How DeployImage ends; storing the image tag takes the place of the pull, and a failure of it is not
      recorded in the row. */
  function DeployImageEndOf(c: Calls, room: bool): Services.DeployEnd {
    if !GetsSlot(c, room) || !c.diskOk then Services.Untouched
    else if !c.networkOk then Failing(c, false)
    else if !c.imageOk then Stays(c, false)
    else FromRun(c, true)
  }

  class Manager {
    var row: Services.Service
    var deployQueue: nat
    var deploySem: nat

    constructor (row: Services.Service)
      ensures this.row == row && deployQueue == deploySem == 0
    {
      this.row, deployQueue, deploySem := row, 0, 0;
    }

    method Deploy(c: Calls, now: nat) returns (ok: bool)
      requires c.slotInTime ==> deploySem < Admission.DEPLOY_SLOTS
      modifies this
      ensures deployQueue == old(deployQueue) && deploySem == old(deploySem)
      ensures var end := DeployEndOf(c, old(deployQueue) < Admission.DEPLOY_QUEUE, old(row).circuitOpen);
        row == Services.Deploy(old(row), end, now) && (ok <==> end.Deployed?)
    {
      if !c.tenantActive {
        Refuse(c, now);
        return false;
      }
      if deployQueue >= Admission.DEPLOY_QUEUE {
        Refuse(c, now);
        return false;
      }
      deployQueue := deployQueue + 1;
      ok := false;
      if c.slotInTime {
        deploySem := deploySem + 1;
        if c.owned {
          ok := DeployHoldingSlot(c, now);
        }
        deploySem := deploySem - 1;
      }
      deployQueue := deployQueue - 1;
    }

    method DeployHoldingSlot(c: Calls, now: nat) returns (ok: bool)
      requires c.tenantActive && c.slotInTime && c.owned
      modifies this`row
      ensures var end := DeployEndOf(c, true, old(row).circuitOpen);
        row == Services.Deploy(old(row), end, now) && (ok <==> end.Deployed?)
    {
      if row.circuitOpen || !c.diskOk {
        Refuse(c, now);
        return false;
      }
      MarkDeploying(c, now);
      if !c.networkOk || !c.imageOk {
        RecordFailure(c, now);
        return false;
      }
      if !c.stillThere {
        return false;
      }
      ok := RunContainer(c, now);
    }

    method DeployImage(c: Calls, now: nat) returns (ok: bool)
      requires c.slotInTime ==> deploySem < Admission.DEPLOY_SLOTS
      modifies this
      ensures deployQueue == old(deployQueue) && deploySem == old(deploySem)
      ensures var end := DeployImageEndOf(c, old(deployQueue) < Admission.DEPLOY_QUEUE);
        row == Services.DeployImage(old(row), end, now) && (ok <==> end.Deployed?)
    {
      if !c.tenantActive || deployQueue >= Admission.DEPLOY_QUEUE {
        return false;
      }
      deployQueue := deployQueue + 1;
      ok := false;
      if c.slotInTime {
        deploySem := deploySem + 1;
        if c.diskOk && c.owned {
          ok := DeployImageHoldingSlot(c, now);
        }
        deploySem := deploySem - 1;
      }
      deployQueue := deployQueue - 1;
    }

    method DeployImageHoldingSlot(c: Calls, now: nat) returns (ok: bool)
      requires c.tenantActive && c.slotInTime && c.owned && c.diskOk
      modifies this`row
      ensures var end := DeployImageEndOf(c, true);
        row == Services.DeployImage(old(row), end, now) && (ok <==> end.Deployed?)
    {
      MarkDeploying(c, now);
      if !c.networkOk {
        RecordFailure(c, now);
        return false;
      }
      if !c.imageOk {
        return false;
      }
      row := row.(updatedAt := now);
      ok := RunContainer(c, now);
    }

    method Refuse(c: Calls, now: nat)
      modifies this`row
      ensures row == if c.refusalWrites then Services.SetStatus(old(row), Services.Failed, now) else old(row)
    {
      if c.refusalWrites {
        row := Services.SetStatus(row, Services.Failed, now);
      }
    }

    method MarkDeploying(c: Calls, now: nat)
      modifies this`row
      ensures row == if c.deployingWrites then Services.SetStatus(old(row), Services.Deploying, now) else old(row)
    {
      if c.deployingWrites {
        row := Services.SetStatus(row, Services.Deploying, now);
      }
    }

    method RecordFailure(c: Calls, now: nat)
      modifies this`row
      ensures row == if c.failureWrites then Services.SetStatus(old(row), Services.Failed, now) else old(row)
    {
      if c.failureWrites {
        row := Services.SetStatus(row, Services.Failed, now);
      }
    }

    /** Environment, container, and the row that names it. */
    method RunContainer(c: Calls, now: nat) returns (ok: bool)
      modifies this`row
      ensures ok <==> c.envOk && c.container.Some? && c.recorded
      ensures row == if ok then Services.SetStatus(old(row), Services.Running, now).(containerID := c.container.value)
                     else if (!c.envOk || c.container.None?) && c.failureWrites then Services.SetStatus(old(row), Services.Failed, now)
                     else old(row)
    {
      if !c.envOk || c.container.None? {
        RecordFailure(c, now);
        return false;
      }
      if !c.recorded {
        return false;
      }
      row := Services.SetStatus(row, Services.Running, now).(containerID := c.container.value);
      return true;
    }
  }

  /** What sets the two paths apart. On an open circuit Deploy fails the row, once it has a slot, or leaves
      it alone; DeployImage starts the container exactly when its calls work. */
  lemma OnlyDeployImageIgnoresCircuit(s: Services.Service, c: Calls, room: bool, now: nat)
    requires s.circuitOpen
    ensures var t := Services.Deploy(s, DeployEndOf(c, room, true), now);
      && (t == s || t == Services.SetStatus(s, Services.Failed, now))
      && (GetsSlot(c, room) && c.refusalWrites ==> t.status == Services.Failed)
    ensures var end := DeployImageEndOf(c, room);
      && (end.Deployed? <==>
            && GetsSlot(c, room) && c.diskOk
            && c.networkOk && c.imageOk && c.envOk && c.container.Some? && c.recorded)
      && (end.Deployed? ==> Services.DeployImage(s, end, now).status == Services.Running)
  {
  }

  predicate StatementsWork(c: Calls) {
    c.refusalWrites && c.deployingWrites && c.failureWrites
  }

  /** With working statements and a closed circuit, a deploy ends running exactly when every call works, and
      otherwise says where it failed: it fails the row for an inactive tenant, a full queue, a full disk, a
      network, image, environment or container that cannot be had; it leaves the row deploying when the
      service is gone or the container cannot be recorded; and it touches nothing without a slot or a row. */
  lemma DeployOutcome(s: Services.Service, c: Calls, room: bool, now: nat)
    requires StatementsWork(c) && !s.circuitOpen
    ensures Services.Deploy(s, DeployEndOf(c, room, false), now) ==
      if !c.tenantActive || !room then s.(status := Services.Failed, updatedAt := now)
      else if !c.slotInTime || !c.owned then s
      else if !c.diskOk || !c.networkOk || !c.imageOk then s.(status := Services.Failed, updatedAt := now)
      else if !c.stillThere then s.(status := Services.Deploying, updatedAt := now)
      else if !c.envOk || c.container.None? then s.(status := Services.Failed, updatedAt := now)
      else if !c.recorded then s.(status := Services.Deploying, updatedAt := now)
      else s.(status := Services.Running, updatedAt := now, containerID := c.container.value)
  {
  }

  /** The same for a built image, whatever the circuit: refusals leave the row alone. */
  lemma DeployImageOutcome(s: Services.Service, c: Calls, room: bool, now: nat)
    requires StatementsWork(c)
    ensures Services.DeployImage(s, DeployImageEndOf(c, room), now) ==
      if !c.tenantActive || !room || !c.slotInTime || !c.diskOk || !c.owned then s
      else if !c.networkOk then s.(status := Services.Failed, updatedAt := now)
      else if !c.imageOk then s.(status := Services.Deploying, updatedAt := now)
      else if !c.envOk || c.container.None? then s.(status := Services.Failed, updatedAt := now)
      else if !c.recorded then s.(status := Services.Deploying, updatedAt := now)
      else s.(status := Services.Running, updatedAt := now, containerID := c.container.value)
  {
  }
}
