/** The garbage collector running beside deploys and database creations.

    Main results: a container the collector removes is not tracked, and never will be
    (CollectedIsNeverTracked); the same for volumes, which have no age gate
    (CollectedVolumeIsNeverNeeded); one pass selects exactly the old, inspectable, untracked containers
    (SelectionIsExact, CondemnedIff); and if its reports are true when they are made, what it removes is
    never tracked or needed again (PassRemovesNeverTracked, PassRemovesNoNeededVolume). Times are in
    seconds. */
module GarbageCollector {
  import opened Common

  const MIN_AGE: nat := 600
  const DEPLOY_DEADLINE: nat := 600
  const REQUEST_DEADLINE: nat := 30

  // ----- One pass -----

  /** What inspection and the row count report about a container; None is an error, which skips it. */
  datatype Report = Report(createdAt: Option<nat>, rows: Option<nat>)

  predicate Orphaned(r: Report, cutoff: int) {
    r.createdAt.Some? && r.createdAt.value <= cutoff && r.rows == Some(0)
  }

  function Select(ids: seq<string>, reports: map<string, Report>, cutoff: int): seq<string>
    requires forall id :: id in ids ==> id in reports
  {
    if ids == [] then [] else
      var id := ids[|ids| - 1];
      Select(ids[..|ids| - 1], reports, cutoff) + if Orphaned(reports[id], cutoff) then [id] else []
  }

  method FindOrphanedContainers(services: seq<string>, databases: seq<string>, reports: map<string, Report>, now: nat)
    returns (orphaned: seq<string>)
    requires forall id :: id in services || id in databases ==> id in reports
    ensures orphaned == Select(services, reports, now - MIN_AGE) + Select(databases, reports, now - MIN_AGE)
  {
    orphaned := [];
    var cutoff := now - MIN_AGE;
    for i := 0 to |services|
      invariant orphaned == Select(services[..i], reports, cutoff)
    {
      assert services[..i + 1][..i] == services[..i];
      var r := reports[services[i]];
      if r.createdAt.Some? && r.createdAt.value <= cutoff && r.rows == Some(0) {
        orphaned := orphaned + [services[i]];
      }
    }
    assert services[..|services|] == services;
    for i := 0 to |databases|
      invariant orphaned == Select(services, reports, cutoff) + Select(databases[..i], reports, cutoff)
    {
      assert databases[..i + 1][..i] == databases[..i];
      var r := reports[databases[i]];
      if r.createdAt.Some? && r.createdAt.value <= cutoff && r.rows == Some(0) {
        orphaned := orphaned + [databases[i]];
      }
    }
    assert databases[..|databases|] == databases;
  }

  /** Nothing is skipped that should go, and nothing goes that could not be verified. */
  lemma {:induction false} SelectionIsExact(ids: seq<string>, reports: map<string, Report>, cutoff: int, id: string)
    requires forall k :: k in ids ==> k in reports
    ensures id in Select(ids, reports, cutoff) <==>
      id in ids && reports[id].rows == Some(0) && reports[id].createdAt.Some? && reports[id].createdAt.value <= cutoff
  {
    if ids != [] {
      var rest := ids[..|ids| - 1];
      assert ids == rest + [ids[|ids| - 1]];
      SelectionIsExact(rest, reports, cutoff, id);
    }
  }

  /** What one pass learns: the listings (None: listing failed), the reports, and what Docker agrees to
      remove. */
  datatype Findings = Findings(
    services: Option<seq<string>>, databases: Option<seq<string>>, reports: map<string, Report>, removable: set<string>,
    volumes: Option<seq<string>>, volumeRows: map<string, Option<nat>>, removableVolumes: set<string>)

  predicate Complete(f: Findings) {
    && (f.services.Some? ==> forall id :: id in f.services.value ==> id in f.reports)
    && (f.databases.Some? ==> forall id :: id in f.databases.value ==> id in f.reports)
    && (f.volumes.Some? ==> forall name :: name in f.volumes.value ==> name in f.volumeRows)
  }

  /** Both listings worked, and one of them has this old container no row names. */
  predicate Condemned(f: Findings, id: string, cutoff: int)
    requires Complete(f)
  {
    && f.services.Some? && f.databases.Some?
    && (id in f.services.value || id in f.databases.value)
    && Orphaned(f.reports[id], cutoff) && id in f.removable
  }

  predicate OrphanedVolume(name: string, rows: Option<nat>) {
    "ah-db-" <= name && rows == Some(0)
  }

  predicate CondemnedVolume(f: Findings, name: string)
    requires Complete(f)
  {
    f.volumes.Some? && name in f.volumes.value && OrphanedVolume(name, f.volumeRows[name]) && name in f.removableVolumes
  }

  method FindOrphanedVolumes(names: seq<string>, rows: map<string, Option<nat>>) returns (orphaned: seq<string>)
    requires forall name :: name in names ==> name in rows
    ensures forall name :: name in orphaned <==> name in names && OrphanedVolume(name, rows[name])
  {
    orphaned := [];
    for i := 0 to |names|
      invariant forall name :: name in orphaned <==> name in names[..i] && OrphanedVolume(name, rows[name])
    {
      if "ah-db-" <= names[i] && rows[names[i]] == Some(0) {
        orphaned := orphaned + [names[i]];
      }
    }
    assert names[..|names|] == names;
  }

  /** Condemned is: both listings worked, one has it, it is ten minutes old, in no row, and can be removed. */
  lemma CondemnedIff(f: Findings, id: string, now: nat)
    requires Complete(f)
    ensures Condemned(f, id, now - MIN_AGE) <==>
      && f.services.Some? && f.databases.Some? && (id in f.services.value || id in f.databases.value)
      && id in f.removable && f.reports[id].rows == Some(0)
      && f.reports[id].createdAt.Some? && f.reports[id].createdAt.value + 600 <= now
  {
  }

  lemma CondemnedVolumeIff(f: Findings, name: string)
    requires Complete(f)
    ensures CondemnedVolume(f, name) <==>
      && f.volumes.Some? && name in f.volumes.value && |name| >= 6 && name[..6] == "ah-db-"
      && f.volumeRows[name] == Some(0) && name in f.removableVolumes
  {
  }

  /** Docker's containers and volumes. */
  class Docker {
    var containers: set<string>
    var volumes: set<string>

    /** Removes exactly the condemned containers and volumes, and nothing else. */
    method CollectOnce(f: Findings, now: nat)
      requires Complete(f)
      modifies this
      ensures forall id :: id in containers <==> id in old(containers) && !Condemned(f, id, now - MIN_AGE)
      ensures forall name :: name in volumes <==> name in old(volumes) && !CondemnedVolume(f, name)
    {
      if f.services.Some? && f.databases.Some? {
        var orphaned := FindOrphanedContainers(f.services.value, f.databases.value, f.reports, now);
        forall id ensures id in orphaned <==> (id in f.services.value || id in f.databases.value) && Orphaned(f.reports[id], now - MIN_AGE) {
          SelectionIsExact(f.services.value, f.reports, now - MIN_AGE, id);
          SelectionIsExact(f.databases.value, f.reports, now - MIN_AGE, id);
        }
        RemoveContainers(orphaned, f.removable);
      }
      if f.volumes.Some? {
        var orphaned := FindOrphanedVolumes(f.volumes.value, f.volumeRows);
        RemoveVolumes(orphaned, f.removableVolumes);
      }
    }

    method RemoveContainers(orphaned: seq<string>, removable: set<string>)
      modifies this`containers
      ensures forall id :: id in containers <==> id in old(containers) && !(id in orphaned && id in removable)
    {
      for i := 0 to |orphaned|
        invariant forall id :: id in containers <==> id in old(containers) && !(id in orphaned[..i] && id in removable)
      {
        if orphaned[i] in removable {
          containers := containers - {orphaned[i]};
        }
      }
      assert orphaned[..|orphaned|] == orphaned;
    }

    method RemoveVolumes(orphaned: seq<string>, removable: set<string>)
      modifies this`volumes
      ensures forall name :: name in volumes <==> name in old(volumes) && !(name in orphaned && name in removable)
    {
      for i := 0 to |orphaned|
        invariant forall name :: name in volumes <==> name in old(volumes) && !(name in orphaned[..i] && name in removable)
      {
        if orphaned[i] in removable {
          volumes := volumes - {orphaned[i]};
        }
      }
      assert orphaned[..|orphaned|] == orphaned;
    }
  }

  // ----- The protocol -----

  datatype Kind = ServiceKind | DatabaseKind

  datatype Container = Container(kind: Kind, createdAt: nat)

  /** A deploy of service `id`, or a creation of database `id`, with its context deadline and the
      container it has started, if any. */
  datatype Work = Work(kind: Kind, id: string, deadline: nat, container: Option<string>)

  /** `created` and `usedIds` remember every container and database row there ever was. A database's
      volume is named after it, so volumes are identified by database IDs. */
  datatype State = State(
    now: nat,
    created: map<string, Container>,
    alive: set<string>,
    volumes: set<string>,
    services: map<string, Option<string>>,
    databases: map<string, Option<string>>,
    usedIds: set<string>,
    work: map<nat, Work>,
    listed: set<string>, cutoff: int, orphaned: set<string>,
    listedVolumes: set<string>, orphanedVolumes: set<string>)

  datatype Step =
    | Tick(to: nat)
    | AddService(id: string)
    | DeleteService(id: string)
    | DeleteDatabase(id: string)
    | StartDeploy(w: nat, id: string)
    | StartCreate(w: nat, id: string)
    | InsertRow(w: nat)
    | CreateVolume(w: nat)
    | RunContainer(w: nat, containerID: string)
    | Register(w: nat)
    | GiveUp(w: nat)
    | Vanish(containers: set<string>, volumes: set<string>)
    | ListAll(containers: set<string>, volumes: set<string>)
    | TakeCutoff
    | Check(containerID: string)
    | Collect(containerID: string)
    | CheckVolume(id: string)
    | CollectVolume(id: string)

  const EMPTY := State(0, map[], {}, {}, map[], map[], {}, map[], {}, -600, {}, {}, {})

  /** The context has not expired: a statement or Docker call under an expired one has no effect. */
  predicate InTime(s: State, w: nat) {
    w in s.work && s.now < s.work[w].deadline
  }

  /** How many rows of the table the collector consults name this container. */
  predicate Listed(s: State, kind: Kind, containerID: string) {
    match kind
    case ServiceKind => exists id :: id in s.services && s.services[id] == Some(containerID)
    case DatabaseKind => exists id :: id in s.databases && s.databases[id] == Some(containerID)
  }

  ghost predicate Tracked(s: State, containerID: string) {
    Listed(s, ServiceKind, containerID) || Listed(s, DatabaseKind, containerID)
  }

  ghost predicate Enabled(s: State, step: Step) {
    match step
    case Tick(to) => s.now <= to
    case AddService(id) => id !in s.services
    case DeleteService(_) => true
    case DeleteDatabase(_) => true
    case StartDeploy(w, _) => w !in s.work
    case StartCreate(w, id) => w !in s.work && id !in s.usedIds
    case InsertRow(w) => InTime(s, w) && s.work[w].kind == DatabaseKind && s.work[w].id !in s.usedIds
    case CreateVolume(w) => InTime(s, w) && s.work[w].kind == DatabaseKind && s.work[w].id in s.usedIds
    case RunContainer(w, cid) => InTime(s, w) && s.work[w].container.None? && cid !in s.created
    case Register(w) => InTime(s, w) && s.work[w].container.Some?
    case GiveUp(w) => w in s.work
    case Vanish(_, _) => true
    case ListAll(containers, volumes) => containers <= s.created.Keys && volumes <= s.volumes
    case TakeCutoff => true
    case Check(cid) =>
      && cid in s.listed && cid in s.alive && cid in s.created
      && s.created[cid].createdAt <= s.cutoff
      && !Listed(s, s.created[cid].kind, cid)
    case Collect(cid) => cid in s.orphaned
    case CheckVolume(id) => id in s.listedVolumes && id !in s.databases
    case CollectVolume(id) => id in s.orphanedVolumes
  }

  ghost function Next(s: State, step: Step): State
    requires Enabled(s, step)
  {
    match step
    case Tick(to) => s.(now := to)
    case AddService(id) => s.(services := s.services[id := None])
    case DeleteService(id) => s.(services := s.services - {id})
    case DeleteDatabase(id) => s.(databases := s.databases - {id})
    case StartDeploy(w, id) => s.(work := s.work[w := Work(ServiceKind, id, s.now + DEPLOY_DEADLINE, None)])
    case StartCreate(w, id) => s.(work := s.work[w := Work(DatabaseKind, id, s.now + REQUEST_DEADLINE, None)])
    case InsertRow(w) =>
      var id := s.work[w].id;
      s.(databases := s.databases[id := None], usedIds := s.usedIds + {id})
    case CreateVolume(w) => s.(volumes := s.volumes + {s.work[w].id})
    case RunContainer(w, cid) =>
      s.(created := s.created[cid := Container(s.work[w].kind, s.now)], alive := s.alive + {cid},
         work := s.work[w := s.work[w].(container := Some(cid))])
    case Register(w) =>
      var Work(kind, id, _, container) := s.work[w];
      var t := s.(work := s.work - {w});
      if kind == ServiceKind && id in s.services then t.(services := s.services[id := container])
      else if kind == DatabaseKind && id in s.databases then t.(databases := s.databases[id := container])
      else t.(alive := s.alive - {container.value})
    case GiveUp(w) => s.(work := s.work - {w})
    case Vanish(containers, volumes) => s.(alive := s.alive - containers, volumes := s.volumes - volumes)
    case ListAll(containers, volumes) =>
      s.(listed := containers, orphaned := {}, listedVolumes := volumes, orphanedVolumes := {})
    case TakeCutoff => s.(cutoff := s.now - MIN_AGE)
    case Check(cid) => s.(orphaned := s.orphaned + {cid})
    case Collect(cid) => s.(alive := s.alive - {cid})
    case CheckVolume(id) => s.(orphanedVolumes := s.orphanedVolumes + {id})
    case CollectVolume(id) => s.(volumes := s.volumes - {id})
  }

  ghost predicate Run(s: State, steps: seq<Step>)
    decreases |steps|
  {
    steps == [] || (Enabled(s, steps[0]) && Run(Next(s, steps[0]), steps[1..]))
  }

  ghost function After(s: State, steps: seq<Step>): State
    requires Run(s, steps)
    decreases |steps|
  {
    if steps == [] then s else After(Next(s, steps[0]), steps[1..])
  }

  /** Past the age gate and untracked: whoever started this container is out of time. */
  ghost predicate Dead(s: State, cid: string) {
    && cid in s.created
    && s.created[cid].createdAt + MIN_AGE <= s.now
    && !Tracked(s, cid)
  }

  /** The row this volume belongs to has come and gone. */
  ghost predicate Released(s: State, id: string) {
    id in s.usedIds && id !in s.databases
  }

  /** A deploy or creation can register its container only while the container is young. */
  ghost predicate Deadlines(s: State) {
    && (forall w :: w in s.work ==> s.work[w].deadline <= s.now + DEPLOY_DEADLINE)
    && (forall w :: w in s.work && s.work[w].container.Some? ==>
          var cid := s.work[w].container.value;
          && cid in s.created && s.created[cid].kind == s.work[w].kind
          && s.work[w].deadline <= s.created[cid].createdAt + MIN_AGE)
  }

  /** Each table names containers of its own kind only. */
  ghost predicate Separate(s: State) {
    && (forall id :: id in s.services && s.services[id].Some? ==>
          s.services[id].value in s.created && s.created[s.services[id].value].kind == ServiceKind)
    && (forall id :: id in s.databases && s.databases[id].Some? ==>
          s.databases[id].value in s.created && s.created[s.databases[id].value].kind == DatabaseKind)
  }

  ghost predicate Volumes(s: State) {
    && s.databases.Keys <= s.usedIds && s.volumes <= s.usedIds && s.listedVolumes <= s.usedIds
    && (forall id :: id in s.orphanedVolumes ==> Released(s, id))
  }

  ghost predicate Invariant(s: State) {
    && s.cutoff <= s.now - MIN_AGE
    && Deadlines(s) && Separate(s) && Volumes(s)
    && (forall cid :: cid in s.orphaned ==> Dead(s, cid))
  }

  lemma DeadStays(s: State, step: Step, cid: string)
    requires Invariant(s) && Enabled(s, step) && Dead(s, cid)
    ensures Dead(Next(s, step), cid)
  {
    var t := Next(s, step);
    forall id | id in t.services
      ensures t.services[id] != Some(cid)
    {
      if id in s.services && t.services[id] == s.services[id] {
        assert !Listed(s, ServiceKind, cid);
      }
    }
    forall id | id in t.databases
      ensures t.databases[id] != Some(cid)
    {
      if id in s.databases && t.databases[id] == s.databases[id] {
        assert !Listed(s, DatabaseKind, cid);
      }
    }
  }

  lemma DeadlinesNext(s: State, step: Step)
    requires Deadlines(s) && Enabled(s, step)
    ensures Deadlines(Next(s, step))
  {
  }

  lemma SeparateNext(s: State, step: Step)
    requires Deadlines(s) && Separate(s) && Enabled(s, step)
    ensures Separate(Next(s, step))
  {
  }

  lemma VolumesNext(s: State, step: Step)
    requires Volumes(s) && Enabled(s, step)
    ensures Volumes(Next(s, step))
  {
  }

  lemma InvariantNext(s: State, step: Step)
    requires Invariant(s) && Enabled(s, step)
    ensures Invariant(Next(s, step))
  {
    DeadlinesNext(s, step);
    SeparateNext(s, step);
    VolumesNext(s, step);
    forall cid | cid in Next(s, step).orphaned
      ensures Dead(Next(s, step), cid)
    {
      DeadStays(s, step, cid);
    }
  }

  lemma {:induction false} InvariantHolds(s: State, steps: seq<Step>)
    requires Invariant(s) && Run(s, steps)
    ensures Invariant(After(s, steps))
    decreases |steps|
  {
    if steps != [] {
      InvariantNext(s, steps[0]);
      InvariantHolds(Next(s, steps[0]), steps[1..]);
    }
  }

  lemma {:induction false} DeadForever(s: State, steps: seq<Step>, cid: string)
    requires Invariant(s) && Run(s, steps) && Dead(s, cid)
    ensures Dead(After(s, steps), cid)
    decreases |steps|
  {
    if steps != [] {
      DeadStays(s, steps[0], cid);
      InvariantNext(s, steps[0]);
      DeadForever(Next(s, steps[0]), steps[1..], cid);
    }
  }

  lemma {:induction false} ReleasedForever(s: State, steps: seq<Step>, id: string)
    requires Invariant(s) && Run(s, steps) && Released(s, id)
    ensures Released(After(s, steps), id)
    decreases |steps|
  {
    if steps != [] {
      InvariantNext(s, steps[0]);
      ReleasedForever(Next(s, steps[0]), steps[1..], id);
    }
  }

  /** In any interleaving, when the collector is about to remove a container it is not tracked, and it is
      not tracked after any continuation either. */
  lemma CollectedIsNeverTracked(before: seq<Step>, cid: string, after: seq<Step>)
    requires Run(EMPTY, before) && Enabled(After(EMPTY, before), Collect(cid))
    requires Run(After(EMPTY, before), after)
    ensures !Tracked(After(EMPTY, before), cid)
    ensures !Tracked(After(After(EMPTY, before), after), cid)
  {
    InvariantHolds(EMPTY, before);
    DeadForever(After(EMPTY, before), after, cid);
  }

  /** And a volume it is about to remove belongs to no row, now or later. */
  lemma CollectedVolumeIsNeverNeeded(before: seq<Step>, id: string, after: seq<Step>)
    requires Run(EMPTY, before) && Enabled(After(EMPTY, before), CollectVolume(id))
    requires Run(After(EMPTY, before), after)
    ensures id !in After(EMPTY, before).databases
    ensures id !in After(After(EMPTY, before), after).databases
  {
    InvariantHolds(EMPTY, before);
    ReleasedForever(After(EMPTY, before), after, id);
  }

  lemma RunCons(s: State, first: Step, rest: seq<Step>)
    requires Enabled(s, first) && Run(Next(s, first), rest)
    ensures Run(s, [first] + rest) && After(s, [first] + rest) == After(Next(s, first), rest)
  {
    assert ([first] + rest)[1..] == rest;
  }

  /** A deploy that has started its container and waits. */
  const WAITING := EMPTY.(
    now := MIN_AGE - 1,
    created := map["c" := Container(ServiceKind, 0)],
    alive := {"c"},
    services := map["a" := None],
    work := map[0 := Work(ServiceKind, "a", DEPLOY_DEADLINE, Some("c"))])

  lemma WaitingIsReachable() returns (steps: seq<Step>)
    ensures Run(EMPTY, steps) && After(EMPTY, steps) == WAITING
  {
    var s1 := Next(EMPTY, AddService("a"));
    var s2 := Next(s1, StartDeploy(0, "a"));
    var s3 := Next(s2, RunContainer(0, "c"));
    assert Next(s3, Tick(MIN_AGE - 1)) == WAITING;
    RunCons(s3, Tick(MIN_AGE - 1), []);
    RunCons(s2, RunContainer(0, "c"), [Tick(MIN_AGE - 1)] + []);
    var tail := [RunContainer(0, "c")] + ([Tick(MIN_AGE - 1)] + []);
    RunCons(s1, StartDeploy(0, "a"), tail);
    RunCons(EMPTY, AddService("a"), [StartDeploy(0, "a")] + tail);
    steps := [AddService("a")] + ([StartDeploy(0, "a")] + tail);
  }

  /** The age gate is as short as it can be: one second before it, an untracked container can still be
      registered by the deploy that started it. */
  lemma AgeGateIsTight() returns (steps: seq<Step>)
    ensures Run(EMPTY, steps) && Enabled(After(EMPTY, steps), Register(0))
    ensures var s := After(EMPTY, steps);
            && "c" in s.created && s.now == s.created["c"].createdAt + MIN_AGE - 1
            && !Tracked(s, "c") && Tracked(Next(s, Register(0)), "c")
  {
    steps := WaitingIsReachable();
    assert Next(WAITING, Register(0)).services["a"] == Some("c");
  }

  // ----- The pass and the protocol -----

  /** The rows of the table consulted for this kind that name the container. */
  ghost function NamedBy(s: State, kind: Kind, cid: string): set<string> {
    match kind
    case ServiceKind => set id | id in s.services && s.services[id] == Some(cid)
    case DatabaseKind => set id | id in s.databases && s.databases[id] == Some(cid)
  }

  /** What inspection and the row count say is true of this state, unless they fail. */
  ghost predicate Truthful(r: Report, s: State, cid: string) {
    && (r.createdAt.Some? ==> cid in s.created && r.createdAt.value == s.created[cid].createdAt)
    && (r.rows.Some? && cid in s.created ==> r.rows.value == |NamedBy(s, s.created[cid].kind, cid)|)
  }

  /** A condemned container whose report is true when it is made can be checked in that state. */
  lemma CondemnedCanBeChecked(f: Findings, now: nat, s: State, cid: string)
    requires Complete(f) && Condemned(f, cid, now - MIN_AGE) && Truthful(f.reports[cid], s, cid)
    requires s.cutoff == now - 600 && cid in s.listed && cid in s.alive
    ensures Enabled(s, Check(cid))
  {
    var kind := s.created[cid].kind;
    assert NamedBy(s, kind, cid) == {};
    if kind == ServiceKind {
      forall id | id in s.services ensures s.services[id] != Some(cid) { assert id !in NamedBy(s, kind, cid); }
    } else {
      forall id | id in s.databases ensures s.databases[id] != Some(cid) { assert id !in NamedBy(s, kind, cid); }
    }
  }

  /** So nothing a pass removes is tracked, when its report is made or ever after: in every run that reaches
      the moment of the report, and in every continuation. */
  lemma PassRemovesNeverTracked(f: Findings, now: nat, before: seq<Step>, cid: string, after: seq<Step>)
    requires Complete(f) && Condemned(f, cid, now - MIN_AGE) && Run(EMPTY, before) && Run(After(EMPTY, before), after)
    requires var s := After(EMPTY, before);
      Truthful(f.reports[cid], s, cid) && s.cutoff == now - 600 && cid in s.listed && cid in s.alive
    ensures !Tracked(After(EMPTY, before), cid) && !Tracked(After(After(EMPTY, before), after), cid)
  {
    var s := After(EMPTY, before);
    InvariantHolds(EMPTY, before);
    CondemnedCanBeChecked(f, now, s, cid);
    InvariantNext(s, Check(cid));
    CheckedIsDead(s, cid);
    DeadForever(s, after, cid);
  }

  lemma CheckedIsDead(s: State, cid: string)
    requires Invariant(s) && Enabled(s, Check(cid))
    ensures Dead(s, cid)
  {
  }

  /** A condemned volume, which is named after its database, can be checked likewise. */
  lemma CondemnedVolumeCanBeChecked(f: Findings, s: State, id: string)
    requires Complete(f) && CondemnedVolume(f, "ah-db-" + id) && id in s.listedVolumes
    requires f.volumeRows["ah-db-" + id].Some? ==> f.volumeRows["ah-db-" + id].value == if id in s.databases then 1 else 0
    ensures Enabled(s, CheckVolume(id))
  {
  }

  lemma PassRemovesNoNeededVolume(f: Findings, before: seq<Step>, id: string, after: seq<Step>)
    requires Complete(f) && CondemnedVolume(f, "ah-db-" + id) && Run(EMPTY, before) && Run(After(EMPTY, before), after)
    requires var s := After(EMPTY, before);
      && id in s.listedVolumes
      && (f.volumeRows["ah-db-" + id].Some? ==> f.volumeRows["ah-db-" + id].value == if id in s.databases then 1 else 0)
    ensures id !in After(EMPTY, before).databases && id !in After(After(EMPTY, before), after).databases
  {
    InvariantHolds(EMPTY, before);
    CondemnedVolumeCanBeChecked(f, After(EMPTY, before), id);
    ReleasedForever(After(EMPTY, before), after, id);
  }
}
