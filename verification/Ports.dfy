/** Port allocation for databases: a scan for a free port, then an insert that a unique index over
    non-failed rows may refuse, at most five times.

    Main results, in every interleaving of creations, failures and deletions: non-failed rows hold
    distinct ports of their own type's range (PortsAreDistinct); and each refusal is due to the insert of
    a different other creation between the scan of that very attempt and its refusal, so a creation gives
    up only after five such inserts (ExhaustionNeedsFiveRivals). */
module Ports {
  import opened Common

  datatype DbType = Postgres | Redis

  const MAX_RETRIES: nat := 5

  function MinPort(t: DbType): nat {
    if t == Postgres then 5432 else 6379
  }

  function MaxPort(t: DbType): nat {
    if t == Postgres then 6000 else 7000
  }

  predicate InRange(t: DbType, p: nat) {
    MinPort(t) <= p <= MaxPort(t)
  }

  /** Neither allocated in the database nor in use on the host. */
  predicate Free(p: nat, used: set<nat>, listening: set<nat>) {
    p !in used && p !in listening
  }

  method FindFreePort(t: DbType, used: set<nat>, listening: set<nat>) returns (port: Option<nat>)
    ensures port.Some? ==> InRange(t, port.value) && Free(port.value, used, listening)
    ensures port.Some? ==> forall q :: MinPort(t) <= q < port.value ==> !Free(q, used, listening)
    ensures port.None? ==> forall q :: (if t == Postgres then 5432 <= q <= 6000 else 6379 <= q <= 7000) ==> !Free(q, used, listening)
    ensures port == FirstFree(t, MinPort(t), used, listening)
  {
    for p := MinPort(t) to MaxPort(t) + 1
      invariant forall q :: MinPort(t) <= q < p ==> !Free(q, used, listening)
      invariant FirstFree(t, MinPort(t), used, listening) == FirstFree(t, p, used, listening)
    {
      if p !in used && p !in listening {
        return Some(p);
      }
    }
    return None;
  }

  function FirstFree(t: DbType, from: nat, used: set<nat>, listening: set<nat>): (port: Option<nat>)
    ensures port.Some? ==> from <= port.value <= MaxPort(t) && Free(port.value, used, listening)
    decreases MaxPort(t) + 1 - from
  {
    if from > MaxPort(t) then None
    else if Free(from, used, listening) then Some(from)
    else FirstFree(t, from + 1, used, listening)
  }

  // ----- The protocol -----

  /** A row, with the position of its insert among all inserts. */
  datatype Row = Row(dbType: DbType, port: nat, failed: bool, insertedAt: nat)

  /** A creation between its begin and its end. `scan` is the port it is about to insert, with the number
      of inserts there had been when it scanned; `rivals` lists the inserts that got in its way. */
  datatype Creation = Creation(dbType: DbType, begunAt: nat, scan: Option<(nat, nat)>, rivals: seq<Rival>, over: bool)

  /** A refusal: how many inserts there had been at the scan of the refused attempt, which one the refusing row
      was, and how many there had been at the refusal. */
  datatype Rival = Rival(scannedAt: nat, insertedAt: nat, refusedAt: nat)

  /** `inserts` lists the IDs of all successful inserts. */
  datatype State = State(rows: map<string, Row>, creations: map<string, Creation>, inserts: seq<string>)

  const EMPTY := State(map[], map[], [])

  datatype Step =
    | Begin(id: string, dbType: DbType)
    | Scan(id: string, listening: set<nat>)
    | Insert(id: string)
    | Abort(id: string)
    | MarkFailed(id: string)
    | Delete(id: string)

  function UsedPorts(rows: map<string, Row>): set<nat> {
    set id | id in rows && !rows[id].failed :: rows[id].port
  }

  /** The row that makes the unique index refuse this port. */
  ghost predicate Holds(rows: map<string, Row>, h: string, port: nat) {
    h in rows && !rows[h].failed && rows[h].port == port
  }

  ghost predicate Active(s: State, id: string) {
    id in s.creations && !s.creations[id].over
  }

  ghost predicate Enabled(s: State, step: Step) {
    match step
    case Begin(id, _) => id !in s.creations
    case Scan(id, _) => Active(s, id) && s.creations[id].scan.None? && |s.creations[id].rivals| < MAX_RETRIES
    case Insert(id) => Active(s, id) && s.creations[id].scan.Some?
    case Abort(id) => Active(s, id)
    case MarkFailed(id) => id in s.rows
    case Delete(id) => true
  }

  ghost function Next(s: State, step: Step): State
    requires Enabled(s, step)
  {
    match step
    case Begin(id, t) => s.(creations := s.creations[id := Creation(t, |s.inserts|, None, [], false)])
    case Scan(id, listening) =>
      var c := s.creations[id];
      var port := FirstFree(c.dbType, MinPort(c.dbType), UsedPorts(s.rows), listening);
      s.(creations := s.creations[id :=
           if port.None? then c.(over := true) else c.(scan := Some((port.value, |s.inserts|)))])
    case Insert(id) =>
      var c := s.creations[id];
      var port := c.scan.value.0;
      if h :| Holds(s.rows, h, port) then
        s.(creations := s.creations[id := c.(scan := None,
                                             rivals := c.rivals + [Rival(c.scan.value.1, s.rows[h].insertedAt, |s.inserts|)],
                                             over := |c.rivals| + 1 == MAX_RETRIES)])
      else
        State(s.rows[id := Row(c.dbType, port, false, |s.inserts|)],
              s.creations[id := c.(over := true)],
              s.inserts + [id])
    case Abort(id) => s.(creations := s.creations[id := s.creations[id].(over := true)])
    case MarkFailed(id) => s.(rows := s.rows[id := s.rows[id].(failed := true)])
    case Delete(id) => s.(rows := s.rows - {id})
  }

  ghost predicate Run(s: State, steps: seq<Step>)
    decreases |steps|
  {
    steps == [] || (Enabled(s, steps[0]) && Run(Next(s, steps[0]), steps[1..]))
  }

  ghost function After(s: State, steps: seq<Step>): State
    requires Run(s, steps)
    decreases |steps|
  {
    if steps == [] then s else After(Next(s, steps[0]), steps[1..])
  }

  // ----- Invariant -----

  ghost predicate DistinctPorts(rows: map<string, Row>) {
    && (forall a, b :: a in rows && b in rows && a != b && !rows[a].failed && !rows[b].failed ==> rows[a].port != rows[b].port)
    && (forall a :: a in rows ==> InRange(rows[a].dbType, rows[a].port))
  }

  /** A creation inserts once, and is then over. */
  ghost predicate InsertsOnce(s: State) {
    && (forall i, j :: 0 <= i < j < |s.inserts| ==> s.inserts[i] != s.inserts[j])
    && (forall i :: 0 <= i < |s.inserts| ==> s.inserts[i] in s.creations && s.creations[s.inserts[i]].over)
  }

  ghost predicate Indexed(s: State) {
    forall a :: a in s.rows ==> s.rows[a].insertedAt < |s.inserts| && s.inserts[s.rows[a].insertedAt] == a
  }

  ghost predicate Inserted(s: State) {
    InsertsOnce(s) && Indexed(s)
  }

  /** The refusing insert came after the scan and before the refusal. */
  predicate WithinAttempt(r: Rival, begunAt: nat, inserts: nat) {
    begunAt <= r.scannedAt <= r.insertedAt < r.refusedAt <= inserts
  }

  /** Each refusal came from a later insert than the one before, all since the creation began. */
  ghost predicate Charged(s: State, c: Creation) {
    && c.begunAt <= |s.inserts|
    && |c.rivals| <= MAX_RETRIES
    && (forall i :: 0 <= i < |c.rivals| ==> WithinAttempt(c.rivals[i], c.begunAt, |s.inserts|))
    && (forall i, j :: 0 <= i < j < |c.rivals| ==> c.rivals[i].refusedAt <= c.rivals[j].scannedAt)
    && (c.scan.Some? && !c.over ==>
          var (port, at) := c.scan.value;
          && InRange(c.dbType, port) && c.begunAt <= at <= |s.inserts| && |c.rivals| < MAX_RETRIES
          && (forall i :: 0 <= i < |c.rivals| ==> c.rivals[i].refusedAt <= at)
          && (forall h :: Holds(s.rows, h, port) ==> s.rows[h].insertedAt >= at))
  }

  /** A creation that is not over has inserted nothing, so none of its rivals is itself. */
  ghost predicate RivalsAreOthers(s: State, id: string, c: Creation) {
    forall i :: 0 <= i < |c.rivals| ==> c.rivals[i].insertedAt < |s.inserts| && s.inserts[c.rivals[i].insertedAt] != id
  }

  ghost predicate Invariant(s: State) {
    && DistinctPorts(s.rows) && Inserted(s)
    && (forall id :: id in s.creations ==> Charged(s, s.creations[id]))
    && (forall id :: id in s.creations ==> RivalsAreOthers(s, id, s.creations[id]))
  }

  lemma PortsStayDistinct(s: State, step: Step)
    requires Invariant(s) && Enabled(s, step)
    ensures DistinctPorts(Next(s, step).rows)
  {
    if step.Insert? {
      var port := s.creations[step.id].scan.value.0;
      assert Charged(s, s.creations[step.id]);
      assert forall a :: a in s.rows && !s.rows[a].failed && s.rows[a].port == port ==> Holds(s.rows, a, port);
    }
  }

  lemma InsertsOnceNext(s: State, step: Step)
    requires InsertsOnce(s) && Enabled(s, step)
    ensures InsertsOnce(Next(s, step))
  {
    var t := Next(s, step);
    assert t.inserts == s.inserts || (step.Insert? && t.inserts == s.inserts + [step.id] && step.id !in s.inserts);
  }

  lemma IndexedNext(s: State, step: Step)
    requires Indexed(s) && Enabled(s, step)
    ensures Indexed(Next(s, step))
  {
  }

  lemma InsertedNext(s: State, step: Step)
    requires Inserted(s) && Enabled(s, step)
    ensures Inserted(Next(s, step))
  {
    InsertsOnceNext(s, step);
    IndexedNext(s, step);
  }

  /** Inserting adds one rival at most, and that is a creation already over. */
  lemma NewRivalIsOther(s: State, id: string)
    requires Inserted(s) && Enabled(s, Insert(id)) && RivalsAreOthers(s, id, s.creations[id])
    ensures RivalsAreOthers(Next(s, Insert(id)), id, Next(s, Insert(id)).creations[id])
  {
    var t := Next(s, Insert(id));
    if t.creations[id].rivals != s.creations[id].rivals {
      var at := t.creations[id].rivals[|s.creations[id].rivals|].insertedAt;
      assert at < |s.inserts| && s.inserts[at] != id;
    }
  }

  lemma InsertsGrow(s: State, step: Step)
    requires Enabled(s, step)
    ensures s.inserts <= Next(s, step).inserts
  {
  }

  lemma RivalsStayOthers(s: State, step: Step, id: string)
    requires Inserted(s) && Enabled(s, step) && id in Next(s, step).creations
    requires id in s.creations ==> RivalsAreOthers(s, id, s.creations[id])
    ensures RivalsAreOthers(Next(s, step), id, Next(s, step).creations[id])
  {
    InsertsGrow(s, step);
    if step == Insert(id) {
      NewRivalIsOther(s, id);
    } else if id in s.creations {
      assert Next(s, step).creations[id].rivals == s.creations[id].rivals;
    }
  }

  lemma ScanIsCharged(s: State, step: Step)
    requires Invariant(s) && Enabled(s, step) && step.Scan?
    ensures Charged(Next(s, step), Next(s, step).creations[step.id])
  {
    var c := s.creations[step.id];
    var port := FirstFree(c.dbType, MinPort(c.dbType), UsedPorts(s.rows), step.listening);
    if port.Some? {
      assert forall h :: Holds(s.rows, h, port.value) ==> s.rows[h].port in UsedPorts(s.rows);
    }
  }

  lemma InsertIsCharged(s: State, step: Step)
    requires Invariant(s) && Enabled(s, step) && step.Insert?
    ensures Charged(Next(s, step), Next(s, step).creations[step.id])
  {
  }

  lemma OthersStayCharged(s: State, step: Step, id: string)
    requires Invariant(s) && Enabled(s, step) && id in s.creations && Next(s, step).creations[id] == s.creations[id]
    ensures Charged(Next(s, step), s.creations[id])
  {
    var t, c := Next(s, step), s.creations[id];
    if c.scan.Some? && !c.over {
      forall h | Holds(t.rows, h, c.scan.value.0)
        ensures t.rows[h].insertedAt >= c.scan.value.1
      {
        if h in s.rows && t.rows[h] == s.rows[h] {
          assert Holds(s.rows, h, c.scan.value.0);
        }
      }
    }
  }

  lemma ChargesNext(s: State, step: Step, id: string)
    requires Invariant(s) && Enabled(s, step) && id in Next(s, step).creations
    ensures Charged(Next(s, step), Next(s, step).creations[id])
  {
    if id in s.creations && Next(s, step).creations[id] == s.creations[id] {
      OthersStayCharged(s, step, id);
    } else if step.Scan? {
      ScanIsCharged(s, step);
    } else if step.Insert? {
      InsertIsCharged(s, step);
    }
  }

  lemma InvariantNext(s: State, step: Step)
    requires Invariant(s) && Enabled(s, step)
    ensures Invariant(Next(s, step))
  {
    PortsStayDistinct(s, step);
    InsertedNext(s, step);
    forall id | id in Next(s, step).creations { RivalsStayOthers(s, step, id); }
    forall id | id in Next(s, step).creations { ChargesNext(s, step, id); }
  }

  lemma {:induction false} InvariantHolds(s: State, steps: seq<Step>)
    requires Invariant(s) && Run(s, steps)
    ensures Invariant(After(s, steps))
    decreases |steps|
  {
    if steps != [] {
      InvariantNext(s, steps[0]);
      InvariantHolds(Next(s, steps[0]), steps[1..]);
    }
  }

  // ----- Main results -----

  lemma PortsAreDistinct(steps: seq<Step>)
    requires Run(EMPTY, steps)
    ensures var rows := After(EMPTY, steps).rows;
      && (forall a, b :: a in rows && b in rows && a != b && !rows[a].failed && !rows[b].failed ==> rows[a].port != rows[b].port)
      && (forall a :: a in rows ==>
            if rows[a].dbType == Postgres then 5432 <= rows[a].port <= 6000 else 6379 <= rows[a].port <= 7000)
  {
    InvariantHolds(EMPTY, steps);
  }

  /** Every refusal of a creation is charged to the successful insert of a different other creation, made
      between the scan and the refusal of that attempt; so a creation that used up its five attempts
      overlapped with five such inserts. */
  lemma ExhaustionNeedsFiveRivals(steps: seq<Step>, id: string)
    requires Run(EMPTY, steps) && id in After(EMPTY, steps).creations
    ensures var s := After(EMPTY, steps);
            var c := s.creations[id];
            && (forall i :: 0 <= i < |c.rivals| ==>
                  WithinAttempt(c.rivals[i], c.begunAt, |s.inserts|) && s.inserts[c.rivals[i].insertedAt] != id)
            && (forall i, j :: 0 <= i < j < |c.rivals| ==>
                  s.inserts[c.rivals[i].insertedAt] != s.inserts[c.rivals[j].insertedAt])
            && (|c.rivals| == MAX_RETRIES ==> |s.inserts| - c.begunAt >= 5)
  {
    InvariantHolds(EMPTY, steps);
    var s := After(EMPTY, steps);
    var c := s.creations[id];
    assert Charged(s, c) && RivalsAreOthers(s, id, c);
    forall i, j | 0 <= i < j < |c.rivals| ensures c.rivals[i].insertedAt < c.rivals[j].insertedAt {
      assert WithinAttempt(c.rivals[i], c.begunAt, |s.inserts|) && WithinAttempt(c.rivals[j], c.begunAt, |s.inserts|);
    }
    if |c.rivals| == MAX_RETRIES {
      var r := c.rivals;
      assert WithinAttempt(r[0], c.begunAt, |s.inserts|) && WithinAttempt(r[4], c.begunAt, |s.inserts|);
      assert r[0].insertedAt < r[1].insertedAt < r[2].insertedAt < r[3].insertedAt < r[4].insertedAt;
    }
  }

  /** A scan takes the smallest port of the range that no listener and no row that has not failed holds. */
  lemma ScanIsSmallest(s: State, id: string, listening: set<nat>)
    requires Enabled(s, Scan(id, listening))
    ensures var c, d := s.creations[id], Next(s, Scan(id, listening)).creations[id];
            var low := if c.dbType == Postgres then 5432 else 6379;
      if d.scan.Some? then
        && Usable(s.rows, c.dbType, listening, d.scan.value.0)
        && (forall q: nat :: low <= q < d.scan.value.0 ==> !Usable(s.rows, c.dbType, listening, q))
      else d.over && forall q :: !Usable(s.rows, c.dbType, listening, q)
  {
    var c := s.creations[id];
    var port := FirstFree(c.dbType, MinPort(c.dbType), UsedPorts(s.rows), listening);
    FirstFreeIsSmallest(c.dbType, MinPort(c.dbType), UsedPorts(s.rows), listening);
    forall q ensures Usable(s.rows, c.dbType, listening, q) <==> InRange(c.dbType, q) && Free(q, UsedPorts(s.rows), listening) {
      if q in UsedPorts(s.rows) {
        var a :| a in s.rows && !s.rows[a].failed && s.rows[a].port == q;
      }
    }
  }

  ghost predicate Usable(rows: map<string, Row>, t: DbType, listening: set<nat>, port: nat) {
    && (if t == Postgres then 5432 <= port <= 6000 else 6379 <= port <= 7000)
    && port !in listening
    && forall a :: a in rows && !rows[a].failed ==> rows[a].port != port
  }

  lemma {:induction false} FirstFreeIsSmallest(t: DbType, from: nat, used: set<nat>, listening: set<nat>)
    ensures var port := FirstFree(t, from, used, listening);
      forall q: nat :: from <= q <= MaxPort(t) && (port.Some? ==> q < port.value) ==> !Free(q, used, listening)
    decreases MaxPort(t) + 1 - from
  {
    if from <= MaxPort(t) && !Free(from, used, listening) { FirstFreeIsSmallest(t, from + 1, used, listening); }
  }

  /** An insert is refused exactly when a row that has not failed holds the port; otherwise it is made. */
  lemma InsertRefusedIff(s: State, id: string)
    requires Enabled(s, Insert(id))
    ensures var port, t := s.creations[id].scan.value.0, Next(s, Insert(id));
      if exists a :: a in s.rows && !s.rows[a].failed && s.rows[a].port == port
      then t.rows == s.rows && t.inserts == s.inserts && t.creations[id].scan.None?
      else t.rows == s.rows[id := Row(s.creations[id].dbType, port, false, |s.inserts|)] && t.creations[id].over
  {
    var port := s.creations[id].scan.value.0;
    if a :| a in s.rows && !s.rows[a].failed && s.rows[a].port == port { assert Holds(s.rows, a, port); }
  }
}
