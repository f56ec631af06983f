/** Laws of the crash window and the circuit breaker over whole runs of one service.

    Main results: a count of five means five crashes within 600 seconds (CountIsRecent); eight crashes
    within 600 seconds always reach five, seven need not (EightReachFive, SevenNeedNot); a circuit is
    open only after five counted crashes within 600 seconds since it was last closed
    (OpenNeedsFiveFreshCrashes); an overdue tick that counts no crash closes it (QuietOverdueTickCloses); a
    service runs on an open circuit only through DeployImage
    (RunsOpenOnlyThroughDeployImage); and crashes number at most twice the starts
    (AtMostTwoCrashesPerStart). With the
    arguments bound as written, no run opens a circuit at all (NeverOpensAsWritten). */
module CircuitBreaker {
  import opened Common
  import opened Services

  predicate Sorted(times: seq<nat>) {
    forall i, j :: 0 <= i < j < |times| ==> times[i] <= times[j]
  }

  // ----- The crash window -----

  /** Crashes counted one after another, with no reset or recovery in between. */
  function CountAll(s: Service, times: seq<nat>): Service {
    if times == [] then s else CountCrash(CountAll(s, times[..|times| - 1]), times[|times| - 1])
  }

  /** A window exists only from its first crash on. */
  predicate Started(s: Service) {
    s.windowStart.Some? ==> s.crashCount >= 1
  }

  /** `log` lists the crashes since the window was last cleared; the last `crashCount` of them lie in the
      current window. */
  ghost predicate Explains(s: Service, log: seq<nat>) {
    && Started(s)
    && s.crashCount <= |log|
    && (s.windowStart.None? ==> s.crashCount == 0)
    && (s.windowStart.Some? ==>
          forall i :: |log| - s.crashCount <= i < |log| ==>
            s.windowStart.value <= log[i] < s.windowStart.value + CRASH_WINDOW)
  }

  lemma CountExplains(s: Service, log: seq<nat>, now: nat)
    requires Explains(s, log) && (s.windowStart.Some? ==> s.windowStart.value <= now)
    ensures Explains(CountCrash(s, now), log + [now])
    ensures CountCrash(s, now).windowStart.Some? && CountCrash(s, now).windowStart.value <= now
  {
  }

  lemma {:induction false} CountAllExplains(s: Service, times: seq<nat>)
    requires Sorted(times) && s.windowStart.None? && s.crashCount == 0
    ensures Explains(CountAll(s, times), times)
    ensures times != [] ==>
              CountAll(s, times).windowStart.Some? && CountAll(s, times).windowStart.value <= times[|times| - 1]
  {
    if times != [] {
      var rest := times[..|times| - 1];
      CountAllExplains(s, rest);
      CountExplains(CountAll(s, rest), rest, times[|times| - 1]);
      assert times == rest + [times[|times| - 1]];
    }
  }

  /** From a cleared window, a count of n means that the last n crashes lie within 600 seconds. */
  lemma CountIsRecent(s: Service, times: seq<nat>)
    requires Sorted(times) && times != [] && s.windowStart.None? && s.crashCount == 0
    ensures var n := CountAll(s, times).crashCount;
            1 <= n <= |times| && times[|times| - 1] - times[|times| - n] < 600
  {
    CountAllExplains(s, times);
  }

  /** While the window lasts, every crash counts. */
  lemma {:induction false} CountsWithinWindow(s: Service, times: seq<nat>)
    requires Sorted(times) && s.windowStart.Some?
    requires times != [] ==> times[|times| - 1] - s.windowStart.value < CRASH_WINDOW
    ensures CountAll(s, times).windowStart == s.windowStart
    ensures CountAll(s, times).crashCount == s.crashCount + |times|
  {
    if times != [] { CountsWithinWindow(s, times[..|times| - 1]); }
  }

  lemma {:induction false} CountAllConcat(s: Service, a: seq<nat>, b: seq<nat>)
    ensures CountAll(s, a + b) == CountAll(CountAll(s, a), b)
  {
    if b == [] {
      assert a + b == a;
    } else {
      assert (a + b)[..|a + b| - 1] == a + b[..|b| - 1];
      CountAllConcat(s, a, b[..|b| - 1]);
    }
  }

  /** A crash that finds no window, or an old one, opens a window that the rest of the burst stays in. */
  lemma CountsFromRestart(s: Service, times: seq<nat>)
    requires Sorted(times) && times != [] && times[|times| - 1] - times[0] < CRASH_WINDOW
    requires s.windowStart.None? || times[0] - s.windowStart.value >= CRASH_WINDOW
    ensures CountAll(s, times).crashCount == |times|
  {
    assert times == [times[0]] + times[1..];
    assert [times[0]][..0] == [];
    assert CountAll(s, [times[0]]) == CountCrash(s, times[0]);
    CountAllConcat(s, [times[0]], times[1..]);
    CountsWithinWindow(CountCrash(s, times[0]), times[1..]);
  }

  /** How many of the first crashes still fall into the current window. */
  function InWindow(s: Service, times: seq<nat>): (n: nat)
    ensures n <= |times|
    ensures n < |times| ==> s.windowStart.None? || times[n] - s.windowStart.value >= CRASH_WINDOW
    ensures s.windowStart.Some? && Sorted(times) && n > 0 ==> times[n - 1] - s.windowStart.value < CRASH_WINDOW
    ensures s.windowStart.None? ==> n == 0
  {
    if times == [] || s.windowStart.None? || times[0] - s.windowStart.value >= CRASH_WINDOW then 0
    else 1 + InWindow(s, times[1..])
  }

  /** A burst of which the first part falls into the old window and the rest into a new one. */
  lemma CountsAcrossRestart(s: Service, a: seq<nat>, b: seq<nat>)
    requires s.windowStart.Some? && Sorted(a) && Sorted(b) && b != []
    requires a != [] ==> a[|a| - 1] - s.windowStart.value < CRASH_WINDOW
    requires b[0] - s.windowStart.value >= CRASH_WINDOW && b[|b| - 1] - b[0] < CRASH_WINDOW
    ensures CountAll(s, a + b).crashCount == |b|
  {
    CountAllConcat(s, a, b);
    CountsWithinWindow(s, a);
    CountsFromRestart(CountAll(s, a), b);
  }

  lemma FourInOldWindow(s: Service, times: seq<nat>)
    requires Started(s) && Sorted(times) && |times| == 8 && InWindow(s, times) >= 4
    ensures CountAll(s, times[..4]).crashCount >= CRASH_LIMIT
  {
    assert times[3] <= times[InWindow(s, times) - 1];
    CountsWithinWindow(s, times[..4]);
  }

  lemma SplitBurst(times: seq<nat>, m: nat) returns (a: seq<nat>, b: seq<nat>)
    requires Sorted(times) && m < |times|
    ensures times == a + b && |a| == m && Sorted(a) && Sorted(b)
    ensures (m > 0 ==> a[m - 1] == times[m - 1]) && b[0] == times[m] && b[|b| - 1] == times[|times| - 1]
  {
    a, b := times[..m], times[m..];
  }

  /** The part of a short burst from the first crash outside the window on is counted in full. */
  lemma RestCounts(s: Service, times: seq<nat>, m: nat)
    requires Sorted(times) && m < |times| && times[|times| - 1] - times[m] < CRASH_WINDOW
    requires s.windowStart.Some? && times[m] - s.windowStart.value >= CRASH_WINDOW
    requires m > 0 ==> times[m - 1] - s.windowStart.value < CRASH_WINDOW
    ensures CountAll(s, times).crashCount == |times| - m
  {
    var a, b := SplitBurst(times, m);
    CountsAcrossRestart(s, a, b);
  }

  /** Whatever the window was before, eight crashes within 600 seconds bring the count to five. */
  lemma EightReachFive(s: Service, times: seq<nat>) returns (n: nat)
    requires Started(s) && Sorted(times) && |times| == 8 && times[7] - times[0] < 600
    ensures n <= 8 && CountAll(s, times[..n]).crashCount >= CRASH_LIMIT
  {
    if InWindow(s, times) >= 4 {
      n := 4;
      FourInOldWindow(s, times);
    } else {
      n := 8;
      assert times[..8] == times;
      if s.windowStart.None? {
        CountsFromRestart(s, times);
      } else {
        RestCounts(s, times, InWindow(s, times));
      }
    }
  }

  /** Three crashes at the end of a window and four at the start of the next stay below five. */
  lemma SplitBurstStaysLow(s: Service, a: seq<nat>, b: seq<nat>, n: nat)
    requires s.windowStart.Some? && Sorted(a) && Sorted(b) && a != [] && b != []
    requires a[|a| - 1] - s.windowStart.value < CRASH_WINDOW
    requires b[0] - s.windowStart.value >= CRASH_WINDOW && b[|b| - 1] - b[0] < CRASH_WINDOW
    requires s.crashCount + |a| < CRASH_LIMIT && |b| < CRASH_LIMIT && n <= |a| + |b|
    ensures CountAll(s, (a + b)[..n]).crashCount < CRASH_LIMIT
  {
    if n <= |a| {
      assert (a + b)[..n] == a[..n];
      CountsWithinWindow(s, a[..n]);
    } else {
      assert (a + b)[..n] == a + b[..n - |a|];
      CountsAcrossRestart(s, a, b[..n - |a|]);
    }
  }

  /** Seven can be too few: an old window takes three of them, a new one the other four. */
  lemma SevenNeedNot(now: nat)
    ensures var s := CountCrash(NewService(now), 0);
            var times := [597, 598, 599] + [600, 601, 602, 603];
            && |times| == 7 && Sorted(times) && times[6] - times[0] < 600
            && forall n :: 0 <= n <= 7 ==> CountAll(s, times[..n]).crashCount < CRASH_LIMIT
  {
    var s := CountCrash(NewService(now), 0);
    var a, b := [597, 598, 599], [600, 601, 602, 603];
    forall n | 0 <= n <= 7 { SplitBurstStaysLow(s, a, b, n); }
  }

  // ----- Runs -----

  /** A statement that fails leaves the row as it was, which is a run without that operation. */
  datatype Op =
    | Tick(o: Observation)
    | Deploy(end: DeployEnd, now: nat)
    | DeployImage(end: DeployEnd, now: nat)
    | Start(allowed: bool, succeeds: bool, now: nat)
    | Stop(succeeds: bool, now: nat)
    | Reset(succeeds: bool, now: nat)
    | Suspend(cleaned: bool, now: nat)

  function Apply(s: Service, op: Op): Service {
    match op
    case Tick(o) => Services.Tick(s, o)
    case Deploy(end, now) => Services.Deploy(s, end, now)
    case DeployImage(end, now) => Services.DeployImage(s, end, now)
    case Start(allowed, succeeds, now) => Services.Start(s, allowed, succeeds, now)
    case Stop(succeeds, now) => Services.Stop(s, succeeds, now)
    case Reset(succeeds, now) => ResetCircuitBreaker(s, succeeds, now)
    case Suspend(cleaned, now) => Services.Suspend(s, cleaned, now)
  }

  /** Does this operation set the service to running? */
  predicate Starts(s: Service, op: Op) {
    (op.Deploy? || op.DeployImage? || op.Start?) && Apply(s, op).status == Running && s != Apply(s, op)
  }

  predicate Closes(s: Service, op: Op) {
    || (op.Reset? && op.succeeds)
    || (op.Tick? && Recoverable(AfterChecks(s, op.o), op.o.endAt) && !op.o.recoverFails)
  }

  /** The row, the crashes since the circuit was last closed, all crashes, all starts, and the clock. */
  datatype History = History(svc: Service, log: seq<nat>, crashes: nat, starts: nat, now: nat)

  predicate Enabled(h: History, op: Op) {
    match op
    case Tick(o) => h.now <= o.crashAt && Timely(o)
    case _ => h.now <= op.now
  }

  function Next(h: History, op: Op): History {
    var counted := if op.Tick? then CrashTimes(h.svc, op.o) else [];
    History(Apply(h.svc, op),
            if Closes(h.svc, op) then [] else h.log + counted,
            h.crashes + |counted|,
            h.starts + if Starts(h.svc, op) then 1 else 0,
            if op.Tick? then op.o.endAt else op.now)
  }

  predicate Run(h: History, ops: seq<Op>)
    decreases |ops|
  {
    ops == [] || (Enabled(h, ops[0]) && Run(Next(h, ops[0]), ops[1..]))
  }

  function After(h: History, ops: seq<Op>): History
    decreases |ops|
  {
    if ops == [] then h else After(Next(h, ops[0]), ops[1..])
  }

  function Initial(now: nat): History {
    History(NewService(now), [], 0, 0, now)
  }

  /** Five crashes in a row within 600 seconds. */
  ghost predicate Burst(log: seq<nat>) {
    exists i :: 0 <= i <= |log| - 5 && log[i + 4] < log[i] + 600
  }

  ghost predicate Invariant(h: History) {
    && Explains(h.svc, h.log)
    && (h.svc.windowStart.Some? ==> h.svc.windowStart.value <= h.now)
    && (h.svc.circuitOpen ==> h.svc.retryAt.Some? && Burst(h.log))
    && h.crashes + (if h.svc.status == Running then 2 else 0) <= 2 * h.starts
  }

  lemma BurstGrows(log: seq<nat>, more: seq<nat>)
    requires Burst(log)
    ensures Burst(log + more)
  {
    var i :| 0 <= i <= |log| - 5 && log[i + 4] < log[i] + 600;
    assert (log + more)[i] == log[i] && (log + more)[i + 4] == log[i + 4];
  }

  /** What one counted crash does to the row and its log. */
  lemma CrashKeeps(s: Service, log: seq<nat>, now: nat, circuitFails: bool)
    requires Explains(s, log) && (s.windowStart.Some? ==> s.windowStart.value <= now)
    requires s.circuitOpen ==> s.retryAt.Some? && Burst(log)
    ensures var t := Crash(s, now, circuitFails);
            && Explains(t, log + [now])
            && t.windowStart.Some? && t.windowStart.value <= now
            && (t.circuitOpen ==> t.retryAt.Some? && Burst(log + [now]))
            && t.status == Crashed
  {
    CountExplains(s, log, now);
    var c, all := CountCrash(s, now), log + [now];
    if Trips(c, now) {
      assert all[|all| - 5 + 4] < all[|all| - 5] + 600;
    }
    if s.circuitOpen { BurstGrows(log, [now]); }
  }

  lemma ChecksKeep(s: Service, log: seq<nat>, o: Observation, now: nat)
    requires Explains(s, log) && (s.windowStart.Some? ==> s.windowStart.value <= now)
    requires s.circuitOpen ==> s.retryAt.Some? && Burst(log)
    requires now <= o.crashAt && Timely(o)
    ensures var t, all := AfterChecks(s, o), log + CrashTimes(s, o);
            && Explains(t, all)
            && (t.windowStart.Some? ==> t.windowStart.value <= o.endAt)
            && (t.circuitOpen ==> t.retryAt.Some? && Burst(all))
            && (CrashTimes(s, o) != [] ==> t.status == Crashed)
            && (CrashTimes(s, o) == [] ==> t == s)
  {
    if Watched(s) {
      var mid, midLog := s, log;
      if CountsCrash(o) {
        CrashKeeps(s, log, o.crashAt, o.circuitFails);
        mid, midLog := AfterCrashCheck(s, o), log + [o.crashAt];
      }
      if CountsUnhealthy(o) {
        CrashKeeps(mid, midLog, o.unhealthyAt, o.recircuitFails);
        assert log + CrashTimes(s, o) == midLog + [o.unhealthyAt];
      } else {
        assert log + CrashTimes(s, o) == midLog;
      }
    } else {
      assert log + CrashTimes(s, o) == log;
    }
  }

  lemma TickKeeps(h: History, op: Op)
    requires Invariant(h) && op.Tick? && Enabled(h, op)
    ensures Invariant(Next(h, op))
  {
    ChecksKeep(h.svc, h.log, op.o, h.now);
    var t := AfterChecks(h.svc, op.o);
    assert Next(h, op).svc == AfterStaleCheck(AfterRecovery(t, op.o), op.o);
    assert Closes(h.svc, op) <==> Recoverable(t, op.o.endAt) && !op.o.recoverFails;
  }

  lemma InvariantNext(h: History, op: Op)
    requires Invariant(h) && Enabled(h, op)
    ensures Invariant(Next(h, op))
  {
    if op.Tick? {
      TickKeeps(h, op);
    } else {
      assert h.log + [] == h.log;
    }
  }

  lemma {:induction false} InvariantHolds(h: History, ops: seq<Op>)
    requires Invariant(h) && Run(h, ops)
    ensures Invariant(After(h, ops))
    decreases |ops|
  {
    if ops != [] {
      InvariantNext(h, ops[0]);
      InvariantHolds(Next(h, ops[0]), ops[1..]);
    }
  }

  // ----- Main results -----

  /** In every run an open circuit has a retry time, and since it was last closed five counted crashes
      came within 600 seconds. */
  lemma OpenNeedsFiveFreshCrashes(now: nat, ops: seq<Op>)
    requires Run(Initial(now), ops) && After(Initial(now), ops).svc.circuitOpen
    ensures After(Initial(now), ops).svc.retryAt.Some? && Burst(After(Initial(now), ops).log)
  {
    InvariantHolds(Initial(now), ops);
  }

  /** In every run the counted crashes are at most twice the times the service was set to running. */
  lemma AtMostTwoCrashesPerStart(now: nat, ops: seq<Op>)
    requires Run(Initial(now), ops)
    ensures After(Initial(now), ops).crashes <= 2 * After(Initial(now), ops).starts
  {
    InvariantHolds(Initial(now), ops);
  }

  /** Wherever a run stands, eight crashes counted from there on within 600 seconds reach five. */
  lemma EightReachFiveInRuns(now: nat, ops: seq<Op>, times: seq<nat>) returns (n: nat)
    requires Run(Initial(now), ops)
    requires Sorted(times) && |times| == 8 && times[7] - times[0] < 600
    ensures n <= 8 && CountAll(After(Initial(now), ops).svc, times[..n]).crashCount >= CRASH_LIMIT
  {
    InvariantHolds(Initial(now), ops);
    n := EightReachFive(After(Initial(now), ops).svc, times);
  }

  /** A tick whose checks counted a crash that trips the circuit. */
  predicate TripsAgain(s: Service, o: Observation) {
    && Watched(s)
    && (|| (CountsCrash(o) && !o.circuitFails && Trips(CountCrash(s, o.crashAt), o.crashAt))
        || (CountsUnhealthy(o) && !o.recircuitFails
            && Trips(CountCrash(AfterCrashCheck(s, o), o.unhealthyAt), o.unhealthyAt)))
  }

  /** Once the retry time has come, a tick closes an open circuit if and only if it does not trip it again. */
  lemma OverdueTickClosesIff(s: Service, o: Observation)
    requires s.circuitOpen && s.retryAt.Some? && s.retryAt.value <= o.endAt && Timely(o) && !o.recoverFails
    requires s.windowStart.Some? ==> s.windowStart.value <= o.crashAt
    ensures !Services.Tick(s, o).circuitOpen <==> !TripsAgain(s, o)
    ensures !Services.Tick(s, o).circuitOpen ==>
              var t := Services.Tick(s, o);
              t.windowStart.None? && t.crashCount == 0 && t.retryAt.None? && t.status == Stopped
  {
  }

  /** The first tick at or after the retry time of an open circuit closes it, unless it counts a crash;
      closing clears the window, the count and the retry time, and stops the service. */
  lemma QuietOverdueTickCloses(now: nat, ops: seq<Op>, o: Observation)
    requires Run(Initial(now), ops) && Enabled(After(Initial(now), ops), Tick(o)) && !o.recoverFails
    requires var s := After(Initial(now), ops).svc;
             s.circuitOpen && (s.retryAt.Some? ==> s.retryAt.value <= o.endAt) && CrashTimes(s, o) == []
    ensures var t := Services.Tick(After(Initial(now), ops).svc, o);
            !t.circuitOpen && t.windowStart.None? && t.crashCount == 0 && t.retryAt.None? && t.status == Stopped
  {
    InvariantHolds(Initial(now), ops);
    OverdueTickClosesIff(After(Initial(now), ops).svc, o);
  }

  // ----- The circuit statement with its arguments as written -----

  /** A counted crash of service `id`, whose circuit statement is bound as written. */
  function CrashAsWritten(s: Service, id: string, tenant: string, now: nat, fails: bool): Service {
    var counted := CountCrash(s, now);
    if fails then counted else CircuitStatement(counted, id, tenant, WrittenArgs(id, tenant, now))
  }

  function TickAsWritten(s: Service, id: string, tenant: string, o: Observation): Service {
    var checked := if Watched(s) && CountsCrash(o) then CrashAsWritten(s, id, tenant, o.crashAt, o.circuitFails) else s;
    var probed :=
      if Watched(s) && CountsUnhealthy(o) then CrashAsWritten(checked, id, tenant, o.unhealthyAt, o.recircuitFails) else checked;
    AfterStaleCheck(AfterRecovery(probed, o), o)
  }

  function ApplyAsWritten(s: Service, id: string, tenant: string, op: Op): Service {
    if op.Tick? then TickAsWritten(s, id, tenant, op.o) else Apply(s, op)
  }

  function AfterAsWritten(s: Service, id: string, tenant: string, ops: seq<Op>): Service
    decreases |ops|
  {
    if ops == [] then s else AfterAsWritten(ApplyAsWritten(s, id, tenant, ops[0]), id, tenant, ops[1..])
  }

  /** The same operation with its circuit statements failing. */
  function Unwritten(op: Op): Op {
    if op.Tick? then Tick(op.o.(circuitFails := true, recircuitFails := true)) else op
  }

  lemma WrittenCrashIsUnwritten(s: Service, id: string, tenant: string, now: nat, fails: bool)
    requires id != tenant
    ensures CrashAsWritten(s, id, tenant, now, fails) == Crash(s, now, true)
  {
    WrittenBindingFindsNoRow(CountCrash(s, now), id, tenant, now);
  }

  /** For a service whose ID is not its tenant's, the statement as written has no effect in any tick. */
  lemma WrittenTickIsUnwritten(s: Service, id: string, tenant: string, op: Op)
    requires id != tenant
    ensures ApplyAsWritten(s, id, tenant, op) == Apply(s, Unwritten(op))
  {
    if op.Tick? {
      var o := op.o;
      WrittenCrashIsUnwritten(s, id, tenant, o.crashAt, o.circuitFails);
      var checked := if Watched(s) && CountsCrash(o) then CrashAsWritten(s, id, tenant, o.crashAt, o.circuitFails) else s;
      WrittenCrashIsUnwritten(checked, id, tenant, o.unhealthyAt, o.recircuitFails);
    }
  }

  lemma UnwrittenNeverOpens(s: Service, op: Op)
    requires !s.circuitOpen
    ensures !Apply(s, Unwritten(op)).circuitOpen
  {
  }

  /** So with the arguments as written no run of any operations ever opens a circuit, however many crashes
      it counts. */
  lemma {:induction false} NeverOpensAsWritten(s: Service, id: string, tenant: string, ops: seq<Op>)
    requires id != tenant && !s.circuitOpen
    ensures !AfterAsWritten(s, id, tenant, ops).circuitOpen
    decreases |ops|
  {
    if ops != [] {
      WrittenTickIsUnwritten(s, id, tenant, ops[0]);
      UnwrittenNeverOpens(s, ops[0]);
      NeverOpensAsWritten(ApplyAsWritten(s, id, tenant, ops[0]), id, tenant, ops[1..]);
    }
  }

  // ----- What can set a service to running -----

  /** A service that becomes running was started or deployed; no tick and no recovery restarts one. */
  lemma OnlyStartsRun(s: Service, op: Op)
    ensures s.status != Running && Apply(s, op).status == Running ==> Starts(s, op)
    ensures op.Tick? && Apply(s, op).status == Running ==> s.status == Running && CrashTimes(s, op.o) == []
  {
  }

  predicate BypassesCircuit(s: Service, op: Op) {
    op.DeployImage? && op.end.Deployed? && s.circuitOpen
  }

  ghost predicate NeverBypasses(h: History, ops: seq<Op>)
    decreases |ops|
  {
    ops == [] || (!BypassesCircuit(h.svc, ops[0]) && NeverBypasses(Next(h, ops[0]), ops[1..]))
  }

  predicate RunsOpen(s: Service) {
    s.status == Running && s.circuitOpen
  }

  lemma TickNeverRunsOpen(s: Service, o: Observation)
    requires !RunsOpen(s)
    ensures !RunsOpen(Services.Tick(s, o))
  {
    if Watched(s) {
      assert !RunsOpen(AfterCrashCheck(s, o));
      assert !RunsOpen(AfterHealthCheck(AfterCrashCheck(s, o), o));
    }
    assert !RunsOpen(AfterRecovery(AfterChecks(s, o), o));
  }

  lemma OpNeverRunsOpen(s: Service, op: Op)
    requires !RunsOpen(s) && !BypassesCircuit(s, op)
    ensures !RunsOpen(Apply(s, op))
  {
    if op.Tick? { TickNeverRunsOpen(s, op.o); }
  }

  /** Without a DeployImage on an open circuit, no run reaches a running service with an open circuit. */
  lemma {:induction false} RunsOpenOnlyThroughDeployImage(h: History, ops: seq<Op>)
    requires Run(h, ops) && NeverBypasses(h, ops) && !RunsOpen(h.svc)
    ensures !RunsOpen(After(h, ops).svc)
    decreases |ops|
  {
    if ops != [] {
      OpNeverRunsOpen(h.svc, ops[0]);
      RunsOpenOnlyThroughDeployImage(Next(h, ops[0]), ops[1..]);
    }
  }

  // ----- One tick, in terms of what it observes -----

  /** The container is definitely gone or has exited, and the statement that says so works. */
  predicate SeenGone(o: Observation) {
    && !o.countFails
    && if o.listed then o.first.Found? && o.first.exited
       else o.first.NotFound? || (o.first.Found? && o.second.Found? && o.second.exited)
  }

  /** The container reports itself unhealthy and could be stopped, and the statement works. */
  predicate SeenUnhealthy(o: Observation) {
    o.health.Found? && o.health.unhealthy && o.stopped && !o.recountFails
  }

  /** A tick leaves a running service alone exactly when it has no container to watch or nothing definite speaks
      against that: errors of the Docker daemon never do. Otherwise the service does not stay running. */
  lemma StaysRunningIff(s: Service, o: Observation)
    requires s.status == Running && !s.circuitOpen
    ensures Services.Tick(s, o) == s <==> s.containerID == "" || (!SeenGone(o) && !SeenUnhealthy(o))
    ensures Services.Tick(s, o) != s ==> Services.Tick(s, o).status == Crashed || Services.Tick(s, o).status == Stopped
  {
    if s.containerID != "" && (SeenGone(o) || SeenUnhealthy(o)) { CrashStops(s, o); }
  }

  lemma CrashStops(s: Service, o: Observation)
    requires Watched(s) && (SeenGone(o) || SeenUnhealthy(o))
    ensures AfterChecks(s, o).status == Crashed
  {
  }

  /** A service that is not running, whose circuit is closed, is touched by a tick in one case: it has been
      deploying for more than ten minutes, and is then failed. */
  lemma StaleDeployIff(s: Service, o: Observation)
    requires s.status != Running && !s.circuitOpen
    ensures Services.Tick(s, o) ==
      if s.status == Deploying && s.updatedAt + 600 < o.endAt && !o.staleFails
      then s.(status := Failed, updatedAt := o.endAt) else s
  {
  }

  /** A crash that is at least the fifth in a window not yet ten minutes old opens the circuit for half an hour;
      any earlier one leaves it as it was. */
  lemma FifthCrashOpens(s: Service, now: nat)
    requires s.windowStart.Some? && now < s.windowStart.value + 600
    ensures var t := Crash(s, now, false);
      && t.crashCount == s.crashCount + 1 && t.windowStart == s.windowStart && t.status == Crashed
      && (s.crashCount >= 4 ==> t.circuitOpen && t.retryAt == Some(now + 1800) && t.openCount == s.openCount + 1)
      && (s.crashCount < 4 ==> t.circuitOpen == s.circuitOpen && t.retryAt == s.retryAt && t.openCount == s.openCount)
  {
  }

  /** A crash outside any window starts a new one, at one, and closes nothing but what it overwrites. */
  lemma FirstCrashStartsWindow(s: Service, now: nat, fails: bool)
    requires s.windowStart.None? || now >= s.windowStart.value + 600
    ensures var t := Crash(s, now, fails);
      && t.crashCount == 1 && t.windowStart == Some(now) && t.status == Crashed
      && t.circuitOpen == s.circuitOpen && t.retryAt == s.retryAt && t.openCount == s.openCount
  {
  }

  /** An open circuit whose time has not come is left alone by a tick that counts no crash. */
  lemma EarlyTickKeepsOpen(s: Service, o: Observation)
    requires s.circuitOpen && CrashTimes(s, o) == [] && s.status != Deploying
    requires s.retryAt.None? || s.retryAt.value > o.endAt
    ensures Services.Tick(s, o) == s
  {
    assert AfterChecks(s, o) == s;
  }

  /** What the operations on request do to a row: start if allowed, with a closed circuit and a container; stop;
      reset, which keeps the retry time. */
  lemma RequestsWrite(s: Service, allowed: bool, succeeds: bool, now: nat)
    ensures Services.Start(s, allowed, succeeds, now) ==
      if allowed && !s.circuitOpen && s.containerID != "" && succeeds then s.(status := Running, updatedAt := now) else s
    ensures Services.Stop(s, succeeds, now) ==
      if s.containerID != "" && succeeds then s.(status := Stopped, updatedAt := now) else s
    ensures ResetCircuitBreaker(s, succeeds, now) ==
      if succeeds then s.(crashCount := 0, circuitOpen := false, windowStart := None, status := Stopped, updatedAt := now) else s
  {
  }
}
