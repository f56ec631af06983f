/** The registration rate limiter: a global hourly window, one hourly window per IP, a bounded table
    of windows with eviction, and a background cleanup.

    Main results, for every run of calls at non-decreasing times, with cleanups at any moment, in which no
    full table is scanned while its empty key is strictly its oldest, and so for every run from non-empty
    IPs (NonEmptyIpsSuffice): the answers are those of a limiter whose table is unbounded and never cleaned
    (BoundsAreInvisible); any closed hour admits at most 40 registrations, at most 9 of one IP
    (HourlyBounds); every answer follows from the calls before it alone (AnswerFromHistory), so a refused
    call is refused exactly until the advertised moment (RefusedUntilReset, FirstCallAfterReset); and the
    table is bounded (TableIsBounded). */
module RegistrationLimiter {
  import opened Common

  const MAX_PER_IP: nat := 5
  const MAX_GLOBAL: nat := 20
  const MAX_ENTRIES: nat := 10000
  const WINDOW: nat := 3600 * NANOS_PER_SECOND

  datatype Entry = Entry(count: nat, windowAt: nat)

  datatype State = State(entries: map<string, Entry>, globalCount: nat, globalWindowAt: Option<nat>)

  datatype Answer = Admitted | Refused(wait: nat)

  const INITIAL := State(map[], 0, None)

  function Times(entries: map<string, Entry>): map<string, int> {
    map k | k in entries :: entries[k].windowAt
  }

  /** A window that has run out is replaced by one starting now. */
  function OpenWindow(s: State, now: nat): State {
    if s.globalWindowAt.None? || now > s.globalWindowAt.value
    then s.(globalCount := 0, globalWindowAt := Some(now + WINDOW))
    else s
  }

  /** The per-IP decision, for a state whose global window is open and not full. */
  function Admit(s: State, ip: string, now: nat): (State, Answer) {
    if ip !in s.entries || now > s.entries[ip].windowAt then
      (s.(entries := s.entries[ip := Entry(1, now + WINDOW)], globalCount := s.globalCount + 1), Admitted)
    else
      var e := s.entries[ip];
      if e.count >= MAX_PER_IP then (s, Refused(e.windowAt - now))
      else (s.(entries := s.entries[ip := e.(count := e.count + 1)], globalCount := s.globalCount + 1), Admitted)
  }

  /** One call of the reference limiter: no bound on the table. */
  function Unbounded(s: State, ip: string, now: nat): (State, Answer) {
    var w := OpenWindow(s, now);
    if w.globalCount >= MAX_GLOBAL then (w, Refused(w.globalWindowAt.value - now))
    else Admit(w, ip, now)
  }

  /** One call of the real limiter. */
  function Bounded(s: State, ip: string, now: nat, order: seq<string>): (State, Answer)
    requires Enumerates(order, s.entries.Keys)
  {
    var w := OpenWindow(s, now);
    if w.globalCount >= MAX_GLOBAL then (w, Refused(w.globalWindowAt.value - now))
    else
      var e := if |w.entries| >= MAX_ENTRIES
               then w.(entries := EvictOldest(w.entries, Times(w.entries), order)) else w;
      Admit(e, ip, now)
  }

  function Clean(s: State, now: nat): State {
    s.(entries := map k | k in s.entries && now <= s.entries[k].windowAt :: s.entries[k])
  }

  /** The limiter as an object under its mutex. */
  class Limiter {
    var entries: map<string, Entry>
    var globalCount: nat
    var globalWindowAt: Option<nat>

    function View(): State
      reads this
    {
      State(entries, globalCount, globalWindowAt)
    }

    constructor ()
      ensures View() == INITIAL
    {
      entries, globalCount, globalWindowAt := map[], 0, None;
    }

    method Allow(ip: string, now: nat, order: seq<string>) returns (ok: bool, wait: nat)
      requires Enumerates(order, entries.Keys)
      modifies this
      ensures View() == Bounded(old(View()), ip, now, order).0
      ensures (if ok then Admitted else Refused(wait)) == Bounded(old(View()), ip, now, order).1
    {
      if globalWindowAt == None || now > globalWindowAt.value {
        globalCount := 0;
        globalWindowAt := Some(now + WINDOW);
      }
      if globalCount >= MAX_GLOBAL {
        return false, globalWindowAt.value - now;
      }
      MakeRoom(order);
      ok, wait := AdmitIp(ip, now);
    }

    method AdmitIp(ip: string, now: nat) returns (ok: bool, wait: nat)
      modifies this
      ensures View() == Admit(old(View()), ip, now).0
      ensures (if ok then Admitted else Refused(wait)) == Admit(old(View()), ip, now).1
    {
      if ip !in entries || now > entries[ip].windowAt {
        entries := entries[ip := Entry(1, now + WINDOW)];
        globalCount := globalCount + 1;
        return true, 0;
      }
      var entry := entries[ip];
      if entry.count >= MAX_PER_IP {
        return false, entry.windowAt - now;
      }
      entries := entries[ip := entry.(count := entry.count + 1)];
      globalCount := globalCount + 1;
      return true, 0;
    }

    method MakeRoom(order: seq<string>)
      requires Enumerates(order, entries.Keys)
      modifies this`entries
      ensures entries == if |old(entries)| >= MAX_ENTRIES
                         then EvictOldest(old(entries), Times(old(entries)), order) else old(entries)
    {
      if |entries| >= MAX_ENTRIES {
        var oldestKey := OldestKey(Times(entries), order);
        if oldestKey != "" {
          entries := entries - {oldestKey};
        }
      }
    }

    method Cleanup(now: nat, order: seq<string>)
      requires Enumerates(order, entries.Keys)
      modifies this
      ensures View() == Clean(old(View()), now)
    {
      ghost var before, visited := entries, {};
      for i := 0 to |order|
        invariant forall j :: 0 <= j < i ==> order[j] in visited
        invariant globalCount == old(globalCount) && globalWindowAt == old(globalWindowAt)
        invariant forall k :: k in entries <==> k in before && (k in visited ==> now <= before[k].windowAt)
        invariant forall k :: k in entries ==> entries[k] == before[k]
      {
        if order[i] in entries && now > entries[order[i]].windowAt {
          entries := entries - {order[i]};
        }
        visited := visited + {order[i]};
      }
      assert forall k :: k in before ==> k in order && k in visited;
    }
  }

  // ----- Runs -----

  datatype Op = Allow(ip: string, now: nat, order: seq<string>) | Cleanup(now: nat)

  predicate Ordered(ops: seq<Op>) {
    forall i, j :: 0 <= i < j < |ops| ==> ops[i].now <= ops[j].now
  }

  /** The eviction scan, if there is one, can find the oldest window. */
  ghost predicate CanScan(entries: map<string, Entry>, order: seq<string>) {
    |entries| >= MAX_ENTRIES ==> Enumerates(order, entries.Keys) && !EmptyIsOldest(Times(entries), order)
  }

  /** Runs the theorems speak of: a clock that does not go back, and at each call some visiting order of
      the table, on which an eviction scan works. */
  ghost predicate Run(ops: seq<Op>) {
    && Ordered(ops)
    && (ops != [] ==>
          var rest, op := ops[..|ops| - 1], ops[|ops| - 1];
          && Run(rest)
          && (op.Allow? ==> Enumerates(op.order, After(rest).entries.Keys) && CanScan(After(rest).entries, op.order)))
  }

  /** A visiting order at each call is all that is asked of calls from non-empty IPs. */
  ghost predicate Listed(ops: seq<Op>) {
    ops != [] ==>
      var rest, op := ops[..|ops| - 1], ops[|ops| - 1];
      Listed(rest) && (op.Allow? ==> op.ip != "" && Enumerates(op.order, After(rest).entries.Keys))
  }

  lemma {:induction false} NonEmptyIpsSuffice(ops: seq<Op>)
    requires Ordered(ops) && Listed(ops)
    ensures Run(ops) && "" !in After(ops).entries
  {
    if ops != [] { NonEmptyIpsSuffice(ops[..|ops| - 1]); }
  }

  /** The real limiter's state after a run. */
  ghost function After(ops: seq<Op>): State {
    if ops == [] then INITIAL else
      var rest, op := ops[..|ops| - 1], ops[|ops| - 1];
      match op
      case Allow(ip, now, order) =>
        if Enumerates(order, After(rest).entries.Keys) then Bounded(After(rest), ip, now, order).0 else After(rest)
      case Cleanup(now) => Clean(After(rest), now)
  }

  /** The reference limiter's state after the same calls. */
  ghost function Reference(ops: seq<Op>): State {
    if ops == [] then INITIAL else
      var rest, op := ops[..|ops| - 1], ops[|ops| - 1];
      if op.Allow? then Unbounded(Reference(rest), op.ip, op.now).0 else Reference(rest)
  }

  /** The real answer to the last call of a run. */
  ghost function LastAnswer(ops: seq<Op>): Answer
    requires ops != [] && Run(ops) && ops[|ops| - 1].Allow?
  {
    var op := ops[|ops| - 1];
    Bounded(After(ops[..|ops| - 1]), op.ip, op.now, op.order).1
  }

  ghost function ReferenceAnswer(ops: seq<Op>): Answer
    requires ops != [] && ops[|ops| - 1].Allow?
  {
    Unbounded(Reference(ops[..|ops| - 1]), ops[|ops| - 1].ip, ops[|ops| - 1].now).1
  }

  /** Is this an admission counted for `who` (everyone, or one IP) in [a, b], under the reference? */
  ghost predicate Counted(ops: seq<Op>, who: Option<string>, a: int, b: int)
    requires ops != []
  {
    var op := ops[|ops| - 1];
    op.Allow? && a <= op.now <= b && (who.None? || op.ip == who.value) && ReferenceAnswer(ops).Admitted?
  }

  ghost function Admissions(ops: seq<Op>, who: Option<string>, a: int, b: int): nat {
    if ops == [] then 0 else
      Admissions(ops[..|ops| - 1], who, a, b) + if Counted(ops, who, a, b) then 1 else 0
  }

  /** The admissions the real limiter grants in [a, b]. */
  ghost function Granted(ops: seq<Op>, who: Option<string>, a: int, b: int): nat
    requires Run(ops)
  {
    if ops == [] then 0 else
      var op := ops[|ops| - 1];
      Granted(ops[..|ops| - 1], who, a, b) +
      if op.Allow? && a <= op.now <= b && (who.None? || op.ip == who.value) && LastAnswer(ops).Admitted? then 1 else 0
  }

  // ----- Counting admissions of the reference limiter -----

  /** How many admissions of [a, a + WINDOW] the current global window leaves room for. */
  ghost predicate GlobalCounts(s: State, n: nat, a: int) {
    match s.globalWindowAt
    case None => n == 0 && s.globalCount == 0
    case Some(end) =>
      && s.globalCount <= MAX_GLOBAL
      && n <= 2 * MAX_GLOBAL
      && (end < a ==> n == 0)
      && (end - WINDOW <= a ==> n <= s.globalCount)
      && (a < end - WINDOW <= a + WINDOW ==> n <= MAX_GLOBAL + s.globalCount)
  }

  ghost predicate OpenedBy(s: State, now: int) {
    && (s.globalWindowAt.Some? ==> s.globalWindowAt.value - WINDOW <= now)
    && (forall k :: k in s.entries ==> s.entries[k].windowAt - WINDOW <= now)
  }

  lemma {:induction false} WindowsOpenInThePast(ops: seq<Op>)
    requires Ordered(ops) && ops != []
    ensures OpenedBy(Reference(ops), ops[|ops| - 1].now)
  {
    var rest := ops[..|ops| - 1];
    if rest != [] { WindowsOpenInThePast(rest); }
  }

  lemma {:induction false} GlobalBound(ops: seq<Op>, a: int)
    requires Ordered(ops)
    ensures GlobalCounts(Reference(ops), Admissions(ops, None, a, a + WINDOW), a)
  {
    if ops != [] {
      var rest := ops[..|ops| - 1];
      GlobalBound(rest, a);
      if rest != [] { WindowsOpenInThePast(rest); }
    }
  }

  /** The same for one IP. Its window starts with an admission, which leaves the hour as soon as the
      next window can start: hence 4 + 5. */
  ghost predicate IpCounts(s: State, ip: string, n: nat, a: int) {
    if ip !in s.entries then n == 0 else
      var Entry(count, end) := s.entries[ip];
      && 1 <= count <= MAX_PER_IP
      && n <= 2 * MAX_PER_IP - 1
      && (end < a ==> n == 0)
      && (end - WINDOW == a ==> n <= count)
      && (end - WINDOW < a ==> n <= count - 1)
      && (a < end - WINDOW <= a + WINDOW ==> n <= MAX_PER_IP - 1 + count)
  }

  /** One call, from this IP or another. */
  lemma IpStep(s: State, caller: string, now: nat, ip: string, n: nat, a: int)
    requires IpCounts(s, ip, n, a) && OpenedBy(s, now)
    ensures var (t, answer) := Unbounded(s, caller, now);
            IpCounts(t, ip, n + if caller == ip && a <= now <= a + WINDOW && answer.Admitted? then 1 else 0, a)
  {
  }

  lemma {:induction false} IpBound(ops: seq<Op>, ip: string, a: int)
    requires Ordered(ops)
    ensures IpCounts(Reference(ops), ip, Admissions(ops, Some(ip), a, a + WINDOW), a)
  {
    if ops != [] {
      var rest, op := ops[..|ops| - 1], ops[|ops| - 1];
      IpBound(rest, ip, a);
      if rest != [] { WindowsOpenInThePast(rest); }
      if op.Allow? { IpStep(Reference(rest), op.ip, op.now, ip, Admissions(rest, Some(ip), a, a + WINDOW), a); }
    }
  }

  // ----- Eviction only ever drops an expired window -----

  ghost function OpenedWithin(s: State, a: int, b: int): set<string> {
    set k | k in s.entries && a <= s.entries[k].windowAt - WINDOW <= b
  }

  /** A call opens a window only for its own IP, at the time of the call, and only by admitting it. */
  lemma OpenedByCall(s: State, caller: string, now: nat, a: int, b: int)
    ensures var (t, answer) := Unbounded(s, caller, now);
      OpenedWithin(t, a, b) <= OpenedWithin(s, a, b) + if a <= now <= b && answer.Admitted? then {caller} else {}
  {
  }

  /** Each window was opened by an admission. */
  lemma {:induction false} WindowsAreAdmissions(ops: seq<Op>, a: int, b: int)
    requires Ordered(ops)
    ensures |OpenedWithin(Reference(ops), a, b)| <= Admissions(ops, None, a, b)
  {
    if ops != [] {
      var rest, op := ops[..|ops| - 1], ops[|ops| - 1];
      WindowsAreAdmissions(rest, a, b);
      if op.Allow? {
        OpenedByCall(Reference(rest), op.ip, op.now, a, b);
        var before, added := OpenedWithin(Reference(rest), a, b), if Counted(ops, None, a, b) then {op.ip} else {};
        SubsetCardinality(OpenedWithin(Reference(ops), a, b), before + added);
      }
    }
  }

  ghost function Live(s: State, now: int): set<string> {
    set k | k in s.entries && now <= s.entries[k].windowAt
  }

  lemma LiveWindowsAreFew(ops: seq<Op>, now: int)
    requires Ordered(ops)
    requires ops != [] ==> ops[|ops| - 1].now <= now
    ensures |Live(Reference(ops), now)| <= 2 * MAX_GLOBAL
  {
    var s := Reference(ops);
    GlobalBound(ops, now - WINDOW);
    WindowsAreAdmissions(ops, now - WINDOW, now);
    if ops != [] { WindowsOpenInThePast(ops); }
    assert Live(s, now) <= OpenedWithin(s, now - WINDOW, now);
    SubsetCardinality(Live(s, now), OpenedWithin(s, now - WINDOW, now));
  }

  /** The real table holds the reference windows, except some that have run out. */
  ghost predicate Simulates(bounded: State, ref: State, now: int) {
    && bounded.globalCount == ref.globalCount
    && bounded.globalWindowAt == ref.globalWindowAt
    && bounded.entries.Keys <= ref.entries.Keys
    && (forall k :: k in bounded.entries ==> bounded.entries[k] == ref.entries[k])
    && (forall k :: k in ref.entries && k !in bounded.entries ==> ref.entries[k].windowAt < now)
  }

  /** What eviction removes from a full table has run out already. */
  lemma EvictionDropsExpired(bounded: State, ref: State, now: nat, order: seq<string>)
    requires Simulates(bounded, ref, now) && |Live(ref, now)| <= 2 * MAX_GLOBAL
    requires |bounded.entries| >= MAX_ENTRIES && Enumerates(order, bounded.entries.Keys) && CanScan(bounded.entries, order)
    ensures Simulates(bounded.(entries := EvictOldest(bounded.entries, Times(bounded.entries), order)), ref, now)
  {
    assert |bounded.entries.Keys| == |bounded.entries|;
    var some :| some in bounded.entries.Keys;
    assert some in order;
    ScanWorksIff(Times(bounded.entries), order);
    var k := ScanOldest(Times(bounded.entries), order);
    if bounded.entries[k].windowAt >= now {
      assert forall j :: j in bounded.entries ==> Times(bounded.entries)[j] >= now;
      assert bounded.entries.Keys <= Live(ref, now);
      SubsetCardinality(bounded.entries.Keys, Live(ref, now));
    }
  }

  lemma AdmitSimulates(bounded: State, ref: State, ip: string, now: nat)
    requires Simulates(bounded, ref, now)
    ensures Simulates(Admit(bounded, ip, now).0, Admit(ref, ip, now).0, now)
    ensures Admit(bounded, ip, now).1 == Admit(ref, ip, now).1
  {
  }

  lemma SimulationStep(bounded: State, ref: State, ip: string, now: nat, order: seq<string>)
    requires Simulates(bounded, ref, now) && |Live(ref, now)| <= 2 * MAX_GLOBAL
    requires Enumerates(order, bounded.entries.Keys) && CanScan(bounded.entries, order)
    ensures Simulates(Bounded(bounded, ip, now, order).0, Unbounded(ref, ip, now).0, now)
    ensures Bounded(bounded, ip, now, order).1 == Unbounded(ref, ip, now).1
  {
    var b, r := OpenWindow(bounded, now), OpenWindow(ref, now);
    assert b.entries == bounded.entries && r.entries == ref.entries;
    assert Live(r, now) == Live(ref, now);
    assert Simulates(b, r, now);
    if b.globalCount < MAX_GLOBAL {
      var e := b;
      if |b.entries| >= MAX_ENTRIES {
        EvictionDropsExpired(b, r, now, order);
        e := b.(entries := EvictOldest(b.entries, Times(b.entries), order));
      }
      AdmitSimulates(e, r, ip, now);
    }
  }

  lemma {:induction false} Simulation(ops: seq<Op>, now: nat)
    requires Run(ops)
    requires ops != [] ==> ops[|ops| - 1].now <= now
    ensures Simulates(After(ops), Reference(ops), now)
  {
    if ops != [] {
      var rest, op := ops[..|ops| - 1], ops[|ops| - 1];
      Simulation(rest, op.now);
      if op.Allow? {
        LiveWindowsAreFew(rest, op.now);
        SimulationStep(After(rest), Reference(rest), op.ip, op.now, op.order);
      }
    }
  }

  // ----- Main results -----

  /** The 10000-entry bound and the cleanup never change an answer. */
  lemma BoundsAreInvisible(ops: seq<Op>)
    requires Run(ops) && ops != [] && ops[|ops| - 1].Allow?
    ensures LastAnswer(ops) == ReferenceAnswer(ops)
  {
    var rest, op := ops[..|ops| - 1], ops[|ops| - 1];
    Simulation(rest, op.now);
    LiveWindowsAreFew(rest, op.now);
    SimulationStep(After(rest), Reference(rest), op.ip, op.now, op.order);
  }

  lemma {:induction false} GrantedIsAdmissions(ops: seq<Op>, who: Option<string>, a: int, b: int)
    requires Run(ops)
    ensures Granted(ops, who, a, b) == Admissions(ops, who, a, b)
  {
    if ops != [] {
      GrantedIsAdmissions(ops[..|ops| - 1], who, a, b);
      if ops[|ops| - 1].Allow? { BoundsAreInvisible(ops); }
    }
  }

  /** Any closed hour of any run: at most 40 admissions, at most 9 from one IP. */
  lemma HourlyBounds(ops: seq<Op>, ip: string, a: int)
    requires Run(ops)
    ensures Granted(ops, None, a, a + WINDOW) <= 40
    ensures Granted(ops, Some(ip), a, a + WINDOW) <= 9
  {
    GrantedIsAdmissions(ops, None, a, a + WINDOW);
    GrantedIsAdmissions(ops, Some(ip), a, a + WINDOW);
    GlobalBound(ops, a);
    IpBound(ops, ip, a);
  }

  /** `ip` cannot be admitted before `until`: its own window, or the global one, is full until then. */
  ghost predicate Blocks(s: State, ip: string, until: int) {
    || (s.globalWindowAt.Some? && s.globalWindowAt.value >= until && s.globalCount >= MAX_GLOBAL)
    || (ip in s.entries && s.entries[ip].windowAt >= until && s.entries[ip].count >= MAX_PER_IP)
  }

  lemma {:induction false} BlockedThrough(ops: seq<Op>, i: nat, until: int)
    requires Ordered(ops) && i < |ops| && ops[i].Allow? && ops[|ops| - 1].now <= until
    requires ReferenceAnswer(ops[..i + 1]).Refused? && until == ops[i].now + ReferenceAnswer(ops[..i + 1]).wait
    ensures Blocks(Reference(ops), ops[i].ip, until)
  {
    var rest := ops[..|ops| - 1];
    if i == |ops| - 1 {
      assert ops[..i + 1] == ops;
    } else {
      assert rest[..i + 1] == ops[..i + 1];
      BlockedThrough(rest, i, until);
    }
  }

  lemma {:induction false} PrefixIsRun(ops: seq<Op>, n: nat)
    requires Run(ops) && n <= |ops|
    ensures Run(ops[..n])
  {
    if n < |ops| {
      PrefixIsRun(ops[..|ops| - 1], n);
      assert ops[..|ops| - 1][..n] == ops[..n];
    } else {
      assert ops[..n] == ops;
    }
  }

  /** The real answer to call i of a run. */
  ghost function AnswerAt(ops: seq<Op>, i: nat): Answer
    requires Run(ops) && i < |ops| && ops[i].Allow?
  {
    PrefixIsRun(ops, i + 1);
    LastAnswer(ops[..i + 1])
  }

  lemma RefusedAtEnd(ops: seq<Op>, i: nat)
    requires Ordered(ops) && i < |ops| - 1 && ops[i].Allow?
    requires ops[|ops| - 1].Allow? && ops[|ops| - 1].ip == ops[i].ip
    requires ReferenceAnswer(ops[..i + 1]).Refused?
    requires ops[|ops| - 1].now <= ops[i].now + ReferenceAnswer(ops[..i + 1]).wait
    ensures ReferenceAnswer(ops).Refused?
  {
    var before := ops[..|ops| - 1];
    assert before[..i + 1] == ops[..i + 1];
    BlockedThrough(before, i, ops[i].now + ReferenceAnswer(ops[..i + 1]).wait);
  }

  lemma RefusedByReference(ops: seq<Op>, i: nat, j: nat)
    requires Ordered(ops) && i < j < |ops| && ops[i].Allow? && ops[j].Allow? && ops[i].ip == ops[j].ip
    requires ReferenceAnswer(ops[..i + 1]).Refused?
    requires ops[j].now <= ops[i].now + ReferenceAnswer(ops[..i + 1]).wait
    ensures ReferenceAnswer(ops[..j + 1]).Refused?
  {
    var upTo := ops[..j + 1];
    assert upTo[..i + 1] == ops[..i + 1];
    RefusedAtEnd(upTo, i);
  }

  lemma AnswerIsReference(ops: seq<Op>, i: nat)
    requires Run(ops) && i < |ops| && ops[i].Allow?
    ensures AnswerAt(ops, i) == ReferenceAnswer(ops[..i + 1])
  {
    PrefixIsRun(ops, i + 1);
    BoundsAreInvisible(ops[..i + 1]);
  }

  /** The Retry-After value is honest: no call of that IP up to the advertised moment succeeds. */
  lemma RefusedUntilReset(ops: seq<Op>, i: nat, j: nat)
    requires Run(ops) && i < j < |ops| && ops[i].Allow? && ops[j].Allow? && ops[i].ip == ops[j].ip
    requires AnswerAt(ops, i).Refused? && ops[j].now <= ops[i].now + AnswerAt(ops, i).wait
    ensures AnswerAt(ops, j).Refused?
  {
    AnswerIsReference(ops, i);
    AnswerIsReference(ops, j);
    RefusedByReference(ops, i, j);
  }

  // ----- Every answer, told by the calls before it -----

  /** The last call of this run was admitted. */
  ghost predicate Grants(ops: seq<Op>)
    requires Run(ops)
  {
    ops != [] && ops[|ops| - 1].Allow? && LastAnswer(ops).Admitted?
  }

  /** How many calls from number `from` on were admitted, of everyone or of one IP. */
  ghost function AdmittedSince(ops: seq<Op>, who: Option<string>, from: nat): nat
    requires Run(ops)
  {
    if |ops| <= from then 0 else
      AdmittedSince(ops[..|ops| - 1], who, from) +
      if Grants(ops) && (who.None? || ops[|ops| - 1].ip == who.value) then 1 else 0
  }

  /** The call that opened the current global hour: the first one, then the first after each hour. */
  ghost function Opener(ops: seq<Op>): (g: Option<nat>)
    ensures g.Some? ==> g.value < |ops| && ops[g.value].Allow?
  {
    if ops == [] then None else
      var g, op := Opener(ops[..|ops| - 1]), ops[|ops| - 1];
      if op.Allow? && (g.None? || op.now > ops[g.value].now + 3600 * 1_000_000_000) then Some(|ops| - 1) else g
  }

  /** The admission that opened the current hour of this IP. */
  ghost function FirstOf(ops: seq<Op>, ip: string): (f: Option<nat>)
    requires Run(ops)
    ensures f.Some? ==> f.value < |ops| && ops[f.value].Allow? && ops[f.value].ip == ip
  {
    if ops == [] then None else
      var f, op := FirstOf(ops[..|ops| - 1], ip), ops[|ops| - 1];
      if Grants(ops) && op.ip == ip && (f.None? || op.now > ops[f.value].now + 3600 * 1_000_000_000)
      then Some(|ops| - 1) else f
  }

  ghost predicate GlobalTold(ops: seq<Op>, s: State)
    requires Run(ops)
  {
    match Opener(ops)
    case None => s.globalWindowAt.None? && s.globalCount == 0
    case Some(g) => s.globalWindowAt == Some(ops[g].now + WINDOW) && s.globalCount == AdmittedSince(ops, None, g)
  }

  ghost predicate IpTold(ops: seq<Op>, s: State, ip: string)
    requires Run(ops)
  {
    match FirstOf(ops, ip)
    case None => ip !in s.entries
    case Some(f) => ip in s.entries && s.entries[ip] == Entry(AdmittedSince(ops, Some(ip), f), ops[f].now + WINDOW)
  }

  lemma {:induction false} GlobalIsTold(ops: seq<Op>)
    requires Run(ops)
    ensures GlobalTold(ops, Reference(ops))
  {
    if ops != [] {
      GlobalIsTold(ops[..|ops| - 1]);
      if ops[|ops| - 1].Allow? { BoundsAreInvisible(ops); }
    }
  }

  /** Does the last operation open a new hour for this IP? */
  ghost predicate OpensHour(ops: seq<Op>, ip: string)
    requires Run(ops) && Grants(ops)
  {
    var rest, op := ops[..|ops| - 1], ops[|ops| - 1];
    FirstOf(rest, ip).None? || op.now > rest[FirstOf(rest, ip).value].now + 3600 * 1_000_000_000
  }

  lemma HourStays(ops: seq<Op>, ip: string)
    requires Run(ops) && ops != [] && !(Grants(ops) && ops[|ops| - 1].ip == ip)
    ensures FirstOf(ops, ip) == FirstOf(ops[..|ops| - 1], ip)
    ensures var f := FirstOf(ops, ip);
      f.Some? ==> AdmittedSince(ops, Some(ip), f.value) == AdmittedSince(ops[..|ops| - 1], Some(ip), f.value)
  {
  }

  lemma HourGoesOn(ops: seq<Op>, ip: string)
    requires Run(ops) && Grants(ops) && ops[|ops| - 1].ip == ip && !OpensHour(ops, ip)
    ensures FirstOf(ops, ip) == FirstOf(ops[..|ops| - 1], ip)
    ensures var f := FirstOf(ops, ip);
      f.Some? && AdmittedSince(ops, Some(ip), f.value) == AdmittedSince(ops[..|ops| - 1], Some(ip), f.value) + 1
  {
  }

  lemma HourOpens(ops: seq<Op>, ip: string)
    requires Run(ops) && Grants(ops) && ops[|ops| - 1].ip == ip && OpensHour(ops, ip)
    ensures FirstOf(ops, ip) == Some(|ops| - 1) && AdmittedSince(ops, Some(ip), |ops| - 1) == 1
  {
    assert AdmittedSince(ops[..|ops| - 1], Some(ip), |ops| - 1) == 0;
  }

  /** What a call does to the entry of an IP. */
  lemma EntryAfterCall(s: State, caller: string, now: nat, ip: string)
    ensures var (t, answer) := Unbounded(s, caller, now);
      && (caller != ip || answer.Refused? ==>
            (ip in t.entries <==> ip in s.entries) && (ip in s.entries ==> t.entries[ip] == s.entries[ip]))
      && (caller == ip && answer.Admitted? ==>
            && ip in t.entries
            && t.entries[ip] == if ip !in s.entries || now > s.entries[ip].windowAt then Entry(1, now + WINDOW)
                                else Entry(s.entries[ip].count + 1, s.entries[ip].windowAt))
  {
  }

  /** One more operation, whose answer, if it is a call, is that of the reference. */
  lemma IpToldNext(ops: seq<Op>, ip: string, s: State, t: State)
    requires Run(ops) && ops != [] && IpTold(ops[..|ops| - 1], s, ip)
    requires var op := ops[|ops| - 1];
      if op.Allow? then (t, LastAnswer(ops)) == Unbounded(s, op.ip, op.now) else t == s
    ensures IpTold(ops, t, ip)
  {
    var op := ops[|ops| - 1];
    if op.Allow? { EntryAfterCall(s, op.ip, op.now, ip); }
    if !Grants(ops) || op.ip != ip {
      HourStays(ops, ip);
    } else if OpensHour(ops, ip) {
      HourOpens(ops, ip);
    } else {
      HourGoesOn(ops, ip);
    }
  }

  lemma {:induction false} IpIsTold(ops: seq<Op>, ip: string)
    requires Run(ops)
    ensures IpTold(ops, Reference(ops), ip)
  {
    if ops != [] {
      IpIsTold(ops[..|ops| - 1], ip);
      if ops[|ops| - 1].Allow? { BoundsAreInvisible(ops); }
      IpToldNext(ops, ip, Reference(ops[..|ops| - 1]), Reference(ops));
    }
  }

  /** The end of the global hour call i falls into. */
  ghost function GlobalEnd(ops: seq<Op>, i: nat): int
    requires i < |ops| && ops[i].Allow?
  {
    ops[Opener(ops[..i + 1]).value].now + 3600 * 1_000_000_000
  }

  /** Twenty calls before call i have been admitted in that hour. */
  ghost predicate GlobalFull(ops: seq<Op>, i: nat)
    requires Run(ops) && i < |ops| && ops[i].Allow?
  {
    PrefixIsRun(ops, i);
    AdmittedSince(ops[..i], None, Opener(ops[..i + 1]).value) >= 20
  }

  /** The end of the hour of this IP opened before call i, if one was. */
  ghost function IpEnd(ops: seq<Op>, i: nat): int
    requires Run(ops) && i < |ops| && ops[i].Allow?
  {
    PrefixIsRun(ops, i);
    match FirstOf(ops[..i], ops[i].ip)
    case None => -1
    case Some(f) => ops[f].now + 3600 * 1_000_000_000
  }

  /** That hour is not over, and five calls of this IP before call i have been admitted in it. */
  ghost predicate IpFull(ops: seq<Op>, i: nat)
    requires Run(ops) && i < |ops| && ops[i].Allow?
  {
    PrefixIsRun(ops, i);
    && FirstOf(ops[..i], ops[i].ip).Some? && ops[i].now <= IpEnd(ops, i)
    && AdmittedSince(ops[..i], Some(ops[i].ip), FirstOf(ops[..i], ops[i].ip).value) >= 5
  }

  ghost predicate StateFull(s: State, now: nat) {
    s.globalWindowAt.Some? && now <= s.globalWindowAt.value && s.globalCount >= 20
  }

  ghost predicate StateIpFull(s: State, ip: string, now: nat) {
    ip in s.entries && now <= s.entries[ip].windowAt && s.entries[ip].count >= 5
  }

  /** Refused exactly when one of two hours is full, until the end of the first that is. */
  predicate Explained(answer: Answer, now: nat, globalFull: bool, globalEnd: int, ipFull: bool, ipEnd: int) {
    && (answer.Refused? <==> globalFull || ipFull)
    && (globalFull ==> now + answer.wait == globalEnd)
    && (!globalFull && ipFull ==> now + answer.wait == ipEnd)
  }

  lemma AnswerFromState(s: State, ip: string, now: nat, globalFull: bool, globalEnd: int, ipFull: bool, ipEnd: int)
    requires globalFull == StateFull(s, now) && (globalFull ==> globalEnd == s.globalWindowAt.value)
    requires ipFull == StateIpFull(s, ip, now) && (ipFull ==> ipEnd == s.entries[ip].windowAt)
    ensures Explained(Unbounded(s, ip, now).1, now, globalFull, globalEnd, ipFull, ipEnd)
  {
  }

  lemma FullFromHistory(ops: seq<Op>, i: nat, s: State)
    requires Run(ops) && i < |ops| && ops[i].Allow? && Run(ops[..i]) && GlobalTold(ops[..i], s)
    ensures GlobalFull(ops, i) <==> StateFull(s, ops[i].now)
    ensures GlobalFull(ops, i) ==> s.globalWindowAt.value == GlobalEnd(ops, i)
  {
    assert ops[..i + 1][..i] == ops[..i];
    if Opener(ops[..i + 1]) == Some(i) { assert AdmittedSince(ops[..i], None, i) == 0; }
  }

  lemma IpFullFromHistory(ops: seq<Op>, i: nat, s: State)
    requires Run(ops) && i < |ops| && ops[i].Allow? && Run(ops[..i]) && IpTold(ops[..i], s, ops[i].ip)
    ensures IpFull(ops, i) <==> StateIpFull(s, ops[i].ip, ops[i].now)
    ensures IpFull(ops, i) ==> s.entries[ops[i].ip].windowAt == IpEnd(ops, i)
  {
  }

  ghost predicate AnswersFromHistory(ops: seq<Op>, i: nat, answer: Answer)
    requires Run(ops) && i < |ops| && ops[i].Allow?
  {
    Explained(answer, ops[i].now, GlobalFull(ops, i), GlobalEnd(ops, i), IpFull(ops, i), IpEnd(ops, i))
  }

  lemma ReferenceFromHistory(ops: seq<Op>, i: nat, s: State)
    requires Run(ops) && i < |ops| && ops[i].Allow? && Run(ops[..i])
    requires GlobalTold(ops[..i], s) && IpTold(ops[..i], s, ops[i].ip)
    ensures AnswersFromHistory(ops, i, Unbounded(s, ops[i].ip, ops[i].now).1)
  {
    FullFromHistory(ops, i, s);
    IpFullFromHistory(ops, i, s);
    AnswerFromState(s, ops[i].ip, ops[i].now, GlobalFull(ops, i), GlobalEnd(ops, i), IpFull(ops, i), IpEnd(ops, i));
  }

  lemma ReferenceOfCall(ops: seq<Op>, i: nat)
    requires i < |ops| && ops[i].Allow?
    ensures ReferenceAnswer(ops[..i + 1]) == Unbounded(Reference(ops[..i]), ops[i].ip, ops[i].now).1
  {
    assert ops[..i + 1][..i] == ops[..i];
  }

  /** Every answer follows from the calls before it alone: a call is refused exactly when the global hour or
      the hour of its IP is full, and told to wait exactly until that hour ends. */
  lemma AnswerFromHistory(ops: seq<Op>, i: nat)
    requires Run(ops) && i < |ops| && ops[i].Allow?
    ensures AnswersFromHistory(ops, i, AnswerAt(ops, i))
  {
    PrefixIsRun(ops, i);
    GlobalIsTold(ops[..i]);
    IpIsTold(ops[..i], ops[i].ip);
    ReferenceFromHistory(ops, i, Reference(ops[..i]));
    ReferenceOfCall(ops, i);
    AnswerIsReference(ops, i);
  }

  lemma {:induction false} FirstWasAdmitted(ops: seq<Op>, ip: string)
    requires Run(ops) && FirstOf(ops, ip).Some?
    ensures AnswerAt(ops, FirstOf(ops, ip).value).Admitted?
  {
    var rest, f := ops[..|ops| - 1], FirstOf(ops, ip).value;
    if f == |ops| - 1 {
      assert ops[..f + 1] == ops;
    } else {
      FirstWasAdmitted(rest, ip);
      assert rest[..f + 1] == ops[..f + 1];
    }
  }

  lemma FirstWasAdmittedBefore(ops: seq<Op>, i: nat, ip: string)
    requires Run(ops) && i <= |ops| && Run(ops[..i]) && FirstOf(ops[..i], ip).Some?
    ensures AnswerAt(ops, FirstOf(ops[..i], ip).value).Admitted?
  {
    FirstWasAdmitted(ops[..i], ip);
    assert ops[..i][..FirstOf(ops[..i], ip).value + 1] == ops[..FirstOf(ops[..i], ip).value + 1];
  }

  /** A refused call is told to come back exactly one hour after an earlier admission of its IP, or after the
      call that opened the current global hour. */
  lemma RefusalEndsAnHourLater(ops: seq<Op>, i: nat) returns (j: nat)
    requires Run(ops) && i < |ops| && ops[i].Allow? && AnswerAt(ops, i).Refused?
    ensures j <= i && ops[j].Allow?
    ensures ops[i].now + AnswerAt(ops, i).wait == ops[j].now + 3600 * 1_000_000_000
    ensures Opener(ops[..i + 1]) == Some(j) || (j < i && ops[j].ip == ops[i].ip && AnswerAt(ops, j).Admitted?)
  {
    AnswerFromHistory(ops, i);
    if GlobalFull(ops, i) {
      j := Opener(ops[..i + 1]).value;
    } else {
      PrefixIsRun(ops, i);
      j := FirstOf(ops[..i], ops[i].ip).value;
      FirstWasAdmittedBefore(ops, i, ops[i].ip);
    }
  }

  /** Without an admission of this IP in between, its hour stays the same. */
  lemma {:induction false} FirstStays(ops: seq<Op>, i: nat, ip: string)
    requires Run(ops) && i <= |ops|
    requires forall k :: i <= k < |ops| && ops[k].Allow? && ops[k].ip == ip ==> AnswerAt(ops, k).Refused?
    ensures Run(ops[..i]) && FirstOf(ops, ip) == FirstOf(ops[..i], ip)
  {
    PrefixIsRun(ops, i);
    if i == |ops| {
      assert ops[..i] == ops;
    } else {
      var rest := ops[..|ops| - 1];
      assert rest[..i] == ops[..i];
      forall k | i <= k < |rest| && rest[k].Allow? && rest[k].ip == ip ensures AnswerAt(rest, k).Refused? {
        assert rest[..k + 1] == ops[..k + 1];
      }
      FirstStays(rest, i, ip);
      assert ops[..|ops| - 1 + 1] == ops;
    }
  }

  /** Call j is the first of the same IP after the moment call i was told. */
  ghost predicate FirstAfter(ops: seq<Op>, i: nat, j: nat)
    requires Run(ops)
  {
    && i < j < |ops| && ops[i].Allow? && ops[j].Allow? && ops[i].ip == ops[j].ip && AnswerAt(ops, i).Refused?
    && ops[j].now > ops[i].now + AnswerAt(ops, i).wait
    && forall k :: i < k < j && ops[k].Allow? && ops[k].ip == ops[i].ip ==> ops[k].now <= ops[i].now + AnswerAt(ops, i).wait
  }

  lemma AnswerInPrefix(ops: seq<Op>, n: nat, k: nat)
    requires Run(ops) && k < n <= |ops| && ops[k].Allow?
    ensures Run(ops[..n]) && AnswerAt(ops[..n], k) == AnswerAt(ops, k)
  {
    PrefixIsRun(ops, n);
    assert ops[..n][..k + 1] == ops[..k + 1];
  }

  lemma RefusedInBetween(ops: seq<Op>, i: nat, j: nat, k: nat)
    requires Run(ops) && FirstAfter(ops, i, j) && i <= k < j && ops[k].Allow? && ops[k].ip == ops[i].ip
    ensures Run(ops[..j]) && AnswerAt(ops[..j], k).Refused?
  {
    if k > i { RefusedUntilReset(ops, i, k); }
    AnswerInPrefix(ops, j, k);
  }

  lemma SameHour(ops: seq<Op>, i: nat, j: nat)
    requires Run(ops) && FirstAfter(ops, i, j)
    ensures IpEnd(ops, j) == IpEnd(ops, i)
  {
    PrefixIsRun(ops, j);
    PrefixIsRun(ops, i);
    var before := ops[..j];
    assert before[..i] == ops[..i];
    forall k | i <= k < j && before[k].Allow? && before[k].ip == ops[i].ip ensures AnswerAt(before, k).Refused? {
      RefusedInBetween(ops, i, j, k);
    }
    FirstStays(before, i, ops[i].ip);
  }

  /** The first call of an IP after the moment it was told is admitted unless the other limit refuses it: if
      its own hour was full, only the global one can be by then. */
  lemma FirstCallAfterReset(ops: seq<Op>, i: nat, j: nat)
    requires Run(ops) && FirstAfter(ops, i, j)
    ensures AnswerAt(ops, j).Admitted? || GlobalFull(ops, j) || (GlobalFull(ops, i) && IpFull(ops, j))
  {
    AnswerFromHistory(ops, i);
    AnswerFromHistory(ops, j);
    SameHour(ops, i, j);
  }

  // ----- The table itself -----

  lemma {:induction false} TableIsBounded(ops: seq<Op>)
    requires Run(ops)
    ensures |After(ops).entries| <= 10000
  {
    if ops != [] {
      var rest, op := ops[..|ops| - 1], ops[|ops| - 1];
      TableIsBounded(rest);
      match op
      case Allow(ip, now, order) => CallIsBounded(After(rest), ip, now, order);
      case Cleanup(now) =>
        SubsetCardinality(Clean(After(rest), now).entries.Keys, After(rest).entries.Keys);
        assert |Clean(After(rest), now).entries.Keys| == |Clean(After(rest), now).entries|;
        assert |After(rest).entries.Keys| == |After(rest).entries|;
    }
  }

  lemma CallIsBounded(s: State, ip: string, now: nat, order: seq<string>)
    requires Enumerates(order, s.entries.Keys) && CanScan(s.entries, order) && |s.entries| <= 10000
    ensures |Bounded(s, ip, now, order).0.entries| <= 10000
  {
    var room := if |s.entries| >= MAX_ENTRIES then EvictOldest(s.entries, Times(s.entries), order) else s.entries;
    if |s.entries| >= MAX_ENTRIES {
      var k := EvictionRemovesOldest(s.entries, Times(s.entries), order);
      OneFewer(s.entries, k);
    }
    AdmitAddsOne(s.(entries := room), ip, now);
    AdmitAddsOne(OpenWindow(s, now).(entries := room), ip, now);
  }

  lemma OneFewer(m: map<string, Entry>, k: string)
    requires k in m
    ensures |m - {k}| == |m| - 1
  {
    assert (m - {k}).Keys == m.Keys - {k};
    assert |(m - {k}).Keys| == |m - {k}| && |m.Keys| == |m|;
  }

  lemma AdmitAddsOne(s: State, ip: string, now: nat)
    ensures |Admit(s, ip, now).0.entries| <= |s.entries| + 1
  {
    var after := Admit(s, ip, now).0.entries;
    SubsetCardinality(after.Keys, s.entries.Keys + {ip});
    assert |after.Keys| == |after| && |s.entries.Keys| == |s.entries|;
  }

  /** After any cleanup at most 40 windows are left. */
  lemma CleanupLeavesFew(ops: seq<Op>)
    requires Run(ops) && ops != [] && ops[|ops| - 1].Cleanup?
    ensures |After(ops).entries| <= 40
  {
    var now := ops[|ops| - 1].now;
    Simulation(ops, now);
    LiveWindowsAreFew(ops, now);
    var entries := After(ops).entries;
    assert entries.Keys <= Live(Reference(ops), now);
    SubsetCardinality(entries.Keys, Live(Reference(ops), now));
    assert |entries.Keys| == |entries|;
  }

  // ----- The bound of nine is reached -----

  ghost function OneWindow(count: nat, end: nat): State {
    State(map["x" := Entry(count, end)], count, Some(end))
  }

  lemma CallInOneWindow(count: nat, end: nat, now: nat)
    ensures Enumerates(["x"], OneWindow(count, end).entries.Keys)
    ensures now <= end && count < MAX_PER_IP ==>
              Bounded(OneWindow(count, end), "x", now, ["x"]) == (OneWindow(count + 1, end), Admitted)
    ensures now > end ==>
              Bounded(OneWindow(count, end), "x", now, ["x"]) == (OneWindow(1, now + WINDOW), Admitted)
  {
    var s := OneWindow(count, end);
    assert s.entries.Keys == {"x"};
    assert |s.entries| == 1;
    assert s.entries["x" := Entry(count + 1, end)] == OneWindow(count + 1, end).entries;
    assert s.entries["x" := Entry(1, now + WINDOW)] == OneWindow(1, now + WINDOW).entries;
  }

  /** A run that ends at `now` with one window, having granted so many calls since the first nanosecond. */
  ghost predicate Standing(ops: seq<Op>, count: nat, end: nat, now: nat, granted: nat) {
    && ops != [] && Run(ops) && ops[|ops| - 1].now == now >= 1
    && After(ops) == OneWindow(count, end)
    && Granted(ops, Some("x"), 1, now) == granted
  }

  /** One more call from "x". */
  lemma Extend(ops: seq<Op>, count: nat, end: nat, was: nat, now: nat, granted: nat) returns (all: seq<Op>)
    requires Standing(ops, count, end, was, granted) && was <= now
    requires now > end || count < MAX_PER_IP
    ensures if now > end then Standing(all, 1, now + WINDOW, now, granted + 1) else Standing(all, count + 1, end, now, granted + 1)
  {
    all := ops + [Allow("x", now, ["x"])];
    assert all[..|all| - 1] == ops;
    CallInOneWindow(count, end, now);
    GrantedUpTo(ops, Some("x"), 1, was, now);
  }

  lemma {:induction false} GrantedUpTo(ops: seq<Op>, who: Option<string>, a: int, b: int, c: int)
    requires Run(ops) && b <= c && (ops != [] ==> ops[|ops| - 1].now <= b)
    ensures Granted(ops, who, a, b) == Granted(ops, who, a, c)
  {
    if ops != [] { GrantedUpTo(ops[..|ops| - 1], who, a, b, c); }
  }

  /** Four further calls at once. */
  lemma ExtendByFour(ops: seq<Op>, end: nat, now: nat, granted: nat) returns (all: seq<Op>)
    requires Standing(ops, 1, end, now, granted) && now <= end
    ensures Standing(all, 5, end, now, granted + 4)
  {
    var two := Extend(ops, 1, end, now, now, granted);
    var three := Extend(two, 2, end, now, now, granted + 1);
    var four := Extend(three, 3, end, now, now, granted + 2);
    all := Extend(four, 4, end, now, now, granted + 3);
  }

  /** The first admission opens a window, before the hour that is counted. */
  lemma OneBefore() returns (ops: seq<Op>)
    ensures Standing(ops, 1, WINDOW, WINDOW, 0)
  {
    var first := [Allow("x", 0, [])];
    assert first[..0] == [];
    assert After(first) == OneWindow(1, WINDOW);
    assert Clean(OneWindow(1, WINDOW), WINDOW).entries == OneWindow(1, WINDOW).entries;
    ops := first + [Cleanup(WINDOW)];
    assert ops[..1] == first;
    assert Granted(first, Some("x"), 1, WINDOW) == 0;
  }

  /** Four admissions at the end of one window, five at the start of the next. */
  lemma NineInOneHour() returns (ops: seq<Op>)
    ensures Run(ops) && Granted(ops, Some("x"), 1, 1 + WINDOW) == 9
  {
    ops := OneBefore();
    ops := ExtendByFour(ops, WINDOW, WINDOW, 0);
    ops := Extend(ops, 5, WINDOW, WINDOW, WINDOW + 1, 4);
    ops := ExtendByFour(ops, WINDOW + 1 + WINDOW, WINDOW + 1, 5);
  }
}
