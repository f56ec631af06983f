/** Sampling of `last_used_at`: at most one write per key every five minutes, remembered in a bounded
    table that is also cleaned of day-old entries. The table is updated under the lock; the column is
    written after it is released, so requests of one key can overlap with a write of that key.

    Main results, in every interleaving: the last sample of a key is less than five minutes older than any
    request of it, and the table never exceeds its capacity (SampleIsRecent); so once the write of that
    sample is the last that landed, the stored time lags every request so far by at most 300 whole seconds
    (StoredTimeIsRecent); this is so whenever no write of the key is pending, if its writes work and never
    overlap (OrderlyWritesLand). A pending write (PendingWriteLags) or an overtaken one (OvertakenWriteLags)
    makes the column lag further. */
module LastUsed {
  import opened Common

  const INTERVAL: nat := 300 * NANOS_PER_SECOND
  const DAY: nat := 86400 * NANOS_PER_SECOND
  const MAX_KEYS: nat := 10000

  datatype Sample = Sample(keyID: string, at: nat)

  /** When each key was last sampled, the `last_used_at` column in seconds, and the requests whose write is
      still to come with the sample it is for. `samples` lists all samples; `latest` and `landed` are the
      last sample of a key and the last whose write worked. */
  datatype State = State(
    lastSeen: map<string, nat>, stored: map<string, nat>, pending: map<nat, nat>,
    samples: seq<Sample>, latest: map<string, nat>, landed: map<string, nat>)

  const EMPTY := State(map[], map[], map[], [], map[], map[])

  predicate Due(lastSeen: map<string, nat>, keyID: string, now: nat) {
    keyID !in lastSeen || now - lastSeen[keyID] >= INTERVAL
  }

  function MakeRoom(lastSeen: map<string, nat>, keyID: string, order: seq<string>): map<string, nat>
    requires Enumerates(order, lastSeen.Keys)
  {
    if keyID !in lastSeen && |lastSeen| >= MAX_KEYS then EvictOldest(lastSeen, lastSeen, order) else lastSeen
  }

  /** The critical section. */
  function Take(s: State, request: nat, keyID: string, now: nat, order: seq<string>): State
    requires Enumerates(order, s.lastSeen.Keys)
  {
    if !Due(s.lastSeen, keyID, now) then s
    else s.(lastSeen := MakeRoom(s.lastSeen, keyID, order)[keyID := now],
            pending := s.pending[request := |s.samples|],
            samples := s.samples + [Sample(keyID, now)],
            latest := s.latest[keyID := |s.samples|])
  }

  /** The statement after it. */
  function Land(s: State, request: nat, works: bool): State
    requires request in s.pending && s.pending[request] < |s.samples|
  {
    var sample := s.pending[request];
    var Sample(keyID, at) := s.samples[sample];
    if works
    then s.(pending := s.pending - {request}, stored := s.stored[keyID := Unix(at)], landed := s.landed[keyID := sample])
    else s.(pending := s.pending - {request})
  }

  function Forget(s: State, now: nat): State {
    s.(lastSeen := map k | k in s.lastSeen && s.lastSeen[k] >= now - DAY :: s.lastSeen[k])
  }

  class Tracker {
    var lastSeen: map<string, nat>
    var stored: map<string, nat>
    ghost var pending: map<nat, nat>
    ghost var samples: seq<Sample>
    ghost var latest: map<string, nat>
    ghost var landed: map<string, nat>

    ghost function View(): State
      reads this
    {
      State(lastSeen, stored, pending, samples, latest, landed)
    }

    constructor ()
      ensures View() == EMPTY
    {
      lastSeen, stored, pending, samples, latest, landed := map[], map[], map[], [], map[], map[];
    }

    /** Under the lock; says whether to write. */
    method TakeSample(keyID: string, now: nat, order: seq<string>, ghost request: nat) returns (due: bool)
      requires Enumerates(order, lastSeen.Keys)
      modifies this
      ensures View() == Take(old(View()), request, keyID, now, order)
      ensures due == Due(old(lastSeen), keyID, now)
    {
      if keyID in lastSeen && now - lastSeen[keyID] < INTERVAL {
        return false;
      }
      if keyID !in lastSeen && |lastSeen| >= MAX_KEYS {
        var oldestKey := OldestKey(lastSeen, order);
        if oldestKey != "" {
          lastSeen := lastSeen - {oldestKey};
        }
      }
      lastSeen := lastSeen[keyID := now];
      pending, latest := pending[request := |samples|], latest[keyID := |samples|];
      samples := samples + [Sample(keyID, now)];
      return true;
    }

    method WriteColumn(keyID: string, at: nat, works: bool, ghost request: nat)
      requires request in pending && pending[request] < |samples| && samples[pending[request]] == Sample(keyID, at)
      modifies this
      ensures View() == Land(old(View()), request, works)
    {
      if works {
        stored := stored[keyID := Unix(at)];
        landed := landed[keyID := pending[request]];
      }
      pending := pending - {request};
    }

    /** A whole call with nothing in between. */
    method MaybeUpdate(keyID: string, now: nat, works: bool, order: seq<string>, ghost request: nat)
      requires Enumerates(order, lastSeen.Keys)
      modifies this
      ensures var taken := Take(old(View()), request, keyID, now, order);
        View() == if Due(old(lastSeen), keyID, now) then Land(taken, request, works) else taken
    {
      var due := TakeSample(keyID, now, order, request);
      if due {
        WriteColumn(keyID, now, works, request);
      }
    }

    method Cleanup(now: nat, order: seq<string>)
      requires Enumerates(order, lastSeen.Keys)
      modifies this
      ensures View() == Forget(old(View()), now)
    {
      ghost var before, visited := lastSeen, {};
      for i := 0 to |order|
        invariant forall j :: 0 <= j < i ==> order[j] in visited
        invariant View() == old(View()).(lastSeen := lastSeen)
        invariant forall k :: k in lastSeen <==> k in before && (k in visited ==> before[k] >= now - DAY)
        invariant forall k :: k in lastSeen ==> lastSeen[k] == before[k]
      {
        if order[i] in lastSeen && lastSeen[order[i]] < now - DAY {
          lastSeen := lastSeen - {order[i]};
        }
        visited := visited + {order[i]};
      }
      assert forall k :: k in before ==> k in order && k in visited;
    }
  }

  // ----- Runs -----

  datatype Op =
    | Request(request: nat, keyID: string, now: nat, order: seq<string>)
    | Write(request: nat, works: bool, now: nat)
    | Cleanup(now: nat)

  ghost predicate Enabled(s: State, op: Op) {
    match op
    case Request(r, keyID, _, order) => r !in s.pending && keyID != "" && Enumerates(order, s.lastSeen.Keys)
    case Write(r, _, _) => r in s.pending && s.pending[r] < |s.samples|
    case Cleanup(_) => true
  }

  ghost function Next(s: State, op: Op): State
    requires Enabled(s, op)
  {
    match op
    case Request(r, keyID, now, order) => Take(s, r, keyID, now, order)
    case Write(r, works, _) => Land(s, r, works)
    case Cleanup(now) => Forget(s, now)
  }

  ghost predicate Run(ops: seq<Op>)
    decreases |ops|, 0
  {
    ops != [] ==>
      var rest, op := ops[..|ops| - 1], ops[|ops| - 1];
      && Run(rest)
      && (rest != [] ==> rest[|rest| - 1].now <= op.now)
      && Enabled(After(rest), op)
  }

  ghost function After(ops: seq<Op>): State
    requires Run(ops)
    decreases |ops|, 1
  {
    if ops == [] then EMPTY else Next(After(ops[..|ops| - 1]), ops[|ops| - 1])
  }

  // ----- Invariant -----

  ghost predicate Bounded(lastSeen: map<string, nat>) {
    |lastSeen| <= MAX_KEYS && "" !in lastSeen
  }

  /** The table remembers the last sample of each of its keys. */
  ghost predicate Remembers(s: State) {
    && (forall k :: k in s.latest ==> s.latest[k] < |s.samples| && s.samples[s.latest[k]].keyID == k)
    && (forall k :: k in s.lastSeen ==> k in s.latest && s.lastSeen[k] == s.samples[s.latest[k]].at)
  }

  ghost predicate Landed(s: State) {
    && (forall r :: r in s.pending ==> s.pending[r] < |s.samples|)
    && (forall k :: k in s.landed ==>
          s.landed[k] < |s.samples| && k in s.stored && s.stored[k] == Unix(s.samples[s.landed[k]].at))
  }

  ghost predicate Past(s: State, now: nat) {
    forall i :: 0 <= i < |s.samples| ==> s.samples[i].at <= now
  }

  ghost predicate Consistent(s: State, now: nat) {
    Bounded(s.lastSeen) && Remembers(s) && Landed(s) && Past(s, now)
  }

  lemma RoomIsMade(lastSeen: map<string, nat>, keyID: string, order: seq<string>)
    requires Enumerates(order, lastSeen.Keys) && Bounded(lastSeen)
    ensures |MakeRoom(lastSeen, keyID, order).Keys + {keyID}| <= MAX_KEYS
  {
    assert |lastSeen.Keys| == |lastSeen|;
    if keyID in lastSeen {
      assert lastSeen.Keys + {keyID} == lastSeen.Keys;
    } else if |lastSeen| >= MAX_KEYS {
      var some :| some in lastSeen.Keys;
      assert some in order;
      ScanFindsOldest(lastSeen, order);
      var k := ScanOldest(lastSeen, order);
      assert MakeRoom(lastSeen, keyID, order).Keys == lastSeen.Keys - {k};
    }
  }

  lemma RoomIsBounded(lastSeen: map<string, nat>, keyID: string, order: seq<string>, now: nat)
    requires Enumerates(order, lastSeen.Keys) && Bounded(lastSeen) && keyID != ""
    ensures Bounded(MakeRoom(lastSeen, keyID, order)[keyID := now])
  {
    var room := MakeRoom(lastSeen, keyID, order);
    RoomIsMade(lastSeen, keyID, order);
    assert room[keyID := now].Keys == room.Keys + {keyID};
    assert |room[keyID := now].Keys| == |room[keyID := now]|;
  }

  lemma FewerIsBounded(a: map<string, nat>, b: map<string, nat>)
    requires Bounded(b) && a.Keys <= b.Keys
    ensures Bounded(a)
  {
    SubsetCardinality(a.Keys, b.Keys);
    assert |a.Keys| == |a| && |b.Keys| == |b|;
  }

  lemma TakeIsBounded(s: State, r: nat, keyID: string, now: nat, order: seq<string>)
    requires Bounded(s.lastSeen) && keyID != "" && Enumerates(order, s.lastSeen.Keys)
    ensures Bounded(Take(s, r, keyID, now, order).lastSeen)
  {
    if Due(s.lastSeen, keyID, now) { RoomIsBounded(s.lastSeen, keyID, order, now); }
  }

  lemma TakeIsRemembered(s: State, r: nat, keyID: string, now: nat, order: seq<string>)
    requires Remembers(s) && Enumerates(order, s.lastSeen.Keys)
    ensures Remembers(Take(s, r, keyID, now, order))
  {
  }

  lemma NextKeeps(s: State, op: Op)
    requires Consistent(s, op.now) && Enabled(s, op)
    ensures Bounded(Next(s, op).lastSeen) && Remembers(Next(s, op))
  {
    match op
    case Request(r, keyID, now, order) =>
      TakeIsBounded(s, r, keyID, now, order);
      TakeIsRemembered(s, r, keyID, now, order);
    case Write(_, _, _) =>
    case Cleanup(now) => FewerIsBounded(Forget(s, now).lastSeen, s.lastSeen);
  }

  lemma NextKeepsLanded(s: State, op: Op)
    requires Landed(s) && Enabled(s, op)
    ensures Landed(Next(s, op))
  {
  }

  lemma NextKeepsPast(s: State, op: Op)
    requires Past(s, op.now) && Enabled(s, op)
    ensures Past(Next(s, op), op.now)
  {
  }

  lemma {:induction false} ReachableIsConsistent(ops: seq<Op>)
    requires Run(ops) && ops != []
    ensures Consistent(After(ops), ops[|ops| - 1].now)
  {
    var rest, op := ops[..|ops| - 1], ops[|ops| - 1];
    if rest != [] { ReachableIsConsistent(rest); }
    NextKeeps(After(rest), op);
    NextKeepsLanded(After(rest), op);
    NextKeepsPast(After(rest), op);
  }

  // ----- Main results -----

  /** The last sample of k is less than five minutes older than a moment `now`. */
  ghost predicate Fresh(s: State, k: string, now: nat) {
    k in s.latest && s.latest[k] < |s.samples| && now < s.samples[s.latest[k]].at + 300 * 1_000_000_000
  }

  lemma FreshStays(s: State, op: Op, k: string, now: nat)
    requires Enabled(s, op) && Past(s, op.now) && Fresh(s, k, now)
    ensures Fresh(Next(s, op), k, now)
  {
  }

  lemma RequestIsFresh(s: State, op: Op)
    requires Remembers(s) && Enabled(s, op) && op.Request?
    ensures Fresh(Next(s, op), op.keyID, op.now)
  {
  }

  lemma {:induction false} FreshThroughout(ops: seq<Op>, i: nat)
    requires Run(ops) && i < |ops| && ops[i].Request?
    ensures Fresh(After(ops), ops[i].keyID, ops[i].now)
  {
    var rest, op := ops[..|ops| - 1], ops[|ops| - 1];
    var s := After(rest);
    assert Consistent(s, op.now) by { if rest != [] { ReachableIsConsistent(rest); } }
    if i < |rest| {
      FreshThroughout(rest, i);
      FreshStays(s, op, ops[i].keyID, ops[i].now);
    } else {
      RequestIsFresh(s, op);
    }
  }

  /** At every moment the last sample of a key is less than five minutes older than any request of it so far,
      whatever was evicted or cleaned, and the table is within its capacity. */
  lemma SampleIsRecent(ops: seq<Op>, i: nat)
    requires Run(ops) && i < |ops| && ops[i].Request?
    ensures Fresh(After(ops), ops[i].keyID, ops[i].now)
    ensures |After(ops).lastSeen| <= 10000
  {
    ReachableIsConsistent(ops);
    FreshThroughout(ops, i);
  }

  /** The write of the last sample of k is the last write of k that worked. */
  ghost predicate UpToDate(s: State, k: string) {
    k in s.latest && k in s.landed && s.landed[k] == s.latest[k]
  }

  lemma WholeSecondsApart(earlier: nat, now: nat)
    requires now < earlier + INTERVAL
    ensures Unix(now) <= Unix(earlier) + 300
  {
    assert Unix(earlier + INTERVAL) == Unix(earlier) + 300;
  }

  /** Then the stored time lags every request of k so far by at most 300 whole seconds. */
  lemma StoredTimeIsRecent(ops: seq<Op>, i: nat)
    requires Run(ops) && i < |ops| && ops[i].Request? && UpToDate(After(ops), ops[i].keyID)
    ensures var s := After(ops);
      ops[i].keyID in s.stored && Unix(ops[i].now) - s.stored[ops[i].keyID] <= 300
  {
    var s, k := After(ops), ops[i].keyID;
    SampleIsRecent(ops, i);
    ReachableIsConsistent(ops);
    WholeSecondsApart(s.samples[s.latest[k]].at, ops[i].now);
  }

  /** A pending write of this request is for k. */
  ghost predicate PendingFor(s: State, r: nat, k: string) {
    r in s.pending && s.pending[r] < |s.samples| && s.samples[s.pending[r]].keyID == k
  }

  ghost predicate Idle(s: State, k: string) {
    forall r :: !PendingFor(s, r, k)
  }

  /** Every write of k works, and k is only sampled while no write of it is pending. */
  ghost predicate Orderly(ops: seq<Op>, k: string)
    requires Run(ops)
  {
    ops != [] ==>
      var s, op := After(ops[..|ops| - 1]), ops[|ops| - 1];
      && Orderly(ops[..|ops| - 1], k)
      && (op.Request? && op.keyID == k && Due(s.lastSeen, k, op.now) ==> Idle(s, k))
      && (op.Write? && s.samples[s.pending[op.request]].keyID == k ==> op.works)
  }

  /** What is pending for k is its last sample, and what is not pending has landed. */
  ghost predicate InOrder(s: State, k: string) {
    && (forall r :: PendingFor(s, r, k) ==> k in s.latest && s.pending[r] == s.latest[k])
    && (k in s.latest && Idle(s, k) ==> UpToDate(s, k))
  }

  lemma {:induction false} OrderlyIsInOrder(ops: seq<Op>, k: string)
    requires Run(ops) && Orderly(ops, k)
    ensures InOrder(After(ops), k)
  {
    if ops != [] {
      var rest, op := ops[..|ops| - 1], ops[|ops| - 1];
      if rest != [] { ReachableIsConsistent(rest); }
      OrderlyIsInOrder(rest, k);
      InOrderNext(After(rest), op, k);
    }
  }

  lemma InOrderTake(s: State, op: Op, k: string)
    requires InOrder(s, k) && Remembers(s) && Landed(s) && Enabled(s, op)
    requires op.Request? && Due(s.lastSeen, op.keyID, op.now) && (op.keyID == k ==> Idle(s, k))
    ensures InOrder(Next(s, op), k)
  {
    var t := Next(s, op);
    assert t.pending[op.request] == |s.samples|;
    forall r | PendingFor(t, r, k) ensures k in t.latest && t.pending[r] == t.latest[k] {
      if r != op.request { assert PendingFor(s, r, k); }
    }
    if op.keyID == k {
      assert PendingFor(t, op.request, k);
    } else if Idle(t, k) {
      forall r | PendingFor(s, r, k) ensures false { assert PendingFor(t, r, k); }
    }
  }

  lemma InOrderLand(s: State, op: Op, k: string)
    requires InOrder(s, k) && Landed(s) && Enabled(s, op)
    requires op.Write? && (s.samples[s.pending[op.request]].keyID == k ==> op.works)
    ensures InOrder(Next(s, op), k)
  {
    var t := Next(s, op);
    forall r | PendingFor(t, r, k) ensures k in t.latest && t.pending[r] == t.latest[k] {
      assert PendingFor(s, r, k);
    }
    if Idle(t, k) {
      forall r | PendingFor(s, r, k) && r != op.request ensures false { assert PendingFor(t, r, k); }
    }
  }

  lemma InOrderNext(s: State, op: Op, k: string)
    requires InOrder(s, k) && Remembers(s) && Landed(s) && Enabled(s, op)
    requires op.Request? && op.keyID == k && Due(s.lastSeen, k, op.now) ==> Idle(s, k)
    requires op.Write? && s.samples[s.pending[op.request]].keyID == k ==> op.works
    ensures InOrder(Next(s, op), k)
  {
    if op.Request? && Due(s.lastSeen, op.keyID, op.now) {
      InOrderTake(s, op, k);
    } else if op.Write? {
      InOrderLand(s, op, k);
    } else {
      var t := Next(s, op);
      assert forall r :: PendingFor(t, r, k) <==> PendingFor(s, r, k);
      assert Idle(t, k) ==> Idle(s, k) by { if Idle(t, k) { forall r ensures !PendingFor(s, r, k) { assert !PendingFor(t, r, k); } } }
    }
  }

  /** So with working writes that do not overlap, the stored time lags every request of k by at most 300
      whole seconds whenever no write of k is pending. */
  lemma OrderlyWritesLand(ops: seq<Op>, k: string, i: nat)
    requires Run(ops) && Orderly(ops, k) && Idle(After(ops), k)
    requires i < |ops| && ops[i].Request? && ops[i].keyID == k
    ensures k in After(ops).stored && Unix(ops[i].now) - After(ops).stored[k] <= 300
  {
    OrderlyIsInOrder(ops, k);
    SampleIsRecent(ops, i);
    StoredTimeIsRecent(ops, i);
  }

  // ----- No more than one write every five minutes -----

  /** The table has room at every request, so nothing is evicted. */
  ghost predicate Roomy(ops: seq<Op>)
    requires Run(ops)
  {
    ops != [] ==>
      && Roomy(ops[..|ops| - 1])
      && (ops[|ops| - 1].Request? ==> |After(ops[..|ops| - 1]).lastSeen| < 10000)
  }

  /** The last sample of a key is remembered, or a day old. */
  ghost predicate KeepsDay(s: State, now: nat) {
    forall k :: k in s.latest ==>
      s.latest[k] < |s.samples| && (k in s.lastSeen || s.samples[s.latest[k]].at < now - 86400 * 1_000_000_000)
  }

  /** The latest sample of this one's key is at or after it. */
  ghost predicate HasLatest(s: State, i: nat)
    requires i < |s.samples|
  {
    var k := s.samples[i].keyID;
    k in s.latest && i <= s.latest[k] < |s.samples|
  }

  /** The latest sample of a key is its last. */
  ghost predicate LatestIsLast(s: State) {
    forall i: nat :: i < |s.samples| ==> HasLatest(s, i)
  }

  /** Samples i < j of one key are five minutes apart. */
  ghost predicate Gap(samples: seq<Sample>, i: nat, j: nat)
    requires i < j < |samples|
  {
    samples[i].keyID == samples[j].keyID ==> samples[j].at >= samples[i].at + 300 * 1_000_000_000
  }

  ghost predicate Apart(samples: seq<Sample>) {
    forall i: nat, j: nat :: i < j < |samples| ==> Gap(samples, i, j)
  }

  /** This moment is five minutes after the sample, if that is of this key. */
  ghost predicate AfterFive(samples: seq<Sample>, i: nat, keyID: string, now: nat)
    requires i < |samples|
  {
    samples[i].keyID == keyID ==> now >= samples[i].at + 300 * 1_000_000_000
  }

  ghost predicate Later(samples: seq<Sample>, keyID: string, now: nat) {
    forall i: nat :: i < |samples| ==> AfterFive(samples, i, keyID, now)
  }

  lemma AppendApart(samples: seq<Sample>, keyID: string, now: nat)
    requires Apart(samples) && Later(samples, keyID, now)
    ensures Apart(samples + [Sample(keyID, now)])
  {
    var all := samples + [Sample(keyID, now)];
    forall i: nat, j: nat | i < j < |all| ensures Gap(all, i, j) {
      if j < |samples| { assert Gap(samples, i, j); } else { assert AfterFive(samples, i, keyID, now); }
    }
  }

  lemma LatestIsYoungest(s: State, i: nat)
    requires Remembers(s) && LatestIsLast(s) && Apart(s.samples) && i < |s.samples|
    ensures var k := s.samples[i].keyID;
      k in s.latest && s.latest[k] < |s.samples| && s.samples[i].at <= s.samples[s.latest[k]].at
  {
    assert HasLatest(s, i);
    var last := s.latest[s.samples[i].keyID];
    if i < last { assert Gap(s.samples, i, last); }
  }

  lemma LatestIsOld(s: State, keyID: string, now: nat)
    requires Due(s.lastSeen, keyID, now) && Remembers(s) && KeepsDay(s, now) && keyID in s.latest
    ensures s.latest[keyID] < |s.samples| && now >= s.samples[s.latest[keyID]].at + 300 * 1_000_000_000
  {
  }

  lemma DueIsLater(s: State, keyID: string, now: nat)
    requires Due(s.lastSeen, keyID, now) && Remembers(s) && KeepsDay(s, now) && LatestIsLast(s) && Apart(s.samples)
    ensures Later(s.samples, keyID, now)
  {
    forall i: nat | i < |s.samples| ensures AfterFive(s.samples, i, keyID, now) {
      if s.samples[i].keyID == keyID {
        LatestIsYoungest(s, i);
        LatestIsOld(s, keyID, now);
      }
    }
  }

  lemma TakeStaysApart(s: State, op: Op)
    requires Enabled(s, op) && op.Request? && Remembers(s)
    requires KeepsDay(s, op.now) && LatestIsLast(s) && Apart(s.samples)
    ensures Apart(Next(s, op).samples)
  {
    if Due(s.lastSeen, op.keyID, op.now) {
      DueIsLater(s, op.keyID, op.now);
      AppendApart(s.samples, op.keyID, op.now);
    }
  }

  lemma LatestStaysLast(s: State, op: Op)
    requires Enabled(s, op) && LatestIsLast(s)
    ensures LatestIsLast(Next(s, op))
  {
    var t := Next(s, op);
    forall i: nat | i < |t.samples| ensures HasLatest(t, i) {
      if i < |s.samples| { assert HasLatest(s, i); }
    }
  }

  lemma DayIsKept(s: State, op: Op)
    requires Enabled(s, op) && Remembers(s) && KeepsDay(s, op.now)
    requires op.Request? ==> |s.lastSeen| < 10000
    ensures KeepsDay(Next(s, op), op.now)
  {
  }

  ghost predicate Spaced(s: State, now: nat) {
    Remembers(s) && KeepsDay(s, now) && LatestIsLast(s) && Apart(s.samples)
  }

  lemma SpacedNext(s: State, op: Op)
    requires Spaced(s, op.now) && Enabled(s, op) && Bounded(s.lastSeen)
    requires op.Request? ==> |s.lastSeen| < 10000
    ensures Apart(Next(s, op).samples) && LatestIsLast(Next(s, op)) && KeepsDay(Next(s, op), op.now)
  {
    DayIsKept(s, op);
    LatestStaysLast(s, op);
    if op.Request? { TakeStaysApart(s, op); }
  }

  lemma {:induction false} SamplesStayApart(ops: seq<Op>, now: nat)
    requires Run(ops) && Roomy(ops) && (ops != [] ==> ops[|ops| - 1].now <= now)
    ensures Spaced(After(ops), now)
  {
    if ops != [] {
      var rest, op := ops[..|ops| - 1], ops[|ops| - 1];
      SamplesStayApart(rest, op.now);
      if rest != [] { ReachableIsConsistent(rest); }
      SpacedNext(After(rest), op);
      ReachableIsConsistent(ops);
    }
  }

  /** Unless the table overflows, two samples of one key are at least five minutes apart, whatever cleanups
      there are; so no key is written more often. */
  lemma SamplesAreApart(ops: seq<Op>, i: nat, j: nat)
    requires Run(ops) && Roomy(ops) && i < j < |After(ops).samples|
    requires After(ops).samples[i].keyID == After(ops).samples[j].keyID
    ensures After(ops).samples[j].at >= After(ops).samples[i].at + 300 * 1_000_000_000
  {
    SamplesStayApart(ops, if ops == [] then 0 else ops[|ops| - 1].now);
    assert Gap(After(ops).samples, i, j);
  }

  /** A cleanup forgets exactly what is more than a day old. */
  lemma CleanupForgetsDayOld(ops: seq<Op>, k: string)
    requires Run(ops) && ops != [] && ops[|ops| - 1].Cleanup?
    ensures var s, t, now := After(ops[..|ops| - 1]), After(ops), ops[|ops| - 1].now;
      && (k in t.lastSeen <==> k in s.lastSeen && s.lastSeen[k] >= now - 86400 * 1_000_000_000)
      && (k in t.lastSeen ==> t.lastSeen[k] == s.lastSeen[k])
  {
  }

  // ----- Otherwise the column can lag -----

  ghost predicate Reaches(ops: seq<Op>, s: State, now: nat) {
    Run(ops) && After(ops) == s && (ops != [] ==> ops[|ops| - 1].now == now)
  }

  lemma OneMore(ops: seq<Op>, s: State, now: nat, last: Op, t: State)
    requires Reaches(ops, s, now) && Enabled(s, last) && t == Next(s, last) && now <= last.now
    ensures Reaches(ops + [last], t, last.now)
  {
    assert (ops + [last])[..|ops|] == ops;
  }

  const FIRST := State(map["k" := 0], map[], map[0 := 0], [Sample("k", 0)], map["k" := 0], map[])

  lemma FirstIsReachable() returns (ops: seq<Op>)
    ensures Reaches(ops, FIRST, 0) && |ops| == 1
  {
    OneMore([], EMPTY, 0, Request(0, "k", 0, []), FIRST);
    ops := [] + [Request(0, "k", 0, [])];
  }

  /** A request is let through while the first write of its key is pending: nothing is stored yet. */
  lemma PendingWriteLags() returns (ops: seq<Op>)
    ensures Run(ops) && |ops| == 2 && ops[1] == Request(1, "k", 1, ["k"]) && "k" !in After(ops).stored
  {
    var first := FirstIsReachable();
    OneMore(first, FIRST, 0, Request(1, "k", 1, ["k"]), FIRST);
    ops := first + [Request(1, "k", 1, ["k"])];
  }

  const BOTH := State(map["k" := INTERVAL], map[], map[0 := 0, 1 := 1], [Sample("k", 0), Sample("k", INTERVAL)],
                      map["k" := 1], map[])
  const YOUNGER := BOTH.(pending := map[0 := 0], stored := map["k" := 300], landed := map["k" := 1])
  const OVERTAKEN := BOTH.(pending := map[], stored := map["k" := 0], landed := map["k" := 0])

  lemma BothIsReachable() returns (ops: seq<Op>)
    ensures Reaches(ops, BOTH, INTERVAL)
  {
    var second := Request(1, "k", INTERVAL, ["k"]);
    var first := FirstIsReachable();
    assert Next(FIRST, second) == BOTH;
    OneMore(first, FIRST, 0, second, BOTH);
    ops := first + [second];
  }

  lemma YoungerIsReachable() returns (ops: seq<Op>)
    ensures Reaches(ops, YOUNGER, INTERVAL)
  {
    var both := BothIsReachable();
    assert Next(BOTH, Write(1, true, INTERVAL)) == YOUNGER;
    OneMore(both, BOTH, INTERVAL, Write(1, true, INTERVAL), YOUNGER);
    ops := both + [Write(1, true, INTERVAL)];
  }

  lemma OvertakenIsReachable() returns (ops: seq<Op>)
    ensures Reaches(ops, OVERTAKEN, INTERVAL)
  {
    var younger := YoungerIsReachable();
    assert Next(YOUNGER, Write(0, true, INTERVAL)) == OVERTAKEN;
    OneMore(younger, YOUNGER, INTERVAL, Write(0, true, INTERVAL), OVERTAKEN);
    ops := younger + [Write(0, true, INTERVAL)];
  }

  /** The run ends with a request of k, all writes done, and the stored time so many seconds behind it. */
  ghost predicate Lags(ops: seq<Op>, k: string, seconds: int) {
    && Run(ops) && ops != [] && ops[|ops| - 1].Request? && ops[|ops| - 1].keyID == k
    && After(ops).pending == map[] && k in After(ops).stored
    && Unix(ops[|ops| - 1].now) - After(ops).stored[k] == seconds
  }

  /** The first write of a key is overtaken by its second, five minutes younger: the stored time is then ten
      minutes behind a request. */
  lemma OvertakenWriteLags() returns (ops: seq<Op>)
    ensures Lags(ops, "k", 599)
  {
    var last := Request(2, "k", 599 * NANOS_PER_SECOND, ["k"]);
    var before := OvertakenIsReachable();
    assert !Due(OVERTAKEN.lastSeen, "k", last.now) && Next(OVERTAKEN, last) == OVERTAKEN;
    OneMore(before, OVERTAKEN, INTERVAL, last, OVERTAKEN);
    ops := before + [last];
  }
}
