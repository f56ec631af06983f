/** Authentication with its steps interleaved: a request that misses the cache reads the rows, and
    only later stores what it read; one that hits fetches the entry, and only later is let through; a
    handler commits a revocation, and only later evicts.

    Main results: every acceptance rests on a read that found the key valid before its revocation and
    was stored at most 30 seconds before the request got hold of it (AcceptanceRestsOnRead); once no read
    older than a revocation is still to be stored, requests get hold of the key for at most 30 more seconds
    (AcceptancesEnd); and once the revocation has also evicted, the key can be accepted again if and only
    if some request still holds such a read or a fetched entry (AcceptableAfterEvictionIff). */
module AuthRace {
  import opened Common
  import opened AuthCache

  /** A read that returned a row; `saw` is the row as read. */
  datatype Read = Read(keyID: string, at: nat, saw: KeyRow, status: Status)

  /** A cached entry, with the read it came from. */
  datatype Slot = Slot(entry: Entry, source: nat)

  /** What a request goes by once it has an entry, from the cache or its own read. */
  datatype Held = Held(keyID: string, source: nat, status: Status, storedAt: nat, fetchedAt: nat)

  datatype Acceptance = Acceptance(held: Held, at: nat)

  /** `lookups` and `accepted` record the past; `revokedAfter[k]` is how many lookups preceded k's
      revocation. `pending` maps requests that have read but not yet stored to their read, `held` requests
      that have an entry but are not yet let through to that entry. */
  datatype State = State(
    now: nat,
    db: Tables,
    cache: map<string, Slot>,
    pending: map<nat, nat>,
    held: map<nat, Held>,
    lookups: seq<Read>,
    revokedAfter: map<string, nat>,
    accepted: seq<Acceptance>)

  /** Requests are those whose secret verifies. Evictions for capacity, by the stale-entry sweep and by
      an expired hit are all covered by Drop and by `evicted`. Revoking one key and deleting a tenant
      (which suspends it and revokes all its keys in one transaction) are both a Revoke; the eviction
      that follows is a Drop. */
  datatype Step =
    | Tick(to: nat)
    | AddKey(keyID: string, row: KeyRow, tenantStatus: Status)
    | ReadRow(request: nat, keyID: string)
    | Store(request: nat, evicted: set<string>)
    | GiveUp(request: nat)
    | Fetch(request: nat, keyID: string)
    | LetThrough(request: nat)
    | Revoke(keyIDs: set<string>, suspended: set<string>)
    | Drop(keyIDs: set<string>)

  predicate Enabled(s: State, step: Step) {
    match step
    case Tick(to) => s.now <= to
    case AddKey(k, row, _) => k !in s.db.keys && !row.revoked
    case ReadRow(request, k) => request !in s.pending && request !in s.held && Query(s.db, k, Unix(s.now)).Some?
    case Store(request, _) => request in s.pending && s.pending[request] < |s.lookups|
    case GiveUp(_) => true
    case Fetch(request, k) => request !in s.pending && request !in s.held && k in s.cache && s.now - s.cache[k].entry.cachedAt <= TTL && !Expired(s.cache[k].entry, s.now)
    case LetThrough(request) => request in s.held
    case Revoke(keys, _) => keys <= s.db.keys.Keys && forall k :: k in keys ==> !s.db.keys[k].revoked
    case Drop(_) => true
  }

  function Hold(k: string, slot: Slot, now: nat): Held {
    Held(k, slot.source, slot.entry.status, slot.entry.cachedAt, now)
  }

  function Next(s: State, step: Step): State
    requires Enabled(s, step)
  {
    match step
    case Tick(to) => s.(now := to)
    case AddKey(k, row, status) =>
      s.(db := Tables(if row.tenantID in s.db.tenants then s.db.tenants else s.db.tenants[row.tenantID := status],
                      s.db.keys[k := row]))
    case ReadRow(request, k) =>
      var (row, status) := Query(s.db, k, Unix(s.now)).value;
      s.(pending := s.pending[request := |s.lookups|], lookups := s.lookups + [Read(k, s.now, row, status)])
    case Store(request, evicted) =>
      var source := s.pending[request];
      var Read(k, _, row, status) := s.lookups[source];
      var slot := Slot(Entry(row.tenantID, row.keyHash, status, row.expiresAt, s.now), source);
      s.(cache := (s.cache - evicted)[k := slot], pending := s.pending - {request}, held := s.held[request := Hold(k, slot, s.now)])
    case GiveUp(request) => s.(pending := s.pending - {request}, held := s.held - {request})
    case Fetch(request, k) => s.(held := s.held[request := Hold(k, s.cache[k], s.now)])
    case LetThrough(request) =>
      var h := s.held[request];
      s.(held := s.held - {request},
         accepted := if h.status == Active then s.accepted + [Acceptance(h, s.now)] else s.accepted)
    case Revoke(keys, suspended) =>
      s.(db := Tables(map t | t in s.db.tenants :: if t in suspended then Suspended else s.db.tenants[t],
                      map k | k in s.db.keys ::
                        if k in keys then s.db.keys[k].(revoked := true) else s.db.keys[k]),
         revokedAfter := map k | k in s.revokedAfter.Keys + keys ::
                           if k in s.revokedAfter then s.revokedAfter[k] else |s.lookups|)
    case Drop(keys) => s.(cache := s.cache - keys)
  }

  predicate Run(s: State, steps: seq<Step>)
    decreases |steps|
  {
    steps == [] || (Enabled(s, steps[0]) && Run(Next(s, steps[0]), steps[1..]))
  }

  function After(s: State, steps: seq<Step>): State
    requires Run(s, steps)
    decreases |steps|
  {
    if steps == [] then s else After(Next(s, steps[0]), steps[1..])
  }

  const START := State(0, Tables(map[], map[]), map[], map[], map[], [], map[], [])

  /** A read that found the key acceptable, and found it before the key was revoked. */
  ghost predicate Sound(s: State, k: string, source: nat) {
    && source < |s.lookups|
    && var r := s.lookups[source];
    && r.keyID == k && r.at <= s.now && !r.saw.revoked
    && (r.saw.expiresAt.Some? ==> r.saw.expiresAt.value > Unix(r.at))
    && (k in s.revokedAfter ==> source < s.revokedAfter[k])
  }

  /** The entry comes from a sound read, stored at most 30 seconds before it was fetched. */
  ghost predicate Backed(s: State, h: Held) {
    && Sound(s, h.keyID, h.source)
    && h.status == s.lookups[h.source].status
    && s.lookups[h.source].at <= h.storedAt <= h.fetchedAt <= h.storedAt + 30 * 1_000_000_000
    && h.fetchedAt <= s.now
  }

  ghost predicate Justified(s: State, a: Acceptance) {
    Backed(s, a.held) && a.held.status == Active && a.held.fetchedAt <= a.at <= s.now
  }

  ghost predicate Invariant(s: State) {
    && (forall k :: k in s.revokedAfter ==> k in s.db.keys && s.db.keys[k].revoked && s.revokedAfter[k] <= |s.lookups|)
    && (forall k :: k in s.db.keys && s.db.keys[k].revoked ==> k in s.revokedAfter)
    && (forall i :: 0 <= i < |s.lookups| ==> Sound(s, s.lookups[i].keyID, i))
    && (forall q :: q in s.pending ==> s.pending[q] < |s.lookups|)
    && (forall k :: k in s.cache ==>
          && Sound(s, k, s.cache[k].source)
          && s.cache[k].entry.status == s.lookups[s.cache[k].source].status
          && s.lookups[s.cache[k].source].at <= s.cache[k].entry.cachedAt <= s.now)
    && (forall q :: q in s.held ==> Backed(s, s.held[q]))
    && (forall a :: a in s.accepted ==> Justified(s, a))
  }

  lemma SoundStays(s: State, step: Step, k: string, i: nat)
    requires Invariant(s) && Enabled(s, step) && Sound(s, k, i)
    ensures Sound(Next(s, step), k, i)
  {
  }

  lemma TablesNext(s: State, step: Step)
    requires Invariant(s) && Enabled(s, step)
    ensures var t := Next(s, step);
            && (forall k :: k in t.revokedAfter ==> k in t.db.keys && t.db.keys[k].revoked && t.revokedAfter[k] <= |t.lookups|)
            && (forall k :: k in t.db.keys && t.db.keys[k].revoked ==> k in t.revokedAfter)
            && (forall q :: q in t.pending ==> t.pending[q] < |t.lookups|)
            && (forall i :: 0 <= i < |t.lookups| ==> Sound(t, t.lookups[i].keyID, i))
  {
    var t := Next(s, step);
    forall i | 0 <= i < |t.lookups|
      ensures Sound(t, t.lookups[i].keyID, i)
    {
      if i < |s.lookups| {
        SoundStays(s, step, s.lookups[i].keyID, i);
      }
    }
  }

  lemma CacheNext(s: State, step: Step, k: string)
    requires Invariant(s) && Enabled(s, step) && k in Next(s, step).cache
    ensures var t := Next(s, step);
            && Sound(t, k, t.cache[k].source)
            && t.cache[k].entry.status == t.lookups[t.cache[k].source].status
            && t.lookups[t.cache[k].source].at <= t.cache[k].entry.cachedAt <= t.now
  {
    if step.Store? && s.lookups[s.pending[step.request]].keyID == k {
      SoundStays(s, step, k, s.pending[step.request]);
    } else {
      SoundStays(s, step, k, s.cache[k].source);
    }
  }

  lemma BackedStays(s: State, step: Step, h: Held)
    requires Invariant(s) && Enabled(s, step) && Backed(s, h)
    ensures Backed(Next(s, step), h)
  {
    SoundStays(s, step, h.keyID, h.source);
  }

  lemma HeldNext(s: State, step: Step, q: nat)
    requires Invariant(s) && Enabled(s, step) && q in Next(s, step).held
    ensures Backed(Next(s, step), Next(s, step).held[q])
  {
    if q in s.held && Next(s, step).held[q] == s.held[q] {
      BackedStays(s, step, s.held[q]);
    } else if step.Store? {
      CacheNext(s, step, s.lookups[s.pending[q]].keyID);
    } else {
      CacheNext(s, step, step.keyID);
    }
  }

  lemma AcceptedNext(s: State, step: Step, a: Acceptance)
    requires Invariant(s) && Enabled(s, step) && a in Next(s, step).accepted
    ensures Justified(Next(s, step), a)
  {
    BackedStays(s, step, a.held);
  }

  lemma InvariantNext(s: State, step: Step)
    requires Invariant(s) && Enabled(s, step)
    ensures Invariant(Next(s, step))
  {
    TablesNext(s, step);
    forall k | k in Next(s, step).cache { CacheNext(s, step, k); }
    forall q | q in Next(s, step).held { HeldNext(s, step, q); }
    forall a | a in Next(s, step).accepted { AcceptedNext(s, step, a); }
  }

  lemma {:induction false} InvariantHolds(s: State, steps: seq<Step>)
    requires Invariant(s) && Run(s, steps)
    ensures Invariant(After(s, steps))
    decreases |steps|
  {
    if steps != [] {
      InvariantNext(s, steps[0]);
      InvariantHolds(Next(s, steps[0]), steps[1..]);
    }
  }

  /** Every acceptance of any interleaving rests on a read that saw the key valid, begun before any
      revocation of it, and stored at most 30 seconds before the request got hold of it. */
  lemma AcceptanceRestsOnRead(steps: seq<Step>, a: Acceptance)
    requires Run(START, steps) && a in After(START, steps).accepted
    ensures Justified(After(START, steps), a)
  {
    InvariantHolds(START, steps);
  }

  // ----- After a revocation -----

  /** k is revoked and no read of it is still to be stored; what is cached was stored by `u`, and what
      requests hold was fetched by u + 30s. */
  ghost predicate Settled(s: State, k: string, u: nat) {
    && k in s.revokedAfter
    && (forall q :: q in s.pending && s.pending[q] < |s.lookups| ==> s.lookups[s.pending[q]].keyID != k)
    && (k in s.cache ==> s.cache[k].entry.cachedAt <= u)
    && (forall q :: q in s.held && s.held[q].keyID == k ==> s.held[q].fetchedAt <= u + 30 * 1_000_000_000)
  }

  lemma SettledNext(s: State, step: Step, k: string, u: nat)
    requires Invariant(s) && Enabled(s, step) && Settled(s, k, u)
    ensures Settled(Next(s, step), k, u)
    ensures forall i :: |s.accepted| <= i < |Next(s, step).accepted| && Next(s, step).accepted[i].held.keyID == k ==>
                          Next(s, step).accepted[i].held.fetchedAt <= u + 30 * 1_000_000_000
    ensures s.accepted <= Next(s, step).accepted
  {
  }

  /** If at time `u` no read of a revoked key is still to be stored, later acceptances of it are of requests
      that got hold of it by u + 30s. Eviction is not even needed for this. */
  lemma {:induction false} AcceptancesEnd(s: State, steps: seq<Step>, k: string, u: nat)
    requires Invariant(s) && Run(s, steps) && Settled(s, k, u)
    ensures s.accepted <= After(s, steps).accepted
    ensures forall i :: |s.accepted| <= i < |After(s, steps).accepted| && After(s, steps).accepted[i].held.keyID == k ==>
                          After(s, steps).accepted[i].held.fetchedAt <= u + 30 * 1_000_000_000
    decreases |steps|
  {
    if steps != [] {
      SettledNext(s, steps[0], k, u);
      InvariantNext(s, steps[0]);
      AcceptancesEnd(Next(s, steps[0]), steps[1..], k, u);
    }
  }

  /** Request q has read an active row of k, and will store it. */
  ghost predicate WillStore(s: State, k: string, q: nat) {
    && q in s.pending && s.pending[q] < |s.lookups|
    && s.lookups[s.pending[q]].keyID == k && s.lookups[s.pending[q]].status == Active
  }

  /** Request q has an active entry of k, and will be let through. */
  ghost predicate WillPass(s: State, k: string, q: nat) {
    q in s.held && s.held[q].keyID == k && s.held[q].status == Active
  }

  ghost predicate Outstanding(s: State, k: string) {
    exists q :: WillStore(s, k, q) || WillPass(s, k, q)
  }

  ghost predicate Quiet(s: State, k: string) {
    && k in s.revokedAfter
    && (forall q :: !WillStore(s, k, q))
    && (forall q :: !WillPass(s, k, q))
    && (k in s.cache ==> s.cache[k].entry.status != Active)
  }

  ghost predicate AcceptsLater(s: State, steps: seq<Step>, k: string) {
    && Run(s, steps)
    && exists i :: |s.accepted| <= i < |After(s, steps).accepted| && After(s, steps).accepted[i].held.keyID == k
  }

  lemma NoNewRead(s: State, step: Step, k: string, q: nat)
    requires Invariant(s) && Enabled(s, step) && Quiet(s, k)
    ensures !WillStore(Next(s, step), k, q)
  {
    assert !WillStore(s, k, q);
  }

  lemma NoNewEntry(s: State, step: Step, k: string, q: nat)
    requires Invariant(s) && Enabled(s, step) && Quiet(s, k)
    ensures !WillPass(Next(s, step), k, q)
  {
    assert !WillStore(s, k, q) && !WillPass(s, k, q);
  }

  lemma CacheStaysQuiet(s: State, step: Step, k: string)
    requires Invariant(s) && Enabled(s, step) && Quiet(s, k)
    ensures k in Next(s, step).revokedAfter
    ensures k in Next(s, step).cache ==> Next(s, step).cache[k].entry.status != Active
  {
    if step.Store? { assert !WillStore(s, k, step.request); }
  }

  lemma NoneLetThrough(s: State, step: Step, k: string)
    requires Enabled(s, step) && Quiet(s, k)
    ensures s.accepted <= Next(s, step).accepted
    ensures forall i :: |s.accepted| <= i < |Next(s, step).accepted| ==> Next(s, step).accepted[i].held.keyID != k
  {
    if step.LetThrough? { assert !WillPass(s, k, step.request); }
  }

  lemma QuietNext(s: State, step: Step, k: string)
    requires Invariant(s) && Enabled(s, step) && Quiet(s, k)
    ensures Quiet(Next(s, step), k) && s.accepted <= Next(s, step).accepted
    ensures forall i :: |s.accepted| <= i < |Next(s, step).accepted| ==> Next(s, step).accepted[i].held.keyID != k
  {
    forall q ensures !WillStore(Next(s, step), k, q) { NoNewRead(s, step, k, q); }
    forall q ensures !WillPass(Next(s, step), k, q) { NoNewEntry(s, step, k, q); }
    CacheStaysQuiet(s, step, k);
    NoneLetThrough(s, step, k);
  }

  lemma {:induction false} QuietForever(s: State, steps: seq<Step>, k: string)
    requires Invariant(s) && Run(s, steps) && Quiet(s, k)
    ensures s.accepted <= After(s, steps).accepted
    ensures forall i :: |s.accepted| <= i < |After(s, steps).accepted| ==> After(s, steps).accepted[i].held.keyID != k
    decreases |steps|
  {
    if steps != [] {
      QuietNext(s, steps[0], k);
      InvariantNext(s, steps[0]);
      QuietForever(Next(s, steps[0]), steps[1..], k);
    }
  }

  lemma AcceptHeld(s: State, q: nat)
    requires q in s.held && s.held[q].status == Active
    ensures AcceptsLater(s, [LetThrough(q)], s.held[q].keyID)
  {
    var t := Next(s, LetThrough(q));
    assert [LetThrough(q)][1..] == [] && Run(t, []);
    assert After(s, [LetThrough(q)]) == t;
    assert t.accepted[|s.accepted|].held.keyID == s.held[q].keyID;
  }

  lemma AcceptOutstanding(s: State, k: string) returns (more: seq<Step>)
    requires Outstanding(s, k)
    ensures AcceptsLater(s, more, k)
  {
    if q :| WillPass(s, k, q) {
      AcceptHeld(s, q);
      more := [LetThrough(q)];
    } else {
      var q :| WillStore(s, k, q);
      var t := Next(s, Store(q, {}));
      AcceptHeld(t, q);
      more := [Store(q, {}), LetThrough(q)];
      assert more[1..] == [LetThrough(q)];
      assert After(s, more) == After(t, [LetThrough(q)]);
    }
  }

  /** "Effective immediately" holds exactly when nothing is outstanding: once a revoked key has been evicted,
      some continuation accepts it if and only if a request still holds an earlier read or entry of it. */
  lemma AcceptableAfterEvictionIff(steps: seq<Step>, k: string)
    requires Run(START, steps)
    requires k in After(START, steps).revokedAfter && k !in After(START, steps).cache
    ensures (exists more :: AcceptsLater(After(START, steps), more, k)) <==> Outstanding(After(START, steps), k)
  {
    var s := After(START, steps);
    InvariantHolds(START, steps);
    if Outstanding(s, k) {
      var more := AcceptOutstanding(s, k);
      assert AcceptsLater(s, more, k);
    } else {
      forall q ensures !WillStore(s, k, q) && !WillPass(s, k, q) { }
      forall more | Run(s, more)
        ensures !AcceptsLater(s, more, k)
      {
        QuietForever(s, more, k);
      }
    }
  }

  /** Such a state is reachable, for instance when a request reads, the handler revokes and evicts, and
      nothing is stored yet. */
  lemma EvictionCanComeTooEarly() returns (steps: seq<Step>)
    ensures Run(START, steps)
    ensures var s := After(START, steps); "k" in s.revokedAfter && "k" !in s.cache && Outstanding(s, "k")
  {
    var row := KeyRow("t", "h", None, false);
    var s0 := Next(START, AddKey("k", row, Active));
    var s1 := Next(s0, ReadRow(0, "k"));
    var s2 := Next(s1, Revoke({"k"}, {}));
    var s3 := Next(s2, Drop({"k"}));
    var tail := [Revoke({"k"}, {}), Drop({"k"})];
    assert tail[1..] == [Drop({"k"})] && tail[1..][1..] == [];
    assert Run(s3, []) && Run(s2, tail[1..]) && Run(s1, tail);
    steps := [AddKey("k", row, Active), ReadRow(0, "k")] + tail;
    assert steps[1..][1..] == tail && steps[1..][0] == ReadRow(0, "k");
    assert After(START, steps) == After(s0, steps[1..]) == After(s1, tail) == After(s2, tail[1..]) == s3;
    assert WillStore(s3, "k", 0) && s3.lookups[s3.pending[0]] == Read("k", 0, row, Active);
  }
}
