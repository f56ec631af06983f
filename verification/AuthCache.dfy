/** The authentication cache: database rows of API keys and tenants, the 30-second cache in front of
    them, and the handlers that create keys, revoke keys and suspend tenants.

    Main result (CacheAgreesWithQuery): with each request and each handler as one atomic step, in
    every reachable state the cached decision is the decision of the SQL query on the current rows,
    except exactly on a hit in the single second in which the key expires (CacheAgreesWithQuery); what it
    takes to be accepted as a tenant is said outright (AcceptedIff); revoked keys and deleted tenants are
    never accepted again (RevokedKeyIsNeverAccepted, DeletedTenantIsNeverAccepted). */
module AuthCache {
  import opened Common

  const TTL: nat := 30 * NANOS_PER_SECOND
  const MAX_KEYS: nat := 5000

  datatype Status = Active | Suspended

  datatype KeyRow = KeyRow(tenantID: string, keyHash: string, expiresAt: Option<nat>, revoked: bool)

  datatype Entry = Entry(tenantID: string, keyHash: string, status: Status, expiresAt: Option<nat>, cachedAt: nat)

  datatype Tables = Tables(tenants: map<string, Status>, keys: map<string, KeyRow>)

  datatype Decision = Accept(tenantID: string) | Reject | Unavailable

  /** Does a secret match a stored hash? The HMAC is left uninterpreted. */
  type Verifier = (string, string) -> bool

  // ----- The query the cache stands for -----

  /** The authentication query: the unrevoked, unexpired key joined with its tenant. */
  function Query(db: Tables, keyID: string, seconds: nat): Option<(KeyRow, Status)> {
    if keyID !in db.keys then None else
      var row := db.keys[keyID];
      if row.tenantID !in db.tenants || row.revoked then None
      else if row.expiresAt.Some? && row.expiresAt.value <= seconds then None
      else Some((row, db.tenants[row.tenantID]))
  }

  function Judge(tenantID: string, keyHash: string, status: Status, secret: string, verify: Verifier): Decision {
    if status == Active && verify(keyHash, secret) then Accept(tenantID) else Reject
  }

  /** The decision without any cache. */
  function QueryDecision(db: Tables, keyID: string, secret: string, now: nat, verify: Verifier): Decision {
    match Query(db, keyID, Unix(now))
    case None => Reject
    case Some((row, status)) => Judge(row.tenantID, row.keyHash, status, secret, verify)
  }

  // ----- The cache -----

  type Cache = map<string, Entry>

  function Times(cache: Cache): map<string, int> {
    map k | k in cache :: cache[k].cachedAt
  }

  predicate Hit(cache: Cache, keyID: string, now: nat) {
    keyID in cache && now - cache[keyID].cachedAt <= TTL
  }

  predicate Expired(e: Entry, now: nat) {
    e.expiresAt.Some? && Unix(now) > e.expiresAt.value
  }

  function Put(cache: Cache, keyID: string, e: Entry, order: seq<string>): Cache
    requires Enumerates(order, cache.Keys)
  {
    (if |cache| >= MAX_KEYS then EvictOldest(cache, Times(cache), order) else cache)[keyID := e]
  }

  function DropTenant(cache: Cache, tenantID: string): Cache {
    map k | k in cache && cache[k].tenantID != tenantID :: cache[k]
  }

  function DropStale(cache: Cache, now: nat): Cache {
    map k | k in cache && now - cache[k].cachedAt <= TTL :: cache[k]
  }

  /** A whole authenticated request: the cache afterwards and the decision. */
  function Request(cache: Cache, db: Tables, dbUp: bool, keyID: string, secret: string, now: nat, order: seq<string>,
                   verify: Verifier): (Cache, Decision)
    requires Enumerates(order, cache.Keys)
  {
    if Hit(cache, keyID, now) then
      var e := cache[keyID];
      if Expired(e, now) then (cache - {keyID}, Reject)
      else (cache, Judge(e.tenantID, e.keyHash, e.status, secret, verify))
    else if !dbUp then (cache, Unavailable)
    else
      match Query(db, keyID, Unix(now))
      case None => (cache, Reject)
      case Some((row, status)) =>
        (Put(cache, keyID, Entry(row.tenantID, row.keyHash, status, row.expiresAt, now), order),
         Judge(row.tenantID, row.keyHash, status, secret, verify))
  }

  class Authenticator {
    var entries: Cache

    constructor ()
      ensures entries == map[]
    {
      entries := map[];
    }

    method Get(keyID: string, now: nat) returns (entry: Option<Entry>)
      ensures entry == if Hit(entries, keyID, now) then Some(entries[keyID]) else None
    {
      if keyID !in entries || now - entries[keyID].cachedAt > TTL {
        return None;
      }
      return Some(entries[keyID]);
    }

    method Set(keyID: string, entry: Entry, order: seq<string>)
      requires Enumerates(order, entries.Keys)
      modifies this
      ensures entries == Put(old(entries), keyID, entry, order)
    {
      if |entries| >= MAX_KEYS {
        var oldestKey := OldestKey(Times(entries), order);
        if oldestKey != "" {
          entries := entries - {oldestKey};
        }
      }
      entries := entries[keyID := entry];
    }

    method Invalidate(keyID: string)
      modifies this
      ensures entries == old(entries) - {keyID}
    {
      entries := entries - {keyID};
    }

    method InvalidateTenant(tenantID: string, order: seq<string>)
      requires Enumerates(order, entries.Keys)
      modifies this
      ensures entries == DropTenant(old(entries), tenantID)
    {
      ghost var before, visited := entries, {};
      for i := 0 to |order|
        invariant forall j :: 0 <= j < i ==> order[j] in visited
        invariant forall k :: k in entries <==> k in before && (k in visited ==> before[k].tenantID != tenantID)
        invariant forall k :: k in entries ==> entries[k] == before[k]
      {
        if order[i] in entries && entries[order[i]].tenantID == tenantID {
          entries := entries - {order[i]};
        }
        visited := visited + {order[i]};
      }
      assert forall k :: k in before ==> k in order && k in visited;
    }

    method Cleanup(now: nat, order: seq<string>)
      requires Enumerates(order, entries.Keys)
      modifies this
      ensures entries == DropStale(old(entries), now)
    {
      ghost var before, visited := entries, {};
      for i := 0 to |order|
        invariant forall j :: 0 <= j < i ==> order[j] in visited
        invariant forall k :: k in entries <==> k in before && (k in visited ==> now - before[k].cachedAt <= TTL)
        invariant forall k :: k in entries ==> entries[k] == before[k]
      {
        if order[i] in entries && now - entries[order[i]].cachedAt > TTL {
          entries := entries - {order[i]};
        }
        visited := visited + {order[i]};
      }
      assert forall k :: k in before ==> k in order && k in visited;
    }

    /** The middleware, for a token that parsed into a key ID and a secret. */
    method Authenticate(db: Tables, dbUp: bool, keyID: string, secret: string, now: nat, order: seq<string>,
                        verify: Verifier)
      returns (d: Decision)
      requires Enumerates(order, entries.Keys)
      modifies this
      ensures (entries, d) == Request(old(entries), db, dbUp, keyID, secret, now, order, verify)
    {
      var tenantID, keyHash, status;
      var cached := Get(keyID, now);
      if cached.Some? {
        if cached.value.expiresAt.Some? && Unix(now) > cached.value.expiresAt.value {
          Invalidate(keyID);
          return Reject;
        }
        tenantID, keyHash, status := cached.value.tenantID, cached.value.keyHash, cached.value.status;
      } else {
        if !dbUp {
          return Unavailable;
        }
        var row := Query(db, keyID, Unix(now));
        if row == None {
          return Reject;
        }
        tenantID, keyHash, status := row.value.0.tenantID, row.value.0.keyHash, row.value.1;
        Set(keyID, Entry(tenantID, keyHash, status, row.value.0.expiresAt, now), order);
      }
      if status != Active {
        return Reject;
      }
      if !verify(keyHash, secret) {
        return Reject;
      }
      return Accept(tenantID);
    }
  }

  // ----- Runs of atomic steps -----

  datatype World = World(db: Tables, cache: Cache)

  datatype Op =
    | Authenticate(dbUp: bool, keyID: string, secret: string, now: nat, order: seq<string>)
    | Register(tenantID: string, newKey: string, row: KeyRow)
    | CreateKey(newKey: string, row: KeyRow)
    | RevokeKey(keyID: string, tenantID: string)
    | DeleteTenant(tenantID: string)
    | Cleanup(now: nat)

  const EMPTY := World(Tables(map[], map[]), map[])

  /** Key and tenant IDs are fresh random strings; a key row refers to an existing tenant. */
  ghost predicate Enabled(w: World, op: Op) {
    match op
    case Authenticate(_, keyID, _, _, order) => keyID != "" && Enumerates(order, w.cache.Keys)
    case Register(t, k, row) => t !in w.db.tenants && k !in w.db.keys && row.tenantID == t && !row.revoked
    case CreateKey(k, row) => k !in w.db.keys && row.tenantID in w.db.tenants && !row.revoked
    case _ => true
  }

  /** Revocation and suspension evict from the cache only after changing a row. */
  ghost function Next(w: World, op: Op, verify: Verifier): World
    requires Enabled(w, op)
  {
    match op
    case Authenticate(dbUp, keyID, secret, now, order) =>
      w.(cache := Request(w.cache, w.db, dbUp, keyID, secret, now, order, verify).0)
    case Register(t, k, row) => w.(db := Tables(w.db.tenants[t := Active], w.db.keys[k := row]))
    case CreateKey(k, row) => w.(db := w.db.(keys := w.db.keys[k := row]))
    case RevokeKey(k, t) =>
      if k in w.db.keys && w.db.keys[k].tenantID == t && !w.db.keys[k].revoked
      then World(w.db.(keys := w.db.keys[k := w.db.keys[k].(revoked := true)]), w.cache - {k})
      else w
    case DeleteTenant(t) =>
      if t !in w.db.tenants then w
      else World(Suspend(w.db, t), DropTenant(w.cache, t))
    case Cleanup(now) => w.(cache := DropStale(w.cache, now))
  }

  function Suspend(db: Tables, t: string): Tables {
    Tables(db.tenants[t := Suspended],
           map k | k in db.keys :: if db.keys[k].tenantID == t then db.keys[k].(revoked := true) else db.keys[k])
  }

  ghost predicate Run(ops: seq<Op>, verify: Verifier)
    decreases |ops|, 0
  {
    ops == [] || (Run(ops[..|ops| - 1], verify) && Enabled(After(ops[..|ops| - 1], verify), ops[|ops| - 1]))
  }

  ghost function After(ops: seq<Op>, verify: Verifier): World
    requires Run(ops, verify)
    decreases |ops|, 1
  {
    if ops == [] then EMPTY else Next(After(ops[..|ops| - 1], verify), ops[|ops| - 1], verify)
  }

  /** Every cached entry is a copy of a row that is still unrevoked, with its tenant's current status. */
  ghost predicate Mirrors(w: World) {
    && |w.cache| <= MAX_KEYS
    && "" !in w.cache
    && forall k :: k in w.cache ==>
         && k in w.db.keys
         && var e, row := w.cache[k], w.db.keys[k];
         && !row.revoked && row.tenantID in w.db.tenants
         && e.tenantID == row.tenantID && e.keyHash == row.keyHash && e.expiresAt == row.expiresAt
         && e.status == w.db.tenants[row.tenantID]
  }

  lemma PutStaysBounded(cache: Cache, keyID: string, e: Entry, order: seq<string>)
    requires Enumerates(order, cache.Keys) && "" !in cache && |cache| <= MAX_KEYS
    ensures |Put(cache, keyID, e, order)| <= MAX_KEYS
  {
    if |cache| >= MAX_KEYS {
      assert |cache.Keys| == |cache|;
      var some :| some in cache.Keys;
      assert some in order;
      ScanFindsOldest(Times(cache), order);
      var k := ScanOldest(Times(cache), order);
      assert (cache - {k}).Keys == cache.Keys - {k};
      assert |(cache - {k}).Keys| == |cache - {k}|;
    }
    var room := if |cache| >= MAX_KEYS then EvictOldest(cache, Times(cache), order) else cache;
    assert room[keyID := e].Keys == room.Keys + {keyID};
    assert |room[keyID := e].Keys| == |room[keyID := e]| && |room.Keys| == |room|;
  }

  lemma SubmapCardinality(a: Cache, b: Cache)
    requires a.Keys <= b.Keys
    ensures |a| <= |b|
  {
    SubsetCardinality(a.Keys, b.Keys);
    assert |a.Keys| == |a| && |b.Keys| == |b|;
  }

  lemma RequestMirrors(w: World, op: Op, verify: Verifier)
    requires Mirrors(w) && op.Authenticate? && Enabled(w, op)
    ensures Mirrors(Next(w, op, verify))
  {
    var Authenticate(dbUp, keyID, secret, now, order) := op;
    var w' := Next(w, op, verify);
    var found := Query(w.db, keyID, Unix(now));
    if dbUp && !Hit(w.cache, keyID, now) && found.Some? {
      PutStaysBounded(w.cache, keyID,
        Entry(found.value.0.tenantID, found.value.0.keyHash, found.value.1, found.value.0.expiresAt, now), order);
    } else {
      SubmapCardinality(w'.cache, w.cache);
    }
  }

  lemma NextMirrors(w: World, op: Op, verify: Verifier)
    requires Mirrors(w) && Enabled(w, op)
    ensures Mirrors(Next(w, op, verify))
  {
    match op
    case Authenticate(_, _, _, _, _) => RequestMirrors(w, op, verify);
    case DeleteTenant(t) => SubmapCardinality(DropTenant(w.cache, t), w.cache);
    case Cleanup(now) => SubmapCardinality(DropStale(w.cache, now), w.cache);
    case RevokeKey(k, t) => SubmapCardinality(w.cache - {k}, w.cache);
    case Register(_, _, _) =>
    case CreateKey(_, _) =>
  }

  lemma {:induction false} ReachableMirrors(ops: seq<Op>, verify: Verifier)
    requires Run(ops, verify)
    ensures Mirrors(After(ops, verify))
  {
    if ops != [] {
      ReachableMirrors(ops[..|ops| - 1], verify);
      NextMirrors(After(ops[..|ops| - 1], verify), ops[|ops| - 1], verify);
    }
  }

  // ----- Main results -----

  /** A hit in the second in which an otherwise acceptable key expires. */
  ghost predicate ExpiringHit(w: World, keyID: string, secret: string, now: nat, verify: Verifier) {
    && Hit(w.cache, keyID, now)
    && var e := w.cache[keyID];
    && e.expiresAt == Some(Unix(now)) && e.status == Active && verify(e.keyHash, secret)
  }

  lemma DecisionAgrees(w: World, dbUp: bool, keyID: string, secret: string, now: nat, order: seq<string>, verify: Verifier)
    requires Mirrors(w) && Enumerates(order, w.cache.Keys)
    requires dbUp || Hit(w.cache, keyID, now)
    ensures Request(w.cache, w.db, dbUp, keyID, secret, now, order, verify).1 != QueryDecision(w.db, keyID, secret, now, verify)
            <==> ExpiringHit(w, keyID, secret, now, verify)
  {
  }

  /** After any run, an answered request gets the query's decision on the current rows unless it is
      such a hit; and on such a hit the cache accepts what the query rejects. */
  lemma CacheAgreesWithQuery(ops: seq<Op>, dbUp: bool, keyID: string, secret: string, now: nat, order: seq<string>,
                             verify: Verifier)
    requires Run(ops, verify) && Enabled(After(ops, verify), Authenticate(dbUp, keyID, secret, now, order))
    ensures var w := After(ops, verify);
            var d := Request(w.cache, w.db, dbUp, keyID, secret, now, order, verify).1;
            && (d == Unavailable <==> !dbUp && !Hit(w.cache, keyID, now))
            && (d != Unavailable ==>
                  (d != QueryDecision(w.db, keyID, secret, now, verify) <==> ExpiringHit(w, keyID, secret, now, verify)))
            && (ExpiringHit(w, keyID, secret, now, verify) ==>
                  d.Accept? && QueryDecision(w.db, keyID, secret, now, verify) == Reject)
  {
    ReachableMirrors(ops, verify);
    var w := After(ops, verify);
    if dbUp || Hit(w.cache, keyID, now) { DecisionAgrees(w, dbUp, keyID, secret, now, order, verify); }
  }

  /** That second is reached: a key expiring at second 5 is cached at the start and used again then. */
  lemma ExpiringHitIsReachable(secret: string, verify: Verifier) returns (ops: seq<Op>)
    requires verify("h", secret)
    ensures Run(ops, verify) && ExpiringHit(After(ops, verify), "k", secret, 5 * NANOS_PER_SECOND, verify)
  {
    var register := Register("t", "k", KeyRow("t", "h", Some(5), false));
    var first := Authenticate(true, "k", secret, 0, []);
    ops := [register, first];
    assert ops[..1] == [register] && [register][..0] == [];
    assert Run([], verify) && After([], verify) == EMPTY;
    assert Run([register], verify);
    var w := After([register], verify);
    assert w == Next(EMPTY, register, verify);
    assert Enabled(w, first);
    assert Query(w.db, "k", 0).Some?;
    assert After(ops, verify) == Next(w, first, verify);
  }

  /** A revoked key, and every key of a suspended tenant, is refused from the very next request on. */
  lemma RevocationIsImmediate(ops: seq<Op>, dbUp: bool, keyID: string, secret: string, now: nat, order: seq<string>,
                              verify: Verifier)
    requires Run(ops, verify) && Enabled(After(ops, verify), Authenticate(dbUp, keyID, secret, now, order))
    requires var db := After(ops, verify).db;
             keyID in db.keys && (db.keys[keyID].revoked || db.keys[keyID].tenantID !in db.tenants
                                  || db.tenants[db.keys[keyID].tenantID] == Suspended)
    ensures var w := After(ops, verify);
            !Request(w.cache, w.db, dbUp, keyID, secret, now, order, verify).1.Accept?
  {
    ReachableMirrors(ops, verify);
  }

  /** The cache never outgrows its capacity. */
  lemma CacheIsBounded(ops: seq<Op>, verify: Verifier)
    requires Run(ops, verify)
    ensures |After(ops, verify).cache| <= 5000
  {
    ReachableMirrors(ops, verify);
  }

  // ----- What an acceptance means -----

  /** The key is there, unrevoked, of this active tenant, its hash fits the secret, and it has not expired. */
  ghost predicate Entitled(db: Tables, keyID: string, secret: string, verify: Verifier, tenantID: string) {
    && keyID in db.keys && !db.keys[keyID].revoked && db.keys[keyID].tenantID == tenantID
    && tenantID in db.tenants && db.tenants[tenantID] == Active
    && verify(db.keys[keyID].keyHash, secret)
  }

  /** The entry for this key is at most 30 seconds old. */
  ghost predicate Remembered(w: World, keyID: string, now: nat) {
    keyID in w.cache && now - w.cache[keyID].cachedAt <= 30 * 1_000_000_000
  }

  /** The key has no expiry, or it lies ahead, or it is this very second and the key is remembered. */
  ghost predicate NotExpired(w: World, keyID: string, now: nat)
    requires keyID in w.db.keys
  {
    var expiry := w.db.keys[keyID].expiresAt;
    expiry.None? || Unix(now) < expiry.value || (Unix(now) == expiry.value && Remembered(w, keyID, now))
  }

  /** After any run, a request is accepted as tenant t if and only if the key is one of t's on the current
      rows, entitles it, has not expired, and the database is up or the key remembered; it is unavailable if
      and only if neither is the case. */
  lemma AcceptedIff(ops: seq<Op>, dbUp: bool, keyID: string, secret: string, now: nat, order: seq<string>,
                    verify: Verifier, t: string)
    requires Run(ops, verify) && Enabled(After(ops, verify), Authenticate(dbUp, keyID, secret, now, order))
    ensures var w := After(ops, verify);
            var d := Request(w.cache, w.db, dbUp, keyID, secret, now, order, verify).1;
      && (d == Accept(t) <==>
            && (dbUp || Remembered(w, keyID, now))
            && Entitled(w.db, keyID, secret, verify, t) && NotExpired(w, keyID, now))
      && (d == Unavailable <==> !dbUp && !Remembered(w, keyID, now))
  {
    ReachableMirrors(ops, verify);
  }

  // ----- Revocation and deletion are final -----

  lemma NextKeepsDead(w: World, op: Op, verify: Verifier, k: string, t: string)
    requires Enabled(w, op)
    ensures k in w.db.keys && w.db.keys[k].revoked ==> k in Next(w, op, verify).db.keys && Next(w, op, verify).db.keys[k].revoked
    ensures t in w.db.tenants && w.db.tenants[t] == Suspended ==>
              t in Next(w, op, verify).db.tenants && Next(w, op, verify).db.tenants[t] == Suspended
  {
  }

  lemma {:induction false} RevokedStays(ops: seq<Op>, i: nat, verify: Verifier, t: string, k: string)
    requires Run(ops, verify) && i < |ops| && Run(ops[..i], verify) && ops[i] == RevokeKey(k, t)
    requires var db := After(ops[..i], verify).db; k in db.keys && db.keys[k].tenantID == t
    ensures k in After(ops, verify).db.keys && After(ops, verify).db.keys[k].revoked
    decreases |ops|
  {
    var rest := ops[..|ops| - 1];
    if i < |rest| {
      assert rest[..i] == ops[..i];
      RevokedStays(rest, i, verify, t, k);
      NextKeepsDead(After(rest, verify), ops[|ops| - 1], verify, k, t);
    }
  }

  lemma {:induction false} SuspendedStays(ops: seq<Op>, i: nat, verify: Verifier, t: string)
    requires Run(ops, verify) && i < |ops| && Run(ops[..i], verify) && ops[i] == DeleteTenant(t)
    requires t in After(ops[..i], verify).db.tenants
    ensures t in After(ops, verify).db.tenants && After(ops, verify).db.tenants[t] == Suspended
    decreases |ops|
  {
    var rest := ops[..|ops| - 1];
    if i < |rest| {
      assert rest[..i] == ops[..i];
      SuspendedStays(rest, i, verify, t);
      NextKeepsDead(After(rest, verify), ops[|ops| - 1], verify, "", t);
    }
  }

  /** Once a tenant has revoked one of its keys, no later request with that key is accepted. */
  lemma RevokedKeyIsNeverAccepted(ops: seq<Op>, i: nat, t: string, dbUp: bool, keyID: string, secret: string, now: nat,
                                  order: seq<string>, verify: Verifier)
    requires Run(ops, verify) && Enabled(After(ops, verify), Authenticate(dbUp, keyID, secret, now, order))
    requires i < |ops| && Run(ops[..i], verify) && ops[i] == RevokeKey(keyID, t)
    requires var db := After(ops[..i], verify).db; keyID in db.keys && db.keys[keyID].tenantID == t
    ensures var w := After(ops, verify); !Request(w.cache, w.db, dbUp, keyID, secret, now, order, verify).1.Accept?
  {
    RevokedStays(ops, i, verify, t, keyID);
    RevocationIsImmediate(ops, dbUp, keyID, secret, now, order, verify);
  }

  /** Once a tenant has been deleted, no later request is accepted as that tenant. */
  lemma DeletedTenantIsNeverAccepted(ops: seq<Op>, i: nat, t: string, dbUp: bool, keyID: string, secret: string, now: nat,
                                     order: seq<string>, verify: Verifier)
    requires Run(ops, verify) && Enabled(After(ops, verify), Authenticate(dbUp, keyID, secret, now, order))
    requires i < |ops| && Run(ops[..i], verify) && ops[i] == DeleteTenant(t) && t in After(ops[..i], verify).db.tenants
    ensures var w := After(ops, verify); Request(w.cache, w.db, dbUp, keyID, secret, now, order, verify).1 != Accept(t)
  {
    SuspendedStays(ops, i, verify, t);
    AcceptedIff(ops, dbUp, keyID, secret, now, order, verify, t);
  }

  // ----- What the cache remembers -----

  /** The entry was filled by an earlier request of the key that reached the database. */
  ghost predicate FilledBy(ops: seq<Op>, i: nat, k: string, at: nat) {
    i < |ops| && ops[i].Authenticate? && ops[i].dbUp && ops[i].keyID == k && ops[i].now == at
  }

  lemma {:induction false} EntriesWereFilled(ops: seq<Op>, verify: Verifier, k: string) returns (i: nat)
    requires Run(ops, verify) && k in After(ops, verify).cache
    ensures FilledBy(ops, i, k, After(ops, verify).cache[k].cachedAt)
    decreases |ops|
  {
    var rest, op := ops[..|ops| - 1], ops[|ops| - 1];
    var w := After(rest, verify);
    if op.Authenticate? && op.keyID == k && (k !in w.cache || After(ops, verify).cache[k] != w.cache[k]) {
      i := |ops| - 1;
    } else {
      i := EntriesWereFilled(rest, verify, k);
    }
  }

  /** A request answered while the database is down repeats one that reached it at most 30 seconds before. */
  lemma AnsweredFromMemory(ops: seq<Op>, keyID: string, secret: string, now: nat, order: seq<string>, verify: Verifier)
    returns (i: nat)
    requires Run(ops, verify) && Enabled(After(ops, verify), Authenticate(false, keyID, secret, now, order))
    requires var w := After(ops, verify); Request(w.cache, w.db, false, keyID, secret, now, order, verify).1 != Unavailable
    ensures i < |ops| && ops[i].Authenticate? && ops[i].dbUp && ops[i].keyID == keyID && now - ops[i].now <= 30 * 1_000_000_000
  {
    AcceptedIff(ops, false, keyID, secret, now, order, verify, "");
    i := EntriesWereFilled(ops, verify, keyID);
  }

  /** And a request that reached the database, and found the key, is repeated from memory for 30 seconds, unless
      something is evicted in between. */
  lemma RepeatIsAnswered(ops: seq<Op>, secret: string, now: nat, order: seq<string>, verify: Verifier)
    requires Run(ops, verify) && ops != [] && ops[|ops| - 1].Authenticate? && ops[|ops| - 1].dbUp
    requires var op, w := ops[|ops| - 1], After(ops[..|ops| - 1], verify);
      && op.keyID !in w.cache && now - op.now <= 30 * 1_000_000_000
      && op.keyID in w.db.keys && !w.db.keys[op.keyID].revoked && w.db.keys[op.keyID].tenantID in w.db.tenants
      && (w.db.keys[op.keyID].expiresAt.Some? ==> Unix(op.now) < w.db.keys[op.keyID].expiresAt.value)
    requires Enumerates(order, After(ops, verify).cache.Keys)
    ensures var w := After(ops, verify);
      Request(w.cache, w.db, false, ops[|ops| - 1].keyID, secret, now, order, verify).1 != Unavailable
  {
  }

  /** A cleanup keeps exactly the entries of the last 30 seconds, deleting a tenant exactly those of others, and
      revoking a key exactly those of other keys. */
  lemma SweepsAreExact(ops: seq<Op>, verify: Verifier, k: string)
    requires Run(ops, verify) && ops != []
    ensures var op, w, v := ops[|ops| - 1], After(ops[..|ops| - 1], verify), After(ops, verify);
      && (op.Cleanup? ==>
            (k in v.cache <==> k in w.cache && op.now - w.cache[k].cachedAt <= 30 * 1_000_000_000)
            && (k in v.cache ==> v.cache[k] == w.cache[k]))
      && (op.DeleteTenant? && op.tenantID in w.db.tenants ==>
            (k in v.cache <==> k in w.cache && w.cache[k].tenantID != op.tenantID)
            && (k in v.cache ==> v.cache[k] == w.cache[k]))
      && (op.RevokeKey? && op.keyID in w.db.keys && w.db.keys[op.keyID].tenantID == op.tenantID ==>
            (k in v.cache <==> k in w.cache && k != op.keyID) && (k in v.cache ==> v.cache[k] == w.cache[k]))
  {
    ReachableMirrors(ops[..|ops| - 1], verify);
  }

  /** Nobody revokes the key of another tenant. */
  lemma OnlyOwnersRevoke(ops: seq<Op>, verify: Verifier)
    requires Run(ops, verify) && ops != [] && ops[|ops| - 1].RevokeKey?
    requires var op, db := ops[|ops| - 1], After(ops[..|ops| - 1], verify).db;
      op.keyID in db.keys ==> db.keys[op.keyID].tenantID != op.tenantID
    ensures After(ops, verify) == After(ops[..|ops| - 1], verify)
  {
  }

  /** A request that hits an entry past its expiry evicts it. */
  lemma ExpiredHitEvicts(ops: seq<Op>, verify: Verifier)
    requires Run(ops, verify) && ops != [] && ops[|ops| - 1].Authenticate?
    requires var op, w := ops[|ops| - 1], After(ops[..|ops| - 1], verify);
      && Remembered(w, op.keyID, op.now)
      && w.cache[op.keyID].expiresAt.Some? && Unix(op.now) > w.cache[op.keyID].expiresAt.value
    ensures ops[|ops| - 1].keyID !in After(ops, verify).cache
  {
  }
}
