/** Store keys and capacity of the idempotency store: what a key identifies, how entries are counted per
    tenant, and what eviction can remove. */
module IdempotencyKeys {
  import opened Common

  /** The parts a store key is made of. */
  datatype Parts = Parts(tenant: string, verb: string, uri: string, key: string)

  function FullKey(p: Parts): string {
    p.tenant + ":" + p.verb + ":" + p.uri + ":" + p.key
  }

  /** Tenant IDs are hexadecimal and methods are words: neither contains the separator. */
  predicate Plain(p: Parts) {
    p.tenant != "" && ':' !in p.tenant && ':' !in p.verb
  }

  lemma FieldIsDetermined(a: string, x: string, b: string, y: string)
    requires ':' !in a && ':' !in b && a + ":" + x == b + ":" + y
    ensures a == b && x == y
  {
    var s, t := a + ":" + x, b + ":" + y;
    assert s[|a|] == ':' && t[|b|] == ':';
    assert s[..|a|] == a && t[..|b|] == b;
    assert s[|a| + 1..] == x && t[|b| + 1..] == y;
  }

  /** A store key determines the tenant and the method, and the rest only as one string. */
  lemma KeyEqualityIff(p: Parts, q: Parts)
    requires Plain(p) && Plain(q)
    ensures FullKey(p) == FullKey(q) <==>
              p.tenant == q.tenant && p.verb == q.verb && p.uri + ":" + p.key == q.uri + ":" + q.key
  {
    var pr, qr := p.uri + ":" + p.key, q.uri + ":" + q.key;
    assert FullKey(p) == p.tenant + ":" + (p.verb + ":" + pr);
    assert FullKey(q) == q.tenant + ":" + (q.verb + ":" + qr);
    if FullKey(p) == FullKey(q) {
      FieldIsDetermined(p.tenant, p.verb + ":" + pr, q.tenant, q.verb + ":" + qr);
      FieldIsDetermined(p.verb, pr, q.verb, qr);
    }
  }

  /** It does not determine the URI and the client's key separately. */
  lemma KeysCanCollide()
    ensures var p, q := Parts("t", "POST", "/v1/a:b", "c"), Parts("t", "POST", "/v1/a", "b:c");
            Plain(p) && Plain(q) && p.uri != q.uri && FullKey(p) == FullKey(q)
  {
    assert "/v1/a:b" + ":" + "c" == "/v1/a" + ":" + "b:c";
    KeyEqualityIff(Parts("t", "POST", "/v1/a:b", "c"), Parts("t", "POST", "/v1/a", "b:c"));
  }

  /** The prefix test the store counts with. */
  predicate OwnedBy(k: string, tenant: string) {
    |k| > |tenant| + 1 && k[..|tenant| + 1] == tenant + ":"
  }

  /** The text before the first separator. */
  function Tenant(k: string): string {
    if k == "" || k[0] == ':' then "" else [k[0]] + Tenant(k[1..])
  }

  lemma {:induction false} TenantOfPrefix(tenant: string, rest: string)
    requires ':' !in tenant
    ensures Tenant(tenant + ":" + rest) == tenant
  {
    var k := tenant + ":" + rest;
    if tenant != "" {
      assert k[1..] == tenant[1..] + ":" + rest;
      TenantOfPrefix(tenant[1..], rest);
    }
  }

  /** A key this store can hold: a tenant, a separator, and more. */
  predicate Proper(k: string) {
    Tenant(k) != "" && OwnedBy(k, Tenant(k))
  }

  lemma FullKeyIsProper(p: Parts)
    requires Plain(p)
    ensures Proper(FullKey(p)) && Tenant(FullKey(p)) == p.tenant
  {
    var rest := p.verb + ":" + p.uri + ":" + p.key;
    assert FullKey(p) == p.tenant + ":" + rest;
    TenantOfPrefix(p.tenant, rest);
  }

  /** For such keys the prefix test finds exactly the tenant's own keys. */
  lemma OwnershipIsTenant(k: string, tenant: string)
    requires Proper(k) && ':' !in tenant
    ensures OwnedBy(k, tenant) <==> Tenant(k) == tenant
  {
    if OwnedBy(k, tenant) {
      assert k == tenant + ":" + k[|tenant| + 1..];
      TenantOfPrefix(tenant, k[|tenant| + 1..]);
    }
  }

  /** The keys the store counts against a tenant. */
  function Owned(keys: set<string>, tenant: string): set<string> {
    set k | k in keys && OwnedBy(k, tenant)
  }

  ghost function TenantKeys(keys: set<string>, tenant: string): set<string> {
    set k | k in keys && Tenant(k) == tenant
  }

  lemma OwnedIsTenantKeys(keys: set<string>, tenant: string)
    requires ':' !in tenant && forall k :: k in keys ==> Proper(k)
    ensures Owned(keys, tenant) == TenantKeys(keys, tenant)
  {
    forall k | k in keys { OwnershipIsTenant(k, tenant); }
  }

  ghost function Tenants(keys: set<string>): set<string> {
    set k | k in keys :: Tenant(k)
  }

  /** With at most 50 keys per tenant, n tenants hold at most 50 * n keys. */
  lemma {:induction false} Pigeonhole(keys: set<string>, tenants: set<string>)
    requires forall k :: k in keys ==> Tenant(k) in tenants
    requires forall t :: t in tenants ==> |TenantKeys(keys, t)| <= 50
    ensures |keys| <= 50 * |tenants|
  {
    if tenants == {} {
      assert keys == {};
    } else {
      var t :| t in tenants;
      var mine, others := TenantKeys(keys, t), keys - TenantKeys(keys, t);
      forall u | u in tenants - {t}
        ensures |TenantKeys(others, u)| <= 50
      {
        SubsetCardinality(TenantKeys(others, u), TenantKeys(keys, u));
      }
      Pigeonhole(others, tenants - {t});
      assert |keys| == |mine| + |others| by { assert keys == mine + others; }
    }
  }

  lemma TenantKeysAdd(keys: set<string>, k: string, t: string)
    ensures |TenantKeys(keys + {k}, t)| <= |TenantKeys(keys, t)| + if Tenant(k) == t then 1 else 0
  {
    var more := TenantKeys(keys, t) + if Tenant(k) == t then {k} else {};
    SubsetCardinality(TenantKeys(keys + {k}, t), more);
  }

  /** If all tenants hold at most 50 keys and one holds fewer, a store of 500 has ten others. */
  lemma FullStoreHasTenOthers(keys: set<string>, tenant: string)
    requires |keys| >= 500 && |TenantKeys(keys, tenant)| < 50
    requires forall t :: |TenantKeys(keys, t)| <= 50
    ensures |Tenants(keys) - {tenant}| >= 10
  {
    var others := keys - TenantKeys(keys, tenant);
    forall u
      ensures |TenantKeys(others, u)| <= 50
    {
      SubsetCardinality(TenantKeys(others, u), TenantKeys(keys, u));
    }
    assert forall k :: k in others ==> Tenant(k) in Tenants(keys);
    Pigeonhole(others, Tenants(keys) - {tenant});
    assert keys == TenantKeys(keys, tenant) + others;
  }

  lemma OwnedSnoc(order: seq<string>, i: nat, tenant: string)
    requires i < |order| && order[i] !in order[..i]
    ensures |Owned(Elements(order[..i + 1]), tenant)|
            == |Owned(Elements(order[..i]), tenant)| + if OwnedBy(order[i], tenant) then 1 else 0
  {
    var seen, more := Elements(order[..i]), Elements(order[..i + 1]);
    assert order[..i + 1] == order[..i] + [order[i]];
    assert order[i] !in Owned(seen, tenant);
    assert Owned(more, tenant) == Owned(seen, tenant) + if OwnedBy(order[i], tenant) then {order[i]} else {};
  }
}

/** The idempotency store: lookups, the recording of replies, and cleanup, with lookups and recordings
    as separate steps so that concurrent first requests are covered. */
module IdempotencyStore {
  import opened Common
  import opened IdempotencyKeys
  import opened ResponseRecorder

  const MAX_ENTRIES: nat := 500
  const MAX_PER_TENANT: nat := 50
  const TTL: nat := 600 * NANOS_PER_SECOND

  datatype Entry = Entry(statusCode: nat, contentType: string, body: seq<byte>, bodyHash: string,
                         createdAt: nat, expiresAt: nat)

  type Entries = map<string, Entry>

  datatype Outcome =
    | Replay(statusCode: nat, contentType: Option<string>, body: seq<byte>)
    | Conflict
    | RunHandler

  function Times(entries: Entries): map<string, int> {
    map k | k in entries :: entries[k].createdAt
  }

  function ReplayedType(contentType: string): string {
    if contentType != "" then contentType else "application/json"
  }

  function Lookup(entries: Entries, fullKey: string, bodyHash: string, now: nat): Outcome {
    if fullKey in entries && now < entries[fullKey].expiresAt then
      var e := entries[fullKey];
      if e.bodyHash != bodyHash then Conflict
      else Replay(e.statusCode,
                  if |e.body| == 0 then None else Some(ReplayedType(e.contentType)),
                  e.body)
    else RunHandler
  }

  function MakeRoom(entries: Entries, order: seq<string>): Entries
    requires Enumerates(order, entries.Keys)
  {
    if |entries| >= MAX_ENTRIES then EvictOldest(entries, Times(entries), order) else entries
  }

  function NewEntry(handler: seq<Action>, contentType: string, bodyHash: string, now: nat): Entry {
    Entry(Status(handler), contentType, Payload(handler), bodyHash, now, now + TTL)
  }

  /** The critical section after the handler has returned. */
  function Record(entries: Entries, tenant: string, fullKey: string, bodyHash: string, handler: seq<Action>,
                  contentType: string, now: nat, order: seq<string>): Entries
    requires Enumerates(order, entries.Keys)
  {
    if Cacheable(handler) && |Owned(entries.Keys, tenant)| < MAX_PER_TENANT
    then MakeRoom(entries, order)[fullKey := NewEntry(handler, contentType, bodyHash, now)]
    else entries
  }

  function Clean(entries: Entries, now: nat): Entries {
    map k | k in entries && now <= entries[k].expiresAt :: entries[k]
  }

  class Store {
    var entries: Entries

    constructor ()
      ensures entries == map[]
    {
      entries := map[];
    }

    /** The part of the middleware before the handler: nothing is run unless it says so. */
    method Find(fullKey: string, bodyHash: string, now: nat) returns (o: Outcome)
      ensures o == Lookup(entries, fullKey, bodyHash, now)
    {
      if fullKey in entries && now < entries[fullKey].expiresAt {
        var entry := entries[fullKey];
        if entry.bodyHash != bodyHash {
          return Conflict;
        }
        var contentType: Option<string> := None;
        if |entry.body| > 0 {
          contentType := Some(ReplayedType(entry.contentType));
        }
        return Replay(entry.statusCode, contentType, entry.body);
      }
      return RunHandler;
    }

    method CountOwned(tenant: string, order: seq<string>) returns (count: nat)
      requires Enumerates(order, entries.Keys)
      ensures count == |Owned(entries.Keys, tenant)|
    {
      count := 0;
      for i := 0 to |order|
        invariant count == |Owned(Elements(order[..i]), tenant)|
      {
        OwnedSnoc(order, i, tenant);
        if OwnedBy(order[i], tenant) {
          count := count + 1;
        }
      }
      assert order[..|order|] == order;
      assert Elements(order) == entries.Keys;
    }

    method Save(tenant: string, fullKey: string, bodyHash: string, handler: seq<Action>, rec: Recorder,
                contentType: string, now: nat, order: seq<string>)
      requires rec.Valid() && rec.actions == [] && Enumerates(order, entries.Keys)
      modifies this, rec
      ensures entries == Record(old(entries), tenant, fullKey, bodyHash, handler, contentType, now, order)
    {
      var status, cacheable := rec.Serve(handler);
      if cacheable {
        var count := CountOwned(tenant, order);
        if count < MAX_PER_TENANT {
          MakeRoomFor(order);
          entries := entries[fullKey := Entry(status, contentType, rec.body, bodyHash, now, now + TTL)];
        }
      }
    }

    method MakeRoomFor(order: seq<string>)
      requires Enumerates(order, entries.Keys)
      modifies this
      ensures entries == MakeRoom(old(entries), order)
    {
      if |entries| >= MAX_ENTRIES {
        var oldestKey := OldestKey(Times(entries), order);
        if oldestKey != "" {
          entries := entries - {oldestKey};
        }
      }
    }

    method Cleanup(now: nat, order: seq<string>)
      requires Enumerates(order, entries.Keys)
      modifies this
      ensures entries == Clean(old(entries), now)
    {
      ghost var before, visited := entries, {};
      for i := 0 to |order|
        invariant forall j :: 0 <= j < i ==> order[j] in visited
        invariant forall k :: k in entries <==> k in before && (k in visited ==> now <= before[k].expiresAt)
        invariant forall k :: k in entries ==> entries[k] == before[k]
      {
        if order[i] in entries && now > entries[order[i]].expiresAt {
          entries := entries - {order[i]};
        }
        visited := visited + {order[i]};
      }
      assert forall k :: k in before ==> k in order && k in visited;
    }
  }

  // ----- Runs -----

  /** A request that missed and is running its handler. */
  datatype Ticket = Ticket(parts: Parts, bodyHash: string)

  /** A handler that has finished: `served` records them all. */
  datatype Served = Served(fullKey: string, bodyHash: string, handler: seq<Action>, contentType: string, at: nat)

  datatype State = State(now: nat, entries: Entries, running: map<nat, Ticket>, served: seq<Served>)

  datatype Op =
    | Begin(request: nat, parts: Parts, bodyHash: string, now: nat)
    | Finish(request: nat, handler: seq<Action>, contentType: string, now: nat, order: seq<string>)
    | Cleanup(now: nat)

  ghost predicate Enabled(s: State, op: Op) {
    && s.now <= op.now
    && match op
       case Begin(request, parts, _, _) => request !in s.running && Plain(parts)
       case Finish(request, _, _, _, order) => request in s.running && Enumerates(order, s.entries.Keys)
       case Cleanup(_) => true
  }

  ghost function Next(s: State, op: Op): State
    requires Enabled(s, op)
  {
    match op
    case Begin(request, parts, bodyHash, now) =>
      if Lookup(s.entries, FullKey(parts), bodyHash, now) == RunHandler
      then s.(now := now, running := s.running[request := Ticket(parts, bodyHash)])
      else s.(now := now)
    case Finish(request, handler, contentType, now, order) =>
      var Ticket(parts, bodyHash) := s.running[request];
      State(now,
            Record(s.entries, parts.tenant, FullKey(parts), bodyHash, handler, contentType, now, order),
            s.running - {request},
            s.served + [Served(FullKey(parts), bodyHash, handler, contentType, now)])
    case Cleanup(now) => s.(now := now, entries := Clean(s.entries, now))
  }

  ghost predicate Run(s: State, ops: seq<Op>)
    decreases |ops|
  {
    ops == [] || (Enabled(s, ops[0]) && Run(Next(s, ops[0]), ops[1..]))
  }

  ghost function After(s: State, ops: seq<Op>): State
    requires Run(s, ops)
    decreases |ops|
  {
    if ops == [] then s else After(Next(s, ops[0]), ops[1..])
  }

  const START := State(0, map[], map[], [])

  /** Entry `e` is the kept reply of a finished handler. */
  ghost predicate Keeps(e: Entry, k: string, r: Served) {
    r.fullKey == k && Cacheable(r.handler) && e == NewEntry(r.handler, r.contentType, r.bodyHash, r.at)
  }

  ghost predicate Genuine(s: State, k: string)
    requires k in s.entries
  {
    exists r :: r in s.served && r.at <= s.now && Keeps(s.entries[k], k, r)
  }

  ghost predicate Capped(keys: set<string>, tenant: string) {
    |TenantKeys(keys, tenant)| <= MAX_PER_TENANT
  }

  ghost predicate Bounded(keys: set<string>) {
    && |keys| <= MAX_ENTRIES
    && (forall k :: k in keys ==> Proper(k))
    && (forall t :: Capped(keys, t))
  }

  ghost predicate Invariant(s: State) {
    && Bounded(s.entries.Keys)
    && (forall k :: k in s.entries ==> Genuine(s, k))
    && (forall q :: q in s.running ==> Plain(s.running[q].parts))
  }

  // ----- Capacity -----

  /** What eviction removes is a key whose reply was stored no later than any other. */
  lemma RoomIsMade(entries: Entries, order: seq<string>) returns (k: string)
    requires Enumerates(order, entries.Keys) && |entries| >= MAX_ENTRIES && "" !in entries
    ensures k in entries && MakeRoom(entries, order) == entries - {k}
    ensures forall j :: j in entries ==> entries[k].createdAt <= entries[j].createdAt
  {
    assert |entries.Keys| == |entries|;
    var some :| some in entries.Keys;
    assert some in order;
    ScanFindsOldest(Times(entries), order);
    k := ScanOldest(Times(entries), order);
    assert forall j :: j in entries ==> Times(entries)[j] == entries[j].createdAt;
  }

  lemma SubsetIsBounded(a: set<string>, b: set<string>)
    requires a <= b && Bounded(b)
    ensures Bounded(a)
  {
    SubsetCardinality(a, b);
    forall t ensures Capped(a, t) {
      assert Capped(b, t);
      SubsetCardinality(TenantKeys(a, t), TenantKeys(b, t));
    }
  }

  lemma RoomIsBounded(entries: Entries, order: seq<string>)
    requires Bounded(entries.Keys) && Enumerates(order, entries.Keys)
    ensures MakeRoom(entries, order).Keys <= entries.Keys && |MakeRoom(entries, order).Keys| < MAX_ENTRIES
    ensures forall k :: k in MakeRoom(entries, order) ==> MakeRoom(entries, order)[k] == entries[k]
  {
    assert |entries.Keys| == |entries|;
    if |entries| >= MAX_ENTRIES {
      assert !Proper("");
      var k := RoomIsMade(entries, order);
      assert (entries - {k}).Keys == entries.Keys - {k};
    }
  }

  lemma AddingIsBounded(keys: set<string>, k: string)
    requires Bounded(keys) && Proper(k) && |keys| < MAX_ENTRIES && |TenantKeys(keys, Tenant(k))| < MAX_PER_TENANT
    ensures Bounded(keys + {k})
  {
    forall t ensures Capped(keys + {k}, t) {
      assert Capped(keys, t);
      TenantKeysAdd(keys, k, t);
    }
  }

  lemma RoomForOne(entries: Entries, p: Parts, order: seq<string>)
    requires Bounded(entries.Keys) && Plain(p) && Enumerates(order, entries.Keys)
    requires |TenantKeys(entries.Keys, p.tenant)| < MAX_PER_TENANT
    ensures Bounded(MakeRoom(entries, order).Keys + {FullKey(p)})
  {
    var room := MakeRoom(entries, order).Keys;
    RoomIsBounded(entries, order);
    SubsetIsBounded(room, entries.Keys);
    SubsetCardinality(TenantKeys(room, p.tenant), TenantKeys(entries.Keys, p.tenant));
    FullKeyIsProper(p);
    AddingIsBounded(room, FullKey(p));
  }

  lemma KeysOfUpdate(entries: Entries, k: string, e: Entry)
    ensures entries[k := e].Keys == entries.Keys + {k}
  {
  }

  lemma RecordIsBounded(entries: Entries, p: Parts, bodyHash: string, handler: seq<Action>,
                        contentType: string, now: nat, order: seq<string>)
    requires Bounded(entries.Keys) && Plain(p) && Enumerates(order, entries.Keys)
    ensures Bounded(Record(entries, p.tenant, FullKey(p), bodyHash, handler, contentType, now, order).Keys)
  {
    OwnedIsTenantKeys(entries.Keys, p.tenant);
    if Cacheable(handler) && |TenantKeys(entries.Keys, p.tenant)| < MAX_PER_TENANT {
      RoomForOne(entries, p, order);
      KeysOfUpdate(MakeRoom(entries, order), FullKey(p), NewEntry(handler, contentType, bodyHash, now));
    }
  }

  /** Recording leaves the capacity respected, and every entry old or the new one. */
  lemma RecordEffect(entries: Entries, p: Parts, bodyHash: string, handler: seq<Action>,
                     contentType: string, now: nat, order: seq<string>, after: Entries)
    requires Bounded(entries.Keys) && Plain(p) && Enumerates(order, entries.Keys)
    requires after == Record(entries, p.tenant, FullKey(p), bodyHash, handler, contentType, now, order)
    ensures Bounded(after.Keys)
    ensures forall k :: k in after ==>
              || (k in entries && after[k] == entries[k])
              || (k == FullKey(p) && Cacheable(handler) && after[k] == NewEntry(handler, contentType, bodyHash, now))
  {
    RecordIsBounded(entries, p, bodyHash, handler, contentType, now, order);
    RoomIsBounded(entries, order);
  }

  /** Evicting for capacity means that at least ten other tenants hold entries. */
  lemma EvictionNeedsTenOthers(entries: Entries, tenant: string)
    requires Bounded(entries.Keys) && ':' !in tenant
    requires |entries| >= MAX_ENTRIES && |Owned(entries.Keys, tenant)| < MAX_PER_TENANT
    ensures |Tenants(entries.Keys) - {tenant}| >= 10
  {
    OwnedIsTenantKeys(entries.Keys, tenant);
    assert |entries.Keys| == |entries|;
    forall t ensures |TenantKeys(entries.Keys, t)| <= 50 { assert Capped(entries.Keys, t); }
    FullStoreHasTenOthers(entries.Keys, tenant);
  }

  /** Eviction never drops a live reply while an expired one is kept. */
  lemma ExpiredGoFirst(s: State, order: seq<string>, k: string, now: nat)
    requires Invariant(s) && Enumerates(order, s.entries.Keys) && k in s.entries
    ensures k !in MakeRoom(s.entries, order) && now < s.entries[k].expiresAt ==>
              forall j :: j in s.entries ==> now < s.entries[j].expiresAt
  {
    if k !in MakeRoom(s.entries, order) && now < s.entries[k].expiresAt {
      assert !Proper("");
      var oldest := RoomIsMade(s.entries, order);
      GenuineIsSmall(s, k);
      forall j | j in s.entries ensures now < s.entries[j].expiresAt {
        GenuineIsSmall(s, j);
      }
    }
  }

  // ----- The invariant -----

  lemma GenuineStays(s: State, t: State, k: string)
    requires k in s.entries && Genuine(s, k) && k in t.entries && t.entries[k] == s.entries[k]
    requires s.now <= t.now && s.served <= t.served
    ensures Genuine(t, k)
  {
    var r :| r in s.served && r.at <= s.now && Keeps(s.entries[k], k, r);
    assert r in t.served;
  }

  lemma FinishIsGenuine(s: State, t: State, r: Served, k: string)
    requires k in t.entries && s.now <= t.now && r.at <= t.now && t.served == s.served + [r]
    requires (k in s.entries && t.entries[k] == s.entries[k] && Genuine(s, k)) || Keeps(t.entries[k], k, r)
    ensures Genuine(t, k)
  {
    if k in s.entries && t.entries[k] == s.entries[k] && Genuine(s, k) {
      GenuineStays(s, t, k);
    } else {
      assert r == t.served[|s.served|];
    }
  }

  lemma FinishKeepsInvariant(s: State, op: Op)
    requires Invariant(s) && op.Finish? && Enabled(s, op)
    ensures Invariant(Next(s, op))
  {
    var Ticket(p, bodyHash) := s.running[op.request];
    var t := Next(s, op);
    RecordEffect(s.entries, p, bodyHash, op.handler, op.contentType, op.now, op.order, t.entries);
    forall k | k in t.entries
      ensures Genuine(t, k)
    {
      FinishIsGenuine(s, t, Served(FullKey(p), bodyHash, op.handler, op.contentType, op.now), k);
    }
  }

  /** Entries kept from `s`, with nothing else stored. */
  lemma FewerEntries(s: State, t: State)
    requires Invariant(s) && s.now <= t.now && t.served == s.served
    requires forall k :: k in t.entries ==> k in s.entries && t.entries[k] == s.entries[k]
    requires forall q :: q in t.running ==> Plain(t.running[q].parts)
    ensures Invariant(t)
  {
    SubsetIsBounded(t.entries.Keys, s.entries.Keys);
    forall k | k in t.entries ensures Genuine(t, k) { GenuineStays(s, t, k); }
  }

  lemma InvariantNext(s: State, op: Op)
    requires Invariant(s) && Enabled(s, op)
    ensures Invariant(Next(s, op))
  {
    match op
    case Begin(_, _, _, _) => FewerEntries(s, Next(s, op));
    case Finish(_, _, _, _, _) => FinishKeepsInvariant(s, op);
    case Cleanup(_) => FewerEntries(s, Next(s, op));
  }

  lemma {:induction false} InvariantHolds(s: State, ops: seq<Op>)
    requires Invariant(s) && Run(s, ops)
    ensures Invariant(After(s, ops))
    decreases |ops|
  {
    if ops != [] {
      InvariantNext(s, ops[0]);
      InvariantHolds(Next(s, ops[0]), ops[1..]);
    }
  }

  // ----- Main results -----

  /** The store never holds more than 500 entries, nor more than 50 of one tenant. */
  lemma CapacityHolds(ops: seq<Op>, tenant: string)
    requires Run(START, ops) && ':' !in tenant
    ensures |After(START, ops).entries| <= 500
    ensures |Owned(After(START, ops).entries.Keys, tenant)| <= 50
  {
    InvariantHolds(START, ops);
    OwnedIsTenantKeys(After(START, ops).entries.Keys, tenant);
    assert Capped(After(START, ops).entries.Keys, tenant);
  }

  /** `o` is the answer this finished handler's reply gives: the same status, bytes and content type for the
      same request body, a conflict for another one. A reply without a content type is replayed as JSON. */
  ghost predicate Answers(r: Served, k: string, bodyHash: string, now: nat, o: Outcome) {
    && r.fullKey == k && r.at <= now < r.at + 600 * 1_000_000_000
    && 200 <= Status(r.handler) <= 299 && |Payload(r.handler)| <= 8192
    && match o
       case RunHandler => false
       case Conflict => r.bodyHash != bodyHash
       case Replay(status, contentType, body) =>
         && r.bodyHash == bodyHash && status == Status(r.handler) && body == Payload(r.handler)
         && contentType == if body == [] then None else Some(if r.contentType != "" then r.contentType else "application/json")
  }

  lemma LookupIsAnswer(s: State, k: string, bodyHash: string, now: nat)
    requires k in s.entries && Genuine(s, k) && s.now <= now < s.entries[k].expiresAt
    ensures exists r :: r in s.served && Answers(r, k, bodyHash, now, Lookup(s.entries, k, bodyHash, now))
  {
    var r :| r in s.served && r.at <= s.now && Keeps(s.entries[k], k, r);
    assert Answers(r, k, bodyHash, now, Lookup(s.entries, k, bodyHash, now));
  }

  /** After any run, the handler is run if and only if there is no live entry; otherwise the answer is that
      of a handler that finished less than ten minutes ago for the same store key, with a 2xx reply of at
      most 8192 bytes. */
  lemma ReplayIsFaithful(ops: seq<Op>, k: string, bodyHash: string, now: nat)
    requires Run(START, ops) && After(START, ops).now <= now
    ensures var s := After(START, ops);
            var o := Lookup(s.entries, k, bodyHash, now);
      && (o == RunHandler <==> k !in s.entries || now >= s.entries[k].expiresAt)
      && (o != RunHandler ==> exists r :: r in s.served && Answers(r, k, bodyHash, now, o))
  {
    InvariantHolds(START, ops);
    var s := After(START, ops);
    if k in s.entries && now < s.entries[k].expiresAt {
      LookupIsAnswer(s, k, bodyHash, now);
    }
  }

  /** A successful reply of bounded size. */
  predicate SmallSuccess(status: nat, body: seq<byte>) {
    200 <= status <= 299 && |body| <= 8192
  }

  lemma GenuineIsSmall(s: State, k: string)
    requires k in s.entries && Genuine(s, k)
    ensures SmallSuccess(s.entries[k].statusCode, s.entries[k].body)
    ensures s.entries[k].expiresAt == s.entries[k].createdAt + 600 * 1_000_000_000
  {
    var r :| r in s.served && r.at <= s.now && Keeps(s.entries[k], k, r);
  }

  /** Only such replies are ever stored or replayed. */
  lemma OnlySmallSuccesses(ops: seq<Op>, k: string, bodyHash: string, now: nat)
    requires Run(START, ops)
    ensures var s := After(START, ops);
            var o := Lookup(s.entries, k, bodyHash, now);
      && (k in s.entries ==> SmallSuccess(s.entries[k].statusCode, s.entries[k].body))
      && (o.Replay? ==> SmallSuccess(o.statusCode, o.body))
  {
    InvariantHolds(START, ops);
    if k in After(START, ops).entries { GenuineIsSmall(After(START, ops), k); }
  }

  /** The entry of a reply sent at `now`: good for ten minutes. */
  ghost predicate RepliesWith(e: Entry, handler: seq<Action>, contentType: string, bodyHash: string, now: nat) {
    && e.statusCode == Status(handler) && e.body == Payload(handler)
    && e.contentType == contentType && e.bodyHash == bodyHash
    && e.createdAt == now && e.expiresAt == now + 600 * 1_000_000_000
  }

  /** This handler's reply is to be kept. */
  ghost predicate WorthKeeping(s: State, op: Op)
    requires op.Finish? && op.request in s.running
  {
    && SmallSuccess(Status(op.handler), Payload(op.handler))
    && |TenantKeys(s.entries.Keys, s.running[op.request].parts.tenant)| < 50
  }

  lemma KeepingIsRecording(s: State, op: Op)
    requires Invariant(s) && op.Finish? && Enabled(s, op)
    ensures WorthKeeping(s, op) <==>
      Cacheable(op.handler) && |Owned(s.entries.Keys, s.running[op.request].parts.tenant)| < MAX_PER_TENANT
  {
    OwnedIsTenantKeys(s.entries.Keys, s.running[op.request].parts.tenant);
    KeptIff(op.handler);
  }

  /** A handler that finishes leaves its reply under its key exactly when it is a 2xx reply of at most 8192
      bytes and the tenant holds fewer than 50; otherwise it leaves the store as it was. */
  lemma FinishStoresIff(ops: seq<Op>, op: Op)
    requires Run(START, ops) && op.Finish? && Enabled(After(START, ops), op)
    ensures var s, t := After(START, ops), Next(After(START, ops), op);
            var k := FullKey(s.running[op.request].parts);
      if WorthKeeping(s, op)
      then k in t.entries && RepliesWith(t.entries[k], op.handler, op.contentType, s.running[op.request].bodyHash, op.now)
      else t.entries == s.entries
  {
    InvariantHolds(START, ops);
    KeepingIsRecording(After(START, ops), op);
  }

  /** It changes no other entry, and removes none while there are fewer than 500. */
  lemma FinishKeepsOthers(ops: seq<Op>, op: Op, j: string)
    requires Run(START, ops) && op.Finish? && Enabled(After(START, ops), op)
    requires j != FullKey(After(START, ops).running[op.request].parts)
    ensures var s, t := After(START, ops).entries, Next(After(START, ops), op).entries;
      && (j in t ==> j in s && t[j] == s[j])
      && (j in s && |s| < 500 ==> j in t)
  {
    InvariantHolds(START, ops);
    RoomIsBounded(After(START, ops).entries, op.order);
  }

  /** A cleanup keeps exactly the entries whose ten minutes are not over. */
  lemma CleanupKeepsTenMinutes(ops: seq<Op>, now: nat, k: string)
    requires Run(START, ops) && Enabled(After(START, ops), Cleanup(now))
    ensures var s, t := After(START, ops), Next(After(START, ops), Cleanup(now));
      && (k in t.entries <==> k in s.entries && now <= s.entries[k].createdAt + 600 * 1_000_000_000)
      && (k in t.entries ==> t.entries[k] == s.entries[k])
  {
    InvariantHolds(START, ops);
    if k in After(START, ops).entries { GenuineIsSmall(After(START, ops), k); }
  }

  // ----- Replies survive their full lifetime -----

  /** Only these tenants are involved. */
  ghost predicate Within(s: State, tenants: set<string>) {
    && Tenants(s.entries.Keys) <= tenants
    && forall q :: q in s.running ==> s.running[q].parts.tenant in tenants
  }

  ghost predicate RequestsWithin(ops: seq<Op>, tenants: set<string>) {
    forall i :: 0 <= i < |ops| && ops[i].Begin? ==> ops[i].parts.tenant in tenants
  }

  /** No other request for k is running its handler, so nothing can replace the entry. */
  ghost predicate Alone(s: State, k: string) {
    forall q :: q in s.running ==> FullKey(s.running[q].parts) != k
  }

  lemma WithinNext(s: State, op: Op, tenants: set<string>)
    requires Invariant(s) && Enabled(s, op) && Within(s, tenants)
    requires op.Begin? ==> op.parts.tenant in tenants
    ensures Within(Next(s, op), tenants)
  {
    var t := Next(s, op);
    if op.Finish? {
      var Ticket(p, bodyHash) := s.running[op.request];
      RecordEffect(s.entries, p, bodyHash, op.handler, op.contentType, op.now, op.order, t.entries);
      FullKeyIsProper(p);
    }
    forall k | k in t.entries
      ensures Tenant(k) in tenants
    {
      assert k in s.entries ==> Tenant(k) in Tenants(s.entries.Keys);
    }
  }

  lemma NoEvictionForTen(entries: Entries, tenant: string, tenants: set<string>)
    requires Bounded(entries.Keys) && ':' !in tenant && tenant in tenants
    requires Tenants(entries.Keys) <= tenants && |tenants| <= 10
    requires |Owned(entries.Keys, tenant)| < MAX_PER_TENANT
    ensures |entries| < MAX_ENTRIES
  {
    if |entries| >= MAX_ENTRIES {
      EvictionNeedsTenOthers(entries, tenant);
      SubsetCardinality(Tenants(entries.Keys) - {tenant}, tenants - {tenant});
    }
  }

  /** The state of a system with these tenants only. */
  ghost predicate Fits(s: State, tenants: set<string>) {
    Invariant(s) && Within(s, tenants) && |tenants| <= 10
  }

  /** Recording a reply evicts nothing. */
  lemma NothingEvicted(s: State, op: Op, tenants: set<string>)
    requires Fits(s, tenants) && op.Finish? && Enabled(s, op)
    ensures var p := s.running[op.request].parts;
      forall k :: k in s.entries ==> k in Next(s, op).entries && (k != FullKey(p) ==> Next(s, op).entries[k] == s.entries[k])
  {
    var p := s.running[op.request].parts;
    if |Owned(s.entries.Keys, p.tenant)| < MAX_PER_TENANT {
      NoEvictionForTen(s.entries, p.tenant, tenants);
    }
  }

  lemma EntryStays(s: State, op: Op, tenants: set<string>, k: string)
    requires Fits(s, tenants) && Enabled(s, op)
    requires k in s.entries && op.now < s.entries[k].expiresAt
    ensures k in Next(s, op).entries && Next(s, op).entries[k].expiresAt >= s.entries[k].expiresAt
  {
    assert Genuine(s, k);
    if op.Finish? { NothingEvicted(s, op, tenants); }
  }

  lemma EntryUnchanged(s: State, op: Op, tenants: set<string>, k: string)
    requires Fits(s, tenants) && Enabled(s, op) && Alone(s, k)
    requires k in s.entries && op.now < s.entries[k].expiresAt
    ensures k in Next(s, op).entries && Next(s, op).entries[k] == s.entries[k] && Alone(Next(s, op), k)
  {
    if op.Finish? { NothingEvicted(s, op, tenants); }
  }

  /** The entry of k outlives the moment `until`. */
  ghost predicate Outlives(s: State, tenants: set<string>, k: string, until: int) {
    Fits(s, tenants) && k in s.entries && until < s.entries[k].expiresAt
  }

  lemma OutlivesNext(s: State, op: Op, tenants: set<string>, k: string, until: int)
    requires Outlives(s, tenants, k, until) && Enabled(s, op) && op.now <= until && (op.Begin? ==> op.parts.tenant in tenants)
    ensures Outlives(Next(s, op), tenants, k, until)
    ensures Alone(s, k) ==> Alone(Next(s, op), k) && Next(s, op).entries[k] == s.entries[k]
  {
    EntryStays(s, op, tenants, k);
    InvariantNext(s, op);
    WithinNext(s, op, tenants);
    if Alone(s, k) { EntryUnchanged(s, op, tenants, k); }
  }

  lemma {:induction false} OutlivesThroughout(s: State, ops: seq<Op>, tenants: set<string>, k: string, until: int)
    requires Outlives(s, tenants, k, until) && Run(s, ops) && RequestsWithin(ops, tenants)
    requires forall i :: 0 <= i < |ops| ==> ops[i].now <= until
    ensures Outlives(After(s, ops), tenants, k, until)
    ensures Alone(s, k) ==> After(s, ops).entries[k] == s.entries[k]
    decreases |ops|
  {
    if ops != [] {
      OutlivesNext(s, ops[0], tenants, k, until);
      OutlivesThroughout(Next(s, ops[0]), ops[1..], tenants, k, until);
    }
  }

  /** With at most ten tenants, a stored reply answers every lookup until it expires; and it is kept
      unchanged, unless another first request for the same key was still running when it was stored. */
  lemma RepliesSurvive(s: State, ops: seq<Op>, tenants: set<string>, k: string)
    requires Fits(s, tenants) && Run(s, ops) && RequestsWithin(ops, tenants)
    requires k in s.entries && After(s, ops).now < s.entries[k].expiresAt
    ensures k in After(s, ops).entries && After(s, ops).now < After(s, ops).entries[k].expiresAt
    ensures Alone(s, k) ==> After(s, ops).entries[k] == s.entries[k]
  {
    ClockAdvances(s, ops);
    OutlivesThroughout(s, ops, tenants, k, After(s, ops).now);
  }

  lemma {:induction false} ClockAdvances(s: State, ops: seq<Op>)
    requires Run(s, ops)
    ensures s.now <= After(s, ops).now
    ensures forall i :: 0 <= i < |ops| ==> ops[i].now <= After(s, ops).now
    decreases |ops|
  {
    if ops != [] { ClockAdvances(Next(s, ops[0]), ops[1..]); }
  }
}
