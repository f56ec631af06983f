/** Definitions shared by the in-memory stores.

    Go visits a map in an unspecified order. Every loop over a map therefore takes that order as an
    input, `order`, which may be any listing of the keys; a result proved for all orders holds for
    whatever order the runtime picks. */
module Common {

  datatype Option<+T> = None | Some(value: T)

  const NANOS_PER_SECOND: int := 1_000_000_000

  /** Whole seconds of a time given in nanoseconds, as Time.Unix reports them. */
  function Unix(now: nat): nat {
    now / NANOS_PER_SECOND
  }

  lemma UnixIsFloor(now: nat)
    ensures Unix(now) * 1_000_000_000 <= now < (Unix(now) + 1) * 1_000_000_000
  {
  }

  ghost predicate Enumerates(order: seq<string>, keys: set<string>) {
    && (forall i :: 0 <= i < |order| ==> order[i] in keys)
    && (forall k :: k in keys ==> k in order)
    && (forall i, j :: 0 <= i < j < |order| ==> order[i] != order[j])
  }

  /** The key the "oldest entry" loops end on, after visiting `order`. The empty string doubles as
      "no candidate yet", exactly as in the loops. */
  function ScanOldest(times: map<string, int>, order: seq<string>): (oldest: string)
    requires forall k :: k in order ==> k in times
    ensures oldest == "" || oldest in order
  {
    if order == [] then "" else
      var k := order[|order| - 1];
      var best := ScanOldest(times, order[..|order| - 1]);
      if best == "" || times[k] < times[best] then k else best
  }

  /** Without an empty key the loop finds an entry no other entry is older than. */
  lemma {:induction false} ScanFindsOldest(times: map<string, int>, order: seq<string>)
    requires forall k :: k in order ==> k in times
    requires "" !in order && order != []
    ensures ScanOldest(times, order) in order
    ensures forall j :: j in order ==> times[ScanOldest(times, order)] <= times[j]
  {
    var rest := order[..|order| - 1];
    assert order == rest + [order[|order| - 1]];
    if rest != [] {
      ScanFindsOldest(times, rest);
    }
  }

  /** The empty key is among the keys, and strictly older than every other. */
  predicate EmptyIsOldest(times: map<string, int>, order: seq<string>)
    requires forall k :: k in order ==> k in times
  {
    "" in order && forall k :: k in order && k != "" ==> times[""] < times[k]
  }

  lemma {:induction false} ScanKeepsOldest(times: map<string, int>, order: seq<string>, oldest: string)
    requires forall k :: k in order ==> k in times
    requires oldest in order && oldest != "" && forall k :: k in order ==> times[oldest] <= times[k]
    ensures ScanOldest(times, order) != "" && ScanOldest(times, order) in order
    ensures times[ScanOldest(times, order)] == times[oldest]
  {
    var rest := order[..|order| - 1];
    assert order == rest + [order[|order| - 1]];
    if oldest in rest { ScanKeepsOldest(times, rest, oldest); }
  }

  lemma {:induction false} OldestExists(times: map<string, int>, order: seq<string>) returns (oldest: string)
    requires order != [] && forall k :: k in order ==> k in times
    ensures oldest in order && forall k :: k in order ==> times[oldest] <= times[k]
  {
    var rest, last := order[..|order| - 1], order[|order| - 1];
    assert order == rest + [last];
    oldest := last;
    if rest != [] {
      var best := OldestExists(times, rest);
      if times[best] < times[last] { oldest := best; }
    }
  }

  /** On any non-empty table and in any order, the loop ends on a real key that no other is older than, if
      and only if the empty key is not strictly older than all others. */
  lemma ScanWorksIff(times: map<string, int>, order: seq<string>)
    requires order != [] && forall k :: k in order ==> k in times
    ensures var found := ScanOldest(times, order);
      (found != "" && found in order && forall k :: k in order ==> times[found] <= times[k])
      <==> !EmptyIsOldest(times, order)
  {
    if !EmptyIsOldest(times, order) {
      var oldest := OldestExists(times, order);
      if oldest == "" {
        oldest :| oldest in order && oldest != "" && times[oldest] <= times[""];
      }
      ScanKeepsOldest(times, order, oldest);
    }
  }

  /** For instance, whatever is visited right after the empty key replaces it, however recent it is. */
  lemma EmptyKeyDefeatsScan(times: map<string, int>, k: string)
    requires "" in times && k in times && k != "" && times[""] < times[k]
    ensures Enumerates(["", k], {"", k}) && EmptyIsOldest(times, ["", k])
    ensures ScanOldest(times, ["", k]) == k
  {
    assert ["", k][..1] == [""];
    assert [""][..0] == [];
    assert ScanOldest(times, [""]) == "";
  }

  /** The loop itself. */
  method OldestKey(times: map<string, int>, order: seq<string>) returns (oldestKey: string)
    requires forall k :: k in order ==> k in times
    ensures oldestKey == ScanOldest(times, order)
  {
    oldestKey := "";
    var oldestTime := 0;
    for i := 0 to |order|
      invariant oldestKey == ScanOldest(times, order[..i])
      invariant oldestKey == "" || (oldestKey in times && oldestTime == times[oldestKey])
    {
      assert order[..i + 1][..i] == order[..i];
      if oldestKey == "" || times[order[i]] < oldestTime {
        oldestKey := order[i];
        oldestTime := times[order[i]];
      }
    }
    assert order[..|order|] == order;
  }

  /** Removes the scanned key, if the scan produced one. */
  function EvictOldest<V>(m: map<string, V>, times: map<string, int>, order: seq<string>): map<string, V>
    requires forall k :: k in order ==> k in times
  {
    var k := ScanOldest(times, order);
    if k == "" then m else m - {k}
  }

  /** Unless the empty key is strictly the oldest, eviction removes one key, and no other is older. */
  lemma EvictionRemovesOldest<V>(m: map<string, V>, times: map<string, int>, order: seq<string>) returns (k: string)
    requires m != map[] && times.Keys == m.Keys && Enumerates(order, m.Keys) && !EmptyIsOldest(times, order)
    ensures k in m && EvictOldest(m, times, order) == m - {k}
    ensures forall j :: j in m ==> times[k] <= times[j]
  {
    var some :| some in m.Keys;
    assert some in order;
    ScanWorksIff(times, order);
    k := ScanOldest(times, order);
  }

  ghost function Elements<T>(s: seq<T>): set<T> {
    set x | x in s
  }

  lemma SubsetCardinality<T>(a: set<T>, b: set<T>)
    requires a <= b
    ensures |a| <= |b|
  {
    assert b == a + (b - a);
  }

  /** {0, .., n - 1}. */
  ghost function FirstNats(n: nat): (r: set<nat>)
    ensures |r| == n
    ensures forall k: nat :: k in r <==> k < n
  {
    if n == 0 then {} else FirstNats(n - 1) + {n - 1}
  }

  /** Some number is not in use. */
  lemma FreshNat(used: set<nat>) returns (k: nat)
    ensures k !in used
  {
    if FirstNats(|used| + 1) <= used { SubsetCardinality(FirstNats(|used| + 1), used); }
    k :| k in FirstNats(|used| + 1) && k !in used;
  }
}
