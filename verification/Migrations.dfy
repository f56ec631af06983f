/** The migration runner (internal/db/db.go). The embedded files are sorted by name; each is routed to one
    of two databases by its prefix, skipped if that database has recorded it, and otherwise applied and
    recorded in one transaction. A run can end early at any file: an operation fails, the SQL itself is
    refused, or the process dies just before or just after the commit.

    Main results. Whatever the history of early ends, what is recorded is exactly a prefix of the sorted
    files, and each schema is the in-order replay of its own recorded files (HistoryIsPrefix). Any run that
    then completes leaves the very databases one run from scratch would have left (Converges), runs after it
    change nothing (CompleteIsFinal), and a run without failures completes exactly when the files themselves
    are sound (FaultlessRunCompletesIff); each database records only the files that name it, and a complete
    run all of them (RecordedWhereNamed, CompleteRunRecordsAll). Across releases this needs every new file to sort after the
    old files of its database, and no less (UpgradesConverge, UpgradeIsInOrderIff). */
module Migrations {
  import opened Common

  datatype Entry = Entry(name: string, isDir: bool)

  datatype Target = StateDB | MeteringDB

  datatype Routing = Skip | Reject | To(target: Target)

  datatype Database<S> = Database(schema: S, recorded: set<string>)

  datatype Databases<S> = Databases(state: Database<S>, metering: Database<S>) {
    function Of(t: Target): Database<S> {
      match t case StateDB => state case MeteringDB => metering
    }
    function With(t: Target, db: Database<S>): Databases<S> {
      match t case StateDB => this.(state := db) case MeteringDB => this.(metering := db)
    }
  }

  /** What the environment does at one file: every operation works; one fails and the transaction, if any,
      is rolled back; or the process ends right after the commit. */
  datatype Outcome = Works | Fails | DiesCommitted

  /** The SQL of a file run on a schema; None when the database refuses it. */
  type Script<!S> = (string, S) -> Option<S>

  // ---------------------------------------------------------------------------------------------------
  // Sorting the directory listing

  /** Go's order on strings. */
  predicate Before(a: string, b: string) {
    b != "" && (a == "" || a[0] < b[0] || (a[0] == b[0] && Before(a[1..], b[1..])))
  }

  lemma {:induction false} BeforeIsTotal(a: string, b: string)
    ensures a == b || Before(a, b) || Before(b, a)
  {
    if a != "" && b != "" && a[0] == b[0] {
      BeforeIsTotal(a[1..], b[1..]);
      assert a == [a[0]] + a[1..] && b == [b[0]] + b[1..];
    }
  }

  lemma {:induction false} BeforeIsTransitive(a: string, b: string, c: string)
    requires Before(a, b) && Before(b, c)
    ensures Before(a, c)
  {
    if a != "" && a[0] == b[0] == c[0] { BeforeIsTransitive(a[1..], b[1..], c[1..]); }
  }

  lemma {:induction false} BeforeIsIrreflexive(a: string)
    ensures !Before(a, a)
  {
    if a != "" { BeforeIsIrreflexive(a[1..]); }
  }

  function Insert(e: Entry, sorted: seq<Entry>): seq<Entry> {
    if sorted == [] || Before(e.name, sorted[0].name) then [e] + sorted
    else [sorted[0]] + Insert(e, sorted[1..])
  }

  function Sorted(listing: seq<Entry>): seq<Entry> {
    if listing == [] then [] else Insert(listing[0], Sorted(listing[1..]))
  }

  ghost predicate Ascending(files: seq<Entry>) {
    forall i, j :: 0 <= i < j < |files| ==> Before(files[i].name, files[j].name)
  }

  /** A directory holds a name once. */
  ghost predicate Listing(listing: seq<Entry>) {
    forall i, j :: 0 <= i < j < |listing| ==> listing[i].name != listing[j].name
  }

  lemma {:induction false} InsertKeepsOrder(e: Entry, sorted: seq<Entry>)
    requires Ascending(sorted) && forall i :: 0 <= i < |sorted| ==> sorted[i].name != e.name
    ensures Ascending(Insert(e, sorted))
    ensures forall x :: x in Insert(e, sorted) <==> x == e || x in sorted
  {
    if sorted != [] {
      if Before(e.name, sorted[0].name) {
        forall j | 1 <= j < |sorted| ensures Before(e.name, sorted[j].name) {
          BeforeIsTransitive(e.name, sorted[0].name, sorted[j].name);
        }
      } else {
        BeforeIsTotal(e.name, sorted[0].name);
        InsertKeepsOrder(e, sorted[1..]);
        var rest := Insert(e, sorted[1..]);
        forall j | 0 <= j < |rest| ensures Before(sorted[0].name, rest[j].name) {
          assert rest[j] in rest;
        }
      }
    }
  }

  lemma {:induction false} SortedIsOrdered(listing: seq<Entry>)
    requires Listing(listing)
    ensures Ascending(Sorted(listing))
    ensures forall x :: x in Sorted(listing) <==> x in listing
  {
    if listing != [] {
      var rest := Sorted(listing[1..]);
      SortedIsOrdered(listing[1..]);
      forall i | 0 <= i < |rest| ensures rest[i].name != listing[0].name { assert rest[i] in rest; }
      InsertKeepsOrder(listing[0], rest);
    }
  }

  lemma {:induction false} AscendingIsUnique(s: seq<Entry>, t: seq<Entry>)
    requires Ascending(s) && Ascending(t) && forall x :: x in s <==> x in t
    ensures s == t
  {
    assert s != [] ==> s[0] in t;
    assert t != [] ==> t[0] in s;
    if s != [] {
      if s[0] != t[0] {
        assert s[0] in t && t[0] in s;
        BeforeIsTransitive(s[0].name, t[0].name, s[0].name);
        BeforeIsIrreflexive(s[0].name);
      } else {
        BeforeIsIrreflexive(s[0].name);
        assert s[0] !in s[1..] && t[0] !in t[1..];
        assert s == [s[0]] + s[1..] && t == [t[0]] + t[1..];
        forall x ensures x in s[1..] <==> x in t[1..] {
          assert (x in s <==> x == s[0] || x in s[1..]) && (x in t <==> x == t[0] || x in t[1..]);
        }
        AscendingIsUnique(s[1..], t[1..]);
      }
    }
  }

  /** The order in which the directory is listed does not matter. */
  lemma SortedIsCanonical(a: seq<Entry>, b: seq<Entry>)
    requires Listing(a) && Listing(b) && forall x :: x in a <==> x in b
    ensures Sorted(a) == Sorted(b)
  {
    SortedIsOrdered(a);
    SortedIsOrdered(b);
    AscendingIsUnique(Sorted(a), Sorted(b));
  }

  // ---------------------------------------------------------------------------------------------------
  // One run

  predicate HasSuffix(name: string, suffix: string) {
    |name| >= |suffix| && name[|name| - |suffix|..] == suffix
  }

  function Route(e: Entry): Routing {
    if e.isDir || !HasSuffix(e.name, ".sql") then Skip
    else if "state_" <= e.name then To(StateDB)
    else if "metering_" <= e.name then To(MeteringDB)
    else Reject
  }

  /** One file: the databases after it, and whether the run goes on. */
  function AtFile<S>(dbs: Databases<S>, e: Entry, outcome: Outcome, script: Script<S>): (Databases<S>, bool) {
    match Route(e)
    case Skip => (dbs, true)
    case Reject => (dbs, false)
    case To(t) =>
      var db := dbs.Of(t);
      if outcome == Fails then (dbs, false)
      else if e.name in db.recorded then (dbs, outcome == Works)
      else match script(e.name, db.schema)
        case None => (dbs, false)
        case Some(schema) => (dbs.With(t, Database(schema, db.recorded + {e.name})), outcome == Works)
  }

  /** The run over files[i..], and whether it reaches the end. */
  function Continue<S>(dbs: Databases<S>, files: seq<Entry>, i: nat, outcome: nat -> Outcome, script: Script<S>): (Databases<S>, bool)
    requires i <= |files|
    decreases |files| - i
  {
    if i == |files| then (dbs, true)
    else
      var (next, on) := AtFile(dbs, files[i], outcome(i), script);
      if on then Continue(next, files, i + 1, outcome, script) else (next, false)
  }

  /** A whole run; `prepared`: the tracking tables are there and the directory can be read. */
  function Migrate<S>(dbs: Databases<S>, prepared: bool, listing: seq<Entry>, outcome: nat -> Outcome, script: Script<S>): (Databases<S>, bool) {
    if prepared then Continue(dbs, Sorted(listing), 0, outcome, script) else (dbs, false)
  }

  class Store<S> {
    var databases: Databases<S>

    constructor (databases: Databases<S>)
      ensures this.databases == databases
    {
      this.databases := databases;
    }

    method RunMigrations(prepared: bool, listing: seq<Entry>, outcome: nat -> Outcome, script: Script<S>) returns (ok: bool)
      modifies this
      ensures (databases, ok) == Migrate(old(databases), prepared, listing, outcome, script)
    {
      if !prepared {
        return false;
      }
      var files := Sorted(listing);
      for i := 0 to |files|
        invariant Migrate(old(databases), prepared, listing, outcome, script) == Continue(databases, files, i, outcome, script)
      {
        var routing := Route(files[i]);
        if routing.Skip? { continue; }
        if routing.Reject? || outcome(i) == Fails { return false; }
        var target, name := routing.target, files[i].name;
        var db := databases.Of(target);
        if name !in db.recorded {
          var schema := script(name, db.schema);
          if schema.None? { return false; }
          databases := databases.With(target, Database(schema.value, db.recorded + {name}));
        }
        if outcome(i) == DiesCommitted { return false; }
      }
      return true;
    }
  }

  // ---------------------------------------------------------------------------------------------------
  // What a database should hold

  /** The files of one database, in order. */
  function Own(files: seq<Entry>, t: Target): seq<string> {
    if files == [] then []
    else
      var last := files[|files| - 1];
      Own(files[..|files| - 1], t) + if Route(last) == To(t) then [last.name] else []
  }

  /** The schema reached by running the named files in order, each once. */
  function Replay<S>(script: Script<S>, empty: S, names: seq<string>): Option<S> {
    if names == [] then Some(empty)
    else match Replay(script, empty, names[..|names| - 1])
      case None => None
      case Some(schema) => script(names[|names| - 1], schema)
  }

  ghost predicate Holds<S>(db: Database<S>, names: seq<string>, script: Script<S>, empty: S) {
    && db.recorded == Elements(names)
    && Replay(script, empty, names) == Some(db.schema)
  }

  /** The database is as if exactly the first p files had been processed. */
  ghost predicate At<S>(db: Database<S>, files: seq<Entry>, p: nat, t: Target, script: Script<S>, empty: S) {
    p <= |files| && Holds(db, Own(files[..p], t), script, empty)
  }

  lemma {:induction false} OwnMembers(files: seq<Entry>, t: Target, n: string)
    ensures n in Own(files, t) <==> exists i :: 0 <= i < |files| && Route(files[i]) == To(t) && files[i].name == n
  {
    if files != [] {
      var front := files[..|files| - 1];
      OwnMembers(front, t, n);
      if i :| 0 <= i < |files| && Route(files[i]) == To(t) && files[i].name == n {
        if i < |front| { assert front[i] == files[i]; }
      }
    }
  }

  lemma OwnGrows(files: seq<Entry>, p: nat, t: Target)
    requires p < |files|
    ensures Own(files[..p + 1], t) == Own(files[..p], t) + if Route(files[p]) == To(t) then [files[p].name] else []
  {
    assert files[..p + 1][..p] == files[..p];
  }

  /** A file is among the first p of its database exactly when it stands before position p. */
  lemma RecordedIffPassed(files: seq<Entry>, p: nat, i: nat, t: Target)
    requires Ascending(files) && p <= |files| && i < |files| && Route(files[i]) == To(t)
    ensures files[i].name in Own(files[..p], t) <==> i < p
  {
    OwnMembers(files[..p], t, files[i].name);
    if i < p { assert files[..p][i] == files[i]; }
    BeforeIsIrreflexive(files[i].name);
  }

  function Max(a: nat, b: nat): nat { if a < b then b else a }

  /** Applying file p of a database standing at p. */
  lemma ApplyAdvances<S>(db: Database<S>, files: seq<Entry>, p: nat, t: Target, script: Script<S>, empty: S, schema: S)
    requires p < |files| && At(db, files, p, t, script, empty)
    requires Route(files[p]) == To(t) && script(files[p].name, db.schema) == Some(schema)
    ensures At(Database(schema, db.recorded + {files[p].name}), files, p + 1, t, script, empty)
  {
    OwnGrows(files, p, t);
    var names := Own(files[..p + 1], t);
    assert names[..|names| - 1] == Own(files[..p], t);
    assert Elements(names) == Elements(Own(files[..p], t)) + {files[p].name};
  }

  lemma OtherAdvances<S>(db: Database<S>, files: seq<Entry>, p: nat, t: Target, script: Script<S>, empty: S)
    requires p < |files| && At(db, files, p, t, script, empty) && Route(files[p]) != To(t)
    ensures At(db, files, p + 1, t, script, empty)
  {
    OwnGrows(files, p, t);
    assert Own(files[..p + 1], t) == Own(files[..p], t);
  }

  /** The file was dealt with: the run goes on, or it ended after the commit. */
  ghost predicate Dealt<S>(dbs: Databases<S>, e: Entry, outcome: Outcome, script: Script<S>) {
    AtFile(dbs, e, outcome, script).1 || AtFile(dbs, e, outcome, script).0 != dbs
  }

  lemma FileAdvances<S>(dbs: Databases<S>, files: seq<Entry>, p: nat, i: nat, outcome: Outcome, t: Target, script: Script<S>, empty: S)
    requires Ascending(files) && i < |files| && i <= p && At(dbs.Of(t), files, p, t, script, empty)
    ensures var next := AtFile(dbs, files[i], outcome, script).0;
      At(next.Of(t), files, if Dealt(dbs, files[i], outcome, script) then Max(p, i + 1) else p, t, script, empty)
  {
    var e := files[i];
    var next := AtFile(dbs, e, outcome, script).0;
    if Route(e) == To(t) {
      RecordedIffPassed(files, p, i, t);
      if next != dbs { ApplyAdvances(dbs.Of(t), files, p, t, script, empty, script(e.name, dbs.Of(t).schema).value); }
    } else {
      assert next.Of(t) == dbs.Of(t);
      if i == p { OtherAdvances(dbs.Of(t), files, p, t, script, empty); }
    }
  }

  /** How far the run over files[i..] gets: the number of files dealt with, counting those before i. */
  ghost function Reach<S>(dbs: Databases<S>, files: seq<Entry>, i: nat, outcome: nat -> Outcome, script: Script<S>): (j: nat)
    requires i <= |files|
    ensures i <= j <= |files|
    ensures Continue(dbs, files, i, outcome, script).1 ==> j == |files|
    ensures forall k :: i <= k < j ==> !Route(files[k]).Reject?
    decreases |files| - i
  {
    if i == |files| then i
    else
      var (next, on) := AtFile(dbs, files[i], outcome(i), script);
      if on then Reach(next, files, i + 1, outcome, script) else if next != dbs then i + 1 else i
  }

  lemma FirstFile<S>(dbs: Databases<S>, files: seq<Entry>, i: nat, outcome: nat -> Outcome, script: Script<S>)
    requires i < |files|
    ensures var (next, on) := AtFile(dbs, files[i], outcome(i), script);
      if on then
        && Continue(dbs, files, i, outcome, script) == Continue(next, files, i + 1, outcome, script)
        && Reach(dbs, files, i, outcome, script) == Reach(next, files, i + 1, outcome, script)
      else
        && Continue(dbs, files, i, outcome, script).0 == next
        && Reach(dbs, files, i, outcome, script) == if next != dbs then i + 1 else i
  {
  }

  /** The run moves each database forward to where it reaches, never back. */
  lemma {:induction false} RunAdvances<S>(dbs: Databases<S>, files: seq<Entry>, i: nat, outcome: nat -> Outcome,
                                          script: Script<S>, empty: S, t: Target, p: nat)
    requires Ascending(files) && i <= p && At(dbs.Of(t), files, p, t, script, empty)
    ensures At(Continue(dbs, files, i, outcome, script).0.Of(t), files, Max(p, Reach(dbs, files, i, outcome, script)), t, script, empty)
    decreases |files| - i
  {
    if i < |files| {
      FileAdvances(dbs, files, p, i, outcome(i), t, script, empty);
      FirstFile(dbs, files, i, outcome, script);
      if AtFile(dbs, files[i], outcome(i), script).1 {
        var next := AtFile(dbs, files[i], outcome(i), script).0;
        assert At(next.Of(t), files, Max(p, i + 1), t, script, empty);
        RunAdvances(next, files, i + 1, outcome, script, empty, t, Max(p, i + 1));
        assert Max(p, Reach(next, files, i + 1, outcome, script)) == Max(Max(p, i + 1), Reach(next, files, i + 1, outcome, script));
      }
    }
  }

  // ---------------------------------------------------------------------------------------------------
  // Whole histories

  /** One start of the process: whether the preparation worked, the order in which the directory was listed,
      and how far it got. */
  datatype Launch = Launch(prepared: bool, listing: seq<Entry>, outcome: nat -> Outcome)

  function Start<S>(dbs: Databases<S>, launch: Launch, script: Script<S>): (Databases<S>, bool) {
    Migrate(dbs, launch.prepared, launch.listing, launch.outcome, script)
  }

  ghost function StartReach<S>(dbs: Databases<S>, launch: Launch, script: Script<S>): nat {
    if launch.prepared then Reach(dbs, Sorted(launch.listing), 0, launch.outcome, script) else 0
  }

  function History<S>(dbs: Databases<S>, launches: seq<Launch>, script: Script<S>): Databases<S>
    decreases |launches|
  {
    if launches == [] then dbs else History(Start(dbs, launches[0], script).0, launches[1..], script)
  }

  /** The furthest any of the starts got. */
  ghost function HistoryReach<S>(dbs: Databases<S>, launches: seq<Launch>, script: Script<S>): nat
    decreases |launches|
  {
    if launches == [] then 0
    else Max(StartReach(dbs, launches[0], script), HistoryReach(Start(dbs, launches[0], script).0, launches[1..], script))
  }

  function Fresh<S>(empty: S): Databases<S> {
    Databases(Database(empty, {}), Database(empty, {}))
  }

  ghost predicate Faultless(launch: Launch) {
    launch.prepared && forall k :: launch.outcome(k) == Works
  }

  ghost predicate SameFiles(a: seq<Entry>, b: seq<Entry>) {
    Listing(a) && Listing(b) && forall x :: x in a <==> x in b
  }

  ghost predicate SameFilesThroughout(launches: seq<Launch>, files: seq<Entry>) {
    forall i :: 0 <= i < |launches| ==> SameFiles(launches[i].listing, files)
  }

  lemma FreshIsAtStart<S>(files: seq<Entry>, script: Script<S>, empty: S, t: Target)
    ensures At(Fresh(empty).Of(t), files, 0, t, script, empty)
  {
    assert files[..0] == [];
  }

  lemma MigrateAdvances<S>(dbs: Databases<S>, launch: Launch, files: seq<Entry>, script: Script<S>, empty: S, t: Target, p: nat)
    requires SameFiles(launch.listing, files) && At(dbs.Of(t), Sorted(files), p, t, script, empty)
    ensures At(Start(dbs, launch, script).0.Of(t), Sorted(files), Max(p, StartReach(dbs, launch, script)), t, script, empty)
    ensures Start(dbs, launch, script).1 ==> StartReach(dbs, launch, script) == |Sorted(files)|
    ensures forall k :: 0 <= k < StartReach(dbs, launch, script) ==> k < |Sorted(files)| && !Route(Sorted(files)[k]).Reject?
  {
    SortedIsCanonical(launch.listing, files);
    SortedIsOrdered(files);
    RunAdvances(dbs, Sorted(files), 0, launch.outcome, script, empty, t, p);
  }

  lemma {:induction false} HistoryAdvances<S>(dbs: Databases<S>, launches: seq<Launch>, files: seq<Entry>,
                                              script: Script<S>, empty: S, t: Target, p: nat)
    requires SameFilesThroughout(launches, files) && At(dbs.Of(t), Sorted(files), p, t, script, empty)
    ensures At(History(dbs, launches, script).Of(t), Sorted(files), Max(p, HistoryReach(dbs, launches, script)), t, script, empty)
    ensures forall k :: 0 <= k < HistoryReach(dbs, launches, script) ==> k < |Sorted(files)| && !Route(Sorted(files)[k]).Reject?
    decreases |launches|
  {
    if launches != [] {
      MigrateAdvances(dbs, launches[0], files, script, empty, t, p);
      HistoryAdvances(Start(dbs, launches[0], script).0, launches[1..], files, script, empty, t, Max(p, StartReach(dbs, launches[0], script)));
    }
  }

  /** After any history of interrupted runs there is one point in the sorted list before which every file is
      recorded, after which none is, and up to which each schema is the replay of its own files. No file
      behind a wrongly named one is ever reached. */
  lemma HistoryIsPrefix<S>(launches: seq<Launch>, files: seq<Entry>, script: Script<S>, empty: S) returns (p: nat)
    requires SameFilesThroughout(launches, files) && Listing(files)
    ensures p <= |Sorted(files)|
    ensures forall t :: At(History(Fresh(empty), launches, script).Of(t), Sorted(files), p, t, script, empty)
    ensures forall i, t :: 0 <= i < |Sorted(files)| && Route(Sorted(files)[i]) == To(t) ==>
      (Sorted(files)[i].name in History(Fresh(empty), launches, script).Of(t).recorded <==> i < p)
    ensures forall k :: 0 <= k < p ==> !Route(Sorted(files)[k]).Reject?
  {
    var sorted := Sorted(files);
    p := HistoryReach(Fresh(empty), launches, script);
    forall t ensures At(History(Fresh(empty), launches, script).Of(t), sorted, p, t, script, empty) {
      FreshIsAtStart(sorted, script, empty, t);
      HistoryAdvances(Fresh(empty), launches, files, script, empty, t, 0);
    }
    FreshIsAtStart(sorted, script, empty, StateDB);
    HistoryAdvances(Fresh(empty), launches, files, script, empty, StateDB, 0);
    SortedIsOrdered(files);
    forall i: nat, t | i < |sorted| && Route(sorted[i]) == To(t)
      ensures sorted[i].name in History(Fresh(empty), launches, script).Of(t).recorded <==> i < p
    {
      RecordedIffPassed(sorted, p, i, t);
    }
  }

  /** A run that completes leaves in each database the replay of all its own files. */
  lemma CompleteHolds<S>(dbs: Databases<S>, last: Launch, files: seq<Entry>, script: Script<S>, empty: S, t: Target, p: nat)
    requires SameFiles(last.listing, files) && At(dbs.Of(t), Sorted(files), p, t, script, empty)
    requires Start(dbs, last, script).1
    ensures Holds(Start(dbs, last, script).0.Of(t), Own(Sorted(files), t), script, empty)
  {
    MigrateAdvances(dbs, last, files, script, empty, t, p);
    assert Sorted(files)[..|Sorted(files)|] == Sorted(files);
  }

  /** Any run that completes, after whatever interruptions, leaves exactly the databases that one complete
      run over the same files on fresh databases leaves: the replay of each database's own files, each
      applied once. */
  lemma Converges<S>(launches: seq<Launch>, last: Launch, clean: Launch, files: seq<Entry>, script: Script<S>, empty: S)
    requires SameFilesThroughout(launches, files) && SameFiles(last.listing, files) && SameFiles(clean.listing, files)
    requires Start(History(Fresh(empty), launches, script), last, script).1 && Start(Fresh(empty), clean, script).1
    ensures Start(History(Fresh(empty), launches, script), last, script) == Start(Fresh(empty), clean, script)
    ensures forall t :: Holds(Start(Fresh(empty), clean, script).0.Of(t), Own(Sorted(files), t), script, empty)
  {
    var dbs := History(Fresh(empty), launches, script);
    var p := HistoryIsPrefix(launches, files, script, empty);
    forall t
      ensures Holds(Start(Fresh(empty), clean, script).0.Of(t), Own(Sorted(files), t), script, empty)
      ensures Start(dbs, last, script).0.Of(t) == Start(Fresh(empty), clean, script).0.Of(t)
    {
      CompleteHolds(dbs, last, files, script, empty, t, p);
      FreshIsAtStart(Sorted(files), script, empty, t);
      CompleteHolds(Fresh(empty), clean, files, script, empty, t, 0);
    }
    var a, b := Start(dbs, last, script).0, Start(Fresh(empty), clean, script).0;
    assert a.Of(StateDB) == b.Of(StateDB) && a.Of(MeteringDB) == b.Of(MeteringDB);
  }

  /** After a complete run no run changes anything, whatever goes wrong in it. */
  lemma CompleteIsFinal<S>(dbs: Databases<S>, again: Launch, files: seq<Entry>, script: Script<S>, empty: S)
    requires SameFiles(again.listing, files) && forall t :: Holds(dbs.Of(t), Own(Sorted(files), t), script, empty)
    ensures Start(dbs, again, script).0 == dbs
  {
    var n := |Sorted(files)|;
    assert Sorted(files)[..n] == Sorted(files);
    forall t ensures Start(dbs, again, script).0.Of(t) == dbs.Of(t) {
      MigrateAdvances(dbs, again, files, script, empty, t, n);
    }
    assert Start(dbs, again, script).0.state == Start(dbs, again, script).0.Of(StateDB);
    assert Start(dbs, again, script).0.metering == Start(dbs, again, script).0.Of(MeteringDB);
  }

  // ---------------------------------------------------------------------------------------------------
  // When a run can complete

  lemma {:induction false} OwnPrefix(files: seq<Entry>, p: nat, t: Target)
    requires p <= |files|
    ensures Own(files[..p], t) <= Own(files, t)
  {
    if p < |files| {
      var front := files[..|files| - 1];
      OwnPrefix(front, p, t);
      assert front[..p] == files[..p];
    } else {
      assert files[..p] == files;
    }
  }

  lemma {:induction false} ReplayPrefix<S>(script: Script<S>, empty: S, names: seq<string>, k: nat)
    requires k <= |names| && Replay(script, empty, names).Some?
    ensures Replay(script, empty, names[..k]).Some?
  {
    if k < |names| {
      var front := names[..|names| - 1];
      ReplayPrefix(script, empty, front, k);
      assert front[..k] == names[..k];
    } else {
      assert names[..k] == names;
    }
  }

  /** When the whole sequence can be replayed, the file a database stands at is accepted. */
  lemma NotRefused<S>(db: Database<S>, files: seq<Entry>, p: nat, t: Target, script: Script<S>, empty: S)
    requires p < |files| && At(db, files, p, t, script, empty) && Route(files[p]) == To(t)
    requires Replay(script, empty, Own(files, t)).Some?
    ensures script(files[p].name, db.schema).Some?
  {
    var names := Own(files[..p + 1], t);
    assert Own(files, t)[..|names|] == names by { OwnPrefix(files, p + 1, t); }
    ReplayPrefix(script, empty, Own(files, t), |names|);
    OwnGrows(files, p, t);
    assert names[..|names| - 1] == Own(files[..p], t);
  }

  lemma FaultlessFile<S>(db: Database<S>, files: seq<Entry>, p: nat, i: nat, t: Target, script: Script<S>, empty: S)
    requires Ascending(files) && i < |files| && i <= p && At(db, files, p, t, script, empty)
    requires Route(files[i]) == To(t) && Replay(script, empty, Own(files, t)).Some?
    ensures files[i].name in db.recorded || script(files[i].name, db.schema).Some?
  {
    RecordedIffPassed(files, p, i, t);
    if i == p { NotRefused(db, files, p, t, script, empty); }
  }

  lemma {:induction false} FaultlessContinues<S>(dbs: Databases<S>, files: seq<Entry>, i: nat, outcome: nat -> Outcome,
                                                 script: Script<S>, empty: S, state: nat, metering: nat)
    requires Ascending(files) && i <= state && i <= metering && i <= |files|
    requires At(dbs.Of(StateDB), files, state, StateDB, script, empty)
    requires At(dbs.Of(MeteringDB), files, metering, MeteringDB, script, empty)
    requires forall k :: i <= k < |files| ==> outcome(k) == Works && !Route(files[k]).Reject?
    requires Replay(script, empty, Own(files, StateDB)).Some? && Replay(script, empty, Own(files, MeteringDB)).Some?
    ensures Continue(dbs, files, i, outcome, script).1
    decreases |files| - i
  {
    if i < |files| {
      if Route(files[i]) == To(StateDB) { FaultlessFile(dbs.Of(StateDB), files, state, i, StateDB, script, empty); }
      if Route(files[i]) == To(MeteringDB) { FaultlessFile(dbs.Of(MeteringDB), files, metering, i, MeteringDB, script, empty); }
      assert AtFile(dbs, files[i], Works, script).1;
      FileAdvances(dbs, files, state, i, Works, StateDB, script, empty);
      FileAdvances(dbs, files, metering, i, Works, MeteringDB, script, empty);
      FaultlessContinues(AtFile(dbs, files[i], Works, script).0, files, i + 1, outcome, script, empty, Max(state, i + 1), Max(metering, i + 1));
    }
  }

  lemma CompletionNeedsSoundFiles<S>(dbs: Databases<S>, last: Launch, files: seq<Entry>, script: Script<S>, empty: S, p: nat)
    requires SameFiles(last.listing, files) && forall t :: At(dbs.Of(t), Sorted(files), p, t, script, empty)
    requires Start(dbs, last, script).1
    ensures forall e :: e in files ==> !Route(e).Reject?
    ensures forall t :: Replay(script, empty, Own(Sorted(files), t)).Some?
  {
    forall t ensures Replay(script, empty, Own(Sorted(files), t)).Some? { CompleteHolds(dbs, last, files, script, empty, t, p); }
    MigrateAdvances(dbs, last, files, script, empty, StateDB, p);
    SortedIsOrdered(files);
    forall e | e in files ensures !Route(e).Reject? {
      var k :| 0 <= k < |Sorted(files)| && Sorted(files)[k] == e;
    }
  }

  lemma SoundFilesComplete<S>(dbs: Databases<S>, last: Launch, files: seq<Entry>, script: Script<S>, empty: S, p: nat)
    requires SameFiles(last.listing, files) && forall t :: At(dbs.Of(t), Sorted(files), p, t, script, empty)
    requires Faultless(last)
    requires forall e :: e in files ==> !Route(e).Reject?
    requires forall t :: Replay(script, empty, Own(Sorted(files), t)).Some?
    ensures Start(dbs, last, script).1
  {
    SortedIsOrdered(files);
    SortedIsCanonical(last.listing, files);
    forall k | 0 <= k < |Sorted(files)| ensures !Route(Sorted(files)[k]).Reject? { assert Sorted(files)[k] in files; }
    FaultlessContinues(dbs, Sorted(files), 0, last.outcome, script, empty, p, p);
  }

  ghost predicate Sound<S>(files: seq<Entry>, script: Script<S>, empty: S) {
    && (forall e :: e in files ==> !Route(e).Reject?)
    && forall t :: Replay(script, empty, Own(Sorted(files), t)).Some?
  }

  /** After any history, a run in which nothing fails completes if and only if every .sql file names its
      database and both replays are accepted: earlier interruptions never get in the way. */
  lemma FaultlessRunCompletesIff<S>(launches: seq<Launch>, last: Launch, files: seq<Entry>, script: Script<S>, empty: S)
    requires SameFilesThroughout(launches, files) && SameFiles(last.listing, files) && Faultless(last)
    ensures Start(History(Fresh(empty), launches, script), last, script).1 <==> Sound(files, script, empty)
  {
    var dbs := History(Fresh(empty), launches, script);
    var p := HistoryIsPrefix(launches, files, script, empty);
    if Start(dbs, last, script).1 {
      CompletionNeedsSoundFiles(dbs, last, files, script, empty, p);
    }
    if Sound(files, script, empty) {
      SoundFilesComplete(dbs, last, files, script, empty, p);
    }
  }

  // ---------------------------------------------------------------------------------------------------
  // Releases that add files

  lemma {:induction false} OwnReaches(files: seq<Entry>, t: Target, k: nat) returns (p: nat)
    requires k <= |Own(files, t)|
    ensures p <= |files| && Own(files[..p], t) == Own(files, t)[..k]
  {
    if k == |Own(files, t)| {
      p := |files|;
      assert files[..p] == files;
    } else {
      var front := files[..|files| - 1];
      p := OwnReaches(front, t, k);
      assert front[..p] == files[..p];
    }
  }

  /** A database keeps its place in a later release whose files extend its own. */
  lemma UpgradeKeepsPlace<S>(db: Database<S>, older: seq<Entry>, newer: seq<Entry>, p: nat, t: Target, script: Script<S>, empty: S) returns (q: nat)
    requires At(db, older, p, t, script, empty) && Own(older, t) <= Own(newer, t)
    ensures At(db, newer, q, t, script, empty)
  {
    OwnPrefix(older, p, t);
    var place := Own(older[..p], t);
    assert place == Own(older, t)[..|place|] == Own(newer, t)[..|place|];
    q := OwnReaches(newer, t, |place|);
  }

  /** A version of the program with its embedded files, and every start of it. */
  datatype Release = Release(files: seq<Entry>, launches: seq<Launch>)

  function Deployed<S>(dbs: Databases<S>, releases: seq<Release>, script: Script<S>): Databases<S>
    decreases |releases|
  {
    if releases == [] then dbs else Deployed(History(dbs, releases[0].launches, script), releases[1..], script)
  }

  ghost predicate Growing(files: seq<Entry>, releases: seq<Release>, t: Target)
    decreases |releases|
  {
    releases == [] || (&& SameFilesThroughout(releases[0].launches, releases[0].files)
                       && Own(Sorted(files), t) <= Own(Sorted(releases[0].files), t)
                       && Growing(releases[0].files, releases[1..], t))
  }

  /** The files of the last release, or the given ones when there is none. */
  function Latest(files: seq<Entry>, releases: seq<Release>): seq<Entry>
    decreases |releases|
  {
    if releases == [] then files else Latest(releases[0].files, releases[1..])
  }

  lemma {:induction false} DeployedAdvances<S>(dbs: Databases<S>, files: seq<Entry>, releases: seq<Release>, script: Script<S>, empty: S, t: Target, p: nat)
    returns (q: nat)
    requires Growing(files, releases, t) && At(dbs.Of(t), Sorted(files), p, t, script, empty)
    ensures At(Deployed(dbs, releases, script).Of(t), Sorted(Latest(files, releases)), q, t, script, empty)
    decreases |releases|
  {
    q := p;
    if releases != [] {
      var r := releases[0];
      var kept := UpgradeKeepsPlace(dbs.Of(t), Sorted(files), Sorted(r.files), p, t, script, empty);
      HistoryAdvances(dbs, r.launches, r.files, script, empty, t, kept);
      q := DeployedAdvances(History(dbs, r.launches, script), r.files, releases[1..], script, empty, t,
                            Max(kept, HistoryReach(dbs, r.launches, script)));
    }
  }

  /** Across any number of releases, each started any number of times and interrupted anywhere, a database
      whose new files always sort after its old ones ends, once the last release completes a run, with the
      in-order replay of that release's own files. */
  lemma UpgradesConverge<S>(releases: seq<Release>, last: Launch, script: Script<S>, empty: S, t: Target)
    requires Growing([], releases, t) && SameFiles(last.listing, Latest([], releases))
    requires Start(Deployed(Fresh(empty), releases, script), last, script).1
    ensures Holds(Start(Deployed(Fresh(empty), releases, script), last, script).0.Of(t),
                  Own(Sorted(Latest([], releases)), t), script, empty)
  {
    FreshIsAtStart(Sorted([]), script, empty, t);
    var q := DeployedAdvances(Fresh(empty), [], releases, script, empty, t, 0);
    CompleteHolds(Deployed(Fresh(empty), releases, script), last, Latest([], releases), script, empty, t, q);
  }

  /** A schema that is just the list of what was applied. */
  function Log(name: string, applied: seq<string>): Option<seq<string>> {
    Some(applied + [name])
  }

  lemma ReplaySnoc(names: seq<string>, last: string)
    requires Replay(Log, [], names).Some?
    ensures Replay(Log, [], names + [last]) == Log(last, Replay(Log, [], names).value)
  {
    assert (names + [last])[..|names|] == names;
  }

  lemma LogReplays(names: seq<string>)
    ensures Replay(Log, [], names) == Some(names)
  {
    for i := 0 to |names|
      invariant Replay(Log, [], names[..i]) == Some(names[..i])
    {
      ReplaySnoc(names[..i], names[i]);
      assert names[..i + 1] == names[..i] + [names[i]];
    }
    assert names[..|names|] == names;
  }

  lemma {:induction false} LogOnlyGrows(dbs: Databases<seq<string>>, files: seq<Entry>, i: nat, outcome: nat -> Outcome, t: Target)
    requires i <= |files|
    ensures dbs.Of(t).schema <= Continue(dbs, files, i, outcome, Log).0.Of(t).schema
    decreases |files| - i
  {
    if i < |files| {
      var (next, on) := AtFile(dbs, files[i], outcome(i), Log);
      assert dbs.Of(t).schema <= next.Of(t).schema;
      if on { LogOnlyGrows(next, files, i + 1, outcome, t); }
    }
  }

  /** For a complete run of one release followed by a complete run of the next, the files of a database were
      applied in sorted order if and only if its old files are a prefix of its new ones. A file that sorts
      earlier is applied all the same, late. */
  lemma UpgradeIsInOrderIff(first: Launch, second: Launch, t: Target)
    requires Listing(first.listing) && Listing(second.listing)
    requires Start(Fresh([]), first, Log).1 && Start(Start(Fresh([]), first, Log).0, second, Log).1
    ensures Start(Start(Fresh([]), first, Log).0, second, Log).0.Of(t).schema == Own(Sorted(second.listing), t) <==>
      Own(Sorted(first.listing), t) <= Own(Sorted(second.listing), t)
  {
    var older, newer := Sorted(first.listing), Sorted(second.listing);
    var dbs := Start(Fresh([]), first, Log).0;
    FreshIsAtStart(older, Log, [], t);
    CompleteHolds(Fresh([]), first, first.listing, Log, [], t, 0);
    LogReplays(Own(older, t));
    LogOnlyGrows(dbs, newer, 0, second.outcome, t);
    if Own(older, t) <= Own(newer, t) {
      assert older[..|older|] == older;
      var q := UpgradeKeepsPlace(dbs.Of(t), older, newer, |older|, t, Log, []);
      CompleteHolds(dbs, second, second.listing, Log, [], t, q);
      LogReplays(Own(newer, t));
    }
  }

  // ---------------------------------------------------------------------------------------------------
  // What is recorded where, in terms of the file names

  predicate EndsInSql(name: string) {
    |name| >= 4 && name[|name| - 4..] == ".sql"
  }

  ghost predicate WellPlaced<S>(dbs: Databases<S>) {
    && (forall n :: n in dbs.state.recorded ==> "state_" <= n && EndsInSql(n))
    && (forall n :: n in dbs.metering.recorded ==> "metering_" <= n && EndsInSql(n))
  }

  lemma {:induction false} RunKeepsPlaces<S>(dbs: Databases<S>, files: seq<Entry>, i: nat, outcome: nat -> Outcome, script: Script<S>)
    requires i <= |files| && WellPlaced(dbs)
    ensures WellPlaced(Continue(dbs, files, i, outcome, script).0)
    decreases |files| - i
  {
    if i < |files| {
      var (next, on) := AtFile(dbs, files[i], outcome(i), script);
      assert WellPlaced(next);
      if on { RunKeepsPlaces(next, files, i + 1, outcome, script); }
    }
  }

  lemma {:induction false} HistoryKeepsPlaces<S>(dbs: Databases<S>, launches: seq<Launch>, script: Script<S>)
    requires WellPlaced(dbs)
    ensures WellPlaced(History(dbs, launches, script))
    decreases |launches|
  {
    if launches != [] {
      var launch := launches[0];
      if launch.prepared { RunKeepsPlaces(dbs, Sorted(launch.listing), 0, launch.outcome, script); }
      HistoryKeepsPlaces(Start(dbs, launch, script).0, launches[1..], script);
    }
  }

  /** After any history, over whatever files, each database has recorded only .sql files that name it. */
  lemma RecordedWhereNamed<S>(launches: seq<Launch>, script: Script<S>, empty: S)
    ensures var dbs := History(Fresh(empty), launches, script);
      && (forall n :: n in dbs.state.recorded ==> "state_" <= n && EndsInSql(n))
      && (forall n :: n in dbs.metering.recorded ==> "metering_" <= n && EndsInSql(n))
  {
    HistoryKeepsPlaces(Fresh(empty), launches, script);
  }

  /** This file has nothing left to do: it is recorded in the database it names, or no migration at all. */
  ghost predicate Done<S>(dbs: Databases<S>, e: Entry) {
    e.isDir || !EndsInSql(e.name) ||
    ("state_" <= e.name && e.name in dbs.state.recorded) || ("metering_" <= e.name && e.name in dbs.metering.recorded)
  }

  lemma {:induction false} RecordsGrow<S>(dbs: Databases<S>, files: seq<Entry>, i: nat, outcome: nat -> Outcome, script: Script<S>)
    requires i <= |files|
    ensures var after := Continue(dbs, files, i, outcome, script).0;
      dbs.state.recorded <= after.state.recorded && dbs.metering.recorded <= after.metering.recorded
    decreases |files| - i
  {
    if i < |files| {
      var (next, on) := AtFile(dbs, files[i], outcome(i), script);
      if on { RecordsGrow(next, files, i + 1, outcome, script); }
    }
  }

  lemma {:induction false} CompleteRunDoesAll<S>(dbs: Databases<S>, files: seq<Entry>, i: nat, outcome: nat -> Outcome, script: Script<S>)
    requires i <= |files| && Continue(dbs, files, i, outcome, script).1
    ensures forall k :: i <= k < |files| ==> Done(Continue(dbs, files, i, outcome, script).0, files[k])
    decreases |files| - i
  {
    if i < |files| {
      var next := AtFile(dbs, files[i], outcome(i), script).0;
      assert Done(next, files[i]);
      CompleteRunDoesAll(next, files, i + 1, outcome, script);
      RecordsGrow(next, files, i + 1, outcome, script);
    }
  }

  /** A run that completes, from any databases, has recorded every .sql file in the database its prefix names;
      so it completes only if every .sql file has one of the two prefixes. */
  lemma CompleteRunRecordsAll<S>(dbs: Databases<S>, launch: Launch, script: Script<S>, e: Entry)
    requires Listing(launch.listing) && Start(dbs, launch, script).1
    requires e in launch.listing && !e.isDir && EndsInSql(e.name)
    ensures var after := Start(dbs, launch, script).0;
      || ("state_" <= e.name && e.name in after.state.recorded)
      || ("metering_" <= e.name && e.name in after.metering.recorded)
  {
    SortedIsOrdered(launch.listing);
    var files := Sorted(launch.listing);
    CompleteRunDoesAll(dbs, files, 0, launch.outcome, script);
    var k :| 0 <= k < |files| && files[k] == e;
    assert Done(Start(dbs, launch, script).0, files[k]);
  }

  /** A file recorded by a run has run its own script on the schema of its database, and changed no other. */
  lemma FileRunsOnItsDatabase<S>(dbs: Databases<S>, e: Entry, outcome: Outcome, script: Script<S>)
    ensures var next := AtFile(dbs, e, outcome, script).0;
      && (next.state != dbs.state ==>
            && "state_" <= e.name && next.metering == dbs.metering
            && next.state.recorded == dbs.state.recorded + {e.name} && e.name !in dbs.state.recorded
            && Some(next.state.schema) == script(e.name, dbs.state.schema))
      && (next.metering != dbs.metering ==>
            && "metering_" <= e.name && next.state == dbs.state
            && next.metering.recorded == dbs.metering.recorded + {e.name} && e.name !in dbs.metering.recorded
            && Some(next.metering.schema) == script(e.name, dbs.metering.schema))
      && (outcome == Fails ==> next == dbs)
      && (outcome != Works && !e.isDir && EndsInSql(e.name) ==> !AtFile(dbs, e, outcome, script).1)
  {
  }

  /** The names agree up to k, where the first ends or has the smaller character. */
  ghost predicate FirstDiffersAt(a: string, b: string, k: nat) {
    k <= |a| && k < |b| && a[..k] == b[..k] && (k == |a| || a[k] < b[k])
  }

  lemma DiffersOneEarlier(a: string, b: string, k: nat)
    requires k > 0 && FirstDiffersAt(a, b, k)
    ensures a[0] == b[0] && FirstDiffersAt(a[1..], b[1..], k - 1)
  {
    assert a[0] == a[..k][0] && b[0] == b[..k][0];
    assert a[1..][..k - 1] == a[..k][1..] && b[1..][..k - 1] == b[..k][1..];
  }

  lemma DiffersOneLater(a: string, b: string, k: nat)
    requires a != "" && b != "" && a[0] == b[0] && FirstDiffersAt(a[1..], b[1..], k)
    ensures FirstDiffersAt(a, b, k + 1)
  {
    assert a[..k + 1] == [a[0]] + a[1..][..k] && b[..k + 1] == [b[0]] + b[1..][..k];
  }

  /** The order is that of the first character that differs, a shorter name coming first. */
  lemma {:induction false} BeforeHasDifference(a: string, b: string) returns (k: nat)
    requires Before(a, b)
    ensures FirstDiffersAt(a, b, k)
  {
    k := 0;
    if a != "" && a[0] == b[0] {
      var rest := BeforeHasDifference(a[1..], b[1..]);
      DiffersOneLater(a, b, rest);
      k := rest + 1;
    } else {
      assert a[..0] == b[..0];
    }
  }

  lemma {:induction false} DifferenceIsBefore(a: string, b: string, k: nat)
    requires FirstDiffersAt(a, b, k)
    ensures Before(a, b)
    decreases k
  {
    if k > 0 {
      DiffersOneEarlier(a, b, k);
      DifferenceIsBefore(a[1..], b[1..], k - 1);
    }
  }

  lemma BeforeIff(a: string, b: string)
    ensures Before(a, b) <==> exists k :: FirstDiffersAt(a, b, k)
  {
    if Before(a, b) { var k := BeforeHasDifference(a, b); }
    if k :| FirstDiffersAt(a, b, k) { DifferenceIsBefore(a, b, k); }
  }
}
