/** The quota of three databases per tenant. A creation counts the tenant's rows that have not failed in one
    transaction, and inserts its own row in a later statement, so creations can overlap in between.

    Main results, in every interleaving of one tenant's creations, failures and deletions: if at most k >= 1
    creations are ever between count and insert, there are at most 2 + k such rows (RowsAreBounded); that
    many are reached for every k (BoundIsReached); so the quota of three holds if and only if creations
    never overlap there (QuotaHoldsIff). */
module DatabaseQuota {
  import opened Common

  const QUOTA: nat := 3

  /** The rows that have not failed, and the creations that passed the count and have not inserted. */
  datatype State = State(rows: set<nat>, passed: set<nat>)

  datatype Step =
    | Count(id: nat)
    | Insert(id: nat)
    | GiveUp(id: nat)
    | FailOrDelete(id: nat)

  const EMPTY := State({}, {})

  /** IDs are fresh. */
  predicate Enabled(s: State, step: Step) {
    match step
    case Count(id) => id !in s.rows && id !in s.passed
    case Insert(id) => id in s.passed && id !in s.rows
    case GiveUp(id) => id in s.passed
    case FailOrDelete(id) => id in s.rows
  }

  function Next(s: State, step: Step): State {
    match step
    case Count(id) => if |s.rows| >= QUOTA then s else s.(passed := s.passed + {id})
    case Insert(id) => State(s.rows + {id}, s.passed - {id})
    case GiveUp(id) => s.(passed := s.passed - {id})
    case FailOrDelete(id) => s.(rows := s.rows - {id})
  }

  predicate Run(s: State, steps: seq<Step>)
    decreases |steps|
  {
    steps == [] || (Enabled(s, steps[0]) && Run(Next(s, steps[0]), steps[1..]))
  }

  function After(s: State, steps: seq<Step>): State
    decreases |steps|
  {
    if steps == [] then s else After(Next(s, steps[0]), steps[1..])
  }

  /** At no time are more than k creations between count and insert. */
  predicate Overlap(s: State, steps: seq<Step>, k: nat)
    decreases |steps|
  {
    |s.passed| <= k && (steps == [] || Overlap(Next(s, steps[0]), steps[1..], k))
  }

  lemma NextKeepsBound(s: State, step: Step, k: nat)
    requires k >= 1 && |s.rows| + |s.passed| <= 2 + k && Enabled(s, step) && |Next(s, step).passed| <= k
    ensures |Next(s, step).rows| + |Next(s, step).passed| <= 2 + k
  {
  }

  lemma {:induction false} SumIsBounded(s: State, steps: seq<Step>, k: nat)
    requires k >= 1 && |s.rows| + |s.passed| <= 2 + k && Run(s, steps) && Overlap(s, steps, k)
    ensures |After(s, steps).rows| + |After(s, steps).passed| <= 2 + k
    decreases |steps|
  {
    if steps != [] {
      assert Overlap(Next(s, steps[0]), steps[1..], k);
      NextKeepsBound(s, steps[0], k);
      SumIsBounded(Next(s, steps[0]), steps[1..], k);
    }
  }

  /** Two more rows than creations that overlap. */
  lemma RowsAreBounded(steps: seq<Step>, k: nat)
    requires k >= 1 && Run(EMPTY, steps) && Overlap(EMPTY, steps, k)
    ensures |After(EMPTY, steps).rows| <= 2 + k
  {
    SumIsBounded(EMPTY, steps, k);
  }

  lemma {:induction false} Then(s: State, steps: seq<Step>, step: Step, k: nat)
    requires Run(s, steps) && Overlap(s, steps, k) && Enabled(After(s, steps), step)
    requires |Next(After(s, steps), step).passed| <= k
    ensures Run(s, steps + [step]) && Overlap(s, steps + [step], k)
    ensures After(s, steps + [step]) == Next(After(s, steps), step)
    decreases |steps|
  {
    if steps == [] {
      assert steps + [step] == [step] && [step][1..] == [];
      assert Overlap(Next(s, step), [], k);
    } else {
      assert (steps + [step])[1..] == steps[1..] + [step];
      Then(Next(s, steps[0]), steps[1..], step, k);
    }
  }

  ghost predicate Reaches(steps: seq<Step>, k: nat, s: State) {
    Run(EMPTY, steps) && Overlap(EMPTY, steps, k) && After(EMPTY, steps) == s
  }

  lemma OneMoreStep(steps: seq<Step>, k: nat, s: State, step: Step, t: State)
    requires Reaches(steps, k, s) && Enabled(s, step) && t == Next(s, step) && |t.passed| <= k
    ensures Reaches(steps + [step], k, t)
  {
    Then(EMPTY, steps, step, k);
  }

  /** Two rows, made one after the other. */
  lemma TwoRows(k: nat) returns (steps: seq<Step>)
    requires k >= 1
    ensures Reaches(steps, k, State(FirstNats(2), {}))
  {
    steps := [];
    Then(EMPTY, steps, Count(0), k);
    steps := steps + [Count(0)];
    Then(EMPTY, steps, Insert(0), k);
    steps := steps + [Insert(0)];
    Then(EMPTY, steps, Count(1), k);
    steps := steps + [Count(1)];
    Then(EMPTY, steps, Insert(1), k);
    steps := steps + [Insert(1)];
    assert After(EMPTY, steps) == State({0, 1}, {});
    assert FirstNats(2) == {0, 1};
  }

  /** {first, .., end - 1}. */
  ghost function Range(first: nat, end: nat): (r: set<nat>)
    requires first <= end
    ensures |r| == end - first
    ensures forall j: nat :: j in r <==> first <= j < end
    decreases end - first
  {
    if first == end then {} else {first} + Range(first + 1, end)
  }

  /** m creations have inserted and those up to n have passed the count. */
  ghost function Stage(m: nat, n: nat): State
    requires m <= n
  {
    State(FirstNats(2 + m), Range(2 + m, 2 + n))
  }

  lemma OnePasses(n: nat)
    ensures Enabled(Stage(0, n), Count(2 + n)) && Next(Stage(0, n), Count(2 + n)) == Stage(0, n + 1)
  {
    assert Range(2, 2 + n) + {2 + n} == Range(2, 3 + n);
  }

  lemma OneInserts(m: nat, n: nat)
    requires m < n
    ensures Enabled(Stage(m, n), Insert(2 + m)) && Next(Stage(m, n), Insert(2 + m)) == Stage(m + 1, n)
  {
    assert Range(2 + m, 2 + n) - {2 + m} == Range(3 + m, 2 + n);
    assert FirstNats(2 + m) + {2 + m} == FirstNats(3 + m);
  }

  lemma StagePasses(before: seq<Step>, k: nat, n: nat) returns (steps: seq<Step>)
    requires n < k && Reaches(before, k, Stage(0, n))
    ensures Reaches(steps, k, Stage(0, n + 1))
  {
    OnePasses(n);
    assert |Stage(0, n + 1).passed| <= k;
    OneMoreStep(before, k, Stage(0, n), Count(2 + n), Stage(0, n + 1));
    steps := before + [Count(2 + n)];
  }

  lemma StageInserts(before: seq<Step>, k: nat, m: nat, n: nat) returns (steps: seq<Step>)
    requires m < n <= k && Reaches(before, k, Stage(m, n))
    ensures Reaches(steps, k, Stage(m + 1, n))
  {
    OneInserts(m, n);
    assert |Stage(m + 1, n).passed| <= k;
    OneMoreStep(before, k, Stage(m, n), Insert(2 + m), Stage(m + 1, n));
    steps := before + [Insert(2 + m)];
  }

  /** First n creations count two rows, then m of them insert. */
  lemma StageIsReached(k: nat, m: nat, n: nat) returns (steps: seq<Step>)
    requires 1 <= k && m <= n <= k
    ensures Reaches(steps, k, Stage(m, n))
  {
    steps := TwoRows(k);
    assert Stage(0, 0) == State(FirstNats(2), {});
    for i := 0 to n
      invariant Reaches(steps, k, Stage(0, i))
    {
      steps := StagePasses(steps, k, i);
    }
    for i := 0 to m
      invariant Reaches(steps, k, Stage(i, n))
    {
      steps := StageInserts(steps, k, i, n);
    }
  }

  /** The bound is reached for every k; four rows need only two creations that overlap. */
  lemma BoundIsReached(k: nat) returns (steps: seq<Step>)
    requires k >= 1
    ensures Run(EMPTY, steps) && Overlap(EMPTY, steps, k) && |After(EMPTY, steps).rows| == 2 + k
  {
    steps := StageIsReached(k, k, k);
  }

  ghost predicate QuotaHolds(k: nat) {
    forall steps :: Run(EMPTY, steps) && Overlap(EMPTY, steps, k) ==> |After(EMPTY, steps).rows| <= 3
  }

  lemma {:induction false} OverlapGrows(s: State, steps: seq<Step>, k: nat, more: nat)
    requires Overlap(s, steps, k) && k <= more
    ensures Overlap(s, steps, more)
    decreases |steps|
  {
    if steps != [] { OverlapGrows(Next(s, steps[0]), steps[1..], k, more); }
  }

  /** The quota holds in all runs if and only if no two creations are between count and insert at once. */
  lemma QuotaHoldsIff(k: nat)
    ensures QuotaHolds(k) <==> k <= 1
  {
    if k <= 1 {
      forall steps | Run(EMPTY, steps) && Overlap(EMPTY, steps, k) ensures |After(EMPTY, steps).rows| <= 3 {
        OverlapGrows(EMPTY, steps, k, 1);
        RowsAreBounded(steps, 1);
      }
    } else {
      var steps := BoundIsReached(k);
    }
  }
}
