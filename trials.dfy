/** Trial labels, caregiver outcomes and the six-trial plan of the call-bell test. */
module Trials {

  /** Number of trials in one test run (the lists in app.py all have six slots). */
  const TrialCount: nat := 6

  /** What the caregiver is told to have the patient do: P = press the bell,
      N = lie down and sit back up without pressing it. */
  datatype Label = P | N

  /** One slot of the results list: Unset is Python's None, T means the bell
      activated, F that it did not. */
  datatype Outcome = Unset | T | F

  /** The radio choice is usable exactly when it is "T" or "F". */
  predicate IsChoice(o: Outcome) {
    o == T || o == F
  }

  /** The pool that random.sample shuffles: three presses, then three non-presses. */
  function Pool(): seq<Label> {
    [P, P, P, N, N, N]
  }

  /** A plan is any ordering of the pool (random.sample(pool, 6) returns a permutation). */
  predicate IsPlan(plan: seq<Label>) {
    |plan| == TrialCount && multiset(plan) == multiset(Pool())
  }

  /** Number of occurrences of a label in a plan. */
  function Count(plan: seq<Label>, l: Label): nat {
    if plan == [] then 0
    else (if plan[0] == l then 1 else 0) + Count(plan[1..], l)
  }

  lemma {:induction false} CountIsMultiplicity(plan: seq<Label>, l: Label)
    ensures Count(plan, l) == multiset(plan)[l]
  {
    if plan != [] {
      CountIsMultiplicity(plan[1..], l);
      assert plan == [plan[0]] + plan[1..];
    }
  }

  /** A sequence is a plan exactly when it has six labels, three of each kind. */
  lemma PlanIsBalanced(plan: seq<Label>)
    ensures IsPlan(plan) <==> |plan| == 6 && Count(plan, P) == 3 && Count(plan, N) == 3
  {
    CountIsMultiplicity(plan, P);
    CountIsMultiplicity(plan, N);
    var pool := multiset(Pool());
    assert pool[P] == 3 && pool[N] == 3;
    if |plan| == 6 && Count(plan, P) == 3 && Count(plan, N) == 3 {
      forall l: Label ensures multiset(plan)[l] == pool[l] {
        if l == P { } else { assert l == N; }
      }
      assert multiset(plan) == pool;
    }
  }

  /** The completeness check: every result is "T" or "F", tested slot by slot
      from the first, as Python's all() over a generator does. */
  function IsComplete(results: seq<Outcome>): bool {
    if results == [] then true
    else IsChoice(results[0]) && IsComplete(results[1..])
  }

  /** The check passes exactly when no slot is still Unset. */
  lemma {:induction false} IsCompleteIffNoUnset(results: seq<Outcome>)
    ensures IsComplete(results) <==> forall j :: 0 <= j < |results| ==> results[j] != Unset
  {
    if results != [] {
      IsCompleteIffNoUnset(results[1..]);
      assert forall j :: 1 <= j < |results| ==> results[j] == results[1..][j - 1];
    }
  }
}
