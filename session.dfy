/** The session state of app.py as an object whose buttons update it in place. */
module Session {
  import opened Trials
  import opened Flow
  import opened Report

  class TestSession {
    /** press_list: drawn once when the session state is created, never written again. */
    const pressList: seq<Label>
    /** results: six slots, written one at a time by Next and Finish. */
    const results: array<Outcome>
    var stage: int
    var started: bool
    var finished: bool

    /** The session state as a value. */
    function State(): Snapshot
      reads this, results
    {
      Snapshot(pressList, results[..], stage, started, finished)
    }

    ghost predicate Valid()
      reads this, results
    {
      Inv(State())
    }

    /** Session-state initialisation: the given shuffled plan, six empty slots,
        stage 1, neither started nor finished. */
    constructor (plan: seq<Label>)
      requires IsPlan(plan)
      ensures Valid() && fresh(results)
      ensures State() == Initial(plan)
    {
      pressList := plan;
      results := new Outcome[TrialCount](_ => Unset);
      stage := 1;
      started := false;
      finished := false;
      new;
      assert results[..] == Initial(plan).results;
    }

    /** The start button: accepted only while neither started nor finished. */
    method Start() returns (accepted: bool)
      requires Valid()
      modifies this
      ensures Valid()
      ensures accepted == StartEnabled(old(State()))
      ensures State() == StartStep(old(State()))
    {
      accepted := false;
      if !started && !finished {
        started := true;
        stage := 1;
        accepted := true;
      }
    }

    /** The Next button (stages 1 to 5): records the choice for the current stage
        and moves to the next one; disabled without a "T"/"F" choice. */
    method Next(choice: Outcome) returns (accepted: bool)
      requires Valid()
      modifies this, results
      ensures Valid()
      ensures accepted == NextEnabled(old(State()), choice)
      ensures State() == NextStep(old(State()), choice)
    {
      accepted := false;
      if started && !finished {
        var i := stage;
        if stage < TrialCount && IsChoice(choice) {
          results[i - 1] := choice;
          stage := stage + 1;
          accepted := true;
        }
      }
    }

    /** The Finish button (stage 6): records the last choice and ends the run;
        disabled without a "T"/"F" choice. */
    method Finish(choice: Outcome) returns (accepted: bool)
      requires Valid()
      modifies this, results
      ensures Valid()
      ensures accepted == FinishEnabled(old(State()), choice)
      ensures State() == FinishStep(old(State()), choice)
    {
      accepted := false;
      if started && !finished {
        var i := stage;
        if !(stage < TrialCount) && IsChoice(choice) {
          results[i - 1] := choice;
          finished := true;
          started := false;
          accepted := true;
        }
      }
    }
  }

  /** A caregiver's whole session through the page: Start, a "T"/"F" pick and
      Next at stages 1 to 5, a pick and Finish at stage 6, then the completion
      branch at the given time of day. Every click is accepted and the report
      pairs the plan with the picks in stage order. */
  method CaregiverSession(plan: seq<Label>, choices: seq<Outcome>, hour: int, minute: int)
    returns (report: Conclusion)
    requires IsPlan(plan) && |choices| == TrialCount && 0 <= hour < 24 && 0 <= minute < 60
    requires forall k :: 0 <= k < TrialCount ==> IsChoice(choices[k])
    ensures report == TestPassed(Rows(plan, choices), FilenameBase(hour, minute))
  {
    var session := new TestSession(plan);
    var ok := session.Start();
    assert ok;
    for k := 0 to TrialCount - 1
      invariant session.Valid() && session.pressList == plan
      invariant session.started && !session.finished && session.stage == k + 1
      invariant session.results[..k] == choices[..k]
    {
      ok := session.Next(choices[k]);
      assert session.results[..k + 1] == session.results[..k] + [choices[k]];
    }
    ok := session.Finish(choices[TrialCount - 1]);
    assert session.results[..] == choices;
    IsCompleteIffNoUnset(choices);
    report := Conclude(session.State(), hour, minute);
  }
}
