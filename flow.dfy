/** The trial-sequencing state machine of app.py as a pure reducer: a snapshot of
    the session state and one transition per button. */
module Flow {
  import opened Trials

  /** The five session-state entries: press_list, results, stage, started, finished. */
  datatype Snapshot = Snapshot(
    pressList: seq<Label>,
    results: seq<Outcome>,
    stage: int,
    started: bool,
    finished: bool)

  /** The buttons the caregiver can click; Next and Finish carry the radio choice. */
  datatype Click = StartClick | NextClick(choice: Outcome) | FinishClick(choice: Outcome)

  /** The shape every transition needs: six labels, six slots and a stage that
      indexes them (1-based). */
  predicate WellFormed(s: Snapshot) {
    |s.pressList| == TrialCount && |s.results| == TrialCount && 1 <= s.stage <= TrialCount
  }

  /** The session invariant: a balanced plan; before the start everything is
      fresh; while running, exactly the slots before the current stage are set;
      once finished, all six are set and the run is over. */
  predicate Inv(s: Snapshot) {
    && WellFormed(s)
    && IsPlan(s.pressList)
    && !(s.started && s.finished)
    && (!s.started && !s.finished ==> s.stage == 1)
    && (s.finished ==> s.stage == TrialCount)
    && forall j :: 0 <= j < |s.results| ==>
         (IsChoice(s.results[j]) <==> j < s.stage - 1 || s.finished)
  }

  /** Fresh session state, before the start button is clicked. */
  function Initial(plan: seq<Label>): (s: Snapshot)
    requires IsPlan(plan)
    ensures Inv(s) && s.pressList == plan
    ensures forall j :: 0 <= j < |s.results| ==> s.results[j] == Unset
    ensures s.stage == 1 && !s.started && !s.finished
  {
    Snapshot(plan, seq(TrialCount, _ => Unset), 1, false, false)
  }

  /** The start button is shown only while neither started nor finished. */
  predicate StartEnabled(s: Snapshot) {
    !s.started && !s.finished
  }

  /** The Next button is shown in the active flow below stage 6 and is enabled
      only for a "T"/"F" choice. */
  predicate NextEnabled(s: Snapshot, choice: Outcome) {
    s.started && !s.finished && s.stage < TrialCount && IsChoice(choice)
  }

  /** The Finish button is shown in the active flow at stage 6 and is enabled
      only for a "T"/"F" choice. */
  predicate FinishEnabled(s: Snapshot, choice: Outcome) {
    s.started && !s.finished && !(s.stage < TrialCount) && IsChoice(choice)
  }

  function StartStep(s: Snapshot): (r: Snapshot)
    requires WellFormed(s)
    ensures WellFormed(r) && (Inv(s) ==> Inv(r))
    ensures r.pressList == s.pressList && r.results == s.results && r.finished == s.finished
    ensures StartEnabled(s) ==> r.started && r.stage == 1
    ensures !StartEnabled(s) ==> r == s
  {
    if !s.started && !s.finished then s.(started := true, stage := 1) else s
  }

  function NextStep(s: Snapshot, choice: Outcome): (r: Snapshot)
    requires WellFormed(s)
    ensures WellFormed(r) && (Inv(s) ==> Inv(r))
    ensures r.pressList == s.pressList && r.started == s.started && r.finished == s.finished
    ensures NextEnabled(s, choice) ==>
              r.stage == s.stage + 1 && r.results[s.stage - 1] == choice &&
              forall j :: 0 <= j < TrialCount && j != s.stage - 1 ==> r.results[j] == s.results[j]
    ensures !NextEnabled(s, choice) ==> r == s
  {
    if s.started && !s.finished && s.stage < TrialCount && IsChoice(choice) then
      var i := s.stage;
      s.(results := s.results[i - 1 := choice], stage := i + 1)
    else
      s
  }

  function FinishStep(s: Snapshot, choice: Outcome): (r: Snapshot)
    requires WellFormed(s)
    ensures WellFormed(r) && (Inv(s) ==> Inv(r))
    ensures r.pressList == s.pressList && r.stage == s.stage
    ensures FinishEnabled(s, choice) ==>
              r.finished && !r.started && r.results[TrialCount - 1] == choice &&
              forall j :: 0 <= j < TrialCount - 1 ==> r.results[j] == s.results[j]
    ensures !FinishEnabled(s, choice) ==> r == s
  {
    if s.started && !s.finished && !(s.stage < TrialCount) && IsChoice(choice) then
      var i := s.stage;
      s.(results := s.results[i - 1 := choice], finished := true, started := false)
    else
      s
  }

  /** The effect of one click. */
  function Step(s: Snapshot, c: Click): Snapshot
    requires WellFormed(s)
  {
    match c
    case StartClick => StartStep(s)
    case NextClick(choice) => NextStep(s, choice)
    case FinishClick(choice) => FinishStep(s, choice)
  }

  /** The state after a sequence of clicks, one rerun per click. */
  function Run(s: Snapshot, clicks: seq<Click>): Snapshot
    requires WellFormed(s)
    decreases |clicks|
  {
    if clicks == [] then s else Run(Step(s, clicks[0]), clicks[1..])
  }

  /** Every state the buttons can reach from a valid state is valid. */
  lemma {:induction false} RunKeepsInv(s: Snapshot, clicks: seq<Click>)
    requires Inv(s)
    ensures WellFormed(Run(s, clicks)) && Inv(Run(s, clicks))
    decreases |clicks|
  {
    if clicks != [] {
      RunKeepsInv(Step(s, clicks[0]), clicks[1..]);
    }
  }

  /** No click ever changes the plan. */
  lemma {:induction false} RunKeepsPlan(s: Snapshot, clicks: seq<Click>)
    requires WellFormed(s)
    ensures Run(s, clicks).pressList == s.pressList
    decreases |clicks|
  {
    if clicks != [] {
      RunKeepsPlan(Step(s, clicks[0]), clicks[1..]);
    }
  }

  /** Once finished, no click changes anything: Start, Next and Finish are all hidden. */
  lemma {:induction false} FinishedIsTerminal(s: Snapshot, clicks: seq<Click>)
    requires WellFormed(s) && s.finished
    ensures Run(s, clicks) == s
    decreases |clicks|
  {
    if clicks != [] {
      assert Step(s, clicks[0]) == s;
      FinishedIsTerminal(s, clicks[1..]);
    }
  }

  /** Results, once recorded, are never overwritten: a set slot keeps its value. */
  lemma {:induction false} RecordedResultsStay(s: Snapshot, clicks: seq<Click>, j: int)
    requires Inv(s) && 0 <= j < TrialCount && IsChoice(s.results[j])
    ensures WellFormed(Run(s, clicks)) && Run(s, clicks).results[j] == s.results[j]
    decreases |clicks|
  {
    if clicks != [] {
      var s' := Step(s, clicks[0]);
      assert s'.results[j] == s.results[j];
      RunKeepsInv(s', clicks[1..]);
      RecordedResultsStay(s', clicks[1..], j);
    }
  }

  /** A session finished through the buttons passes the completeness check. */
  lemma FinishedRunIsComplete(plan: seq<Label>, clicks: seq<Click>)
    requires IsPlan(plan)
    ensures WellFormed(Run(Initial(plan), clicks))
    ensures Run(Initial(plan), clicks).finished ==> IsComplete(Run(Initial(plan), clicks).results)
  {
    var s := Run(Initial(plan), clicks);
    RunKeepsInv(Initial(plan), clicks);
    IsCompleteIffNoUnset(s.results);
  }

  /** The clicks of a full run: Start, five Next clicks, then Finish. */
  function FullRun(choices: seq<Outcome>): (clicks: seq<Click>)
    requires |choices| == TrialCount
    ensures |clicks| == TrialCount + 1
  {
    [StartClick] + seq(TrialCount - 1, k requires 0 <= k < TrialCount - 1 => NextClick(choices[k]))
      + [FinishClick(choices[TrialCount - 1])]
  }

  /** A caregiver who picks "T" or "F" at every stage finishes the test and the
      results are exactly those choices, in stage order. */
  lemma FullRunRecordsChoices(plan: seq<Label>, choices: seq<Outcome>)
    requires IsPlan(plan) && |choices| == TrialCount
    requires forall k :: 0 <= k < TrialCount ==> IsChoice(choices[k])
    ensures WellFormed(Run(Initial(plan), FullRun(choices)))
    ensures Run(Initial(plan), FullRun(choices)).finished
    ensures Run(Initial(plan), FullRun(choices)).results == choices
    ensures Run(Initial(plan), FullRun(choices)).pressList == plan
  {
    var cs := FullRun(choices);
    var s0 := Initial(plan);
    var s1 := StartStep(s0);
    var s2 := NextStep(s1, choices[0]);
    var s3 := NextStep(s2, choices[1]);
    var s4 := NextStep(s3, choices[2]);
    var s5 := NextStep(s4, choices[3]);
    var s6 := NextStep(s5, choices[4]);
    var s7 := FinishStep(s6, choices[5]);
    var c1 := cs[1..];
    var c2 := c1[1..];
    var c3 := c2[1..];
    var c4 := c3[1..];
    var c5 := c4[1..];
    var c6 := c5[1..];
    var c7 := c6[1..];
    assert cs[0] == StartClick && c1[0] == NextClick(choices[0]) && c2[0] == NextClick(choices[1]);
    assert c3[0] == NextClick(choices[2]) && c4[0] == NextClick(choices[3]) && c5[0] == NextClick(choices[4]);
    assert c6[0] == FinishClick(choices[5]) && c7 == [];
    calc {
      Run(s0, cs);
      Run(s1, c1);
      Run(s2, c2);
      Run(s3, c3);
      Run(s4, c4);
      Run(s5, c5);
      Run(s6, c6);
      Run(s7, c7);
      s7;
    }
    assert s7.results == choices;
  }
}
