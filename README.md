# Universal Call Bell — Test 1: trial sequencing, verified in Dafny

This project models the state machine behind the "Universal Call Bell – Test 1" page (`app.py`).
The page walks a caregiver through six trials in a shuffled order. In a "P" trial the patient
presses the call bell. In an "N" trial the patient lies down and sits back up without pressing it.
For each trial the caregiver records "T" (the bell activated) or "F" (it did not). Once the test
is finished and complete, the page offers the results as a six-row table and a file name stamped
with the time of day.

The model has four modules:

- `Trials` (`trials.dfy`) defines the labels `P | N` and the result slots `Unset | T | F`
  (`Unset` stands for Python's `None`). It also defines the shuffled plan: any ordering of three
  `P` and three `N`. Last, it defines the completeness check, which passes when every result is
  `T` or `F`.
- `Flow` (`flow.dfy`) holds the session state as a value: `press_list`, `results`, `stage`,
  `started` and `finished`. It has one transition per button (Start, Next, Finish) and the effect
  of any sequence of clicks. It also states the session invariant and proves it is kept.
- `Report` (`report.dfy`) builds the table rows `(index, press, activated)` and the PDF loop that
  walks them. It also builds the file name base `HHMM-ucb-test-1` and the completion branch
  (no verdict yet, failure message, or downloads).
- `Session` (`session.dfy`) holds the class `TestSession`. The class keeps the results in a
  six-slot array, and its `Start`, `Next` and `Finish` methods update the session in place. Each
  method is proved to leave the object in exactly the state the matching `Flow` transition gives.

The session invariant is defined in `Flow.Inv`:

- the stage stays in 1..6;
- before the start, nothing is set and the stage is 1;
- while running, the slots before the current stage hold "T"/"F" and the rest are still unset;
- once finished, all six slots are set and the run is no longer active.

From the invariant it follows that every session finished through the buttons passes the
completeness check. So the page's failure message ("at least one stage is missing a result")
cannot be reached by clicking.

`app.py` has only the caregiver-paced flow, with six fixed trials. It has no timed advancement,
no abandon action and no configurable trial count, so this model has none either.

## Model

| member | source | states |
|---|---|---|
| `Trials.PlanIsBalanced` | app.py:18 | A sequence is a plan (a permutation of three "P" and three "N") if and only if it has length 6 and contains each label exactly three times |
| `Trials.IsCompleteIffNoUnset` | app.py:78 | The completeness check passes if and only if no result slot is unset, so any `None` slot makes it fail |
| `Flow.Initial` | app.py:17-26 | A fresh session keeps the given plan, has six unset results, stage 1, and neither started nor finished, and it satisfies the session invariant |
| `Flow.StartStep` | app.py:37-40 | Start is accepted only when neither started nor finished; it sets started and stage 1 and keeps the plan, the results and finished; otherwise nothing changes; the invariant is kept |
| `Flow.NextStep` | app.py:64-68 | Next is accepted only in the active flow below stage 6 with a "T"/"F" choice; it writes the choice into the current stage's slot, advances the stage by one, and keeps every other slot, the plan and both flags; a missing choice changes nothing; the invariant is kept |
| `Flow.FinishStep` | app.py:69-74 | Finish is accepted only in the active flow at stage 6 with a "T"/"F" choice; it writes the last slot, sets finished and clears started, and keeps the other slots, the plan and the stage; otherwise nothing changes; the invariant is kept |
| `Flow.RunKeepsInv` | app.py:17-74 | Any sequence of clicks from a valid session leads to a valid session: stage in 1..6, set slots exactly before the current stage, all six set once finished |
| `Flow.RunKeepsPlan` | app.py:18 | No sequence of clicks changes the trial plan |
| `Flow.FinishedIsTerminal` | app.py:37-44 | Once finished, no click changes anything: neither Start nor the active flow is reachable again |
| `Flow.RecordedResultsStay` | app.py:64-73 | A recorded "T"/"F" result is never overwritten by later clicks |
| `Flow.FinishedRunIsComplete` | app.py:64-78 | Every session finished through the buttons, from a fresh state, passes the completeness check |
| `Flow.FullRunRecordsChoices` | app.py:37-74 | Start, five Next clicks and Finish with "T"/"F" picks finish the session with the results equal to the picks, in stage order, and the plan unchanged |
| `Report.RowsInTrialOrder` | app.py:84-87 | The table has exactly six rows, and row k (1-based) is `(k, press_list[k-1], results[k-1])`, never re-sorted |
| `Report.ColumnsRoundTrip` | app.py:84-87 | Reading the "Press List" and "Activated?" columns back out of the table gives the plan and the results unchanged |
| `Report.PdfTable` | app.py:113-116 | The PDF loop over `range(6)` emits exactly the rows of the table, in the same order |
| `Report.TwoDigits` | app.py:89 | A number below 100 is written as two decimal digits whose value is that number (zero-padded like `%H`/`%M`) |
| `Report.FilenameBase` | app.py:89-90 | The file name base is four digits followed by "-ucb-test-1", and the digits read back as the given hour and minute |
| `Report.Conclude` | app.py:77-90 | There is no verdict before the test is finished; a finished session fails if and only if some slot is unset; otherwise the downloads carry the table, whose columns are the plan and the results and whose activated column holds only "T"/"F", and the file name base |
| `Report.FinishedRunPasses` | app.py:77-82 | No sequence of clicks from a fresh session reaches the failure message |
| `Report.FullRunReport` | app.py:37-90 | A full run with "T"/"F" picks ends in the downloads, with the table pairing the plan with the picks |
| `Session.TestSession.constructor` | app.py:17-26 | The new session holds the given plan, a fresh six-slot results array of `None`, stage 1, and both flags false |
| `Session.TestSession.Start` | app.py:37-41 | The object's new state is the Start transition of the old one; it reports whether the click was accepted |
| `Session.TestSession.Next` | app.py:64-68 | The object's new state (results array, stage, flags) is the Next transition of the old one; it reports whether the click was accepted |
| `Session.TestSession.Finish` | app.py:69-74 | The object's new state is the Finish transition of the old one; it reports whether the click was accepted |
| `Session.CaregiverSession` | app.py:37-90 | Driving one `TestSession` through Start, five Next clicks and Finish with "T"/"F" picks yields the downloads, whose table is the plan paired with the picks |

## Left out

- Shuffling: `random.sample` is not modelled. The plan is a parameter, required to be a permutation of three "P" and three "N", which is what `random.sample` returns.
- The clock: `datetime.now()` is not modelled. The hour and minute are parameters, in the ranges `strftime` produces.
- Page rendering is not modelled: the page configuration, title, columns, briefing text, stage heading, instruction text, messages and `_rerun`. These are presentation only. The radio widget is modelled as the `choice` argument of Next and Finish, with `Unset` for "nothing picked".
- The pandas DataFrame and its CSV serialisation are a foreign library. Only the row sequence handed to them is modelled (`Report.Rows`).
- The FPDF document, its fonts and cell geometry, and the str/bytes latin-1 handling are a foreign library and byte I/O. Only the order of the rows the PDF loop writes is modelled (`Report.PdfTable`).
- The download buttons and the `st.dataframe` display are I/O.
- Reruns are modelled as one transition per click. Streamlit's re-execution of the script, the widget keys and the persistence of `st.session_state` across reruns are host behaviour.
