/** The results table handed to the CSV and PDF writers, and the name of the
    downloaded files. */
module Report {
  import opened Trials
  import opened Flow

  /** One row of the table: its 1-based index, the "Press List" column and the
      "Activated?" column. */
  datatype Row = Row(index: int, press: Label, activated: Outcome)

  /** Pairs the two columns position by position, numbering rows from `first`. */
  function Zip(press: seq<Label>, activated: seq<Outcome>, first: int): seq<Row>
    requires |press| == |activated|
  {
    if press == [] then []
    else [Row(first, press[0], activated[0])] + Zip(press[1..], activated[1..], first + 1)
  }

  lemma {:induction false} ZipAt(press: seq<Label>, activated: seq<Outcome>, first: int, k: int)
    requires |press| == |activated| && 0 <= k < |press|
    ensures |Zip(press, activated, first)| == |press|
    ensures Zip(press, activated, first)[k] == Row(first + k, press[k], activated[k])
  {
    if k > 0 {
      ZipAt(press[1..], activated[1..], first + 1, k - 1);
    } else {
      ZipLength(press[1..], activated[1..], first + 1);
    }
  }

  lemma {:induction false} ZipLength(press: seq<Label>, activated: seq<Outcome>, first: int)
    requires |press| == |activated|
    ensures |Zip(press, activated, first)| == |press|
  {
    if press != [] {
      ZipLength(press[1..], activated[1..], first + 1);
    }
  }

  /** The DataFrame of the report: the plan and the results as two columns,
      indexed 1 to 6. */
  function Rows(pressList: seq<Label>, results: seq<Outcome>): seq<Row>
    requires |pressList| == TrialCount && |results| == TrialCount
  {
    Zip(pressList, results, 1)
  }

  /** The row at position k carries index k + 1, trial k of the plan and result k:
      six rows in trial order, never re-sorted. */
  lemma RowsInTrialOrder(pressList: seq<Label>, results: seq<Outcome>)
    requires |pressList| == TrialCount && |results| == TrialCount
    ensures |Rows(pressList, results)| == TrialCount
    ensures forall k :: 0 <= k < TrialCount ==>
              Rows(pressList, results)[k] == Row(k + 1, pressList[k], results[k])
  {
    ZipLength(pressList, results, 1);
    forall k | 0 <= k < TrialCount
      ensures Rows(pressList, results)[k] == Row(k + 1, pressList[k], results[k])
    {
      ZipAt(pressList, results, 1, k);
    }
  }

  function PressColumn(rows: seq<Row>): (col: seq<Label>)
    ensures |col| == |rows|
  {
    seq(|rows|, k requires 0 <= k < |rows| => rows[k].press)
  }

  function ActivatedColumn(rows: seq<Row>): (col: seq<Outcome>)
    ensures |col| == |rows|
  {
    seq(|rows|, k requires 0 <= k < |rows| => rows[k].activated)
  }

  /** Reading the columns back out of the table gives the plan and the results unchanged. */
  lemma ColumnsRoundTrip(pressList: seq<Label>, results: seq<Outcome>)
    requires |pressList| == TrialCount && |results| == TrialCount
    ensures PressColumn(Rows(pressList, results)) == pressList
    ensures ActivatedColumn(Rows(pressList, results)) == results
  {
    RowsInTrialOrder(pressList, results);
  }

  /** The PDF table: for i in range(6), one row of index i + 1, column 0 and column 1
      of the DataFrame. */
  method PdfTable(pressColumn: seq<Label>, activatedColumn: seq<Outcome>) returns (table: seq<Row>)
    requires |pressColumn| == TrialCount && |activatedColumn| == TrialCount
    ensures table == Rows(pressColumn, activatedColumn)
  {
    table := [];
    for i := 0 to TrialCount
      invariant |table| == i
      invariant forall k :: 0 <= k < i ==> table[k] == Row(k + 1, pressColumn[k], activatedColumn[k])
    {
      table := table + [Row(i + 1, pressColumn[i], activatedColumn[i])];
    }
    RowsInTrialOrder(pressColumn, activatedColumn);
  }

  /** Fixed suffix of the file names. */
  function Suffix(): string {
    "-ucb-test-1"
  }

  predicate IsDigit(c: char) {
    '0' <= c <= '9'
  }

  function DigitValue(c: char): int {
    c as int - '0' as int
  }

  /** Zero-padded two-digit decimal, as strftime writes %H and %M. */
  function TwoDigits(n: int): (s: string)
    requires 0 <= n < 100
    ensures |s| == 2 && IsDigit(s[0]) && IsDigit(s[1])
    ensures 10 * DigitValue(s[0]) + DigitValue(s[1]) == n
  {
    [('0' as int + n / 10) as char, ('0' as int + n % 10) as char]
  }

  /** The hour and minute read back from the first four characters of a name. */
  function ParseStamp(name: string): (int, int)
    requires |name| >= 4
  {
    (10 * DigitValue(name[0]) + DigitValue(name[1]), 10 * DigitValue(name[2]) + DigitValue(name[3]))
  }

  /** The file name base: the time of day as HHMM followed by "-ucb-test-1". */
  function FilenameBase(hour: int, minute: int): (name: string)
    requires 0 <= hour < 24 && 0 <= minute < 60
    ensures |name| == 4 + |Suffix()|
    ensures forall k :: 0 <= k < 4 ==> IsDigit(name[k])
    ensures name[4..] == Suffix()
    ensures ParseStamp(name) == (hour, minute)
  {
    TwoDigits(hour) + TwoDigits(minute) + Suffix()
  }

  /** What the page shows once the test has ended. */
  datatype Conclusion =
    | InProgress                                      // not finished: no verdict yet
    | TestFailed                                      // finished with a missing result
    | TestPassed(rows: seq<Row>, filenameBase: string) // the downloads

  /** The completion branch: only a finished session is judged; it fails if
      any result is missing and otherwise yields the table and the file name. */
  function Conclude(s: Snapshot, hour: int, minute: int): (c: Conclusion)
    requires WellFormed(s) && 0 <= hour < 24 && 0 <= minute < 60
    ensures c.InProgress? <==> !s.finished
    ensures c.TestFailed? <==> s.finished && exists j :: 0 <= j < TrialCount && s.results[j] == Unset
    ensures c.TestPassed? ==> PressColumn(c.rows) == s.pressList && ActivatedColumn(c.rows) == s.results
    ensures c.TestPassed? ==>
              forall k :: 0 <= k < |c.rows| ==> c.rows[k].index == k + 1 && IsChoice(c.rows[k].activated)
    ensures c.TestPassed? ==> c.filenameBase == FilenameBase(hour, minute)
  {
    IsCompleteIffNoUnset(s.results);
    RowsInTrialOrder(s.pressList, s.results);
    ColumnsRoundTrip(s.pressList, s.results);
    if !s.finished then InProgress
    else if !IsComplete(s.results) then TestFailed
    else TestPassed(Rows(s.pressList, s.results), FilenameBase(hour, minute))
  }

  /** The failure message is unreachable through the buttons: every session the
      caregiver finishes produces the report. */
  lemma FinishedRunPasses(plan: seq<Label>, clicks: seq<Click>, hour: int, minute: int)
    requires IsPlan(plan) && 0 <= hour < 24 && 0 <= minute < 60
    ensures WellFormed(Run(Initial(plan), clicks))
    ensures !Conclude(Run(Initial(plan), clicks), hour, minute).TestFailed?
  {
    FinishedRunIsComplete(plan, clicks);
    IsCompleteIffNoUnset(Run(Initial(plan), clicks).results);
  }

  /** The report of a full run lists the plan beside the caregiver's choices. */
  lemma FullRunReport(plan: seq<Label>, choices: seq<Outcome>, hour: int, minute: int)
    requires IsPlan(plan) && |choices| == TrialCount && 0 <= hour < 24 && 0 <= minute < 60
    requires forall k :: 0 <= k < TrialCount ==> IsChoice(choices[k])
    ensures WellFormed(Run(Initial(plan), FullRun(choices)))
    ensures Conclude(Run(Initial(plan), FullRun(choices)), hour, minute)
              == TestPassed(Rows(plan, choices), FilenameBase(hour, minute))
  {
    FullRunRecordsChoices(plan, choices);
    IsCompleteIffNoUnset(choices);
  }
}
