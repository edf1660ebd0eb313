/** What the scripts make of a finished run: the not-found message, the
    output file name, the renamed date columns and the two sheets of the
    workbook. */
module Report {
  import opened Basics
  import opened Dates
  import opened Roster
  import opened Reconciliation
  import opened ReconciliationFacts
  import opened Aggregation

  // ---------------------------------------------------------------------
  // The not-found message

  /** One entry of the English message: `f"{name} ({date})"`. */
  function MissLine(m: Miss): string {
    m.name + " (" + m.day + ")"
  }

  /** `"\n".join(...)` over the entries, in the order they were recorded. */
  function JoinLines(missing: seq<Miss>): string {
    if missing == [] then ""
    else if |missing| == 1 then MissLine(missing[0])
    else JoinLines(missing[..|missing| - 1]) + "\n" + MissLine(missing[|missing| - 1])
  }

  function PromptHeader(v: Variant): string {
    match v
    case English => "These usernames were not found:\n"
    case Norwegian => "Disse brukernavnene finnes ikke:\n"
  }

  /** The text of the dialog shown after the loop (attendance_list.py lines
      171-177, oppmListe2.py lines 107-108). The English edition tests the
      list and joins it; the Norwegian one tests and shows the running
      `notFound` text. `None` stands for the "all found" message instead. */
  function NotFoundPrompt(v: Variant, missing: seq<Miss>): (r: Option<string>)
    ensures r.Some? <==> missing != []
    ensures r.Some? ==> |PromptHeader(v)| <= |r.value| && r.value[..|PromptHeader(v)|] == PromptHeader(v)
  {
    match v
    case English => if missing != [] then Some(PromptHeader(v) + JoinLines(missing)) else None
    case Norwegian => if NotFoundLog(missing) != "" then Some(PromptHeader(v) + NotFoundLog(missing)) else None
  }

  /** The Norwegian running text is the English joined message with one
      more line break at the end. */
  lemma {:induction false} MessagesAgree(missing: seq<Miss>)
    requires missing != []
    ensures NotFoundLog(missing) == JoinLines(missing) + "\n"
    decreases |missing|
  {
    var last := missing[|missing| - 1];
    if |missing| == 1 {
      assert missing[..0] == [];
    } else {
      MessagesAgree(missing[..|missing| - 1]);
      calc {
        NotFoundLog(missing);
        NotFoundLog(missing[..|missing| - 1]) + NotFoundLine(last);
        JoinLines(missing[..|missing| - 1]) + "\n" + (MissLine(last) + "\n");
        JoinLines(missing) + "\n";
      }
    }
  }

  /** The text grows by one line per entry, in the order of the entries:
      the running text of a longer record extends that of its prefix. */
  lemma {:induction false} NotFoundLogAppend(a: seq<Miss>, b: seq<Miss>)
    ensures NotFoundLog(a + b) == NotFoundLog(a) + NotFoundLog(b)
    decreases |b|
  {
    if b == [] {
      assert a + b == a;
    } else {
      var init, x := b[..|b| - 1], b[|b| - 1];
      assert (a + b)[..|a + b| - 1] == a + init;
      assert (a + b)[|a + b| - 1] == x;
      NotFoundLogAppend(a, init);
      calc {
        NotFoundLog(a + b);
        NotFoundLog(a + init) + NotFoundLine(x);
        NotFoundLog(a) + NotFoundLog(init) + NotFoundLine(x);
        NotFoundLog(a) + (NotFoundLog(init) + NotFoundLine(x));
        NotFoundLog(a) + NotFoundLog(b);
      }
    }
  }

  /** Both editions show a dialog for the same records, and they differ
      only in the header and in one trailing line break. */
  lemma PromptsAgree(missing: seq<Miss>)
    ensures NotFoundPrompt(English, missing).Some? <==> NotFoundPrompt(Norwegian, missing).Some?
    ensures missing != [] ==>
              && NotFoundPrompt(English, missing).value == PromptHeader(English) + JoinLines(missing)
              && NotFoundPrompt(Norwegian, missing).value == PromptHeader(Norwegian) + JoinLines(missing) + "\n"
  {
    if missing != [] {
      MessagesAgree(missing);
    }
  }

  // ---------------------------------------------------------------------
  // The output file name

  /** `file[:-5]`: the chosen workbook's path without its `.xlsx`; a name
      of fewer than five characters leaves nothing. */
  function Stem(file: string): (r: string)
    ensures |r| == if |file| >= 5 then |file| - 5 else 0
    ensures r == file[..|r|]
  {
    if |file| >= 5 then file[..|file| - 5] else ""
  }

  function FromWord(v: Variant): string {
    match v
    case English => "_from_"
    case Norwegian => "_fra_"
  }

  function ToWord(v: Variant): string {
    match v
    case English => "_to_"
    case Norwegian => "_til_"
  }

  /** A string framed by `p` and `x` starts with `p` and ends with `x`. */
  lemma Framed(p: string, mid: string, x: string)
    ensures var r := p + mid + x;
            && |r| == |p| + |mid| + |x|
            && r[..|p|] == p && r[|p|..|p| + |mid|] == mid && r[|p| + |mid|..] == x
  {
  }

  /** Where each piece of `a + w + b` sits. */
  lemma Pieces(a: string, w: string, b: string)
    ensures var r := a + w + b;
            && |r| == |a| + |w| + |b|
            && r[..|a|] == a && r[|a|..|a| + |w|] == w && r[|a| + |w|..] == b
  {
  }

  /** The two dates and the word between them. */
  function DatePart(v: Variant, first: Option<Date>, last: Option<Date>): string
    requires first.Some? ==> ValidDate(first.value)
    requires last.Some? ==> ValidDate(last.value)
  {
    ShortDateOr(first) + ToWord(v) + ShortDateOr(last)
  }

  /** attendance_list.py lines 206-209, oppmListe2.py line 128. */
  function OutputName(v: Variant, file: string, first: Option<Date>, last: Option<Date>): (r: string)
    requires first.Some? ==> ValidDate(first.value)
    requires last.Some? ==> ValidDate(last.value)
    ensures |Stem(file) + FromWord(v)| <= |r| && r[..|Stem(file) + FromWord(v)|] == Stem(file) + FromWord(v)
    ensures |r| >= 5 && r[|r| - 5..] == ".xlsx"
  {
    Framed(Stem(file) + FromWord(v), DatePart(v, first, last), ".xlsx");
    Stem(file) + FromWord(v) + DatePart(v, first, last) + ".xlsx"
  }

  /** Where the first date sits in the name. */
  function FirstAt(v: Variant, file: string): nat {
    |Stem(file)| + |FromWord(v)|
  }

  /** Where the last date sits in the name. */
  function LastAt(v: Variant, file: string): nat {
    FirstAt(v, file) + 10 + |ToWord(v)|
  }

  /** The name can be read back: with both dates known it is exactly as
      long as the two ten-character dates need, and each date parses back
      from its place. */
  lemma OutputNameReadsBack(v: Variant, file: string, first: Option<Date>, last: Option<Date>)
    requires first.Some? && ValidDate(first.value)
    requires last.Some? && ValidDate(last.value)
    ensures var r := OutputName(v, file, first, last);
            && |r| == LastAt(v, file) + 15
            && ParseDate(r[FirstAt(v, file)..FirstAt(v, file) + 10]) == first
            && r[FirstAt(v, file) + 10..LastAt(v, file)] == ToWord(v)
            && ParseDate(r[LastAt(v, file)..LastAt(v, file) + 10]) == last
  {
    var r, mid := OutputName(v, file, first, last), DatePart(v, first, last);
    var a, b := ShortDate(first.value), ShortDate(last.value);
    var k, m := FirstAt(v, file), LastAt(v, file);
    Framed(Stem(file) + FromWord(v), mid, ".xlsx");
    Pieces(a, ToWord(v), b);
    assert r[k..k + |mid|] == mid;
    assert r[k..k + 10] == mid[..10] == a;
    assert r[k + 10..m] == mid[10..10 + |ToWord(v)|] == ToWord(v);
    assert r[m..m + 10] == mid[10 + |ToWord(v)|..] == b;
    ParseShortDate(first.value);
    ParseShortDate(last.value);
  }

  // ---------------------------------------------------------------------
  // The workbook

  /** The date columns renamed by `strftime("%d.%m")`, in column order. */
  function Labels(cols: seq<Date>): (r: seq<string>)
    requires forall k :: 0 <= k < |cols| ==> ValidDate(cols[k])
    ensures |r| == |cols|
    ensures forall k :: 0 <= k < |cols| ==> r[k] == DayMonth(cols[k])
  {
    seq(|cols|, k requires 0 <= k < |cols| => DayMonth(cols[k]))
  }

  /** What is written: the file name, the date labels of the attendance
      sheet and its rows, and the not-found sheet (no such sheet when the
      record is empty). */
  datatype Workbook = Workbook(name: string, labels: seq<string>, attendance: seq<Row>, notFound: seq<Miss>)

  /** How the program ends: a written workbook, an exit on the operator's
      request, or a date cell `format_date` cannot read. */
  datatype Ending = Written(book: Workbook) | Exited | Failed(sheet: nat)

  /** attendance_list.py lines 188-219, oppmListe2.py lines 116-139: the
      outcome of the run turned into the program's ending. */
  function Finish(v: Variant, file: string, n: nat, o: Outcome): Ending
    requires o.Completed? ==> DatesValid(o.tally)
  {
    match o
    case Aborted => Exited
    case BadDate(i) => Failed(i)
    case Completed(t) =>
      Written(Workbook(OutputName(v, file, t.first, t.last), Labels(t.columns),
                       Summary(v, t.marks, t.columns, n), t.missing))
  }

  /** The whole program once the dialogs have been answered: the class
      list is cleaned, the sheets are reconciled, and the summary is
      written under its name. */
  function Attendance(v: Variant, custom: bool, file: string, students: seq<Student>, sheets: seq<Sheet>, script: seq<Option<string>>): Ending {
    var roster := CleanRoster(v, students);
    var o := Reconciled(roster, custom, sheets, script);
    if o.Completed? then
      ReconciledDatesValid(roster, custom, sheets, script);
      Finish(v, file, |students|, o)
    else
      Finish(v, file, |students|, o)
  }

  /** The tally a finished run ends with. */
  ghost function FinalTally(v: Variant, custom: bool, students: seq<Student>, sheets: seq<Sheet>, script: seq<Option<string>>): Tally
    requires Reconciled(CleanRoster(v, students), custom, sheets, script).Completed?
  {
    Reconciled(CleanRoster(v, students), custom, sheets, script).tally
  }

  /** The written name carries the run's first and last dates where
      they can be read back, or `None` twice when no sheet was read. */
  lemma FinishNamesDates(v: Variant, file: string, n: nat, t: Tally)
    requires DatesValid(t)
    ensures var name := Finish(v, file, n, Completed(t)).book.name;
            && (t.first.Some? && t.last.Some? ==>
                  && |name| == LastAt(v, file) + 15
                  && ParseDate(name[FirstAt(v, file)..FirstAt(v, file) + 10]) == t.first
                  && ParseDate(name[LastAt(v, file)..LastAt(v, file) + 10]) == t.last)
            && (t.first.None? && t.last.None? ==>
                  name == Stem(file) + FromWord(v) + ("None" + ToWord(v) + "None") + ".xlsx")
  {
    if t.first.Some? && t.last.Some? {
      OutputNameReadsBack(v, file, t.first, t.last);
    }
  }

  /** The file name carries the dates of sheet 1 and of the last sheet, by
      position; a workbook with no sheet after sheet 0 is named with `None`
      twice. */
  lemma NameCarriesSheetDates(v: Variant, custom: bool, file: string, students: seq<Student>, sheets: seq<Sheet>, script: seq<Option<string>>)
    requires Attendance(v, custom, file, students, sheets, script).Written?
    ensures var name := Attendance(v, custom, file, students, sheets, script).book.name;
            if |sheets| > 1 then
              && |name| == LastAt(v, file) + 15
              && ParseDate(sheets[1].dateText).Some?
              && ParseDate(name[FirstAt(v, file)..FirstAt(v, file) + 10]) == ParseDate(sheets[1].dateText)
              && ParseDate(sheets[|sheets| - 1].dateText).Some?
              && ParseDate(name[LastAt(v, file)..LastAt(v, file) + 10]) == ParseDate(sheets[|sheets| - 1].dateText)
            else
              name == Stem(file) + FromWord(v) + ("None" + ToWord(v) + "None") + ".xlsx"
  {
    var roster := CleanRoster(v, students);
    var sessions := Sessions(sheets);
    var t := FinalTally(v, custom, students, sheets, script);
    FirstAndLastBySheetPosition(roster, custom, sheets, script);
    ReconciledDatesValid(roster, custom, sheets, script);
    CompletedRunReadEveryDate(roster, custom, sessions, 1, Initial(script));
    if |sheets| > 1 {
      assert sessions[1].date.Some? && sessions[|sheets| - 1].date.Some?;
    }
    FinishNamesDates(v, file, |students|, t);
  }

  /** Every entry row's `TimesPresent` counts the sessions the student was
      marked in, and when anyone attended the last row is the totals row
      with its own sum hidden and, under each date, the number of students
      marked on that date. */
  lemma RowsHoldCounts(v: Variant, custom: bool, file: string, students: seq<Student>, sheets: seq<Sheet>, script: seq<Option<string>>)
    requires Attendance(v, custom, file, students, sheets, script).Written?
    ensures var rows := Attendance(v, custom, file, students, sheets, script).book.attendance;
            var t := FinalTally(v, custom, students, sheets, script);
            && (forall i :: 0 <= i < |rows| && rows[i].kind.Entry? ==>
                  && rows[i].kind.index < |students|
                  && rows[i].times == Some(|Attended(t.marks, t.columns, rows[i].kind.index)|))
            && (AnyoneAttended(t.marks, t.columns, |students|) ==>
                  && rows != []
                  && rows[|rows| - 1].kind.Totals?
                  && rows[|rows| - 1].times.None?
                  && |rows[|rows| - 1].cells| == |t.columns|
                  && forall k :: 0 <= k < |t.columns| ==> rows[|rows| - 1].cells[k] == Some(|Column(t.marks, t.columns[k])|))
  {
    var roster := CleanRoster(v, students);
    var t := FinalTally(v, custom, students, sheets, script);
    ReconciledIsWellFormed(roster, custom, sheets, script);
    forall k, r | 0 <= k < |t.columns| && r in Column(t.marks, t.columns[k]) ensures r < |roster| {
      assert t.columns[k] in t.marks;
    }
    SummaryCounts(v, t.marks, t.columns, |roster|);
  }

  /** Both editions end alike on one outcome: they stop on the same date
      cell and exit on the same answer, and they write the same labels and
      not-found sheet, and the same rows unless nobody attended, when the
      English table is empty and the Norwegian one a blank row. */
  lemma FinishEditionsAlike(file: string, n: nat, o: Outcome)
    requires o.Completed? ==> DatesValid(o.tally)
    ensures var e, m := Finish(English, file, n, o), Finish(Norwegian, file, n, o);
            && (e.Written? <==> m.Written?)
            && (!e.Written? ==> e == m)
            && (e.Written? ==>
                  && e.book.labels == m.book.labels
                  && e.book.notFound == m.book.notFound
                  && (AnyoneAttended(o.tally.marks, o.tally.columns, n) <==> e.book.attendance == m.book.attendance))
  {
    if o.Completed? {
      EditionsSummariseAlike(o.tally.marks, o.tally.columns, n);
    }
  }

  /** The two editions end alike on the same inputs: one writes a
      workbook exactly when the other does, and otherwise both stop on the
      same date cell or both exit. */
  lemma EditionsEndAlike(custom: bool, file: string, students: seq<Student>, sheets: seq<Sheet>, script: seq<Option<string>>)
    ensures var e := Attendance(English, custom, file, students, sheets, script);
            var m := Attendance(Norwegian, custom, file, students, sheets, script);
            && (e.Written? <==> m.Written?)
            && (!e.Written? ==> e == m)
  {
    var o := Reconciled(CleanRoster(English, students), custom, sheets, script);
    EditionsReconcileAlike(students, custom, sheets, script);
    if o.Completed? {
      ReconciledDatesValid(CleanRoster(English, students), custom, sheets, script);
    }
    FinishEditionsAlike(file, |students|, o);
  }

  /** What the two editions write differs only in the words of the file
      name and in a table nobody attended. */
  lemma EditionsWriteAlike(custom: bool, file: string, students: seq<Student>, sheets: seq<Sheet>, script: seq<Option<string>>)
    requires Attendance(English, custom, file, students, sheets, script).Written?
    requires Attendance(Norwegian, custom, file, students, sheets, script).Written?
    ensures var e := Attendance(English, custom, file, students, sheets, script).book;
            var m := Attendance(Norwegian, custom, file, students, sheets, script).book;
            var t := FinalTally(English, custom, students, sheets, script);
            && e.labels == m.labels
            && e.notFound == m.notFound
            && (AnyoneAttended(t.marks, t.columns, |students|) <==> e.attendance == m.attendance)
  {
    var o := Reconciled(CleanRoster(English, students), custom, sheets, script);
    EditionsReconcileAlike(students, custom, sheets, script);
    ReconciledDatesValid(CleanRoster(English, students), custom, sheets, script);
    FinishEditionsAlike(file, |students|, o);
  }

  /** In standard mode nobody is asked, so the program never exits on its
      own: it writes the workbook exactly when every sheet after sheet 0
      has a readable date. */
  lemma StandardModeWritesWhenDatesRead(v: Variant, file: string, students: seq<Student>, sheets: seq<Sheet>, script: seq<Option<string>>)
    ensures !Attendance(v, false, file, students, sheets, script).Exited?
    ensures Attendance(v, false, file, students, sheets, script).Written?
            <==> forall k :: 1 <= k < |sheets| ==> ParseDate(sheets[k].dateText).Some?
  {
    var roster := CleanRoster(v, students);
    var sessions := Sessions(sheets);
    StandardModeNeverAsks(roster, sessions, 1, Initial(script));
    var o := Reconciled(roster, false, sheets, script);
    if o.Completed? {
      CompletedRunReadEveryDate(roster, false, sessions, 1, Initial(script));
    } else if o.BadDate? {
      BadDateIsFirstUnreadable(roster, false, sessions, 1, Initial(script));
    }
  }

  /** A date cell that cannot be read ends the program at the first such
      sheet after sheet 0, after the sheets before it were read. */
  lemma FailsOnFirstUnreadableDate(v: Variant, custom: bool, file: string, students: seq<Student>, sheets: seq<Sheet>, script: seq<Option<string>>)
    requires Attendance(v, custom, file, students, sheets, script).Failed?
    ensures var j := Attendance(v, custom, file, students, sheets, script).sheet;
            && 1 <= j < |sheets|
            && ParseDate(sheets[j].dateText).None?
            && forall k :: 1 <= k < j ==> ParseDate(sheets[k].dateText).Some?
  {
    BadDateIsFirstUnreadable(CleanRoster(v, students), custom, Sessions(sheets), 1, Initial(script));
  }
}
