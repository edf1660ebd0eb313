/** The reconciliation loop of both editions (attendance_list.py lines
    120-168, oppmListe2.py lines 63-105): every attendance sheet after the
    first, and on each sheet every answer from row 7 on, is normalised,
    skipped if ignored, remapped once, and looked up in the class list; a
    miss is recorded and, in custom-username mode, put to the operator.

    `StepName`, `StepNames`, `ProcessSheet` and `RunFrom` are the loop
    written as a fold over values; `Reconcile` is the loop itself, over the
    script's own variables, proved to compute the fold. */
module Reconciliation {
  import opened Basics
  import opened Dates
  import opened Usernames
  import opened Roster

  /** One worksheet of the poll export: the text in the date cell
      (`["Unnamed: 1"][0]`) and the answer column (`["Question 1"]`). */
  datatype Sheet = Sheet(dateText: string, responses: seq<string>)

  /** `["Question 1"][7:]`: the rows above row 7 are the export's header. */
  function CheckIns(sh: Sheet): (r: seq<string>)
    ensures |r| == if |sh.responses| > 7 then |sh.responses| - 7 else 0
    ensures forall k :: 0 <= k < |r| ==> r[k] == sh.responses[k + 7]
  {
    if |sh.responses| > 7 then sh.responses[7..] else []
  }

  /** One entry of the not-found list: the username looked up and the
      session's `DD.MM` label. */
  datatype Miss = Miss(name: string, day: string)

  /** What the operator's answer to the correction dialog means. */
  datatype Reply = Ignore | Abort | Correct(name: string)

  /** The text-entry dialog returns the typed text, or `None` when it is
      closed or cancelled; the text `i` asks to ignore the username. */
  function Interpret(answer: Option<string>): (r: Reply)
    ensures r == Abort <==> answer.None?
    ensures r == Ignore <==> answer == Some("i")
    ensures r.Correct? ==> answer == Some(r.name) && r.name != "i"
  {
    match answer
    case None => Abort
    case Some(s) => if s == "i" then Ignore else Correct(s)
  }

  /** The state the loop carries from one answer to the next:
      `ignore_usernames`, `username_map`, the not-found list, the date
      columns in creation order with the rows holding a 1 in each, the first
      and last dates, and the operator's answers not yet given. */
  datatype Tally = Tally(
    ignored: seq<string>,
    remap: map<string, string>,
    missing: seq<Miss>,
    columns: seq<Date>,
    marks: map<Date, set<nat>>,
    first: Option<Date>,
    last: Option<Date>,
    script: seq<Option<string>>)

  function Initial(script: seq<Option<string>>): Tally {
    Tally([], map[], [], [], map[], None, None, script)
  }

  /** The operator's next answer; one who has no more answers closes the dialog. */
  function NextAnswer(script: seq<Option<string>>): (Option<string>, seq<Option<string>>) {
    if script == [] then (None, []) else (script[0], script[1..])
  }

  function Column(marks: map<Date, set<nat>>, date: Date): set<nat> {
    if date in marks then marks[date] else {}
  }

  /** `df.loc[row, date] = 1`. */
  function Mark(t: Tally, row: nat, date: Date): Tally {
    t.(marks := t.marks[date := Column(t.marks, date) + {row}])
  }

  /** The name looked up for a key: its one-step remap, if any. */
  function Lookup(t: Tally, key: string): string {
    if key in t.remap then t.remap[key] else key
  }

  /** The correction dialog after a miss of `name` (attendance_list.py
      lines 150-166): `i` ignores the name, a closed dialog ends the run
      (`None`), any other text is stored as the name's remap, exactly as
      typed, and looked up; the first matching row is marked. */
  function Resolution(roster: seq<Student>, date: Date, t: Tally, name: string): Option<Tally> {
    var (answer, rest) := NextAnswer(t.script);
    var t1 := t.(script := rest);
    match Interpret(answer)
    case Ignore => Some(t1.(ignored := t1.ignored + [name]))
    case Abort => None
    case Correct(typed) =>
      var t2 := t1.(remap := t1.remap[name := typed]);
      var again := Matches(roster, typed);
      if |again| > 0 then Some(Mark(t2, again[0], date)) else Some(t2)
  }

  /** One answer of one sheet (attendance_list.py lines 140-168). `None`
      is the run ending at the operator's request. */
  function StepName(roster: seq<Student>, custom: bool, date: Date, day: string, t: Tally, raw: string): Option<Tally> {
    var key := Normalize(raw);
    if key in t.ignored then Some(t)
    else
      var name := Lookup(t, key);
      var hits := Matches(roster, name);
      if |hits| == 0 then
        var t1 := t.(missing := t.missing + [Miss(name, day)]);
        if custom then Resolution(roster, date, t1, name) else Some(t1)
      else if |hits| == 1 then Some(Mark(t, hits[0], date))
      else Some(t)
  }

  /** The answers of one sheet, in order; `None` once the operator aborts. */
  function StepNames(roster: seq<Student>, custom: bool, date: Date, day: string, t: Tally, raws: seq<string>): Option<Tally>
    decreases |raws|
  {
    if raws == [] then Some(t)
    else
      match StepName(roster, custom, date, day, t, raws[0])
      case None => None
      case Some(t1) => StepNames(roster, custom, date, day, t1, raws[1..])
  }

  /** `df[date] = nan` creates the column, or empties it when an earlier
      sheet carried the same date; sheet 1 sets the first date and the last
      sheet the last date, by position alone. */
  function OpenColumn(t: Tally, i: nat, count: nat, date: Date): Tally {
    t.(columns := if date in t.columns then t.columns else t.columns + [date],
       marks := t.marks[date := {}],
       first := if i == 1 then Some(date) else t.first,
       last := if i == count - 1 then Some(date) else t.last)
  }

  /** How a run ends: with the tally, at the operator's request, or at a
      date cell that `format_date` cannot read (a `ValueError`). */
  datatype Outcome = Completed(tally: Tally) | Aborted | BadDate(sheet: nat)

  /** A sheet as the loop reads it: the date `format_date` makes of its
      date cell (`None` for a `ValueError`), the `DD.MM` label
      `strftime("%d.%m")` makes of that date once per sheet, and its answers. */
  datatype Session = Session(date: Option<CalendarDate>, day: string, answers: seq<string>)

  function SessionOf(sh: Sheet): (r: Session)
    ensures r.date == ParseDate(sh.dateText) && r.answers == CheckIns(sh)
    ensures r.date.Some? ==> r.day == DayMonth(r.date.value)
  {
    match ParseDate(sh.dateText)
    case None => Session(None, "", CheckIns(sh))
    case Some(d) => Session(Some(d), DayMonth(d), CheckIns(sh))
  }

  function Sessions(sheets: seq<Sheet>): (r: seq<Session>)
    ensures |r| == |sheets|
    ensures forall k :: 0 <= k < |r| ==> r[k] == SessionOf(sheets[k])
  {
    seq(|sheets|, k requires 0 <= k < |sheets| => SessionOf(sheets[k]))
  }

  /** Sheet `i` of `count`: its date column is opened, then its answers are read. */
  function ProcessSheet(roster: seq<Student>, custom: bool, sessions: seq<Session>, i: nat, t: Tally): Outcome
    requires 1 <= i < |sessions|
  {
    match sessions[i].date
    case None => BadDate(i)
    case Some(date) =>
      match StepNames(roster, custom, date, sessions[i].day, OpenColumn(t, i, |sessions|, date), sessions[i].answers)
      case None => Aborted
      case Some(t1) => Completed(t1)
  }

  /** Sheets `i` .. `|sessions| - 1`, in order. */
  function RunFrom(roster: seq<Student>, custom: bool, sessions: seq<Session>, i: nat, t: Tally): Outcome
    requires 1 <= i
    decreases |sessions| - i
  {
    if i >= |sessions| then Completed(t)
    else
      match ProcessSheet(roster, custom, sessions, i, t)
      case Completed(t1) => RunFrom(roster, custom, sessions, i + 1, t1)
      case stop => stop
  }

  /** The whole loop: `for i in range(1, num_sheets)`; sheet 0 is skipped.
      Each sheet's date is read when its turn comes, so a bad date cell
      ends the run only after the sheets before it were processed. */
  function Reconciled(roster: seq<Student>, custom: bool, sheets: seq<Sheet>, script: seq<Option<string>>): Outcome {
    RunFrom(roster, custom, Sessions(sheets), 1, Initial(script))
  }

  /** The script's two parallel lists of names and dates, read as one list. */
  function Zip(names: seq<string>, days: seq<string>): (r: seq<Miss>)
    requires |names| == |days|
    ensures |r| == |names|
    ensures forall k :: 0 <= k < |r| ==> r[k] == Miss(names[k], days[k])
  {
    if names == [] then [] else Zip(names[..|names| - 1], days[..|days| - 1]) + [Miss(names[|names| - 1], days[|days| - 1])]
  }

  lemma ZipSnoc(names: seq<string>, days: seq<string>, n: string, d: string)
    requires |names| == |days|
    ensures Zip(names + [n], days + [d]) == Zip(names, days) + [Miss(n, d)]
  {
    assert (names + [n])[..|names|] == names;
    assert (days + [d])[..|days|] == days;
  }

  /** One line of the Norwegian edition's `notFound` text. */
  function NotFoundLine(m: Miss): string {
    m.name + " (" + m.day + ")\n"
  }

  /** The Norwegian edition's `notFound` text: one line per entry, in order. */
  function NotFoundLog(missing: seq<Miss>): (r: string)
    ensures missing == [] <==> r == []
  {
    if missing == [] then ""
    else NotFoundLog(missing[..|missing| - 1]) + NotFoundLine(missing[|missing| - 1])
  }

  /** The not-found record: the English edition's parallel lists
      `missing_usernames` and `missing_details`, and the Norwegian
      edition's running `notFound` text, kept side by side. */
  class MissingLog {
    var names: seq<string>
    var days: seq<string>
    var text: string
    /** The two lists read as one. */
    ghost var entries: seq<Miss>

    /** The two lists stay parallel, and the text always spells them out. */
    ghost predicate Valid()
      reads this
    {
      && |names| == |days|
      && entries == Zip(names, days)
      && text == NotFoundLog(entries)
    }

    constructor ()
      ensures Valid() && entries == []
    {
      names, days, text := [], [], "";
      entries := [];
    }

    /** Lines 148-149 (and the Norwegian line 86): one more entry. */
    method Add(name: string, day: string)
      requires Valid()
      modifies this
      ensures Valid() && entries == old(entries) + [Miss(name, day)]
    {
      ZipSnoc(names, days, name, day);
      text := text + NotFoundLine(Miss(name, day));
      names := names + [name];
      days := days + [day];
      entries := entries + [Miss(name, day)];
    }

    function Entries(): (r: seq<Miss>)
      reads this
      requires Valid()
      ensures r == entries
    {
      Zip(names, days)
    }
  }

  /** The variables the loop of both scripts updates: `ignore_usernames`,
      `username_map`, the not-found record, the date columns of the
      class-list table and the 1s in them, `first_date` and `last_date`;
      and the answers the operator still has. */
  class Reconciler {
    const roster: seq<Student>
    const custom: bool
    const log: MissingLog
    var ignoreNames: seq<string>
    var usernameMap: map<string, string>
    var columns: seq<Date>
    var marks: map<Date, set<nat>>
    var firstDate: Option<Date>
    var lastDate: Option<Date>
    var answers: seq<Option<string>>

    ghost predicate Valid()
      reads log
    {
      log.Valid()
    }

    /** The loop's variables as one tally. */
    ghost function View(): Tally
      reads this, log
    {
      Tally(ignoreNames, usernameMap, log.entries, columns, marks, firstDate, lastDate, answers)
    }

    /** The tally the script hands on when a sheet is done. */
    function Current(): (t: Tally)
      reads this, log
      requires Valid()
      ensures t == View()
    {
      Tally(ignoreNames, usernameMap, log.Entries(), columns, marks, firstDate, lastDate, answers)
    }

    constructor (roster: seq<Student>, custom: bool, script: seq<Option<string>>)
      ensures Valid() && View() == Initial(script) && fresh(log)
      ensures this.roster == roster && this.custom == custom
    {
      this.roster := roster;
      this.custom := custom;
      log := new MissingLog();
      ignoreNames, usernameMap := [], map[];
      columns, marks := [], map[];
      firstDate, lastDate := None, None;
      answers := script;
    }

    /** Lines 130-136: the date column is (re)created and the first and
        last dates are taken by sheet position. */
    method OpenSheet(i: nat, count: nat, date: Date)
      requires Valid()
      modifies this`columns, this`marks, this`firstDate, this`lastDate
      ensures Valid() && View() == OpenColumn(old(View()), i, count, date)
    {
      if date !in columns {
        columns := columns + [date];
      }
      marks := marks[date := {}];
      if i == 1 {
        firstDate := Some(date);
      }
      if i == count - 1 {
        lastDate := Some(date);
      }
    }

    /** Line 151: the operator's answer to the dialog. */
    method TakeAnswer() returns (answer: Option<string>)
      modifies this`answers
      ensures (answer, answers) == NextAnswer(old(answers))
    {
      answer := None;
      if answers != [] {
        answer := answers[0];
        answers := answers[1..];
      }
    }

    /** Lines 150-166: the correction dialog and what each answer does. */
    method Resolve(name: string, date: Date) returns (aborted: bool)
      requires Valid()
      modifies this`answers, this`ignoreNames, this`usernameMap, this`marks
      ensures Valid()
      ensures aborted <==> Resolution(roster, date, old(View()), name).None?
      ensures !aborted ==> View() == Resolution(roster, date, old(View()), name).value
    {
      ghost var t := View();
      var answer := TakeAnswer();
      ghost var t1 := t.(script := answers);
      assert View() == t1;
      aborted := false;
      if answer == Some("i") {
        ignoreNames := ignoreNames + [name];
        assert Resolution(roster, date, t, name) == Some(t1.(ignored := t1.ignored + [name]));
      } else if answer.None? {
        aborted := true;
      } else {
        usernameMap := usernameMap[name := answer.value];
        var again := Matches(roster, answer.value);
        if |again| > 0 {
          marks := marks[date := Column(marks, date) + {again[0]}];
        }
      }
    }

    /** Lines 140-168 for one raw answer on the sheet dated `date`. */
    method CheckIn(raw: string, date: Date, day: string) returns (aborted: bool)
      requires Valid()
      modifies this, log
      ensures Valid()
      ensures aborted <==> StepName(roster, custom, date, day, old(View()), raw).None?
      ensures !aborted ==> View() == StepName(roster, custom, date, day, old(View()), raw).value
    {
      aborted := false;
      var name := Normalize(raw);
      if name in ignoreNames {
        return;
      }
      if name in usernameMap {
        name := usernameMap[name];
      }
      var hits := Matches(roster, name);
      if |hits| == 0 {
        log.Add(name, day);
        if custom {
          aborted := Resolve(name, date);
        }
      } else if |hits| == 1 {
        marks := marks[date := Column(marks, date) + {hits[0]}];
      }
    }

    /** Line 139's inner loop: the sheet's answers in order, stopping at an abort. */
    method ReadAnswers(raws: seq<string>, date: Date, day: string) returns (aborted: bool)
      requires Valid()
      modifies this, log
      ensures Valid()
      ensures aborted <==> StepNames(roster, custom, date, day, old(View()), raws).None?
      ensures !aborted ==> View() == StepNames(roster, custom, date, day, old(View()), raws).value
    {
      var j := 0;
      while j < |raws|
        invariant 0 <= j <= |raws|
        invariant Valid()
        invariant StepNames(roster, custom, date, day, old(View()), raws)
                  == StepNames(roster, custom, date, day, View(), raws[j..])
      {
        ghost var before := View();
        assert raws[j..][0] == raws[j] && raws[j..][1..] == raws[j + 1..];
        aborted := CheckIn(raws[j], date, day);
        if aborted {
          assert StepNames(roster, custom, date, day, before, raws[j..]).None?;
          return;
        }
        assert StepNames(roster, custom, date, day, before, raws[j..])
               == StepNames(roster, custom, date, day, View(), raws[j + 1..]);
        j := j + 1;
      }
      assert raws[j..] == [];
      aborted := false;
    }

    /** Lines 128-168 for sheet `i`: read its date, open its column, read its answers. */
    method ReadSheet(sheets: seq<Sheet>, i: nat) returns (outcome: Outcome)
      requires Valid() && 1 <= i < |sheets|
      modifies this, log
      ensures Valid()
      ensures outcome == ProcessSheet(roster, custom, Sessions(sheets), i, old(View()))
      ensures outcome.Completed? ==> outcome.tally == View()
    {
      var parsed := ParseDate(sheets[i].dateText);
      if parsed.None? {
        return BadDate(i);
      }
      var date := parsed.value;
      OpenSheet(i, |sheets|, date);
      var day := DayMonth(date);
      var aborted := ReadAnswers(CheckIns(sheets[i]), date, day);
      if aborted {
        return Aborted;
      }
      outcome := Completed(Current());
    }

    /** Lines 126-168: sheets `1` .. `|sheets| - 1`, in order, until one
        of them stops the run. */
    method ReadSheets(sheets: seq<Sheet>) returns (outcome: Outcome)
      requires Valid()
      modifies this, log
      ensures Valid()
      ensures outcome == RunFrom(roster, custom, Sessions(sheets), 1, old(View()))
      ensures outcome.Completed? ==> outcome.tally == View()
    {
      ghost var sessions := Sessions(sheets);
      ghost var run := RunFrom(roster, custom, sessions, 1, View());
      var i := 1;
      while i < |sheets|
        invariant 1 <= i
        invariant Valid()
        invariant RunFrom(roster, custom, sessions, i, View()) == run
        decreases |sheets| - i
      {
        ghost var before := View();
        outcome := ReadSheet(sheets, i);
        assert RunFrom(roster, custom, sessions, i, before)
               == if outcome.Completed? then RunFrom(roster, custom, sessions, i + 1, View()) else outcome;
        if !outcome.Completed? {
          return;
        }
        i := i + 1;
      }
      outcome := Completed(Current());
    }
  }

  /** The loop of both scripts. `notFound` is the Norwegian edition's
      running text, built with `+=` beside the English edition's two lists. */
  method Reconcile(roster: seq<Student>, custom: bool, sheets: seq<Sheet>, script: seq<Option<string>>)
    returns (outcome: Outcome, notFound: string)
    ensures outcome == Reconciled(roster, custom, sheets, script)
    ensures outcome.Completed? ==> notFound == NotFoundLog(outcome.tally.missing)
  {
    var state := new Reconciler(roster, custom, script);
    outcome := state.ReadSheets(sheets);
    notFound := state.log.text;
  }
}
