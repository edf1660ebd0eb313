/** What the reconciliation loop promises, stated about the fold that
    `Reconcile` is proved to compute. */
module ReconciliationFacts {
  import opened Basics
  import opened Dates
  import opened Usernames
  import opened Roster
  import opened Reconciliation

  // ---------------------------------------------------------------------
  // One answer

  /** An ignored key is skipped before anything else: no remap, no lookup,
      no miss, no mark, no question (lines 141-142). */
  lemma IgnoredKeyIsSkipped(roster: seq<Student>, custom: bool, date: Date, day: string, t: Tally, raw: string)
    requires Normalize(raw) in t.ignored
    ensures StepName(roster, custom, date, day, t, raw) == Some(t)
  {
  }

  /** Exactly one row under the looked-up name: that row's cell for the
      session is set and nothing else changes (line 167-168). */
  lemma SingleMatchMarksRow(roster: seq<Student>, custom: bool, date: Date, day: string, t: Tally, raw: string)
    requires Normalize(raw) !in t.ignored
    requires |Matches(roster, Lookup(t, Normalize(raw)))| == 1
    ensures var r := Matches(roster, Lookup(t, Normalize(raw)))[0];
            r < |roster| && HasUsername(roster[r], Lookup(t, Normalize(raw))) &&
            StepName(roster, custom, date, day, t, raw) == Some(t.(marks := t.marks[date := Column(t.marks, date) + {r}]))
  {
  }

  /** A check-in that is ignored or found does nothing more when it is
      repeated: the cell it set stays 1, and nothing else changes. Only a
      miss is recorded again (lines 141-144, 146, 167-168). */
  lemma RepeatedCheckInChangesNothing(roster: seq<Student>, custom: bool, date: Date, day: string, t: Tally, raw: string)
    requires Normalize(raw) in t.ignored || |Matches(roster, Lookup(t, Normalize(raw)))| > 0
    ensures var once := StepName(roster, custom, date, day, t, raw);
            once.Some? && StepName(roster, custom, date, day, once.value, raw) == once
  {
    var key := Normalize(raw);
    if key !in t.ignored {
      var hits := Matches(roster, Lookup(t, key));
      if |hits| == 1 {
        var t1 := Mark(t, hits[0], date);
        assert Lookup(t1, key) == Lookup(t, key);
        assert Column(t1.marks, date) + {hits[0]} == Column(t1.marks, date);
        assert t1.marks[date := Column(t1.marks, date)] == t1.marks;
      }
    }
  }

  /** Two or more rows under the looked-up name: nothing at all happens,
      no mark and no miss (the `elif len(match_idx) == 1` has no `else`). */
  lemma DuplicateMatchesDoNothing(roster: seq<Student>, custom: bool, date: Date, day: string, t: Tally, raw: string)
    requires Normalize(raw) !in t.ignored
    requires |Matches(roster, Lookup(t, Normalize(raw)))| >= 2
    ensures StepName(roster, custom, date, day, t, raw) == Some(t)
  {
  }

  /** A miss is appended before the operator is asked, whatever the answer,
      and the run stops exactly when the dialog is closed (lines 147-160). */
  lemma MissRecordedBeforePrompt(roster: seq<Student>, custom: bool, date: Date, day: string, t: Tally, raw: string)
    requires Normalize(raw) !in t.ignored
    requires Matches(roster, Lookup(t, Normalize(raw))) == []
    ensures var step := StepName(roster, custom, date, day, t, raw);
            && (step.None? <==> custom && NextAnswer(t.script).0.None?)
            && (step.Some? ==> step.value.missing == t.missing + [Miss(Lookup(t, Normalize(raw)), day)])
            && (!custom ==> step == Some(t.(missing := t.missing + [Miss(Lookup(t, Normalize(raw)), day)])))
  {
  }

  /** The answer `i` adds the looked-up name to the ignore list and marks
      nothing (lines 155-157). */
  lemma IgnoreAnswerIgnores(roster: seq<Student>, date: Date, day: string, t: Tally, raw: string)
    requires Normalize(raw) !in t.ignored
    requires Matches(roster, Lookup(t, Normalize(raw))) == []
    requires t.script != [] && t.script[0] == Some("i")
    ensures var name := Lookup(t, Normalize(raw));
            StepName(roster, true, date, day, t, raw)
            == Some(t.(missing := t.missing + [Miss(name, day)], script := t.script[1..], ignored := t.ignored + [name]))
  {
  }

  /** A corrected name is stored exactly as typed, as the remap of the name
      that was looked up, and the first row holding it is marked; the miss
      already recorded stays (lines 161-166). */
  lemma CorrectionStoredAndMarked(roster: seq<Student>, date: Date, day: string, t: Tally, raw: string, typed: string)
    requires Normalize(raw) !in t.ignored
    requires Matches(roster, Lookup(t, Normalize(raw))) == []
    requires t.script != [] && t.script[0] == Some(typed) && typed != "i"
    ensures var name := Lookup(t, Normalize(raw));
            var hits := Matches(roster, typed);
            var t1 := t.(missing := t.missing + [Miss(name, day)], script := t.script[1..], remap := t.remap[name := typed]);
            StepName(roster, true, date, day, t, raw)
            == Some(if hits == [] then t1 else t1.(marks := t.marks[date := Column(t.marks, date) + {hits[0]}]))
  {
  }

  /** A remap is followed once: a key whose remap is a known username is
      marked without a question and without a miss (lines 143-144, 167-168). */
  lemma RemapResolvesWithoutPrompt(roster: seq<Student>, custom: bool, date: Date, day: string, t: Tally, raw: string)
    requires Normalize(raw) !in t.ignored && Normalize(raw) in t.remap
    requires |Matches(roster, t.remap[Normalize(raw)])| == 1
    ensures StepName(roster, custom, date, day, t, raw)
            == Some(t.(marks := t.marks[date := Column(t.marks, date) + {Matches(roster, t.remap[Normalize(raw)])[0]}]))
  {
  }

  /** ... and never twice: when the remap target is itself remapped, the
      miss is recorded under the first target, not the second. */
  lemma RemapNotChained(roster: seq<Student>, custom: bool, date: Date, day: string, t: Tally, raw: string)
    requires Normalize(raw) !in t.ignored && Normalize(raw) in t.remap
    requires t.remap[Normalize(raw)] in t.remap
    requires Matches(roster, t.remap[Normalize(raw)]) == []
    ensures var step := StepName(roster, custom, date, day, t, raw);
            step.Some? ==> step.value.missing == t.missing + [Miss(t.remap[Normalize(raw)], day)]
  {
  }

  // ---------------------------------------------------------------------
  // The lists only grow

  /** `a` is a prefix of `b`. */
  predicate Prefix<T(==)>(a: seq<T>, b: seq<T>) {
    |a| <= |b| && b[..|a|] == a
  }

  lemma PrefixTrans<T>(a: seq<T>, b: seq<T>, c: seq<T>)
    requires Prefix(a, b) && Prefix(b, c)
    ensures Prefix(a, c)
  {
    assert c[..|b|][..|a|] == c[..|a|];
  }

  /** The ignore list and the not-found list are only appended to, the
      remap only gains or overwrites keys, and first/last dates and columns
      are left alone by answers. */
  predicate Grows(t: Tally, u: Tally) {
    && Prefix(t.ignored, u.ignored)
    && Prefix(t.missing, u.missing)
    && t.remap.Keys <= u.remap.Keys
    && u.columns == t.columns && u.first == t.first && u.last == t.last
  }

  lemma ResolutionGrows(roster: seq<Student>, date: Date, t: Tally, name: string)
    requires Resolution(roster, date, t, name).Some?
    ensures Grows(t, Resolution(roster, date, t, name).value)
  {
  }

  lemma StepGrows(roster: seq<Student>, custom: bool, date: Date, day: string, t: Tally, raw: string)
    requires StepName(roster, custom, date, day, t, raw).Some?
    ensures Grows(t, StepName(roster, custom, date, day, t, raw).value)
  {
    var key := Normalize(raw);
    if key !in t.ignored {
      var name := Lookup(t, key);
      if |Matches(roster, name)| == 0 {
        var t1 := t.(missing := t.missing + [Miss(name, day)]);
        assert Grows(t, t1);
        if custom {
          ResolutionGrows(roster, date, t1, name);
          var u := Resolution(roster, date, t1, name).value;
          PrefixTrans(t.ignored, t1.ignored, u.ignored);
          PrefixTrans(t.missing, t1.missing, u.missing);
        }
      }
    }
  }

  lemma {:induction false} StepNamesGrow(roster: seq<Student>, custom: bool, date: Date, day: string, t: Tally, raws: seq<string>)
    requires StepNames(roster, custom, date, day, t, raws).Some?
    ensures Grows(t, StepNames(roster, custom, date, day, t, raws).value)
    decreases |raws|
  {
    if raws != [] {
      var t1 := StepName(roster, custom, date, day, t, raws[0]).value;
      StepGrows(roster, custom, date, day, t, raws[0]);
      StepNamesGrow(roster, custom, date, day, t1, raws[1..]);
      PrefixTrans(t.ignored, t1.ignored, StepNames(roster, custom, date, day, t1, raws[1..]).value.ignored);
      PrefixTrans(t.missing, t1.missing, StepNames(roster, custom, date, day, t1, raws[1..]).value.missing);
    }
  }

  /** One sheet: its date column is opened, sheet 1 sets the first date and
      the last sheet the last date, and the answers only append. */
  lemma SheetGrows(roster: seq<Student>, custom: bool, sessions: seq<Session>, i: nat, t: Tally)
    requires 1 <= i < |sessions| && ProcessSheet(roster, custom, sessions, i, t).Completed?
    ensures sessions[i].date.Some?
    ensures var date := sessions[i].date.value;
            var start := OpenColumn(t, i, |sessions|, date);
            var u := ProcessSheet(roster, custom, sessions, i, t).tally;
            && StepNames(roster, custom, date, sessions[i].day, start, sessions[i].answers) == Some(u)
            && Grows(start, u)
  {
    var date := sessions[i].date.value;
    StepNamesGrow(roster, custom, date, sessions[i].day, OpenColumn(t, i, |sessions|, date), sessions[i].answers);
  }

  /** Entries of the not-found list are never retracted, and a key once
      ignored stays ignored, for the rest of the run. */
  lemma {:induction false} RunOnlyAppends(roster: seq<Student>, custom: bool, sessions: seq<Session>, i: nat, t: Tally)
    requires 1 <= i && RunFrom(roster, custom, sessions, i, t).Completed?
    ensures var u := RunFrom(roster, custom, sessions, i, t).tally;
            Prefix(t.missing, u.missing) && Prefix(t.ignored, u.ignored) && t.remap.Keys <= u.remap.Keys
    decreases |sessions| - i
  {
    if i < |sessions| {
      SheetGrows(roster, custom, sessions, i, t);
      var t1 := ProcessSheet(roster, custom, sessions, i, t).tally;
      RunOnlyAppends(roster, custom, sessions, i + 1, t1);
      var u := RunFrom(roster, custom, sessions, i + 1, t1).tally;
      PrefixTrans(t.missing, t1.missing, u.missing);
      PrefixTrans(t.ignored, t1.ignored, u.ignored);
    }
  }

  /** A property of the tally that every completed sheet keeps holds
      after the whole run. */
  lemma RunKeeps(roster: seq<Student>, custom: bool, sessions: seq<Session>, i: nat, t: Tally, inv: Tally -> bool)
    requires 1 <= i && inv(t) && RunFrom(roster, custom, sessions, i, t).Completed?
    requires forall j: nat, u: Tally :: 1 <= j < |sessions| && inv(u) && ProcessSheet(roster, custom, sessions, j, u).Completed?
               ==> inv(ProcessSheet(roster, custom, sessions, j, u).tally)
    ensures inv(RunFrom(roster, custom, sessions, i, t).tally)
  {
    RunIsFold(roster, custom, sessions, i, t);
    var step := SheetStep(roster, custom, sessions);
    forall j: nat, u: Tally | i <= j < |sessions| && inv(u) && step(j, u).Completed?
      ensures inv(step(j, u).tally)
    {
      SheetStepIsProcessSheet(roster, custom, sessions, j, u);
    }
    FoldKeeps(step, |sessions|, i, t, inv);
  }

  /** If no sheet started in a state satisfying `inv` stops at the
      operator's request, and every completed sheet keeps `inv`, the run
      never stops at the operator's request either. */
  lemma RunNeverAborts(roster: seq<Student>, custom: bool, sessions: seq<Session>, i: nat, t: Tally, inv: Tally -> bool)
    requires 1 <= i && inv(t)
    requires forall j: nat, u: Tally :: 1 <= j < |sessions| && inv(u) ==> !ProcessSheet(roster, custom, sessions, j, u).Aborted?
    requires forall j: nat, u: Tally :: 1 <= j < |sessions| && inv(u) && ProcessSheet(roster, custom, sessions, j, u).Completed?
               ==> inv(ProcessSheet(roster, custom, sessions, j, u).tally)
    ensures !RunFrom(roster, custom, sessions, i, t).Aborted?
  {
    RunIsFold(roster, custom, sessions, i, t);
    var step := SheetStep(roster, custom, sessions);
    forall j: nat, u: Tally | i <= j < |sessions| && inv(u)
      ensures !step(j, u).Aborted?
      ensures step(j, u).Completed? ==> inv(step(j, u).tally)
    {
      SheetStepIsProcessSheet(roster, custom, sessions, j, u);
    }
    FoldNeverAborts(step, |sessions|, i, t, inv);
  }

  /** The run of sheets `i..n-1` under an arbitrary per-sheet step. */
  ghost function Fold(step: (nat, Tally) -> Outcome, n: nat, i: nat, t: Tally): Outcome
    decreases n - i
  {
    if i >= n then Completed(t)
    else
      match step(i, t)
      case Completed(t1) => Fold(step, n, i + 1, t1)
      case stop => stop
  }

  /** `ProcessSheet` as a step function. */
  ghost function SheetStep(roster: seq<Student>, custom: bool, sessions: seq<Session>): (nat, Tally) -> Outcome {
    (j: nat, u: Tally) => if 1 <= j < |sessions| then ProcessSheet(roster, custom, sessions, j, u) else Completed(u)
  }

  lemma SheetStepIsProcessSheet(roster: seq<Student>, custom: bool, sessions: seq<Session>, j: nat, u: Tally)
    requires 1 <= j < |sessions|
    ensures SheetStep(roster, custom, sessions)(j, u) == ProcessSheet(roster, custom, sessions, j, u)
  {
  }

  /** Any function that satisfies the fold's recurrence is the fold. */
  lemma {:induction false} FoldSolves(run: (nat, Tally) -> Outcome, step: (nat, Tally) -> Outcome, n: nat, i: nat, t: Tally)
    requires forall j: nat, u: Tally :: n <= j ==> run(j, u) == Completed(u)
    requires forall j: nat, u: Tally {:trigger run(j, u)} :: i <= j < n ==>
               run(j, u) == if step(j, u).Completed? then run(j + 1, step(j, u).tally) else step(j, u)
    ensures run(i, t) == Fold(step, n, i, t)
    decreases n - i
  {
    if i < n {
      var o := step(i, t);
      if o.Completed? {
        FoldSolves(run, step, n, i + 1, o.tally);
      }
    }
  }

  /** `RunFrom` as a function of the starting sheet and tally. */
  ghost function RunOf(roster: seq<Student>, custom: bool, sessions: seq<Session>): (nat, Tally) -> Outcome {
    (j: nat, u: Tally) => if 1 <= j then RunFrom(roster, custom, sessions, j, u) else Completed(u)
  }

  /** `RunOf` satisfies the recurrence of the fold over `SheetStep`. */
  lemma RunOfSteps(roster: seq<Student>, custom: bool, sessions: seq<Session>, j: nat, u: Tally)
    requires 1 <= j < |sessions|
    ensures var run, step := RunOf(roster, custom, sessions), SheetStep(roster, custom, sessions);
            run(j, u) == if step(j, u).Completed? then run(j + 1, step(j, u).tally) else step(j, u)
  {
  }

  lemma RunIsFold(roster: seq<Student>, custom: bool, sessions: seq<Session>, i: nat, t: Tally)
    requires 1 <= i
    ensures RunFrom(roster, custom, sessions, i, t) == Fold(SheetStep(roster, custom, sessions), |sessions|, i, t)
  {
    var run, step := RunOf(roster, custom, sessions), SheetStep(roster, custom, sessions);
    forall j: nat, u: Tally | |sessions| <= j
      ensures run(j, u) == Completed(u)
    {
    }
    forall j: nat, u: Tally | i <= j < |sessions|
      ensures run(j, u) == if step(j, u).Completed? then run(j + 1, step(j, u).tally) else step(j, u)
    {
      RunOfSteps(roster, custom, sessions, j, u);
    }
    FoldSolves(run, step, |sessions|, i, t);
  }

  /** Two steps that agree on every state satisfying a kept invariant give
      the same run. */
  lemma {:induction false} FoldsAgree(f: (nat, Tally) -> Outcome, g: (nat, Tally) -> Outcome, n: nat, i: nat, t: Tally, inv: Tally -> bool)
    requires inv(t)
    requires forall j: nat, u: Tally :: i <= j < n && inv(u) ==> f(j, u) == g(j, u)
    requires forall j: nat, u: Tally :: i <= j < n && inv(u) && f(j, u).Completed? ==> inv(f(j, u).tally)
    ensures Fold(f, n, i, t) == Fold(g, n, i, t)
    decreases n - i
  {
    if i < n {
      var o := f(i, t);
      if o.Completed? {
        FoldsAgree(f, g, n, i + 1, o.tally, inv);
      }
    }
  }

  /** A property every completed step keeps holds after a completed fold. */
  lemma {:induction false} FoldKeeps(step: (nat, Tally) -> Outcome, n: nat, i: nat, t: Tally, inv: Tally -> bool)
    requires inv(t) && Fold(step, n, i, t).Completed?
    requires forall j: nat, u: Tally :: i <= j < n && inv(u) && step(j, u).Completed? ==> inv(step(j, u).tally)
    ensures inv(Fold(step, n, i, t).tally)
    decreases n - i
  {
    if i < n {
      var o := step(i, t);
      if o.Completed? {
        FoldKeeps(step, n, i + 1, o.tally, inv);
      }
    }
  }

  /** A fold none of whose steps aborts, from states satisfying a kept
      `inv`, does not abort. */
  lemma {:induction false} FoldNeverAborts(step: (nat, Tally) -> Outcome, n: nat, i: nat, t: Tally, inv: Tally -> bool)
    requires inv(t)
    requires forall j: nat, u: Tally :: i <= j < n && inv(u) ==> !step(j, u).Aborted?
    requires forall j: nat, u: Tally :: i <= j < n && inv(u) && step(j, u).Completed? ==> inv(step(j, u).tally)
    ensures !Fold(step, n, i, t).Aborted?
    decreases n - i
  {
    if i < n {
      var o := step(i, t);
      if o.Completed? {
        FoldNeverAborts(step, n, i + 1, o.tally, inv);
      }
    }
  }

  /** A fold every step of which completes, from states satisfying a kept
      `inv`, completes. */
  lemma {:induction false} FoldCompletes(step: (nat, Tally) -> Outcome, n: nat, i: nat, t: Tally, inv: Tally -> bool)
    requires inv(t)
    requires forall j: nat, u: Tally :: i <= j < n && inv(u) ==> step(j, u).Completed? && inv(step(j, u).tally)
    ensures Fold(step, n, i, t).Completed?
    decreases n - i
  {
    if i < n {
      FoldCompletes(step, n, i + 1, step(i, t).tally, inv);
    }
  }

  /** When step `j` fails exactly at the positions where `ok(j)` is false,
      naming `j`, a fold that fails fails at the first such position. */
  lemma {:induction false} FoldStopsAtFirstFailure(step: (nat, Tally) -> Outcome, n: nat, i: nat, t: Tally, ok: nat -> bool)
    requires Fold(step, n, i, t).BadDate?
    requires forall j: nat, u: Tally :: i <= j < n ==> (step(j, u).BadDate? <==> !ok(j))
    requires forall j: nat, u: Tally :: i <= j < n && step(j, u).BadDate? ==> step(j, u).sheet == j
    ensures var j := Fold(step, n, i, t).sheet;
            i <= j < n && !ok(j) && forall k: nat :: i <= k < j ==> ok(k)
    decreases n - i
  {
    if i < n {
      var o := step(i, t);
      if o.Completed? {
        FoldStopsAtFirstFailure(step, n, i + 1, o.tally, ok);
      }
    }
  }

  /** When only steps at positions with `ok` complete, a completed fold
      went through positions that all have it. */
  lemma {:induction false} FoldCompletedPassedAll(step: (nat, Tally) -> Outcome, n: nat, i: nat, t: Tally, ok: nat -> bool)
    requires Fold(step, n, i, t).Completed?
    requires forall j: nat, u: Tally :: i <= j < n && step(j, u).Completed? ==> ok(j)
    ensures forall k: nat :: i <= k < n ==> ok(k)
    decreases n - i
  {
    if i < n {
      var o := step(i, t);
      FoldCompletedPassedAll(step, n, i + 1, o.tally, ok);
    }
  }

  /** Whether the date cell of sheet `k` was read. */
  ghost function DatedSheet(sessions: seq<Session>): nat -> bool {
    (k: nat) => k < |sessions| && sessions[k].date.Some?
  }

  /** Two runs — over two class lists and two lists of sheets — that treat
      every sheet alike when it starts in a state satisfying `inv`, and
      whose sheets keep `inv`, end alike. */
  lemma {:induction false} RunsAgree(r1: seq<Student>, r2: seq<Student>, custom: bool, s1: seq<Session>, s2: seq<Session>, i: nat, t: Tally, inv: Tally -> bool)
    requires 1 <= i && inv(t) && |s1| == |s2|
    requires forall j: nat, u: Tally {:trigger ProcessSheet(r1, custom, s1, j, u)} :: 1 <= j < |s1| && inv(u)
               ==> ProcessSheet(r1, custom, s1, j, u) == ProcessSheet(r2, custom, s2, j, u)
    requires forall j: nat, u: Tally {:trigger ProcessSheet(r1, custom, s1, j, u)} :: 1 <= j < |s1| && inv(u) && ProcessSheet(r1, custom, s1, j, u).Completed?
               ==> inv(ProcessSheet(r1, custom, s1, j, u).tally)
    ensures RunFrom(r1, custom, s1, i, t) == RunFrom(r2, custom, s2, i, t)
    decreases |s1| - i
  {
    RunIsFold(r1, custom, s1, i, t);
    RunIsFold(r2, custom, s2, i, t);
    var f, g := SheetStep(r1, custom, s1), SheetStep(r2, custom, s2);
    forall j: nat, u: Tally | i <= j < |s1| && inv(u)
      ensures f(j, u) == g(j, u)
      ensures f(j, u).Completed? ==> inv(f(j, u).tally)
    {
      assert f(j, u) == ProcessSheet(r1, custom, s1, j, u);
    }
    FoldsAgree(f, g, |s1|, i, t, inv);
  }

  /** If every sheet started in a state satisfying `inv` completes and
      keeps `inv`, the whole run completes. */
  lemma RunCompletes(roster: seq<Student>, custom: bool, sessions: seq<Session>, i: nat, t: Tally, inv: Tally -> bool)
    requires 1 <= i && inv(t)
    requires forall j: nat, u: Tally :: 1 <= j < |sessions| && inv(u) ==> ProcessSheet(roster, custom, sessions, j, u).Completed?
    requires forall j: nat, u: Tally :: 1 <= j < |sessions| && inv(u) && ProcessSheet(roster, custom, sessions, j, u).Completed?
               ==> inv(ProcessSheet(roster, custom, sessions, j, u).tally)
    ensures RunFrom(roster, custom, sessions, i, t).Completed?
  {
    RunIsFold(roster, custom, sessions, i, t);
    var step := SheetStep(roster, custom, sessions);
    forall j: nat, u: Tally | i <= j < |sessions| && inv(u)
      ensures step(j, u).Completed?
      ensures inv(step(j, u).tally)
    {
      SheetStepIsProcessSheet(roster, custom, sessions, j, u);
    }
    FoldCompletes(step, |sessions|, i, t, inv);
  }

  /** A run that stops on a date cell stops on the first unreadable one
      from sheet `i` on. */
  lemma BadDateIsFirstUnreadable(roster: seq<Student>, custom: bool, sessions: seq<Session>, i: nat, t: Tally)
    requires 1 <= i && RunFrom(roster, custom, sessions, i, t).BadDate?
    ensures var j := RunFrom(roster, custom, sessions, i, t).sheet;
            && i <= j < |sessions| && sessions[j].date.None?
            && forall k :: i <= k < j ==> sessions[k].date.Some?
  {
    RunIsFold(roster, custom, sessions, i, t);
    var step := SheetStep(roster, custom, sessions);
    var dated := DatedSheet(sessions);
    forall j: nat, u: Tally | i <= j < |sessions|
      ensures step(j, u).BadDate? <==> !dated(j)
      ensures step(j, u).BadDate? ==> step(j, u).sheet == j
    {
      SheetStepIsProcessSheet(roster, custom, sessions, j, u);
    }
    FoldStopsAtFirstFailure(step, |sessions|, i, t, dated);
    var j := RunFrom(roster, custom, sessions, i, t).sheet;
    assert !dated(j);
    forall k | i <= k < j
      ensures sessions[k].date.Some?
    {
      assert dated(k);
    }
  }

  /** A run that completes has read a date on every sheet it went through. */
  lemma CompletedRunReadEveryDate(roster: seq<Student>, custom: bool, sessions: seq<Session>, i: nat, t: Tally)
    requires 1 <= i && RunFrom(roster, custom, sessions, i, t).Completed?
    ensures forall k :: i <= k < |sessions| ==> sessions[k].date.Some?
  {
    RunIsFold(roster, custom, sessions, i, t);
    var step := SheetStep(roster, custom, sessions);
    var dated := DatedSheet(sessions);
    forall j: nat, u: Tally | i <= j < |sessions| && step(j, u).Completed?
      ensures dated(j)
    {
      SheetStepIsProcessSheet(roster, custom, sessions, j, u);
    }
    FoldCompletedPassedAll(step, |sessions|, i, t, dated);
    forall k | i <= k < |sessions|
      ensures sessions[k].date.Some?
    {
      assert dated(k);
    }
  }

  // ---------------------------------------------------------------------
  // Ignore is sticky

  /** The answers whose key is not `key`. */
  function Without(raws: seq<string>, key: string): (r: seq<string>)
    ensures |r| <= |raws|
  {
    if raws == [] then []
    else if Normalize(raws[0]) == key then Without(raws[1..], key)
    else [raws[0]] + Without(raws[1..], key)
  }

  /** Once `key` is ignored, the rest of a sheet runs exactly as if its
      answers with that key had never been typed. */
  lemma {:induction false} IgnoredKeyVanishes(roster: seq<Student>, custom: bool, date: Date, day: string, t: Tally, raws: seq<string>, key: string)
    requires key in t.ignored
    ensures StepNames(roster, custom, date, day, t, raws) == StepNames(roster, custom, date, day, t, Without(raws, key))
    decreases |raws|
  {
    if raws != [] {
      if Normalize(raws[0]) == key {
        IgnoredKeyVanishes(roster, custom, date, day, t, raws[1..], key);
      } else {
        var w := [raws[0]] + Without(raws[1..], key);
        assert w[0] == raws[0] && w[1..] == Without(raws[1..], key);
        var step := StepName(roster, custom, date, day, t, raws[0]);
        if step.Some? {
          StepGrows(roster, custom, date, day, t, raws[0]);
          assert key in step.value.ignored by {
            assert t.ignored == step.value.ignored[..|t.ignored|];
            var k :| 0 <= k < |t.ignored| && t.ignored[k] == key;
            assert step.value.ignored[k] == key;
          }
          IgnoredKeyVanishes(roster, custom, date, day, step.value, raws[1..], key);
        }
      }
    }
  }

  /** A sheet with the answers of `key` taken out (the header rows kept). */
  function DropKey(sh: Sheet, key: string): (r: Sheet)
    ensures CheckIns(r) == Without(CheckIns(sh), key)
  {
    if |sh.responses| > 7 then
      var r := Sheet(sh.dateText, sh.responses[..7] + Without(sh.responses[7..], key));
      assert r.responses[7..] == Without(sh.responses[7..], key);
      r
    else sh
  }

  function DropKeyAll(sheets: seq<Sheet>, key: string): (r: seq<Sheet>)
    ensures |r| == |sheets|
    ensures forall k :: 0 <= k < |r| ==> r[k] == DropKey(sheets[k], key)
  {
    seq(|sheets|, k requires 0 <= k < |sheets| => DropKey(sheets[k], key))
  }

  /** The same, on sheets already read. */
  function Dropped(sessions: seq<Session>, key: string): (r: seq<Session>)
    ensures |r| == |sessions|
    ensures forall k :: 0 <= k < |r| ==> r[k] == sessions[k].(answers := Without(sessions[k].answers, key))
  {
    seq(|sessions|, k requires 0 <= k < |sessions| => sessions[k].(answers := Without(sessions[k].answers, key)))
  }

  lemma DroppedSheets(sheets: seq<Sheet>, key: string)
    ensures Sessions(DropKeyAll(sheets, key)) == Dropped(Sessions(sheets), key)
  {
    var l := Sessions(DropKeyAll(sheets, key));
    var r := Dropped(Sessions(sheets), key);
    forall k | 0 <= k < |sheets| ensures l[k] == r[k] {
      assert DropKeyAll(sheets, key)[k].dateText == sheets[k].dateText;
    }
  }

  lemma IgnoredStaysIgnored(roster: seq<Student>, custom: bool, date: Date, day: string, t: Tally, raws: seq<string>, key: string)
    requires key in t.ignored && StepNames(roster, custom, date, day, t, raws).Some?
    ensures key in StepNames(roster, custom, date, day, t, raws).value.ignored
  {
    var u := StepNames(roster, custom, date, day, t, raws).value;
    StepNamesGrow(roster, custom, date, day, t, raws);
    var k :| 0 <= k < |t.ignored| && t.ignored[k] == key;
    assert u.ignored[k] == key;
  }

  /** One sheet read with an ignored key runs as the sheet without that
      key's answers, and the key is still ignored afterwards. */
  lemma SheetWithoutKey(roster: seq<Student>, custom: bool, sessions: seq<Session>, i: nat, t: Tally, key: string)
    requires 1 <= i < |sessions| && key in t.ignored
    ensures ProcessSheet(roster, custom, sessions, i, t) == ProcessSheet(roster, custom, Dropped(sessions, key), i, t)
    ensures ProcessSheet(roster, custom, sessions, i, t).Completed? ==> key in ProcessSheet(roster, custom, sessions, i, t).tally.ignored
  {
    match sessions[i].date
    case None =>
    case Some(date) =>
      var start := OpenColumn(t, i, |sessions|, date);
      assert key in start.ignored;
      IgnoredKeyVanishes(roster, custom, date, sessions[i].day, start, sessions[i].answers, key);
      if StepNames(roster, custom, date, sessions[i].day, start, sessions[i].answers).Some? {
        IgnoredStaysIgnored(roster, custom, date, sessions[i].day, start, sessions[i].answers, key);
      }
  }

  lemma IgnoredKeyVanishesFromRun(roster: seq<Student>, custom: bool, sessions: seq<Session>, i: nat, t: Tally, key: string)
    requires 1 <= i && key in t.ignored
    ensures RunFrom(roster, custom, sessions, i, t) == RunFrom(roster, custom, Dropped(sessions, key), i, t)
  {
    var inv := (u: Tally) => key in u.ignored;
    forall j: nat, u: Tally | 1 <= j < |sessions| && inv(u)
      ensures ProcessSheet(roster, custom, sessions, j, u) == ProcessSheet(roster, custom, Dropped(sessions, key), j, u)
      ensures ProcessSheet(roster, custom, sessions, j, u).Completed? ==> inv(ProcessSheet(roster, custom, sessions, j, u).tally)
    {
      SheetWithoutKey(roster, custom, sessions, j, u, key);
    }
    RunsAgree(roster, roster, custom, sessions, Dropped(sessions, key), i, t, inv);
  }

  /** Ignore is sticky across sessions: once `key` is on the ignore list
      before sheet `i`, every later answer with that key, on that sheet or
      any later one, adds no miss, marks no cell and asks nothing — the
      rest of the run is the run on the sheets with those answers deleted
      (attendance_list.py lines 141-142 and 155-157). */
  lemma IgnoreIsSticky(roster: seq<Student>, custom: bool, sheets: seq<Sheet>, i: nat, t: Tally, key: string)
    requires 1 <= i && key in t.ignored
    ensures RunFrom(roster, custom, Sessions(sheets), i, t) == RunFrom(roster, custom, Sessions(DropKeyAll(sheets, key)), i, t)
  {
    DroppedSheets(sheets, key);
    IgnoredKeyVanishesFromRun(roster, custom, Sessions(sheets), i, t, key);
  }

  // ---------------------------------------------------------------------
  // Standard mode

  /** In standard-username mode nobody is asked: the run never aborts, the
      ignore list and the remap stay empty and every answer is left over. */
  lemma StandardModeNeverAsks(roster: seq<Student>, sessions: seq<Session>, i: nat, t: Tally)
    requires 1 <= i && t.ignored == [] && t.remap == map[]
    ensures !RunFrom(roster, false, sessions, i, t).Aborted?
    ensures var o := RunFrom(roster, false, sessions, i, t);
            o.Completed? ==> o.tally.ignored == [] && o.tally.remap == map[] && o.tally.script == t.script
  {
    var inv := (u: Tally) => u.ignored == [] && u.remap == map[] && u.script == t.script;
    forall j: nat, u: Tally | 1 <= j < |sessions| && inv(u)
      ensures !ProcessSheet(roster, false, sessions, j, u).Aborted?
      ensures ProcessSheet(roster, false, sessions, j, u).Completed? ==> inv(ProcessSheet(roster, false, sessions, j, u).tally)
    {
      StandardSheet(roster, sessions, j, u);
    }
    RunNeverAborts(roster, false, sessions, i, t, inv);
    if RunFrom(roster, false, sessions, i, t).Completed? {
      RunKeeps(roster, false, sessions, i, t, inv);
    }
  }

  lemma StandardSheet(roster: seq<Student>, sessions: seq<Session>, i: nat, t: Tally)
    requires 1 <= i < |sessions| && t.ignored == [] && t.remap == map[]
    ensures var o := ProcessSheet(roster, false, sessions, i, t);
            && !o.Aborted?
            && (o.Completed? ==> o.tally.ignored == [] && o.tally.remap == map[] && o.tally.script == t.script)
  {
    match sessions[i].date
    case None =>
    case Some(date) =>
      StandardSheetNeverAsks(roster, date, sessions[i].day, OpenColumn(t, i, |sessions|, date), sessions[i].answers);
  }

  lemma {:induction false} StandardSheetNeverAsks(roster: seq<Student>, date: Date, day: string, t: Tally, raws: seq<string>)
    requires t.ignored == [] && t.remap == map[]
    ensures var o := StepNames(roster, false, date, day, t, raws);
            o.Some? && o.value.ignored == [] && o.value.remap == map[] && o.value.script == t.script
    decreases |raws|
  {
    if raws != [] {
      var t1 := StepName(roster, false, date, day, t, raws[0]).value;
      StandardSheetNeverAsks(roster, date, day, t1, raws[1..]);
    }
  }

  // ---------------------------------------------------------------------
  // First and last date

  lemma {:induction false} RunDates(roster: seq<Student>, custom: bool, sessions: seq<Session>, i: nat, t: Tally)
    requires 1 <= i && RunFrom(roster, custom, sessions, i, t).Completed?
    ensures var u := RunFrom(roster, custom, sessions, i, t).tally;
            && u.first == (if i <= 1 < |sessions| then sessions[1].date else t.first)
            && u.last == (if i < |sessions| then sessions[|sessions| - 1].date else t.last)
    decreases |sessions| - i
  {
    if i < |sessions| {
      var o := ProcessSheet(roster, custom, sessions, i, t);
      SheetGrows(roster, custom, sessions, i, t);
      RunDates(roster, custom, sessions, i + 1, o.tally);
    }
  }

  /** A run from the first sheet after sheet 0 takes its first date from
      sheet 1 and its last date from the last sheet. */
  lemma RunFromStartDates(roster: seq<Student>, custom: bool, sessions: seq<Session>, script: seq<Option<string>>)
    requires RunFrom(roster, custom, sessions, 1, Initial(script)).Completed?
    ensures var u := RunFrom(roster, custom, sessions, 1, Initial(script)).tally;
            && u.first == (if |sessions| > 1 then sessions[1].date else None)
            && u.last == (if |sessions| > 1 then sessions[|sessions| - 1].date else None)
  {
    RunDates(roster, custom, sessions, 1, Initial(script));
  }

  /** `first_date` is the date of sheet 1 and `last_date` that of the last
      sheet, by position and not by comparing dates; with no sheet after
      sheet 0 both stay `None` (lines 133-136). */
  lemma FirstAndLastBySheetPosition(roster: seq<Student>, custom: bool, sheets: seq<Sheet>, script: seq<Option<string>>)
    requires Reconciled(roster, custom, sheets, script).Completed?
    ensures var u := Reconciled(roster, custom, sheets, script).tally;
            && u.first == (if |sheets| > 1 then ParseDate(sheets[1].dateText) else None)
            && u.last == (if |sheets| > 1 then ParseDate(sheets[|sheets| - 1].dateText) else None)
  {
    var sessions := Sessions(sheets);
    RunFromStartDates(roster, custom, sessions, script);
    if |sheets| > 1 {
      assert sessions[1].date == ParseDate(sheets[1].dateText);
      assert sessions[|sheets| - 1].date == ParseDate(sheets[|sheets| - 1].dateText);
    }
  }

  /** A run from sheet `i >= 1` reads nothing of sheet 0: two sheet lists
      that agree from sheet 1 on give the same run. */
  lemma RunFromReadsFrom(roster: seq<Student>, custom: bool, a: seq<Session>, b: seq<Session>, i: nat, t: Tally)
    requires 1 <= i && |a| == |b|
    requires forall k :: 1 <= k < |a| ==> a[k] == b[k]
    ensures RunFrom(roster, custom, a, i, t) == RunFrom(roster, custom, b, i, t)
  {
    forall j: nat, u: Tally | 1 <= j < |a|
      ensures ProcessSheet(roster, custom, a, j, u) == ProcessSheet(roster, custom, b, j, u)
    {
      assert a[j] == b[j];
    }
    RunsAgree(roster, roster, custom, a, b, i, t, (u: Tally) => true);
  }

  /** Sheet 0 is never read (line 127 starts the loop at 1): replacing it
      changes nothing in the result. */
  lemma SheetZeroUnread(roster: seq<Student>, custom: bool, s0: Sheet, s1: Sheet, rest: seq<Sheet>, script: seq<Option<string>>)
    ensures Reconciled(roster, custom, [s0] + rest, script) == Reconciled(roster, custom, [s1] + rest, script)
  {
    var a, b := Sessions([s0] + rest), Sessions([s1] + rest);
    forall k | 1 <= k < |a|
      ensures a[k] == b[k]
    {
      assert ([s0] + rest)[k] == ([s1] + rest)[k];
    }
    RunFromReadsFrom(roster, custom, a, b, 1, Initial(script));
  }

  /** Every date the tally holds is a calendar date. */
  ghost predicate DatesValid(t: Tally) {
    && (forall k :: 0 <= k < |t.columns| ==> ValidDate(t.columns[k]))
    && (t.first.Some? ==> ValidDate(t.first.value))
    && (t.last.Some? ==> ValidDate(t.last.value))
  }

  lemma SheetKeepsDatesValid(roster: seq<Student>, custom: bool, sessions: seq<Session>, i: nat, t: Tally)
    requires 1 <= i < |sessions| && DatesValid(t)
    requires ProcessSheet(roster, custom, sessions, i, t).Completed?
    ensures DatesValid(ProcessSheet(roster, custom, sessions, i, t).tally)
  {
    SheetGrows(roster, custom, sessions, i, t);
  }

  /** A completed run's columns and first and last dates are all calendar
      dates: every one of them came out of `format_date`. */
  lemma ReconciledDatesValid(roster: seq<Student>, custom: bool, sheets: seq<Sheet>, script: seq<Option<string>>)
    requires Reconciled(roster, custom, sheets, script).Completed?
    ensures DatesValid(Reconciled(roster, custom, sheets, script).tally)
  {
    var sessions := Sessions(sheets);
    forall j: nat, u: Tally | 1 <= j < |sessions| && DatesValid(u) && ProcessSheet(roster, custom, sessions, j, u).Completed?
      ensures DatesValid(ProcessSheet(roster, custom, sessions, j, u).tally)
    {
      SheetKeepsDatesValid(roster, custom, sessions, j, u);
    }
    RunKeeps(roster, custom, sessions, 1, Initial(script), DatesValid);
  }

  // ---------------------------------------------------------------------
  // The presence table

  /** Every date column exists once, holds only row positions of the class
      list, and each date with cells has a column. */
  ghost predicate WellFormed(t: Tally, rows: nat) {
    && (forall a, b :: 0 <= a < b < |t.columns| ==> t.columns[a] != t.columns[b])
    && (forall d :: d in t.marks <==> d in t.columns)
    && (forall d, r :: d in t.marks && r in t.marks[d] ==> r < rows)
  }

  /** `u` differs from `t` only in cells added to the column of `date`. */
  ghost predicate OnlyAdds(t: Tally, u: Tally, date: Date) {
    && u.columns == t.columns
    && (forall d :: d != date ==> Column(u.marks, d) == Column(t.marks, d))
    && Column(t.marks, date) <= Column(u.marks, date)
  }

  lemma MarkKeepsWellFormed(t: Tally, rows: nat, row: nat, date: Date)
    requires WellFormed(t, rows) && date in t.columns && row < rows
    ensures WellFormed(Mark(t, row, date), rows)
    ensures OnlyAdds(t, Mark(t, row, date), date)
  {
  }

  lemma ResolutionKeepsWellFormed(roster: seq<Student>, date: Date, t: Tally, name: string)
    requires WellFormed(t, |roster|) && date in t.columns
    requires Resolution(roster, date, t, name).Some?
    ensures WellFormed(Resolution(roster, date, t, name).value, |roster|)
    ensures OnlyAdds(t, Resolution(roster, date, t, name).value, date)
  {
    var t1 := t.(script := NextAnswer(t.script).1);
    if Interpret(NextAnswer(t.script).0).Correct? {
      var typed := Interpret(NextAnswer(t.script).0).name;
      var again := Matches(roster, typed);
      if |again| > 0 {
        MarkKeepsWellFormed(t1.(remap := t1.remap[name := typed]), |roster|, again[0], date);
      }
    }
  }

  lemma StepKeepsWellFormed(roster: seq<Student>, custom: bool, date: Date, day: string, t: Tally, raw: string)
    requires WellFormed(t, |roster|) && date in t.columns
    requires StepName(roster, custom, date, day, t, raw).Some?
    ensures WellFormed(StepName(roster, custom, date, day, t, raw).value, |roster|)
    ensures OnlyAdds(t, StepName(roster, custom, date, day, t, raw).value, date)
  {
    var key := Normalize(raw);
    if key !in t.ignored {
      var name := Lookup(t, key);
      var hits := Matches(roster, name);
      if |hits| == 0 {
        if custom {
          ResolutionKeepsWellFormed(roster, date, t.(missing := t.missing + [Miss(name, day)]), name);
        }
      } else if |hits| == 1 {
        MarkKeepsWellFormed(t, |roster|, hits[0], date);
      }
    }
  }

  /** Answers write only into the column of their own session's date. */
  lemma {:induction false} StepNamesTouchOwnColumn(roster: seq<Student>, custom: bool, date: Date, day: string, t: Tally, raws: seq<string>)
    requires WellFormed(t, |roster|) && date in t.columns
    requires StepNames(roster, custom, date, day, t, raws).Some?
    ensures WellFormed(StepNames(roster, custom, date, day, t, raws).value, |roster|)
    ensures OnlyAdds(t, StepNames(roster, custom, date, day, t, raws).value, date)
    decreases |raws|
  {
    if raws != [] {
      var t1 := StepName(roster, custom, date, day, t, raws[0]).value;
      StepKeepsWellFormed(roster, custom, date, day, t, raws[0]);
      StepNamesTouchOwnColumn(roster, custom, date, day, t1, raws[1..]);
    }
  }

  /** `df[date] = nan` on a date seen before keeps its column where it was
      and empties it: the earlier sheet's marks for that date are lost. */
  lemma ReopenedColumnIsEmptied(t: Tally, i: nat, count: nat, date: Date)
    requires date in t.columns
    ensures OpenColumn(t, i, count, date).columns == t.columns
    ensures Column(OpenColumn(t, i, count, date).marks, date) == {}
  {
  }

  lemma OpenKeepsWellFormed(t: Tally, rows: nat, i: nat, count: nat, date: Date)
    requires WellFormed(t, rows)
    ensures WellFormed(OpenColumn(t, i, count, date), rows)
    ensures date in OpenColumn(t, i, count, date).columns
  {
    var start := OpenColumn(t, i, count, date);
    if date !in t.columns {
      forall a, b | 0 <= a < b < |start.columns| ensures start.columns[a] != start.columns[b] {
        if b == |t.columns| {
          assert start.columns[a] == t.columns[a];
        }
      }
    }
  }

  /** One sheet changes only its own date's column: together with
      `ReopenedColumnIsEmptied`, that column then holds exactly what this
      sheet's answers marked. */
  lemma SheetTouchesOwnColumn(roster: seq<Student>, custom: bool, sessions: seq<Session>, i: nat, t: Tally)
    requires 1 <= i < |sessions| && WellFormed(t, |roster|)
    requires ProcessSheet(roster, custom, sessions, i, t).Completed?
    ensures sessions[i].date.Some?
    ensures var date := sessions[i].date.value;
            var u := ProcessSheet(roster, custom, sessions, i, t).tally;
            && WellFormed(u, |roster|)
            && date in u.columns
            && (forall d :: d != date ==> Column(u.marks, d) == Column(t.marks, d))
  {
    SheetGrows(roster, custom, sessions, i, t);
    var date := sessions[i].date.value;
    var start := OpenColumn(t, i, |sessions|, date);
    OpenKeepsWellFormed(t, |roster|, i, |sessions|, date);
    StepNamesTouchOwnColumn(roster, custom, date, sessions[i].day, start, sessions[i].answers);
  }

  lemma SheetKeepsWellFormed(roster: seq<Student>, custom: bool, sessions: seq<Session>, i: nat, t: Tally)
    requires 1 <= i < |sessions| && WellFormed(t, |roster|)
    requires ProcessSheet(roster, custom, sessions, i, t).Completed?
    ensures WellFormed(ProcessSheet(roster, custom, sessions, i, t).tally, |roster|)
  {
    SheetTouchesOwnColumn(roster, custom, sessions, i, t);
  }

  lemma RunKeepsWellFormed(roster: seq<Student>, custom: bool, sessions: seq<Session>, i: nat, t: Tally)
    requires 1 <= i && WellFormed(t, |roster|) && RunFrom(roster, custom, sessions, i, t).Completed?
    ensures WellFormed(RunFrom(roster, custom, sessions, i, t).tally, |roster|)
  {
    forall j: nat, u: Tally | 1 <= j < |sessions| && WellFormed(u, |roster|) && ProcessSheet(roster, custom, sessions, j, u).Completed?
      ensures WellFormed(ProcessSheet(roster, custom, sessions, j, u).tally, |roster|)
    {
      SheetKeepsWellFormed(roster, custom, sessions, j, u);
    }
    RunKeeps(roster, custom, sessions, i, t, u => WellFormed(u, |roster|));
  }

  /** After a completed run the table is well formed: one column per
      distinct date, cells only in rows of the class list. */
  lemma ReconciledIsWellFormed(roster: seq<Student>, custom: bool, sheets: seq<Sheet>, script: seq<Option<string>>)
    requires Reconciled(roster, custom, sheets, script).Completed?
    ensures WellFormed(Reconciled(roster, custom, sheets, script).tally, |roster|)
  {
    RunKeepsWellFormed(roster, custom, Sessions(sheets), 1, Initial(script));
  }

  // ---------------------------------------------------------------------
  // The class list is consulted only through its lookups

  /** Two class lists on which every lookup finds the same rows. */
  ghost predicate SameLookups(r1: seq<Student>, r2: seq<Student>) {
    forall name :: Matches(r1, name) == Matches(r2, name)
  }

  lemma StepNameAgrees(r1: seq<Student>, r2: seq<Student>, custom: bool, date: Date, day: string, t: Tally, raw: string)
    requires SameLookups(r1, r2)
    ensures StepName(r1, custom, date, day, t, raw) == StepName(r2, custom, date, day, t, raw)
  {
    var name := Lookup(t, Normalize(raw));
    assert Matches(r1, name) == Matches(r2, name);
    var typed := Interpret(NextAnswer(t.script).0);
    if typed.Correct? {
      assert Matches(r1, typed.name) == Matches(r2, typed.name);
    }
  }

  lemma {:induction false} StepNamesAgree(r1: seq<Student>, r2: seq<Student>, custom: bool, date: Date, day: string, t: Tally, raws: seq<string>)
    requires SameLookups(r1, r2)
    ensures StepNames(r1, custom, date, day, t, raws) == StepNames(r2, custom, date, day, t, raws)
    decreases |raws|
  {
    if raws != [] {
      StepNameAgrees(r1, r2, custom, date, day, t, raws[0]);
      var step := StepName(r1, custom, date, day, t, raws[0]);
      if step.Some? {
        StepNamesAgree(r1, r2, custom, date, day, step.value, raws[1..]);
      }
    }
  }

  /** Two class lists with the same lookups reconcile every run alike. */
  lemma RunIgnoresRosterBeyondLookups(r1: seq<Student>, r2: seq<Student>, custom: bool, sessions: seq<Session>, i: nat, t: Tally)
    requires 1 <= i && SameLookups(r1, r2)
    ensures RunFrom(r1, custom, sessions, i, t) == RunFrom(r2, custom, sessions, i, t)
  {
    forall j: nat, u: Tally | 1 <= j < |sessions|
      ensures ProcessSheet(r1, custom, sessions, j, u) == ProcessSheet(r2, custom, sessions, j, u)
    {
      match sessions[j].date
      case None =>
      case Some(date) =>
        StepNamesAgree(r1, r2, custom, date, sessions[j].day, OpenColumn(u, j, |sessions|, date), sessions[j].answers);
    }
    RunsAgree(r1, r2, custom, sessions, sessions, i, t, u => true);
  }

  /** The English and the Norwegian edition clean the class list
      differently (`remove_quotes` keeps a non-text cell, `remSpace` turns
      it into `None`), yet reconcile every attendance export alike. */
  lemma EditionsReconcileAlike(students: seq<Student>, custom: bool, sheets: seq<Sheet>, script: seq<Option<string>>)
    ensures Reconciled(CleanRoster(English, students), custom, sheets, script)
            == Reconciled(CleanRoster(Norwegian, students), custom, sheets, script)
  {
    forall name {
      MatchesAgreeAcrossVariants(students, name);
    }
    RunIgnoresRosterBeyondLookups(CleanRoster(English, students), CleanRoster(Norwegian, students), custom, Sessions(sheets), 1, Initial(script));
  }

  // ---------------------------------------------------------------------
  // The operator's answers are read in order, one per miss

  /** `u` is `t` after the operator answered one dialog for each miss
      recorded in between: the unread answers are what is left once that
      many have been taken from the front. */
  ghost predicate AnsweredPerMiss(t: Tally, u: Tally) {
    && |t.missing| <= |u.missing|
    && |u.missing| - |t.missing| <= |t.script|
    && u.script == t.script[|u.missing| - |t.missing|..]
  }

  lemma AnsweredPerMissTrans(t: Tally, u: Tally, w: Tally)
    requires AnsweredPerMiss(t, u) && AnsweredPerMiss(u, w)
    ensures AnsweredPerMiss(t, w)
  {
    var a, b := |u.missing| - |t.missing|, |w.missing| - |u.missing|;
    assert w.script == t.script[a..][b..] == t.script[a + b..];
  }

  /** The correction dialog reads exactly one answer, from the front of
      the script, and records no miss of its own. */
  lemma ResolutionAnswersOnce(roster: seq<Student>, date: Date, t: Tally, name: string)
    requires Resolution(roster, date, t, name).Some?
    ensures var u := Resolution(roster, date, t, name).value;
            t.script != [] && u.script == t.script[1..] && u.missing == t.missing
  {
  }

  /** In custom mode one answer reads one dialog answer exactly when it is
      missed, and a step that goes on never found the answers exhausted. */
  lemma StepAnswersPerMiss(roster: seq<Student>, date: Date, day: string, t: Tally, raw: string)
    requires StepName(roster, true, date, day, t, raw).Some?
    ensures AnsweredPerMiss(t, StepName(roster, true, date, day, t, raw).value)
  {
    var key := Normalize(raw);
    var u := StepName(roster, true, date, day, t, raw).value;
    if key in t.ignored {
      assert t.script[0..] == t.script;
    } else if |Matches(roster, Lookup(t, key))| == 0 {
      var name := Lookup(t, key);
      var t1 := t.(missing := t.missing + [Miss(name, day)]);
      ResolutionAnswersOnce(roster, date, t1, name);
      assert u == Resolution(roster, date, t1, name).value;
    } else {
      assert t.script[0..] == t.script;
    }
  }

  lemma {:induction false} StepNamesAnswerPerMiss(roster: seq<Student>, date: Date, day: string, t: Tally, raws: seq<string>)
    requires StepNames(roster, true, date, day, t, raws).Some?
    ensures AnsweredPerMiss(t, StepNames(roster, true, date, day, t, raws).value)
    decreases |raws|
  {
    if raws == [] {
      assert t.script[0..] == t.script;
    } else {
      var t1 := StepName(roster, true, date, day, t, raws[0]).value;
      StepAnswersPerMiss(roster, date, day, t, raws[0]);
      StepNamesAnswerPerMiss(roster, date, day, t1, raws[1..]);
      AnsweredPerMissTrans(t, t1, StepNames(roster, true, date, day, t, raws).value);
    }
  }

  lemma SheetAnswersPerMiss(roster: seq<Student>, sessions: seq<Session>, i: nat, t: Tally)
    requires 1 <= i < |sessions| && ProcessSheet(roster, true, sessions, i, t).Completed?
    ensures AnsweredPerMiss(t, ProcessSheet(roster, true, sessions, i, t).tally)
  {
    match sessions[i].date
    case Some(date) =>
      StepNamesAnswerPerMiss(roster, date, sessions[i].day, OpenColumn(t, i, |sessions|, date), sessions[i].answers);
  }

  /** The operator's answers are read in order, one per miss (lines
      147-154): after a completed custom-mode run exactly as many answers
      have been taken from the front of the script as misses were
      recorded, and the script was never exhausted. In standard mode none
      is read (`StandardModeNeverAsks`). */
  lemma AnswersTakenInOrder(roster: seq<Student>, sheets: seq<Sheet>, script: seq<Option<string>>)
    requires Reconciled(roster, true, sheets, script).Completed?
    ensures var u := Reconciled(roster, true, sheets, script).tally;
            |u.missing| <= |script| && u.script == script[|u.missing|..]
  {
    var sessions := Sessions(sheets);
    var t0 := Initial(script);
    forall j: nat, u: Tally | 1 <= j < |sessions| && AnsweredPerMiss(t0, u) && ProcessSheet(roster, true, sessions, j, u).Completed?
      ensures AnsweredPerMiss(t0, ProcessSheet(roster, true, sessions, j, u).tally)
    {
      SheetAnswersPerMiss(roster, sessions, j, u);
      AnsweredPerMissTrans(t0, u, ProcessSheet(roster, true, sessions, j, u).tally);
    }
    assert t0.script[0..] == t0.script;
    RunKeeps(roster, true, sessions, 1, t0, u => AnsweredPerMiss(t0, u));
  }

  // ---------------------------------------------------------------------
  // A check-in marks its row

  /** Every ignored or remapped name is one the class list lacks: only a
      miss ever reaches the correction dialog. */
  ghost predicate OnlyMissesSet(roster: seq<Student>, t: Tally) {
    && (forall k :: 0 <= k < |t.ignored| ==> Matches(roster, t.ignored[k]) == [])
    && (forall x :: x in t.remap ==> Matches(roster, x) == [])
  }

  lemma StepKeepsOnlyMissesSet(roster: seq<Student>, custom: bool, date: Date, day: string, t: Tally, raw: string)
    requires OnlyMissesSet(roster, t) && StepName(roster, custom, date, day, t, raw).Some?
    ensures OnlyMissesSet(roster, StepName(roster, custom, date, day, t, raw).value)
  {
    var key := Normalize(raw);
    if key !in t.ignored {
      var name := Lookup(t, key);
      if |Matches(roster, name)| == 0 && custom {
        assert Matches(roster, name) == [];
      }
    }
  }

  lemma {:induction false} StepNamesKeepOnlyMissesSet(roster: seq<Student>, custom: bool, date: Date, day: string, t: Tally, raws: seq<string>)
    requires OnlyMissesSet(roster, t) && StepNames(roster, custom, date, day, t, raws).Some?
    ensures OnlyMissesSet(roster, StepNames(roster, custom, date, day, t, raws).value)
    decreases |raws|
  {
    if raws != [] {
      var t1 := StepName(roster, custom, date, day, t, raws[0]).value;
      StepKeepsOnlyMissesSet(roster, custom, date, day, t, raws[0]);
      StepNamesKeepOnlyMissesSet(roster, custom, date, day, t1, raws[1..]);
    }
  }

  lemma SheetKeepsOnlyMissesSet(roster: seq<Student>, custom: bool, sessions: seq<Session>, i: nat, t: Tally)
    requires 1 <= i < |sessions| && OnlyMissesSet(roster, t)
    requires ProcessSheet(roster, custom, sessions, i, t).Completed?
    ensures OnlyMissesSet(roster, ProcessSheet(roster, custom, sessions, i, t).tally)
  {
    match sessions[i].date
    case Some(date) =>
      StepNamesKeepOnlyMissesSet(roster, custom, date, sessions[i].day, OpenColumn(t, i, |sessions|, date), sessions[i].answers);
  }

  /** A key with exactly one row in the class list is neither ignored nor
      remapped, so the answer marks that row (lines 141-146, 167-168). */
  lemma KnownKeyMarks(roster: seq<Student>, custom: bool, date: Date, day: string, t: Tally, raw: string)
    requires OnlyMissesSet(roster, t) && |Matches(roster, Normalize(raw))| == 1
    ensures var step := StepName(roster, custom, date, day, t, raw);
            step.Some? && Matches(roster, Normalize(raw))[0] in Column(step.value.marks, date)
  {
    var key := Normalize(raw);
    assert forall k :: 0 <= k < |t.ignored| ==> t.ignored[k] != key;
    assert key !in t.remap;
    SingleMatchMarksRow(roster, custom, date, day, t, raw);
  }

  /** No answer takes a mark away. */
  lemma StepKeepsMark(roster: seq<Student>, custom: bool, date: Date, day: string, t: Tally, raw: string, d: Date, row: nat)
    requires row in Column(t.marks, d) && StepName(roster, custom, date, day, t, raw).Some?
    ensures row in Column(StepName(roster, custom, date, day, t, raw).value.marks, d)
  {
  }

  lemma {:induction false} StepNamesKeepMark(roster: seq<Student>, custom: bool, date: Date, day: string, t: Tally, raws: seq<string>, d: Date, row: nat)
    requires row in Column(t.marks, d) && StepNames(roster, custom, date, day, t, raws).Some?
    ensures row in Column(StepNames(roster, custom, date, day, t, raws).value.marks, d)
    decreases |raws|
  {
    if raws != [] {
      var t1 := StepName(roster, custom, date, day, t, raws[0]).value;
      StepKeepsMark(roster, custom, date, day, t, raws[0], d, row);
      StepNamesKeepMark(roster, custom, date, day, t1, raws[1..], d, row);
    }
  }

  /** Answer `i` of a sheet, under a key with one row, marks that row by
      the end of the sheet. */
  lemma {:induction false} StepNamesMarkCheckIn(roster: seq<Student>, custom: bool, date: Date, day: string, t: Tally, raws: seq<string>, i: nat)
    requires OnlyMissesSet(roster, t) && i < |raws| && |Matches(roster, Normalize(raws[i]))| == 1
    requires StepNames(roster, custom, date, day, t, raws).Some?
    ensures Matches(roster, Normalize(raws[i]))[0] in Column(StepNames(roster, custom, date, day, t, raws).value.marks, date)
    decreases i
  {
    var t1 := StepName(roster, custom, date, day, t, raws[0]).value;
    if i == 0 {
      KnownKeyMarks(roster, custom, date, day, t, raws[0]);
      StepNamesKeepMark(roster, custom, date, day, t1, raws[1..], date, Matches(roster, Normalize(raws[0]))[0]);
    } else {
      StepKeepsOnlyMissesSet(roster, custom, date, day, t, raws[0]);
      assert raws[1..][i - 1] == raws[i];
      StepNamesMarkCheckIn(roster, custom, date, day, t1, raws[1..], i - 1);
    }
  }

  lemma SheetMarksCheckIn(roster: seq<Student>, custom: bool, sessions: seq<Session>, j: nat, t: Tally, i: nat)
    requires 1 <= j < |sessions| && OnlyMissesSet(roster, t)
    requires ProcessSheet(roster, custom, sessions, j, t).Completed?
    requires i < |sessions[j].answers| && |Matches(roster, Normalize(sessions[j].answers[i]))| == 1
    ensures sessions[j].date.Some?
    ensures Matches(roster, Normalize(sessions[j].answers[i]))[0]
            in Column(ProcessSheet(roster, custom, sessions, j, t).tally.marks, sessions[j].date.value)
  {
    match sessions[j].date
    case Some(date) =>
      StepNamesMarkCheckIn(roster, custom, date, sessions[j].day, OpenColumn(t, j, |sessions|, date), sessions[j].answers, i);
  }

  /** A sheet of another date leaves the marks of date `d` alone. */
  lemma SheetKeepsMark(roster: seq<Student>, custom: bool, sessions: seq<Session>, j: nat, t: Tally, d: Date, row: nat)
    requires 1 <= j < |sessions| && sessions[j].date != Some(d) && row in Column(t.marks, d)
    requires ProcessSheet(roster, custom, sessions, j, t).Completed?
    ensures row in Column(ProcessSheet(roster, custom, sessions, j, t).tally.marks, d)
  {
    match sessions[j].date
    case Some(date) =>
      var start := OpenColumn(t, j, |sessions|, date);
      assert Column(start.marks, d) == Column(t.marks, d);
      StepNamesKeepMark(roster, custom, date, sessions[j].day, start, sessions[j].answers, d, row);
  }

  /** A completed fold passes every position on the way, in a state that
      keeps `inv`. */
  lemma {:induction false} FoldReaches(step: (nat, Tally) -> Outcome, n: nat, i: nat, t: Tally, j: nat, inv: Tally -> bool) returns (u: Tally)
    requires i <= j <= n && inv(t) && Fold(step, n, i, t).Completed?
    requires forall k: nat, w: Tally :: i <= k < n && inv(w) && step(k, w).Completed? ==> inv(step(k, w).tally)
    ensures inv(u) && Fold(step, n, j, u) == Fold(step, n, i, t)
    decreases j - i
  {
    if i == j {
      u := t;
    } else {
      var o := step(i, t);
      assert o.Completed?;
      u := FoldReaches(step, n, i + 1, o.tally, j, inv);
    }
  }

  /** A run that completes reaches each of its sheets with a tally whose
      ignored names and remapped keys all lack a roster row. */
  lemma ReachesOnlyMissesSet(roster: seq<Student>, custom: bool, sessions: seq<Session>, t0: Tally, j: nat) returns (u: Tally)
    requires OnlyMissesSet(roster, t0)
    requires 1 <= j <= |sessions|
    requires Fold(SheetStep(roster, custom, sessions), |sessions|, 1, t0).Completed?
    ensures OnlyMissesSet(roster, u)
    ensures Fold(SheetStep(roster, custom, sessions), |sessions|, j, u) == Fold(SheetStep(roster, custom, sessions), |sessions|, 1, t0)
  {
    var step := SheetStep(roster, custom, sessions);
    var inv := (w: Tally) => OnlyMissesSet(roster, w);
    forall k: nat, w: Tally | 1 <= k < |sessions| && inv(w) && step(k, w).Completed?
      ensures inv(step(k, w).tally)
    {
      SheetStepIsProcessSheet(roster, custom, sessions, k, w);
      SheetKeepsOnlyMissesSet(roster, custom, sessions, k, w);
    }
    u := FoldReaches(step, |sessions|, 1, t0, j, inv);
  }

  /** Sheets after `j` that do not carry date `d` keep its marks. */
  lemma LaterSheetsKeepMark(roster: seq<Student>, custom: bool, sessions: seq<Session>, j: nat, d: Date, row: nat)
    requires forall k :: j < k < |sessions| ==> sessions[k].date != Some(d)
    ensures forall k: nat, w: Tally :: j < k < |sessions| && row in Column(w.marks, d) && SheetStep(roster, custom, sessions)(k, w).Completed?
              ==> row in Column(SheetStep(roster, custom, sessions)(k, w).tally.marks, d)
  {
    forall k: nat, w: Tally | j < k < |sessions| && row in Column(w.marks, d) && SheetStep(roster, custom, sessions)(k, w).Completed?
      ensures row in Column(SheetStep(roster, custom, sessions)(k, w).tally.marks, d)
    {
      SheetStepIsProcessSheet(roster, custom, sessions, k, w);
      SheetKeepsMark(roster, custom, sessions, k, w, d, row);
    }
  }

  /** The fold takes one step at a time. */
  lemma FoldUnfolds(step: (nat, Tally) -> Outcome, n: nat, i: nat, t: Tally)
    requires i < n
    ensures Fold(step, n, i, t) == if step(i, t).Completed? then Fold(step, n, i + 1, step(i, t).tally) else step(i, t)
  {
  }

  /** A state that step `j` leaves satisfying `inv` still does at the end
      of the fold when every later step keeps `inv`. */
  lemma FoldKeepsAfter(step: (nat, Tally) -> Outcome, n: nat, j: nat, u: Tally, inv: Tally -> bool)
    requires j < n && Fold(step, n, j, u).Completed?
    requires step(j, u).Completed? ==> inv(step(j, u).tally)
    requires forall k: nat, w: Tally :: j < k < n && inv(w) && step(k, w).Completed? ==> inv(step(k, w).tally)
    ensures inv(Fold(step, n, j, u).tally)
  {
    FoldUnfolds(step, n, j, u);
    FoldKeeps(step, n, j + 1, step(j, u).tally, inv);
  }

  /** From the sheet of the check-in on: the sheet marks the row, and the
      later sheets, none dated `d`, keep the mark. */
  lemma MarkedFromSheet(roster: seq<Student>, custom: bool, sessions: seq<Session>, u: Tally, j: nat, i: nat, d: Date)
    requires OnlyMissesSet(roster, u)
    requires 1 <= j < |sessions| && sessions[j].date == Some(d)
    requires forall k :: j < k < |sessions| ==> sessions[k].date != Some(d)
    requires i < |sessions[j].answers| && |Matches(roster, Normalize(sessions[j].answers[i]))| == 1
    requires Fold(SheetStep(roster, custom, sessions), |sessions|, j, u).Completed?
    ensures Matches(roster, Normalize(sessions[j].answers[i]))[0]
            in Column(Fold(SheetStep(roster, custom, sessions), |sessions|, j, u).tally.marks, d)
  {
    var row := Matches(roster, Normalize(sessions[j].answers[i]))[0];
    SheetStepIsProcessSheet(roster, custom, sessions, j, u);
    if ProcessSheet(roster, custom, sessions, j, u).Completed? {
      SheetMarksCheckIn(roster, custom, sessions, j, u, i);
    }
    LaterSheetsKeepMark(roster, custom, sessions, j, d, row);
    FoldKeepsAfter(SheetStep(roster, custom, sessions), |sessions|, j, u, (w: Tally) => row in Column(w.marks, d));
  }

  /** The same over sessions: in a completed run from a tally where only
      missed names are ignored or remapped, a check-in with one row on the
      last session dated `d` leaves that row marked on `d`. */
  lemma FoldMarksCheckIn(roster: seq<Student>, custom: bool, sessions: seq<Session>, t0: Tally, j: nat, i: nat, d: Date)
    requires OnlyMissesSet(roster, t0)
    requires 1 <= j < |sessions| && sessions[j].date == Some(d)
    requires forall k :: j < k < |sessions| ==> sessions[k].date != Some(d)
    requires i < |sessions[j].answers| && |Matches(roster, Normalize(sessions[j].answers[i]))| == 1
    requires Fold(SheetStep(roster, custom, sessions), |sessions|, 1, t0).Completed?
    ensures Matches(roster, Normalize(sessions[j].answers[i]))[0]
            in Column(Fold(SheetStep(roster, custom, sessions), |sessions|, 1, t0).tally.marks, d)
  {
    var u := ReachesOnlyMissesSet(roster, custom, sessions, t0, j);
    MarkedFromSheet(roster, custom, sessions, u, j, i, d);
  }

  /** A check-in marks its row (lines 139-146 and 167-168): when answer
      `i` of sheet `j` normalises to a username that exactly one row of the
      class list holds, and no later sheet carries the same date, that row
      is marked present on the sheet's date after the run. No earlier
      ignore or correction can hide the name, because only names the
      class list lacks are ever ignored or remapped. */
  lemma CheckInMarksRow(roster: seq<Student>, custom: bool, sheets: seq<Sheet>, script: seq<Option<string>>, j: nat, i: nat, d: Date)
    requires Reconciled(roster, custom, sheets, script).Completed?
    requires 1 <= j < |sheets| && ParseDate(sheets[j].dateText) == Some(d)
    requires forall k :: j < k < |sheets| ==> ParseDate(sheets[k].dateText) != Some(d)
    requires i < |CheckIns(sheets[j])| && |Matches(roster, Normalize(CheckIns(sheets[j])[i]))| == 1
    ensures Matches(roster, Normalize(CheckIns(sheets[j])[i]))[0] in Column(Reconciled(roster, custom, sheets, script).tally.marks, d)
  {
    var sessions := Sessions(sheets);
    assert sessions[j] == SessionOf(sheets[j]);
    forall k | j < k < |sessions|
      ensures sessions[k].date != Some(d)
    {
      assert sessions[k] == SessionOf(sheets[k]);
    }
    RunIsFold(roster, custom, sessions, 1, Initial(script));
    FoldMarksCheckIn(roster, custom, sessions, Initial(script), j, i, d);
  }
}
