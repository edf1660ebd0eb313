# Attendance reconciliation, modelled in Dafny

The repository holds one program in two editions, `attendance_list.py` (English) and `oppmListe2.py` (Norwegian). It builds a presence table for a class:

- It reads a class list exported from the learning platform's groups as CSV, with one username per row.
- It reads a Mentimeter workbook in which every sheet after the first is one session. A sheet holds the session date in its `Unnamed: 1` column and the usernames that students typed in its `Question 1` column, from row 7 on.
- For every session and every typed answer, it normalises the answer to a key and then:
  1. skips the key if the operator chose to ignore it;
  2. replaces it, once, by the correction the operator gave for it;
  3. looks it up in the class list.
  - On exactly one match, it marks that row present for the session's date.
  - On two or more matches, it does nothing.
  - On no match, it records the name with the session's `DD.MM` label.
- In custom-username mode the operator is then asked for a correction. The operator may answer `i` to ignore the name, close the dialog to stop the program, or type a replacement. A replacement is remembered and looked up, and the first matching row is marked.
- At the end it adds a totals row of per-date head counts and a per-row count of sessions attended (`TimesPresent` / `Ganger`).
- It drops the rows that attended nothing and hides the last row's count.
- It sorts by the count, descending, and writes the table and the not-found list to `<workbook>_from_<first>_to_<last>.xlsx` (`_fra_` / `_til_` in the Norwegian edition).

The model is one engine for both editions. `Basics.Variant` selects the edition where the two differ:

- quote removal on non-text cells;
- the `> 0` versus `== 0` filter;
- hiding the count on an empty table;
- the texts.

The modules:

- `Basics`: `Option`, the edition, and character removal (`str.replace(ch, "")`).
- `Usernames`: the normaliser `str(x).lower().split("@")[0].replace(" ", "")`.
- `Roster`: class-list cells, quote removal, and the username lookup `np.where(col == name)[0]`.
- `Dates`: `format_date` / `formatDate`, `short_date` / `sDate` (the extended calendar-date form of section 4.1.2.2 of ISO 8601:2004), and `strftime("%d.%m")`.
- `Reconciliation`: the sheet loop, in two forms.
  - As a fold over values: `StepName`, `StepNames`, `ProcessSheet`, `RunFrom` and `Reconciled`.
  - As the loop itself: the class `Reconciler`, whose fields are the loop's variables (`ignore_usernames`, `username_map`, the presence table, `first_date` / `last_date`) and whose methods update them in place. The class `MissingLog` holds `missing_usernames` / `missing_details` and the Norwegian `notFound` string.
  - `Reconcile` runs the loop and is proved to compute `Reconciled`.
- `ReconciliationFacts`: what the loop promises, proved about the fold.
  - The per-answer cases.
  - Only appending to the ignore and not-found lists.
  - Ignore is sticky across sessions.
  - A remap is applied once.
  - First and last dates are chosen by sheet position.
  - A reopened date column is emptied.
  - The table stays well formed.
  - The two editions agree.
- `Aggregation`: totals row, per-row count, filter, hiding and sort, with their counting properties.
- `Report`: the not-found message, the output file name, the `DD.MM` column labels and the program's ending.

The operator's dialog answers are a parameter: a scripted sequence of `Option<string>`. `None` is a closed dialog. The class list and the sheets are parameters already read from their files.

Notes on the scripts' behaviour:

- Only the space character is removed from a key. Tabs and other whitespace are kept.
- When a key has two or more rows in the class list, the scripts do nothing and report nothing.
- The sort is `sort_values(ascending=False)`, which is not stable. The model proves the result ranked and a permutation, and leaves the order of ties open.
- When nobody attended, the English edition writes an empty table. The Norwegian edition's `loc[len - 1]` assignment adds one blank row instead.

## Model

| member | source | states |
|---|---|---|
| Basics.Strip | attendance_list.py:140 | `replace(ch, "")` leaves no `ch`, never lengthens the string and keeps the count of every other character; the order is kept by `StripAppend` and `StripChar` |
| Basics.StripAppend | attendance_list.py:140 | removing a character from a concatenation removes it from each part and keeps the parts in order |
| Basics.StripChar | attendance_list.py:140 | on one character, `replace(ch, "")` drops `ch` and keeps every other character; with `StripAppend` this fixes the whole result, order included |
| Basics.StripAbsent | attendance_list.py:140 | removing a character the string does not hold changes nothing |
| Basics.StripIdempotent | attendance_list.py:49 | removing a character twice is removing it once |
| Usernames.LowerChar | attendance_list.py:140 | `lower()` of one character: never upper case; `A`–`Z` move to `a`–`z`, everything else is unchanged |
| Usernames.Lower | attendance_list.py:140 | `lower()` keeps the length and lowers every character in place |
| Usernames.BeforeAt | attendance_list.py:140 | `split("@")[0]` is the longest prefix without `@`: it stops exactly at the first `@` |
| Usernames.Normalize | attendance_list.py:140 | a normalised key holds no `@` and no space |
| Usernames.NormalizeShape | attendance_list.py:140 | a key holds no upper-case letter and, apart from spaces, exactly the characters of the lower-cased answer before its first `@`; their order is fixed by `NormalizeAppend`, `NormalizeChar` and `NormalizeStopsAtAt` |
| Usernames.LowerAppend | attendance_list.py:140 | `lower()` of a concatenation is the concatenation of the lowered parts |
| Usernames.BeforeAtAppend | attendance_list.py:140 | `split("@")[0]` passes over a leading part without `@` unchanged |
| Usernames.NormalizeAppend | attendance_list.py:140 | before the first `@`, the key of a concatenation is the keys of the parts, in order |
| Usernames.NormalizeStopsAtAt | attendance_list.py:140 | nothing after the first `@` reaches the key |
| Usernames.NormalizeChar | attendance_list.py:140 | one character normalises to nothing when it is a space or `@`, and to its lower-case form otherwise |
| Usernames.LowerOfLower | attendance_list.py:140 | lower-casing a string without upper-case letters leaves it as it is |
| Usernames.BeforeAtWithoutAt | attendance_list.py:140 | cutting at `@` leaves a string without `@` as it is |
| Usernames.NormalizeIdempotent | oppmListe2.py:78 | normalising a key again gives the same key |
| Usernames.OnlySpacesRemoved | attendance_list.py:140 | every non-space, non-capital character before the first `@` survives normalisation (tabs and newlines are kept) |
| Usernames.SampleUpperCaseKey | oppmListe2.py:78 | `"ANN "` normalises to `"ann"` |
| Usernames.SampleDomainKey | attendance_list.py:140 | `"ann@x.com"` normalises to `"ann"` |
| Roster.RemoveQuotes | attendance_list.py:44-50 | a text cell loses every `"` and keeps all its other characters, in order (`RemoveQuotesAppend`, `RemoveQuotesChar`). A non-text cell is kept by `remove_quotes` and becomes `None` under `remSpace` (oppmListe2.py lines 49-51) |
| Roster.RemoveQuotesAppend | attendance_list.py:44-50 | cleaning the text of a concatenation cleans each part and keeps the parts in order, in both editions |
| Roster.RemoveQuotesChar | attendance_list.py:44-50 | a one-character text is emptied when it is `"` and kept otherwise |
| Roster.RemoveQuotesIdempotent | attendance_list.py:44-50 | cleaning a cell twice is cleaning it once, in both editions |
| Roster.CleanRoster | attendance_list.py:112 | `applymap` cleans every cell of every row and keeps the shape of the list |
| Roster.Matches | attendance_list.py:146 | the lookup returns, in increasing order, only positions of rows whose username is the text `name` |
| Roster.MatchesComplete | attendance_list.py:146 | every row whose username is `name` is among the positions found |
| Roster.MatchesAgreeAcrossVariants | oppmListe2.py:49-53 | the two cleaners give the same lookup results, because a non-text cell never equals a name |
| Dates.DaysInMonth | attendance_list.py:36 | a month has 28 to 31 days, and 29 exactly for February of a Gregorian leap year |
| Dates.ParseInt | attendance_list.py:36 | `int()` of a slice succeeds exactly on a non-empty string of digits and yields a value below 10^length |
| Dates.Slice | attendance_list.py:36 | Python slicing: the sub-sequence when the bounds fit, the tail when only the upper bound is past the end, the empty string when the lower bound is |
| Dates.ParseDate | attendance_list.py:32-36 | `format_date` yields only calendar dates, and only from strings of at least nine characters |
| Dates.Pad | attendance_list.py:38-42 | a zero-padded field of width `w` is all digits and reads back as `n` |
| Dates.PadDecimal | attendance_list.py:38-42 | padding the value of a digit string back to its width gives the string again |
| Dates.ShortDate | attendance_list.py:38-42 | `short_date` prints ten characters with `-` at positions 4 and 7 |
| Dates.DayMonth | attendance_list.py:138 | `strftime("%d.%m")` is five characters, `.` in the middle, reading back as day and month |
| Dates.ParseShortDate | attendance_list.py:32-42 | `format_date(short_date(d)) == d` for every calendar date |
| Dates.ShortDateOfParse | attendance_list.py:32-42 | `short_date(format_date(s)) == s` for every zero-padded `YYYY-MM-DD` string that names a date |
| Dates.UnpaddedDayIsNormalised | attendance_list.py:36 | `"2024-01-5"` is accepted, but does not print back as itself |
| Reconciliation.CheckIns | attendance_list.py:139 | `["Question 1"][7:]`: the answers from row 7 on, in order, or none on a short sheet |
| Reconciliation.Interpret | attendance_list.py:155-161 | a closed dialog aborts, exactly `i` ignores, any other text is a correction kept exactly as typed |
| Reconciliation.SessionOf | attendance_list.py:128-139 | a sheet is read as its parsed date, its `DD.MM` label and its answers |
| Reconciliation.Sessions | attendance_list.py:127-129 | every sheet's date cell and answers are parsed, in order and one session per sheet; the loop uses the sessions from 1 on |
| Reconciliation.Zip | attendance_list.py:174 | the two parallel not-found lists read pairwise as one list of entries |
| Reconciliation.ZipSnoc | attendance_list.py:148-149 | appending to both lists appends one entry |
| Reconciliation.NotFoundLog | oppmListe2.py:86 | the `notFound` text is empty exactly when nothing was missed |
| Reconciliation.MissingLog.constructor | oppmListe2.py:64-65 | the not-found lists and text start empty |
| Reconciliation.MissingLog.Add | oppmListe2.py:86-88 | a miss appends one entry to the names, the dates and the text, keeping them in step |
| Reconciliation.Reconciler.constructor | attendance_list.py:120-124 | the loop starts with no dates, no misses, no ignores, no remap and an empty table |
| Reconciliation.Reconciler.OpenSheet | attendance_list.py:130-136 | `df[date] = nan` and the first/last assignments change the state as `OpenColumn` says |
| Reconciliation.Reconciler.TakeAnswer | attendance_list.py:151-154 | one dialog consumes the next scripted answer |
| Reconciliation.Reconciler.Resolve | attendance_list.py:150-166 | the correction dialog changes the state as `Resolution` says, and stops the run exactly when `Resolution` does |
| Reconciliation.Reconciler.CheckIn | attendance_list.py:140-168 | one answer changes the state as `StepName` says, and stops the run exactly when `StepName` does |
| Reconciliation.Reconciler.ReadAnswers | attendance_list.py:139-168 | the inner loop computes `StepNames` over the sheet's answers |
| Reconciliation.Reconciler.ReadSheet | attendance_list.py:128-168 | one iteration of the sheet loop computes `ProcessSheet`, and its tally is the new state |
| Reconciliation.Reconciler.ReadSheets | attendance_list.py:127-168 | the sheet loop computes `RunFrom` from sheet 1 |
| Reconciliation.Reconcile | attendance_list.py:120-168 | the whole loop computes `Reconciled`, and the Norwegian `notFound` text is the log of the misses it recorded |
| ReconciliationFacts.IgnoredKeyIsSkipped | attendance_list.py:141-142 | an ignored key changes nothing and asks nothing, before any remap or lookup |
| ReconciliationFacts.SingleMatchMarksRow | attendance_list.py:167-168 | with exactly one row under the looked-up name, only that row's cell for the date is set |
| ReconciliationFacts.RepeatedCheckInChangesNothing | attendance_list.py:141-168 | an answer that is ignored or found, typed again in the same session, changes nothing more: the cell stays at 1 |
| ReconciliationFacts.DuplicateMatchesDoNothing | attendance_list.py:146-168 | two or more rows under the name: no cell, no miss, no question |
| ReconciliationFacts.MissRecordedBeforePrompt | attendance_list.py:147-160 | a miss is recorded before the operator is asked and whatever the answer; the run stops exactly when the dialog is closed; in standard mode nothing else happens |
| ReconciliationFacts.IgnoreAnswerIgnores | attendance_list.py:155-157 | the answer `i` records the miss, adds the looked-up name to the ignore list and marks nothing |
| ReconciliationFacts.CorrectionStoredAndMarked | attendance_list.py:161-166 | a correction is stored exactly as typed and looked up; the first matching row is marked, and the miss stays recorded |
| ReconciliationFacts.RemapResolvesWithoutPrompt | attendance_list.py:143-146 | a key whose remap names one row marks that row without a miss or a question |
| ReconciliationFacts.RemapNotChained | attendance_list.py:143-149 | a remap is followed once: a target that is itself remapped is looked up as it is, and recorded as missed |
| ReconciliationFacts.ResolutionGrows | attendance_list.py:150-166 | the correction dialog only appends to the ignore and miss lists and only adds remap keys |
| ReconciliationFacts.StepGrows | attendance_list.py:140-168 | so does one answer, and it leaves the columns and dates alone |
| ReconciliationFacts.StepNamesGrow | attendance_list.py:139-168 | so does a sheet's list of answers |
| ReconciliationFacts.SheetGrows | attendance_list.py:128-168 | a completed sheet has a date, opens its column and then only grows the lists |
| ReconciliationFacts.ResolutionAnswersOnce | attendance_list.py:150-161 | the correction dialog consumes exactly one answer, the first one left in the script, and adds no miss of its own |
| ReconciliationFacts.StepAnswersPerMiss | attendance_list.py:147-161 | in custom mode one answer reads one dialog answer exactly when it records a miss, and reads it from the front of the script |
| ReconciliationFacts.StepNamesAnswerPerMiss | attendance_list.py:139-161 | so does a sheet's list of answers: one dialog answer per recorded miss, in order |
| ReconciliationFacts.SheetAnswersPerMiss | attendance_list.py:128-161 | so does a completed sheet |
| ReconciliationFacts.AnswersTakenInOrder | attendance_list.py:127-161 | after a completed custom-mode run, exactly one answer per recorded miss has been taken from the front of the script, and it never ran out |
| ReconciliationFacts.RunOnlyAppends | attendance_list.py:127-168 | over a whole run, misses and ignores are never retracted and remap keys never dropped |
| ReconciliationFacts.RunIsFold | attendance_list.py:127 | the sheet loop is the left fold of the per-sheet step that stops at the first sheet that does not complete |
| ReconciliationFacts.RunKeeps | attendance_list.py:127-168 | a property kept by every completed sheet holds after a completed run |
| ReconciliationFacts.RunNeverAborts | attendance_list.py:127-168 | a run none of whose sheets aborts from a kept property does not abort |
| ReconciliationFacts.RunCompletes | attendance_list.py:127-168 | a run all of whose sheets complete from a kept property completes |
| ReconciliationFacts.RunsAgree | attendance_list.py:127-168 | two runs whose sheets agree on every reachable state end alike |
| ReconciliationFacts.BadDateIsFirstUnreadable | attendance_list.py:127-129 | a run that fails on a date fails on the first sheet whose date cell `format_date` cannot read |
| ReconciliationFacts.CompletedRunReadEveryDate | attendance_list.py:127-129 | a completed run read a date on every sheet |
| ReconciliationFacts.IgnoredKeyVanishes | attendance_list.py:139-142 | on a sheet, answers with an ignored key act as if they had not been typed |
| ReconciliationFacts.IgnoredStaysIgnored | attendance_list.py:155-156 | an ignored key is still ignored at the end of the sheet |
| ReconciliationFacts.SheetWithoutKey | attendance_list.py:128-142 | a sheet read with an ignored key is the sheet without that key's answers, and the key stays ignored |
| ReconciliationFacts.IgnoredKeyVanishesFromRun | attendance_list.py:127-142 | the rest of the run is the run on the sheets without that key's answers |
| ReconciliationFacts.IgnoreIsSticky | attendance_list.py:141-157 | once ignored, a key adds no miss, marks no cell and asks nothing on this sheet or any later one |
| ReconciliationFacts.StandardModeNeverAsks | attendance_list.py:150 | in standard mode a run never aborts; the ignore list and remap stay empty and no answer is consumed |
| ReconciliationFacts.StandardSheet | attendance_list.py:150 | the same for one sheet |
| ReconciliationFacts.StandardSheetNeverAsks | attendance_list.py:139-150 | the same for one sheet's answers, which always complete |
| ReconciliationFacts.RunDates | attendance_list.py:133-136 | the first date is set by sheet 1 and the last by the last sheet, whatever the dates are |
| ReconciliationFacts.RunFromStartDates | attendance_list.py:133-136 | a run from sheet 1 takes the dates of sheet 1 and of the last sheet, or none without a sheet after sheet 0 |
| ReconciliationFacts.FirstAndLastBySheetPosition | attendance_list.py:127-136 | `first_date` is the parsed date of sheet 1 and `last_date` that of sheet `num_sheets-1`, by position (that sheet 0 is never read is `SheetZeroUnread`) |
| ReconciliationFacts.RunFromReadsFrom | attendance_list.py:127 | a run from sheet 1 on gives the same result for any two sheet lists that agree from sheet 1 on |
| ReconciliationFacts.SheetZeroUnread | attendance_list.py:127 | sheet 0 is never read: replacing it leaves the reconciliation's result unchanged |
| ReconciliationFacts.SheetKeepsDatesValid | attendance_list.py:129-136 | a sheet adds only calendar dates |
| ReconciliationFacts.ReconciledDatesValid | attendance_list.py:129-136 | every column and first/last date of a completed run is a calendar date |
| ReconciliationFacts.StepKeepsOnlyMissesSet | attendance_list.py:147-161 | one answer ignores or remaps only names that have no row in the class list |
| ReconciliationFacts.StepNamesKeepOnlyMissesSet | attendance_list.py:139-161 | so does a sheet's list of answers |
| ReconciliationFacts.SheetKeepsOnlyMissesSet | attendance_list.py:128-161 | so does a completed sheet |
| ReconciliationFacts.ReachesOnlyMissesSet | attendance_list.py:127-161 | a completed run reaches each sheet with a state in which every ignored or remapped name lacks a row |
| ReconciliationFacts.KnownKeyMarks | attendance_list.py:141-168 | when only names without a row are ignored or remapped, an answer whose key has exactly one row marks that row for the date, and never stops the run |
| ReconciliationFacts.StepKeepsMark | attendance_list.py:140-168 | no answer takes a mark away |
| ReconciliationFacts.StepNamesKeepMark | attendance_list.py:139-168 | nor does a sheet's list of answers |
| ReconciliationFacts.StepNamesMarkCheckIn | attendance_list.py:139-168 | from a state where only names without a row are ignored or remapped, every answer of a sheet whose key has exactly one row leaves that row marked for the sheet's date |
| ReconciliationFacts.SheetMarksCheckIn | attendance_list.py:128-168 | so does a completed sheet, on the date it read, from such a state |
| ReconciliationFacts.SheetKeepsMark | attendance_list.py:130 | a sheet of another date leaves the marks of a date alone |
| ReconciliationFacts.LaterSheetsKeepMark | attendance_list.py:127-168 | every sheet after the check-in's sheet that does not carry its date keeps the mark |
| ReconciliationFacts.MarkedFromSheet | attendance_list.py:127-168 | from the check-in's sheet to the end of a completed run, the row ends up marked on the sheet's date |
| ReconciliationFacts.FoldMarksCheckIn | attendance_list.py:127-168 | the same for a whole completed run that starts where only missed names are ignored or remapped |
| ReconciliationFacts.CheckInMarksRow | attendance_list.py:127-168 | after a completed run, a check-in whose key has exactly one row, on the last sheet of its date, leaves that row marked for the date |
| ReconciliationFacts.MarkKeepsWellFormed | attendance_list.py:168 | marking a class-list row keeps the table well formed and touches only that date's column |
| ReconciliationFacts.ResolutionKeepsWellFormed | attendance_list.py:162-164 | so does the correction dialog |
| ReconciliationFacts.StepKeepsWellFormed | attendance_list.py:140-168 | so does one answer |
| ReconciliationFacts.StepNamesTouchOwnColumn | attendance_list.py:139-168 | a sheet's answers write only into their own date's column |
| ReconciliationFacts.ReopenedColumnIsEmptied | attendance_list.py:130 | a later sheet with an earlier date keeps the column in place and resets it to unset |
| ReconciliationFacts.OpenKeepsWellFormed | attendance_list.py:130 | opening a date column keeps one column per date |
| ReconciliationFacts.SheetTouchesOwnColumn | attendance_list.py:128-168 | a completed sheet changes only its own date's column |
| ReconciliationFacts.SheetKeepsWellFormed | attendance_list.py:128-168 | a sheet keeps the table well formed |
| ReconciliationFacts.RunKeepsWellFormed | attendance_list.py:127-168 | so does a run |
| ReconciliationFacts.ReconciledIsWellFormed | attendance_list.py:127-168 | a completed run has one column per distinct date and cells only in rows of the class list |
| ReconciliationFacts.StepNameAgrees | attendance_list.py:146 | an answer depends on the class list only through its lookups |
| ReconciliationFacts.StepNamesAgree | attendance_list.py:139-168 | so does a sheet |
| ReconciliationFacts.RunIgnoresRosterBeyondLookups | attendance_list.py:127-168 | two class lists with the same lookups reconcile every run alike |
| ReconciliationFacts.EditionsReconcileAlike | oppmListe2.py:49-53 | the two editions' differently cleaned class lists reconcile every export alike |
| Aggregation.DoubleCount | attendance_list.py:188-190 | the sum of the row sums equals the sum of the column sums |
| Aggregation.Table | attendance_list.py:188 | the table is one row per class-list entry followed by the totals row |
| Aggregation.CellsSumCounts | attendance_list.py:190 | a row's sum over the first `k` columns counts the sessions among them in which the row is marked |
| Aggregation.TimesPresentCountsSessions | attendance_list.py:189-190 | `TimesPresent` of a row is the number of date columns in which it is marked (date columns only; see Aggregation.Table under Left out) |
| Aggregation.ColumnSumCounts | attendance_list.py:188 | a column sum counts the rows marked in that column |
| Aggregation.TotalsCellIsHeadCount | attendance_list.py:188 | each totals cell is that date's head count |
| Aggregation.SumOfTimesIsSumOfRows | attendance_list.py:190 | the running sum of the entries' counts is the sum of the grid's rows |
| Aggregation.SumCellsOfTotals | attendance_list.py:188-190 | a row of column sums sums to the sum of the column sums |
| Aggregation.TotalsTimesIsSumOfTimes | attendance_list.py:188-190 | the totals row's own count is the sum of all entries' counts |
| Aggregation.SumOfTimesPositive | attendance_list.py:190 | that sum is positive exactly when some entry's count is |
| Aggregation.Keep | attendance_list.py:193-194 | the filter keeps exactly the rows whose count passes the edition's test, and no more |
| Aggregation.KeepSnoc | attendance_list.py:193-194 | the filter keeps order: a row added at the end is kept at the end exactly when it passes |
| Aggregation.KeepAgrees | oppmListe2.py:121-122 | `> 0` and `!= 0` keep the same rows of the table, since no count is missing before hiding |
| Aggregation.KeepAgreesOn | oppmListe2.py:121-122 | the same, for any rows that all have counts |
| Aggregation.EntryKeptIffAttended | attendance_list.py:193-194 | an entry row is kept exactly when the student attended some session (date columns only; see Aggregation.Table under Left out) |
| Aggregation.TotalsKeptIffAnyoneKept | attendance_list.py:193-194 | the totals row is kept exactly when someone attended |
| Aggregation.TotalsPositiveIffEntryPositive | attendance_list.py:188-194 | the totals count is positive exactly when some entry's count is |
| Aggregation.KeepShape | attendance_list.py:193-194 | every kept count is positive, the totals row is last, and the others are entries |
| Aggregation.KeptTableShape | attendance_list.py:193-194 | the same for the presence table |
| Aggregation.HideShape | attendance_list.py:197-198 | hiding puts exactly one copy of the last row, with no count, among rows that were kept before it |
| Aggregation.HiddenShape | attendance_list.py:193-198 | after filter and hiding, the totals row without its count appears once, and every other row is an attended entry |
| Aggregation.Insert | attendance_list.py:204 | insertion adds the row and keeps all others |
| Aggregation.InsertRanked | attendance_list.py:204 | insertion into a descending list keeps it descending, with missing counts last |
| Aggregation.Rank | attendance_list.py:204 | the sort returns a permutation of its input in descending order of count, with missing counts last |
| Aggregation.NoneRowsTrail | attendance_list.py:204 | in a ranked list, everything after a row without a count has none either |
| Aggregation.UniqueNoneIsLast | attendance_list.py:198-204 | the one row without a count sorts last |
| Aggregation.SummaryMembers | attendance_list.py:204 | the summary holds exactly the hidden table's rows, with multiplicity |
| Aggregation.SummaryEntryRow | attendance_list.py:188-204 | an entry row in the summary is the row computed for that student |
| Aggregation.SummaryEntries | attendance_list.py:193-204 | a student appears in the summary exactly when they attended some session (date columns only; see Aggregation.Table under Left out) |
| Aggregation.SummaryWhenAttended | attendance_list.py:188-204 | when someone attended, the summary ends with the totals row without its count, after attended entries in descending order |
| Aggregation.SummaryShape | attendance_list.py:188-204 | the summary is ranked and holds exactly the attended students, with the totals row last. With nobody present it is empty in English and one blank row in Norwegian (oppmListe2.py line 124) (date columns only; see Aggregation.Table under Left out) |
| Aggregation.SummaryCounts | attendance_list.py:188-204 | every summary entry's count is its number of sessions, and the last row's cells are the per-date head counts |
| Aggregation.EditionsSummariseAlike | oppmListe2.py:121-124 | the two editions' summaries agree exactly when someone attended (date columns only; see Aggregation.Table under Left out) |
| Report.NotFoundPrompt | attendance_list.py:171-177 | the not-found dialog is shown exactly when something was missed, and its text starts with the edition's header |
| Report.MessagesAgree | oppmListe2.py:86 | the Norwegian running text is the English joined lines plus a final newline |
| Report.NotFoundLogAppend | oppmListe2.py:86 | the running `notFound +=` text of two stretches is their texts concatenated |
| Report.PromptsAgree | oppmListe2.py:107-108 | both editions show the prompt in the same cases, listing the same entries in encounter order |
| Report.Stem | attendance_list.py:207 | `file[:-5]` drops the last five characters and keeps the rest as a prefix |
| Report.OutputName | attendance_list.py:206-209 | the name starts with the stem and the edition's `_from_` / `_fra_`, and ends in `.xlsx` |
| Report.OutputNameReadsBack | attendance_list.py:206-209 | with both dates known, each date parses back from its place in the name, and `_to_` / `_til_` sits between them |
| Report.Labels | attendance_list.py:201-203 | the date columns are renamed, in order, to their `DD.MM` labels |
| Report.FinishNamesDates | attendance_list.py:206-209 | the written file's name carries the run's first and last dates, or `None` twice when no sheet was read |
| Report.NameCarriesSheetDates | attendance_list.py:206-209 | a written file's name carries the dates of sheet 1 and of the last sheet |
| Report.RowsHoldCounts | attendance_list.py:188-217 | the written attendance sheet's entry rows carry each student's number of sessions, and when someone attended, its last row the per-date head counts |
| Report.FinishEditionsAlike | oppmListe2.py:116-139 | both editions end alike; when they write, the labels and not-found lists agree, and the tables agree exactly when someone attended (date columns only; see Aggregation.Table under Left out) |
| Report.EditionsEndAlike | oppmListe2.py:63-139 | from the same inputs both editions write, exit or fail alike |
| Report.EditionsWriteAlike | oppmListe2.py:116-139 | written workbooks share labels and not-found lists, and their tables agree exactly when someone attended (date columns only; see Aggregation.Table under Left out) |
| Report.StandardModeWritesWhenDatesRead | attendance_list.py:127-219 | in standard mode the program never exits on a dialog, and it writes exactly when every sheet's date reads |
| Report.FailsOnFirstUnreadableDate | attendance_list.py:127-129 | a failed program failed on the first sheet whose date does not read |

## Left out

- The `easygui` dialogs are not modelled: the intro and "More info" flow, the file choosers and the message boxes. The mode is the `custom` flag and the answers to the correction dialog are a scripted sequence.
- Finish: the final not-found confirmation (attendance_list.py lines 176-183, oppmListe2.py lines 108-111) is taken as answered `OK`. A `Cancel` there, which exits without writing, is not modelled; only the dialog's text is (`NotFoundPrompt`).
- Reading the CSV and the workbook (`read_csv`, `ExcelFile`, `read_excel`) and the dropping of the `No` / `Nr` column are not modelled. The class list and the sheets are parameters.
- Writing the workbook (`ExcelWriter`) and the `PermissionError` message are not modelled. The model ends in a `Workbook` value holding the file name, the column labels, the attendance rows and the not-found entries.
- `sys.exit()` is modelled as an outcome: `Aborted` in the loop and `Exited` at the end.
- The Norwegian `print` after an ignore is left out as console output.
- Reconciliation.NextAnswer: an operator who has no scripted answers left is taken to close the dialog (`None`). The scripts always wait for an answer.
- Usernames.LowerChar: only ASCII letters are lowered. Python's `lower()` also maps other Unicode letters.
- Reconciliation.CheckIns: answers are text. `str()` of a NaN cell (`"nan"`) or of a number is not modelled, so an empty Mentimeter cell is just an answer text.
- Dates.ParseInt: accepts only ASCII digits. Python's `int()` also accepts surrounding whitespace, a sign, underscores between digits and non-ASCII digits. Such date cells count here as unreadable.
- Roster.RemoveQuotes: a non-text cell is an integer, NaN or `None`. Float cells are not modelled, and the attribute columns beyond the username are carried but never summed (see Aggregation.Table).
- Aggregation.Table: the English edition sums every all-numeric column of the class list, not only the date columns. `sum(axis=0, numeric_only=True)` and `sum(axis=1, numeric_only=True)` (attendance_list.py lines 188 and 190) include a `Class`, `Username`, `FirstName` or `LastName` column that holds only numbers, because `remove_quotes` keeps non-text cells (lines 48-50). The model sums the date columns only. So for such a class list the English `TimesPresent` and totals row are larger, and a student who never attended can pass `> 0`. The rows that say "exactly when attended" and that the editions agree hold only for class lists without an all-numeric attribute column. The Norwegian `remSpace` turns every non-text cell into `None` (oppmListe2.py lines 49-51), so there only the date columns are summed.
- Aggregation.Rank: the model proves the output ranked and a permutation. The order pandas gives to rows with equal counts is not fixed by the model.
- Aggregation.SumCells: sums are natural numbers and an unset cell counts as nothing. pandas' float and NaN arithmetic is not modelled.
- Report.Labels: two sessions with the same `DD.MM` label in different years would give duplicate column names in pandas. The model keeps the labels as a list.
