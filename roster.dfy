/** The class list read from the learning platform's group export, after
    the CSV reader has split it into cells: quote removal over every cell
    (`remove_quotes` / `remSpace`) and the lookup of a username in the
    `Username` / `Brukernavn` column (`np.where(col == name)[0]`). */
module Roster {
  import opened Basics

  /** A cell as the CSV reader produces it: text, a number, a missing value
      (NaN), or Python's `None`. */
  datatype Cell = Text(s: string) | Number(n: int) | Missing | Null

  /** One row of the class list. Only the username takes part in matching;
      the class, first and last name are carried along unread. */
  datatype Student = Student(username: Cell, attributes: seq<Cell>)

  /** `remove_quotes` (English) returns a non-text cell unchanged;
      `remSpace` (Norwegian) has no `else` branch and so returns `None`. */
  function RemoveQuotes(v: Variant, c: Cell): (r: Cell)
    ensures c.Text? <==> r.Text?
    ensures c.Text? ==> '"' !in r.s && forall ch :: ch != '"' ==> multiset(r.s)[ch] == multiset(c.s)[ch]
    ensures !c.Text? && v == English ==> r == c
    ensures !c.Text? && v == Norwegian ==> r == Null
  {
    match c
    case Text(s) => Text(Strip(s, '"'))
    case _ => if v == English then c else Null
  }

  lemma RemoveQuotesIdempotent(v: Variant, c: Cell)
    ensures RemoveQuotes(v, RemoveQuotes(v, c)) == RemoveQuotes(v, c)
  {
    if c.Text? {
      StripIdempotent(c.s, '"');
    }
  }

  /** Quote removal keeps the other characters of a text cell in order:
      it works on the two halves of a text independently ... */
  lemma RemoveQuotesAppend(v: Variant, a: string, b: string)
    ensures RemoveQuotes(v, Text(a + b)) == Text(RemoveQuotes(v, Text(a)).s + RemoveQuotes(v, Text(b)).s)
  {
    StripAppend(a, b, '"');
  }

  /** ... and drops a single character exactly when it is `"`. */
  lemma RemoveQuotesChar(v: Variant, c: char)
    ensures RemoveQuotes(v, Text([c])) == Text(if c == '"' then [] else [c])
  {
    StripChar(c, '"');
  }

  /** `applymap(remove_quotes)` / `map(remSpace)`: the function applied to
      every cell of every row. */
  function CleanRoster(v: Variant, roster: seq<Student>): (r: seq<Student>)
    ensures |r| == |roster|
    ensures forall i :: 0 <= i < |r| ==> r[i].username == RemoveQuotes(v, roster[i].username)
    ensures forall i :: 0 <= i < |r| ==> |r[i].attributes| == |roster[i].attributes|
    ensures forall i, j :: 0 <= i < |r| && 0 <= j < |r[i].attributes| ==>
              r[i].attributes[j] == RemoveQuotes(v, roster[i].attributes[j])
  {
    seq(|roster|, i requires 0 <= i < |roster| =>
      Student(RemoveQuotes(v, roster[i].username),
              seq(|roster[i].attributes|, j requires 0 <= j < |roster[i].attributes| =>
                RemoveQuotes(v, roster[i].attributes[j]))))
  }

  predicate HasUsername(s: Student, name: string) {
    s.username == Text(name)
  }

  /** `np.where(df["Username"] == name)[0]`: the positions, in increasing
      order, of the rows whose username cell is the text `name`. A number,
      NaN or `None` never equals a string. */
  function Matches(roster: seq<Student>, name: string): (r: seq<nat>)
    ensures forall k :: 0 <= k < |r| ==> r[k] < |roster| && HasUsername(roster[r[k]], name)
    ensures forall k, l :: 0 <= k < l < |r| ==> r[k] < r[l]
  {
    if roster == [] then []
    else
      var init := Matches(roster[..|roster| - 1], name);
      if HasUsername(roster[|roster| - 1], name) then init + [|roster| - 1] else init
  }

  /** Every row whose username is `name` is among the matches. */
  lemma {:induction false} MatchesComplete(roster: seq<Student>, name: string, i: nat)
    requires i < |roster| && HasUsername(roster[i], name)
    ensures i in Matches(roster, name)
  {
    if i < |roster| - 1 {
      MatchesComplete(roster[..|roster| - 1], name, i);
    }
  }

  /** The two editions clean non-text cells differently, but both leave
      every text cell the same, so every lookup finds the same rows. */
  lemma {:induction false} MatchesAgreeAcrossVariants(roster: seq<Student>, name: string)
    ensures Matches(CleanRoster(English, roster), name) == Matches(CleanRoster(Norwegian, roster), name)
  {
    if roster != [] {
      var init := roster[..|roster| - 1];
      MatchesAgreeAcrossVariants(init, name);
      assert CleanRoster(English, roster)[..|roster| - 1] == CleanRoster(English, init);
      assert CleanRoster(Norwegian, roster)[..|roster| - 1] == CleanRoster(Norwegian, init);
    }
  }
}
