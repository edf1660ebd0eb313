/** Small shared vocabulary: an optional value, the two editions of the
    attendance script, and the character-removal operation that both the
    username normaliser and the roster cleaner use. */
module Basics {

  datatype Option<+T> = None | Some(value: T)

  /** The repository ships the same program twice: `attendance_list.py`
      (English) and `oppmListe2.py` (Norwegian). Where the two differ, the
      model takes the edition as a parameter. */
  datatype Variant = English | Norwegian

  /** Python's `s.replace(ch, "")`: every occurrence of `ch` removed, the
      other characters kept in order. */
  function Strip(s: string, ch: char): (r: string)
    ensures ch !in r
    ensures |r| <= |s|
    ensures forall c :: c != ch ==> multiset(r)[c] == multiset(s)[c]
  {
    if s == [] then []
    else
      var rest := Strip(s[1..], ch);
      assert s == [s[0]] + s[1..];
      if s[0] == ch then rest else [s[0]] + rest
  }

  /** Removing a character that does not occur changes nothing, so removal
      is idempotent. */
  lemma {:induction false} StripAbsent(s: string, ch: char)
    requires ch !in s
    ensures Strip(s, ch) == s
  {
    if s != [] {
      assert s[0] in s;
      assert forall c :: c in s[1..] ==> c in s;
      StripAbsent(s[1..], ch);
    }
  }

  /** Removal works left to right, one character at a time: the kept
      characters stay in their order. With `StripChar` this pins `Strip`
      down completely. */
  lemma {:induction false} StripAppend(a: string, b: string, ch: char)
    ensures Strip(a + b, ch) == Strip(a, ch) + Strip(b, ch)
    decreases |a|
  {
    if a == [] {
      assert a + b == b;
    } else {
      assert (a + b)[0] == a[0] && (a + b)[1..] == a[1..] + b;
      StripAppend(a[1..], b, ch);
    }
  }

  /** A single character is dropped exactly when it is `ch`. */
  lemma StripChar(c: char, ch: char)
    ensures Strip([c], ch) == if c == ch then [] else [c]
  {
  }

  lemma StripIdempotent(s: string, ch: char)
    ensures Strip(Strip(s, ch), ch) == Strip(s, ch)
  {
    StripAbsent(Strip(s, ch), ch);
  }
}
