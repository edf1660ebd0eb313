/** The username normaliser shared by both editions:
    `str(x).lower().split("@")[0].replace(" ", "")`. */
module Usernames {
  import opened Basics

  predicate IsUpper(c: char) { 'A' <= c <= 'Z' }

  /** Lower-casing of one character. Only the ASCII letters are modelled. */
  function LowerChar(c: char): (r: char)
    ensures !IsUpper(r)
    ensures IsUpper(c) ==> r as int == c as int + 32
    ensures !IsUpper(c) ==> r == c
  {
    if IsUpper(c) then (c as int + 32) as char else c
  }

  /** `s.lower()`: the same length, every letter lower-case, nothing else touched. */
  function Lower(s: string): (r: string)
    ensures |r| == |s|
    ensures forall i :: 0 <= i < |s| ==> r[i] == LowerChar(s[i])
  {
    if s == [] then [] else [LowerChar(s[0])] + Lower(s[1..])
  }

  /** `s.split("@")[0]`: the longest prefix of `s` that holds no `@`. */
  function BeforeAt(s: string): (r: string)
    ensures '@' !in r
    ensures |r| <= |s| && r == s[..|r|]
    ensures |r| < |s| ==> s[|r|] == '@'
  {
    if s == [] || s[0] == '@' then []
    else [s[0]] + BeforeAt(s[1..])
  }

  /** The comparison key of a raw check-in (attendance_list.py line 140,
      oppmListe2.py line 78). */
  function Normalize(raw: string): (key: string)
    ensures '@' !in key && ' ' !in key
  {
    var cut := BeforeAt(Lower(raw));
    var key := Strip(cut, ' ');
    assert '@' !in key by {
      assert multiset(cut)['@'] == 0;
    }
    key
  }

  /** The key is lower-case, and apart from spaces it holds exactly the
      characters typed before the first `@`, lower-cased: only the space
      character is removed, so tabs and line breaks stay in the key. */
  lemma NormalizeShape(raw: string)
    ensures forall i :: 0 <= i < |Normalize(raw)| ==> !IsUpper(Normalize(raw)[i])
    ensures forall c :: c != ' ' ==> multiset(Normalize(raw))[c] == multiset(BeforeAt(Lower(raw)))[c]
  {
    var key := Normalize(raw);
    var cut := BeforeAt(Lower(raw));
    forall i | 0 <= i < |key| ensures !IsUpper(key[i]) {
      assert key[i] in multiset(key);
      assert key[i] in cut;
    }
  }

  lemma {:induction false} LowerOfLower(s: string)
    requires forall i :: 0 <= i < |s| ==> !IsUpper(s[i])
    ensures Lower(s) == s
  {
    if s != [] {
      LowerOfLower(s[1..]);
    }
  }

  lemma {:induction false} BeforeAtWithoutAt(s: string)
    requires '@' !in s
    ensures BeforeAt(s) == s
  {
    if s != [] {
      assert s[0] in s;
      assert forall c :: c in s[1..] ==> c in s;
      BeforeAtWithoutAt(s[1..]);
    }
  }

  /** Normalising a key again changes nothing. */
  lemma NormalizeIdempotent(raw: string)
    ensures Normalize(Normalize(raw)) == Normalize(raw)
  {
    var key := Normalize(raw);
    NormalizeShape(raw);
    LowerOfLower(key);
    BeforeAtWithoutAt(key);
    StripAbsent(key, ' ');
  }

  lemma {:induction false} LowerAppend(a: string, b: string)
    ensures Lower(a + b) == Lower(a) + Lower(b)
  {
    assert forall i :: 0 <= i < |a + b| ==> Lower(a + b)[i] == (Lower(a) + Lower(b))[i];
  }

  /** Lower-casing never makes an `@`. */
  lemma {:induction false} LowerKeepsAtFree(a: string)
    requires '@' !in a
    ensures '@' !in Lower(a)
  {
  }

  lemma {:induction false} BeforeAtAppend(a: string, b: string)
    requires '@' !in a
    ensures BeforeAt(a + b) == a + BeforeAt(b)
    decreases |a|
  {
    if a == [] {
      assert a + b == b;
    } else {
      assert a[0] in a;
      assert '@' !in a[1..] by {
        assert forall c :: c in a[1..] ==> c in a;
      }
      assert (a + b)[0] == a[0] && (a + b)[1..] == a[1..] + b;
      BeforeAtAppend(a[1..], b);
      assert a == [a[0]] + a[1..];
    }
  }

  /** The key is built left to right: text without an `@` contributes its
      own key, in place, ahead of what follows. */
  lemma NormalizeAppend(a: string, b: string)
    requires '@' !in a
    ensures Normalize(a + b) == Normalize(a) + Normalize(b)
  {
    LowerAppend(a, b);
    LowerKeepsAtFree(a);
    BeforeAtAppend(Lower(a), Lower(b));
    BeforeAtWithoutAt(Lower(a));
    StripAppend(Lower(a), BeforeAt(Lower(b)), ' ');
  }

  /** Nothing after the first `@` reaches the key. */
  lemma NormalizeStopsAtAt(a: string, b: string)
    requires '@' !in a
    ensures Normalize(a + "@" + b) == Normalize(a)
  {
    LowerAppend(a, "@" + b);
    assert a + "@" + b == a + ("@" + b);
    LowerKeepsAtFree(a);
    BeforeAtAppend(Lower(a), Lower("@" + b));
    BeforeAtWithoutAt(Lower(a));
    assert Lower("@" + b)[0] == '@';
    assert BeforeAt(Lower("@" + b)) == [];
    assert Lower(a) + [] == Lower(a);
  }

  /** One character: a space or an `@` gives nothing, any other character
      its lower-case form. With `NormalizeAppend` and `NormalizeStopsAtAt`
      this fixes the key of every answer, character by character. */
  lemma NormalizeChar(c: char)
    ensures Normalize([c]) == if c == ' ' || c == '@' then [] else [LowerChar(c)]
  {
    assert Lower([c]) == [LowerChar(c)];
    StripChar(LowerChar(c), ' ');
  }

  /** Only `' '` is removed: a tab or a line break typed before the `@`
      survives in the key, so `"ann\t"` and `"ann"` do not match. */
  lemma OnlySpacesRemoved(raw: string, i: nat)
    requires i < |raw| && raw[i] != ' ' && !IsUpper(raw[i])
    requires forall j :: 0 <= j <= i ==> raw[j] != '@'
    ensures raw[i] in Normalize(raw)
  {
    var cut := BeforeAt(Lower(raw));
    NormalizeShape(raw);
    assert forall j :: 0 <= j <= i ==> Lower(raw)[j] != '@';
    assert |cut| > i;
    assert cut[i] == raw[i];
    assert raw[i] in multiset(cut);
  }

  /** Case and a trailing space do not matter: the key of `"ANN "` is `"ann"`. */
  lemma SampleUpperCaseKey()
    ensures Normalize("ANN ") == "ann"
  {
    assert Lower("ANN ") == "ann ";
    assert BeforeAt("ann ") == "ann ";
    assert Strip("ann ", ' ') == "ann";
  }

  /** The domain is cut off: the key of `"ann@x.com"` is `"ann"`. */
  lemma SampleDomainKey()
    ensures Normalize("ann@x.com") == "ann"
  {
    LowerOfLower("ann@x.com");
    assert BeforeAt("ann@x.com") == "ann";
    StripAbsent("ann", ' ');
  }
}
