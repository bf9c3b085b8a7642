/**
 * The few Python string operations the schema model relies on, with Python's
 * own semantics: `sep in s`, `s.split(sep)` (left-to-right, non-overlapping),
 * `s.startswith(p)`, and `s.lower()` / `s.upper()` restricted to ASCII letters.
 */
module Text {
  import opened Outcomes

  /** `sep` occurs in `s` starting at index `i`. */
  predicate OccursAt(s: string, sep: string, i: nat) {
    i + |sep| <= |s| && s[i..i + |sep|] == sep
  }

  /** The index of the leftmost occurrence of `sep` in `s` (Python's `s.find(sep)`). */
  function FindFirst(s: string, sep: string): (r: Option<nat>)
    requires |sep| > 0
    ensures r.Some? ==> OccursAt(s, sep, r.value)
    ensures r.Some? ==> forall j :: 0 <= j < r.value ==> !OccursAt(s, sep, j)
    ensures r.None? ==> forall j :: !OccursAt(s, sep, j)
    decreases |s|
  {
    if |s| < |sep| then None
    else if s[..|sep|] == sep then Some(0)
    else
      match FindFirst(s[1..], sep)
      case None =>
        assert forall j: nat :: j > 0 && OccursAt(s, sep, j) ==> OccursAt(s[1..], sep, j - 1);
        None
      case Some(i) =>
        assert forall j :: 0 < j <= i && OccursAt(s, sep, j) ==> OccursAt(s[1..], sep, j - 1);
        assert s[i + 1..i + 1 + |sep|] == s[1..][i..i + |sep|];
        Some(i + 1)
  }

  /** Python's `sep in s`. */
  predicate Contains(s: string, sep: string)
    requires |sep| > 0
  {
    FindFirst(s, sep).Some?
  }

  /** Python's `s.split(sep)` for a non-empty separator. */
  function Split(s: string, sep: string): (parts: seq<string>)
    requires |sep| > 0
    ensures |parts| >= 1
    decreases |s|
  {
    match FindFirst(s, sep)
    case None => [s]
    case Some(i) => [s[..i]] + Split(s[i + |sep|..], sep)
  }

  /** Python's `s.split(sep)[-1]`: what follows the last separator the split consumed. */
  function LastPart(s: string, sep: string): string
    requires |sep| > 0
  {
    var parts := Split(s, sep);
    parts[|parts| - 1]
  }

  /** Python's `s.startswith(p)`. */
  predicate StartsWith(s: string, p: string) {
    |p| <= |s| && s[..|p|] == p
  }

  /** Number of occurrences of the character `c` in `s`. */
  function Count(c: char, s: string): nat {
    multiset(s)[c]
  }

  function LowerChar(c: char): char {
    if 'A' <= c <= 'Z' then (c as int + 32) as char else c
  }

  function UpperChar(c: char): char {
    if 'a' <= c <= 'z' then (c as int - 32) as char else c
  }

  /** Python's `s.lower()` on ASCII letters. */
  function Lower(s: string): (r: string)
    ensures |r| == |s|
    ensures forall i :: 0 <= i < |s| ==> r[i] == LowerChar(s[i])
  {
    seq(|s|, i requires 0 <= i < |s| => LowerChar(s[i]))
  }

  /** Python's `s.upper()` on ASCII letters. */
  function Upper(s: string): (r: string)
    ensures |r| == |s|
    ensures forall i :: 0 <= i < |s| ==> r[i] == UpperChar(s[i])
  {
    seq(|s|, i requires 0 <= i < |s| => UpperChar(s[i]))
  }

  lemma LowerAppend(a: string, b: string)
    ensures Lower(a + b) == Lower(a) + Lower(b)
  {
    assert forall i :: 0 <= i < |a + b| ==> Lower(a + b)[i] == (Lower(a) + Lower(b))[i];
  }

  lemma LowerIdempotent(s: string)
    ensures Lower(Lower(s)) == Lower(s)
  {
  }

  /** The only strings whose upper-case form is "H" are "h" and "H". */
  lemma UpperIsH(s: string)
    ensures Upper(s) == "H" <==> s == "h" || s == "H"
  {
    if Upper(s) == "H" {
      assert UpperChar(s[0]) == 'H';
    }
  }

  /** A one-character separator occurs exactly where that character is. */
  lemma OccursAtChar(s: string, c: char, i: nat)
    ensures OccursAt(s, [c], i) <==> i < |s| && s[i] == c
  {
    if i < |s| && s[i] == c {
      assert s[i..i + 1] == [c];
    }
  }

  lemma ContainsChar(s: string, c: char)
    ensures Contains(s, [c]) <==> c in s
  {
    if c in s {
      var i :| 0 <= i < |s| && s[i] == c;
      OccursAtChar(s, c, i);
    }
    if Contains(s, [c]) {
      OccursAtChar(s, c, FindFirst(s, [c]).value);
    }
  }

  /** Without the separator, the split leaves the string whole. */
  lemma SplitAbsent(s: string, sep: string)
    requires |sep| > 0 && !Contains(s, sep)
    ensures Split(s, sep) == [s]
  {
  }

  /** Splitting on a character consumes its first occurrence and continues after it. */
  lemma {:induction false} SplitAtFirst(a: string, c: char, b: string)
    requires c !in a
    ensures Split(a + [c] + b, [c]) == [a] + Split(b, [c])
  {
    var s := a + [c] + b;
    OccursAtChar(s, c, |a|);
    forall j | 0 <= j < |a|
      ensures !OccursAt(s, [c], j)
    {
      OccursAtChar(s, c, j);
    }
    var i := FindFirst(s, [c]).value;
    assert i == |a|;
    assert s[..i] == a;
    assert s[i + 1..] == b;
  }

  /** Splitting on a character yields one more part than it has occurrences. */
  lemma {:induction false} SplitCharCount(s: string, c: char)
    ensures |Split(s, [c])| == Count(c, s) + 1
    decreases |s|
  {
    match FindFirst(s, [c])
    case None =>
      ContainsChar(s, c);
    case Some(i) =>
      OccursAtChar(s, c, i);
      forall j | 0 <= j < i
        ensures s[j] != c
      {
        OccursAtChar(s, c, j);
      }
      var a, b := s[..i], s[i + 1..];
      assert s == a + [c] + b;
      SplitAtFirst(a, c, b);
      SplitCharCount(b, c);
      assert multiset(s) == multiset(a) + multiset([c]) + multiset(b);
  }

  /** A split on a character that is absent from both sides of one occurrence yields the two sides. */
  lemma SplitOnce(a: string, c: char, b: string)
    requires c !in a && c !in b
    ensures Split(a + [c] + b, [c]) == [a, b]
  {
    SplitAtFirst(a, c, b);
    ContainsChar(b, c);
  }

  /** A split whose separator opens the string and never recurs keeps what follows it. */
  lemma LastPartAfterPrefix(sep: string, rest: string)
    requires |sep| > 0 && !Contains(rest, sep)
    ensures LastPart(sep + rest, sep) == rest
  {
    var s := sep + rest;
    assert OccursAt(s, sep, 0);
    assert FindFirst(s, sep) == Some(0);
    assert s[|sep|..] == rest;
    SplitAbsent(rest, sep);
    assert Split(s, sep) == [s[..0]] + Split(rest, sep);
  }

  /** The first part of a split on a character never holds that character. */
  lemma SplitHeadFree(s: string, c: char)
    ensures c !in Split(s, [c])[0]
  {
    match FindFirst(s, [c])
    case None =>
      ContainsChar(s, c);
    case Some(i) =>
      forall j | 0 <= j < i
        ensures s[j] != c
      {
        OccursAtChar(s, c, j);
      }
  }

  /** Two occurrences of a character, absent from the three pieces, split into those pieces. */
  lemma SplitThree(a: string, c: char, b: string, d: string)
    requires c !in a && c !in b && c !in d
    ensures Split(a + [c] + b + [c] + d, [c]) == [a, b, d]
  {
    assert a + [c] + b + [c] + d == a + [c] + (b + [c] + d);
    SplitAtFirst(a, c, b + [c] + d);
    SplitOnce(b, c, d);
  }

  /** The first two parts of a split on a character with at least two occurrences. */
  lemma SplitThreeHead(a: string, c: char, b: string, d: string)
    requires c !in a && c !in b
    ensures |Split(a + [c] + b + [c] + d, [c])| >= 3
    ensures Split(a + [c] + b + [c] + d, [c])[0] == a && Split(a + [c] + b + [c] + d, [c])[1] == b
  {
    assert a + [c] + b + [c] + d == a + [c] + (b + [c] + d);
    SplitAtFirst(a, c, b + [c] + d);
    SplitAtFirst(b, c, d);
  }

  /** A separator holding a character that the string lacks does not occur in it. */
  lemma AbsentCharNoOccurrence(s: string, sep: string, c: char)
    requires |sep| > 0 && c in sep && c !in s
    ensures !Contains(s, sep)
  {
  }
}
