/**
 Character classes and the string operations the two ledgers use on their record
 stores: Python's `str.isalpha`, `str.isdigit`, `str.replace(" ", "")`,
 `str.strip()`, `str.split(",")` and `",".join(...)`, and the whitespace-separated
 words that C++'s `operator>>` reads. Character classes are ASCII only.
 */
module Text {

  /** Whitespace as C's `isspace` has it, which `operator>>` skips. */
  predicate IsSpace(c: char) {
    c == ' ' || c == '\t' || c == '\n' || c == '\r' || c == '\U{B}' || c == '\U{C}'
  }

  /**
   Whitespace as Python's `str.isspace` has it on ASCII, which `str.strip()` drops:
   C's set plus the four separator controls 0x1C to 0x1F.
   */
  predicate IsPySpace(c: char) {
    IsSpace(c) || '\U{1C}' <= c <= '\U{1F}'
  }

  predicate IsLetter(c: char) {
    'a' <= c <= 'z' || 'A' <= c <= 'Z'
  }

  predicate IsDigit(c: char) {
    '0' <= c <= '9'
  }

  predicate AllLetters(s: string) {
    forall i :: 0 <= i < |s| ==> IsLetter(s[i])
  }

  /** `s.isalpha()`: false on the empty string. */
  predicate IsAlpha(s: string) {
    |s| > 0 && AllLetters(s)
  }

  /** `s.isdigit()`: false on the empty string. */
  predicate IsDigits(s: string) {
    |s| > 0 && forall i :: 0 <= i < |s| ==> IsDigit(s[i])
  }

  /** A non-empty run of non-whitespace characters: what one `>>` into a string reads. */
  predicate IsWord(w: string) {
    |w| > 0 && forall i :: 0 <= i < |w| ==> !IsSpace(w[i])
  }

  // ---------------------------------------------------------------------------
  // s.replace(" ", "")
  // ---------------------------------------------------------------------------

  function RemoveSpaces(s: string): (r: string)
    ensures ' ' !in r
    ensures |r| <= |s|
  {
    if |s| == 0 then "" else (if s[0] == ' ' then "" else [s[0]]) + RemoveSpaces(s[1..])
  }

  lemma AllLettersCons(c: char, r: string)
    ensures AllLetters([c] + r) <==> IsLetter(c) && AllLetters(r)
  {
    var whole := [c] + r;
    assert whole[0] == c;
    assert forall i :: 0 <= i < |r| ==> r[i] == whole[i + 1];
    assert forall i :: 0 < i < |whole| ==> whole[i] == r[i - 1];
  }

  /** What is left after removing spaces is all letters iff every character is a space or a letter. */
  lemma {:induction false} RemoveSpacesAllLetters(s: string)
    ensures AllLetters(RemoveSpaces(s)) <==> forall i :: 0 <= i < |s| ==> s[i] == ' ' || IsLetter(s[i])
  {
    if |s| > 0 {
      var t := s[1..];
      RemoveSpacesAllLetters(t);
      assert forall i :: 0 < i < |s| ==> s[i] == t[i - 1];
      assert (forall i :: 0 <= i < |s| ==> s[i] == ' ' || IsLetter(s[i]))
        <==> (s[0] == ' ' || IsLetter(s[0])) && (forall i :: 0 <= i < |t| ==> t[i] == ' ' || IsLetter(t[i]));
      if s[0] != ' ' {
        AllLettersCons(s[0], RemoveSpaces(t));
      } else {
        assert RemoveSpaces(s) == RemoveSpaces(t);
      }
    }
  }

  /** Something is left after removing spaces iff some character is not a space. */
  lemma {:induction false} RemoveSpacesNonEmpty(s: string)
    ensures |RemoveSpaces(s)| > 0 <==> exists i :: 0 <= i < |s| && s[i] != ' '
  {
    if |s| > 0 {
      RemoveSpacesNonEmpty(s[1..]);
      if s[0] == ' ' {
        if exists i :: 0 <= i < |s| && s[i] != ' ' {
          var i :| 0 <= i < |s| && s[i] != ' ';
          assert s[1..][i - 1] != ' ';
        }
        if exists i :: 0 <= i < |s[1..]| && s[1..][i] != ' ' {
          var i :| 0 <= i < |s[1..]| && s[1..][i] != ' ';
          assert s[i + 1] != ' ';
        }
      } else {
        assert s[0] != ' ';
      }
    }
  }

  // ---------------------------------------------------------------------------
  // s.strip()
  // ---------------------------------------------------------------------------

  function StripLeft(s: string): (r: string)
    ensures |r| <= |s| && r == s[|s| - |r|..]
    ensures |r| > 0 ==> !IsPySpace(r[0])
    ensures forall i :: 0 <= i < |s| - |r| ==> IsPySpace(s[i])
  {
    if |s| > 0 && IsPySpace(s[0]) then StripLeft(s[1..]) else s
  }

  function StripRight(s: string): (r: string)
    ensures |r| <= |s| && r == s[..|r|]
    ensures |r| > 0 ==> !IsPySpace(r[|r| - 1])
    ensures forall i :: |r| <= i < |s| ==> IsPySpace(s[i])
  {
    if |s| > 0 && IsPySpace(s[|s| - 1]) then StripRight(s[..|s| - 1]) else s
  }

  /** `s.strip()`: drops leading and trailing whitespace and nothing else. */
  function Strip(s: string): (r: string)
    ensures |r| > 0 ==> !IsPySpace(r[0]) && !IsPySpace(r[|r| - 1])
    ensures r == "" <==> forall i :: 0 <= i < |s| ==> IsPySpace(s[i])
    ensures |s| > 0 && !IsPySpace(s[0]) && !IsPySpace(s[|s| - 1]) ==> r == s
  {
    StripRight(StripLeft(s))
  }

  // ---------------------------------------------------------------------------
  // s.split(d) and d.join(fields)
  // ---------------------------------------------------------------------------

  /** `s.split(d)`: the pieces between occurrences of `d`, empty pieces kept. */
  function Split(s: string, d: char): (r: seq<string>)
    ensures |r| >= 1
    ensures forall i :: 0 <= i < |r| ==> d !in r[i]
    decreases |s|
  {
    if |s| == 0 then [""]
    else
      var rest := Split(s[1..], d);
      if s[0] == d then [""] + rest else [[s[0]] + rest[0]] + rest[1..]
  }

  /** `d.join(fields)`. */
  function Join(fields: seq<string>, d: char): string
  {
    if |fields| == 0 then ""
    else if |fields| == 1 then fields[0]
    else fields[0] + [d] + Join(fields[1..], d)
  }

  /** A piece free of `d` followed by `d` splits off as the first field. */
  lemma {:induction false} SplitFirstField(f: string, d: char, tail: string)
    requires d !in f
    ensures Split(f + [d] + tail, d) == [f] + Split(tail, d)
  {
    var s := f + [d] + tail;
    if |f| == 0 {
      assert s[1..] == tail;
    } else {
      assert s[1..] == f[1..] + [d] + tail;
      SplitFirstField(f[1..], d, tail);
      assert [s[0]] + f[1..] == f;
    }
  }

  /** A string free of `d` is a single field. */
  lemma {:induction false} SplitWithoutDelimiter(s: string, d: char)
    requires d !in s
    ensures Split(s, d) == [s]
  {
    if |s| > 0 {
      SplitWithoutDelimiter(s[1..], d);
      assert [s[0]] + s[1..] == s;
    }
  }

  /** Joining fields free of `d` and splitting again gives the fields back. */
  lemma {:induction false} SplitJoin(fields: seq<string>, d: char)
    requires |fields| >= 1
    requires forall i :: 0 <= i < |fields| ==> d !in fields[i]
    ensures Split(Join(fields, d), d) == fields
  {
    if |fields| == 1 {
      SplitWithoutDelimiter(fields[0], d);
    } else {
      SplitJoin(fields[1..], d);
      SplitFirstField(fields[0], d, Join(fields[1..], d));
      assert [fields[0]] + fields[1..] == fields;
    }
  }

  /** A character no field holds is not in the join either, unless it is the delimiter. */
  lemma {:induction false} JoinAvoids(fields: seq<string>, d: char, c: char)
    requires c != d
    requires forall i :: 0 <= i < |fields| ==> c !in fields[i]
    ensures c !in Join(fields, d)
  {
    if |fields| > 1 {
      JoinAvoids(fields[1..], d, c);
    }
  }

  /** Splitting and joining again gives the original string. */
  lemma {:induction false} JoinSplit(s: string, d: char)
    ensures Join(Split(s, d), d) == s
    decreases |s|
  {
    if |s| > 0 {
      JoinSplit(s[1..], d);
      var rest := Split(s[1..], d);
      if s[0] == d {
        assert ([""] + rest)[1..] == rest;
        assert [s[0]] + s[1..] == s;
      } else {
        var r := [[s[0]] + rest[0]] + rest[1..];
        assert r[1..] == rest[1..];
        if |rest| > 1 {
          assert Join(rest, d) == rest[0] + [d] + Join(rest[1..], d);
        }
        assert [s[0]] + s[1..] == s;
      }
    }
  }

  // ---------------------------------------------------------------------------
  // Words, as repeated `operator>>` into strings reads them
  // ---------------------------------------------------------------------------

  /** Length of the leading run of non-whitespace characters. */
  function WordLength(s: string): (n: nat)
    ensures n <= |s|
    ensures forall i :: 0 <= i < n ==> !IsSpace(s[i])
    ensures n < |s| ==> IsSpace(s[n])
  {
    if |s| == 0 || IsSpace(s[0]) then 0 else 1 + WordLength(s[1..])
  }

  /** The words of `s`, in order, with all whitespace between them skipped. */
  function Words(s: string): (r: seq<string>)
    ensures forall i :: 0 <= i < |r| ==> IsWord(r[i])
    decreases |s|
  {
    if |s| == 0 then []
    else if IsSpace(s[0]) then Words(s[1..])
    else
      var n := WordLength(s);
      [s[..n]] + Words(s[n..])
  }

  lemma {:induction false} WordLengthOfWord(w: string, tail: string)
    requires forall i :: 0 <= i < |w| ==> !IsSpace(w[i])
    requires |tail| == 0 || IsSpace(tail[0])
    ensures WordLength(w + tail) == |w|
  {
    if |w| > 0 {
      assert (w + tail)[1..] == w[1..] + tail;
      WordLengthOfWord(w[1..], tail);
    } else {
      assert w + tail == tail;
    }
  }

  /** A word followed by a whitespace character is read as one word. */
  lemma WordsOfWordThenSpace(w: string, c: char, tail: string)
    requires IsWord(w) && IsSpace(c)
    ensures Words(w + [c] + tail) == [w] + Words(tail)
  {
    var s := w + [c] + tail;
    WordLengthOfWord(w, [c] + tail);
    assert s == w + ([c] + tail);
    assert s[..|w|] == w;
    assert s[|w|..] == [c] + tail;
    assert ([c] + tail)[1..] == tail;
  }
}
