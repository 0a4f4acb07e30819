/**
  * The string operations the pipeline relies on, over `string = seq<char>`:
  * `str.split("\n")`, `"\n".join(...)`, `str.count("\n")`, substring search (`k in s`),
  * ASCII lower-casing, `str.endswith` and `str.replace` of one character.
  */
module Text {

  /** `s.count("\n")`. */
  function NewlineCount(s: string): nat {
    if |s| == 0 then 0 else (if s[0] == '\n' then 1 else 0) + NewlineCount(s[1..])
  }

  /** Counting newlines in a prefix never gives more than in the whole string. */
  lemma {:induction false} NewlineCountPrefix(s: string, k: nat)
    requires k <= |s|
    ensures NewlineCount(s[..k]) <= NewlineCount(s)
  {
    if k > 0 {
      NewlineCountPrefix(s[1..], k - 1);
      assert s[..k][1..] == s[1..][..k - 1];
    }
  }

  /**
    * `s.split("\n")`: the pieces between newlines, keeping empty pieces, so the
    * empty string gives `[""]` and a trailing newline gives a trailing `""`.
    */
  function Split(s: string): (r: seq<string>)
    ensures |r| == NewlineCount(s) + 1
    ensures forall i :: 0 <= i < |r| ==> '\n' !in r[i]
  {
    if |s| == 0 then [""]
    else
      var rest := Split(s[1..]);
      if s[0] == '\n' then [""] + rest
      else [[s[0]] + rest[0]] + rest[1..]
  }

  /** `"\n".join(ls)`. */
  function Join(ls: seq<string>): string {
    if |ls| == 0 then ""
    else if |ls| == 1 then ls[0]
    else ls[0] + "\n" + Join(ls[1..])
  }

  /** Prepending a character to the first line prepends it to the joined text. */
  lemma {:induction false} JoinConsHead(c: char, ls: seq<string>)
    requires |ls| > 0
    ensures Join([[c] + ls[0]] + ls[1..]) == [c] + Join(ls)
  {
    var ms := [[c] + ls[0]] + ls[1..];
    assert ms[0] == [c] + ls[0];
    if |ls| > 1 {
      assert ms[1..] == ls[1..];
      calc {
        Join(ms);
        ms[0] + "\n" + Join(ms[1..]);
        ([c] + ls[0]) + "\n" + Join(ls[1..]);
        [c] + (ls[0] + "\n" + Join(ls[1..]));
      }
    }
  }

  /** Joining the pieces of a split gives back the text: `"\n".join(s.split("\n")) == s`. */
  lemma {:induction false} JoinSplit(s: string)
    ensures Join(Split(s)) == s
  {
    if |s| > 0 {
      var rest := Split(s[1..]);
      JoinSplit(s[1..]);
      if s[0] == '\n' {
        assert ([""] + rest)[1..] == rest;
        assert s == "\n" + s[1..];
      } else {
        JoinConsHead(s[0], rest);
        assert s == [s[0]] + s[1..];
      }
    }
  }

  /** A line without a newline splits into itself. */
  lemma {:induction false} SplitSingleLine(x: string)
    requires '\n' !in x
    ensures Split(x) == [x]
  {
    if |x| > 0 {
      SplitSingleLine(x[1..]);
      assert [x[0]] + x[1..] == x;
    }
  }

  /** A newline-free line followed by a newline becomes the first piece of the split. */
  lemma {:induction false} SplitLeadingLine(x: string, t: string)
    requires '\n' !in x
    ensures Split(x + "\n" + t) == [x] + Split(t)
  {
    var s := x + "\n" + t;
    if |x| == 0 {
      assert s[1..] == t;
    } else {
      assert s[1..] == x[1..] + "\n" + t;
      SplitLeadingLine(x[1..], t);
      assert [x[0]] + x[1..] == x;
    }
  }

  /**
    * Splitting joined newline-free lines gives back the lines, so the number of pieces
    * of a joined block is its number of lines.
    */
  lemma {:induction false} SplitJoin(ls: seq<string>)
    requires |ls| > 0
    requires forall i :: 0 <= i < |ls| ==> '\n' !in ls[i]
    ensures Split(Join(ls)) == ls
  {
    if |ls| == 1 {
      SplitSingleLine(ls[0]);
    } else {
      SplitJoin(ls[1..]);
      SplitLeadingLine(ls[0], Join(ls[1..]));
    }
  }

  /** `k in s` for strings: `k` occurs in `s` as a contiguous substring. */
  predicate IsSubstring(k: string, s: string)
    decreases |s|
  {
    k <= s || (|s| > 0 && IsSubstring(k, s[1..]))
  }

  /** `k` starts at offset `i` of `s`. */
  predicate OccursAt(k: string, s: string, i: int) {
    0 <= i <= |s| - |k| && s[i..i + |k|] == k
  }

  /** The substring test finds exactly the occurrences at some offset. */
  lemma IsSubstringAt(k: string, s: string)
    ensures IsSubstring(k, s) <==> exists i :: OccursAt(k, s, i)
  {
    if IsSubstring(k, s) {
      var i := SubstringOffset(k, s);
    }
    if exists i :: OccursAt(k, s, i) {
      var i :| OccursAt(k, s, i);
      OccurrenceIsSubstring(k, s, i);
    }
  }

  /** An offset at which a substring occurs. */
  lemma {:induction false} SubstringOffset(k: string, s: string) returns (i: int)
    requires IsSubstring(k, s)
    ensures OccursAt(k, s, i)
    decreases |s|
  {
    if k <= s {
      i := 0;
    } else {
      var j := SubstringOffset(k, s[1..]);
      assert s[1..][j..j + |k|] == s[j + 1..j + 1 + |k|];
      i := j + 1;
    }
  }

  /** An occurrence at any offset makes `k` a substring. */
  lemma {:induction false} OccurrenceIsSubstring(k: string, s: string, i: int)
    requires OccursAt(k, s, i)
    ensures IsSubstring(k, s)
    decreases i
  {
    if i > 0 {
      assert s[1..][i - 1..i - 1 + |k|] == s[i..i + |k|];
      OccurrenceIsSubstring(k, s[1..], i - 1);
    }
  }

  /** U+212A KELVIN SIGN, the one non-ASCII character whose lower case is an ASCII letter (`k`). */
  const KelvinSign: char := '\U{212A}'

  /** A character that `str.lower()` turns into a different ASCII letter. */
  predicate IsUpper(c: char) {
    'A' <= c <= 'Z' || c == KelvinSign
  }

  /** `str.lower()` on one character, for the characters whose lower case is ASCII. */
  function LowerChar(c: char): char {
    if 'A' <= c <= 'Z' then (c as int + 32) as char
    else if c == KelvinSign then 'k'
    else c
  }

  /**
    * `s.lower()` as far as matching ASCII keywords goes: the result holds no upper-case
    * character, and only upper-case characters change.
    */
  function Lower(s: string): (r: string)
    ensures |r| == |s|
    ensures forall i :: 0 <= i < |r| ==> !IsUpper(r[i])
    ensures forall i :: 0 <= i < |s| ==> (r[i] == s[i] <==> !IsUpper(s[i]))
  {
    seq(|s|, i requires 0 <= i < |s| => LowerChar(s[i]))
  }

  /** Lower-casing twice is lower-casing once. */
  lemma LowerIdempotent(s: string)
    ensures Lower(Lower(s)) == Lower(s)
  {
    var r := Lower(s);
    assert forall i :: 0 <= i < |r| ==> Lower(r)[i] == r[i];
  }

  /** ASCII capitals and the Kelvin sign lower-case to ASCII letters. */
  lemma LowerExamples()
    ensures Lower("DeMo") == "demo"
    ensures Lower("wor\U{212A}shop") == "workshop"
  {
  }

  /** `s.endswith(suffix)`. */
  predicate EndsWith(s: string, suffix: string) {
    |suffix| <= |s| && s[|s| - |suffix|..] == suffix
  }

  /**
    * `s.replace(a, b)` for single characters `a` and `b`: every `a` becomes `b`, no other
    * character changes, and no `a` is left when `b` differs from it.
    */
  function ReplaceChar(s: string, a: char, b: char): (r: string)
    ensures |r| == |s|
    ensures a != b ==> a !in r
    ensures forall i :: 0 <= i < |s| && s[i] == a ==> r[i] == b
    ensures forall i :: 0 <= i < |s| && r[i] != s[i] ==> s[i] == a
  {
    seq(|s|, i requires 0 <= i < |s| => if s[i] == a then b else s[i])
  }

  /** `str(n)` for a natural number: its decimal digits. */
  function NatToString(n: nat): (r: string)
    ensures |r| > 0
    ensures forall i :: 0 <= i < |r| ==> '0' <= r[i] <= '9'
    decreases n
  {
    if n < 10 then ["0123456789"[n]]
    else NatToString(n / 10) + ["0123456789"[n % 10]]
  }
}
