/**
 * String helpers shared by both models: the whitespace classes of Python and
 * JavaScript, trimming, splitting on one separator character, and ASCII case
 * mapping.
 */
module Text {

  /** Python's `str.isspace()` for one character. */
  predicate IsPythonSpace(c: char) {
    ('\t' <= c <= '\r') || ('\U{1C}' <= c <= '\U{1F}') || c == ' '
    || c == '\U{85}' || c == '\U{A0}' || c == '\U{1680}'
    || ('\U{2000}' <= c <= '\U{200A}') || c == '\U{2028}' || c == '\U{2029}'
    || c == '\U{202F}' || c == '\U{205F}' || c == '\U{3000}'
  }

  /** ECMAScript WhiteSpace or LineTerminator, the characters `String.prototype.trim` removes. */
  predicate IsJsSpace(c: char) {
    ('\t' <= c <= '\r') || c == ' ' || c == '\U{A0}' || c == '\U{1680}'
    || ('\U{2000}' <= c <= '\U{200A}') || c == '\U{2028}' || c == '\U{2029}'
    || c == '\U{202F}' || c == '\U{205F}' || c == '\U{3000}' || c == '\U{FEFF}'
  }

  /** Removes the leading characters that satisfy `space`. */
  function TrimStart(s: string, space: char -> bool): (r: string)
    ensures |r| <= |s| && r == s[|s| - |r|..]
    ensures r == [] || !space(r[0])
    ensures forall i :: 0 <= i < |s| - |r| ==> space(s[i])
  {
    if |s| > 0 && space(s[0]) then
      var r := TrimStart(s[1..], space);
      assert s[1..][|s| - 1 - |r|..] == s[|s| - |r|..];
      assert forall i :: 1 <= i < |s| - |r| ==> s[i] == s[1..][i - 1];
      r
    else s
  }

  /** Removes the trailing characters that satisfy `space`. */
  function TrimEnd(s: string, space: char -> bool): (r: string)
    ensures |r| <= |s| && r == s[..|r|]
    ensures r == [] || !space(r[|r| - 1])
    ensures forall i :: |r| <= i < |s| ==> space(s[i])
  {
    if |s| > 0 && space(s[|s| - 1]) then
      var r := TrimEnd(s[..|s| - 1], space);
      assert s[..|s| - 1][..|r|] == s[..|r|];
      r
    else s
  }

  /** Python's `str.strip()` (with `IsPythonSpace`) and JavaScript's `trim()` (with `IsJsSpace`). */
  function Trim(s: string, space: char -> bool): (r: string)
    ensures r == [] || (!space(r[0]) && !space(r[|r| - 1]))
  {
    var t := TrimStart(s, space);
    var r := TrimEnd(t, space);
    assert r == [] || r[0] == t[0];
    r
  }

  /** The leading run of non-space characters. */
  function Word(s: string, space: char -> bool): (w: string)
    ensures |w| <= |s| && w == s[..|w|]
    ensures forall i :: 0 <= i < |w| ==> !space(w[i])
    ensures |w| < |s| ==> space(s[|w|])
  {
    if |s| == 0 || space(s[0]) then ""
    else
      var w := Word(s[1..], space);
      assert s[1..][..|w|] == s[1..|w| + 1];
      [s[0]] + w
  }

  /**
   * Python's `s.split(maxsplit=1)`: leading white space is dropped, then the
   * first word, then (if anything is left after the white space that follows
   * it) the rest of the text as a second part.
   */
  function SplitFirstWord(s: string, space: char -> bool): (parts: seq<string>)
    ensures |parts| <= 2
    ensures |parts| == 0 <==> TrimStart(s, space) == ""
    ensures |parts| > 0 ==> parts[0] != "" && parts[0] == Word(TrimStart(s, space), space)
  {
    var t := TrimStart(s, space);
    if t == "" then []
    else
      var w := Word(t, space);
      var rest := TrimStart(t[|w|..], space);
      if rest == "" then [w] else [w, rest]
  }

  /** A text that starts with a non-space character has its leading run as first word. */
  lemma FirstWordOf(s: string, space: char -> bool)
    requires s != [] && !space(s[0])
    ensures |SplitFirstWord(s, space)| > 0 && SplitFirstWord(s, space)[0] == Word(s, space)
  {
    var t := TrimStart(s, space);
    assert |t| == |s| by {
      if |t| < |s| {
        assert false;
      }
    }
  }

  /** The text before the first `sep`: Python's `s.split(sep)[0]`. */
  function Before(s: string, sep: char): (r: string)
    ensures |r| <= |s| && r == s[..|r|]
    ensures sep !in r
    ensures |r| < |s| ==> s[|r|] == sep
  {
    if |s| == 0 then ""
    else if s[0] == sep then ""
    else [s[0]] + Before(s[1..], sep)
  }

  /**
   * `s.split(sep)` for a one-character separator, in both Python and
   * JavaScript: the pieces between consecutive separators, always at least one.
   */
  function Split(s: string, sep: char): (parts: seq<string>)
    ensures |parts| >= 1
    ensures parts[0] == Before(s, sep)
    ensures forall i :: 0 <= i < |parts| ==> sep !in parts[i]
  {
    if |s| == 0 then [""]
    else if s[0] == sep then [""] + Split(s[1..], sep)
    else
      var rest := Split(s[1..], sep);
      [[s[0]] + rest[0]] + rest[1..]
  }

  /** Number of occurrences of `c` in `s`. */
  function Count(s: string, c: char): nat
  {
    if |s| == 0 then 0 else (if s[0] == c then 1 else 0) + Count(s[1..], c)
  }

  function LowerChar(c: char): char
  {
    if 'A' <= c <= 'Z' then (c as int + 32) as char else c
  }

  function UpperChar(c: char): char
  {
    if 'a' <= c <= 'z' then (c as int - 32) as char else c
  }

  /** ASCII lower-casing, character by character. */
  function Lower(s: string): (r: string)
    ensures |r| == |s|
    ensures forall i :: 0 <= i < |s| ==> r[i] == LowerChar(s[i])
  {
    if |s| == 0 then "" else [LowerChar(s[0])] + Lower(s[1..])
  }

  /** ASCII upper-casing, character by character. */
  function Upper(s: string): (r: string)
    ensures |r| == |s|
    ensures forall i :: 0 <= i < |s| ==> r[i] == UpperChar(s[i])
  {
    if |s| == 0 then "" else [UpperChar(s[0])] + Upper(s[1..])
  }

  // ---------------------------------------------------------------------
  // Facts about the helpers
  // ---------------------------------------------------------------------

  /** Splitting yields one more piece than there are separators. */
  lemma {:induction false} SplitCount(s: string, sep: char)
    ensures |Split(s, sep)| == Count(s, sep) + 1
  {
    if |s| > 0 {
      SplitCount(s[1..], sep);
    }
  }

  /** The text splits into one piece exactly when the separator is absent. */
  lemma {:induction false} SplitOnePiece(s: string, sep: char)
    ensures |Split(s, sep)| == 1 <==> sep !in s
  {
    if |s| > 0 {
      SplitOnePiece(s[1..], sep);
      assert s == [s[0]] + s[1..];
    }
  }

  /** Joining the pieces back with the separator gives the original text. */
  function Join(parts: seq<string>, sep: char): string
    requires |parts| >= 1
  {
    if |parts| == 1 then parts[0] else parts[0] + [sep] + Join(parts[1..], sep)
  }

  lemma {:induction false} SplitJoin(s: string, sep: char)
    ensures Join(Split(s, sep), sep) == s
  {
    if |s| > 0 {
      SplitJoin(s[1..], sep);
      var rest := Split(s[1..], sep);
      if s[0] != sep && |rest| > 1 {
        assert Split(s, sep)[1..] == rest[1..];
      }
    }
  }

  /** Trimming is idempotent. */
  lemma TrimIdempotent(s: string, space: char -> bool)
    ensures Trim(Trim(s, space), space) == Trim(s, space)
  {
    var t := Trim(s, space);
    var a := TrimStart(s, space);
    if t != [] {
      assert t[0] == a[0];
      assert TrimStart(t, space) == t;
    }
  }

  /** The text before a separator is not changed by what follows it. */
  lemma {:induction false} BeforeAppend(a: string, sep: char, c: string)
    requires sep !in a
    ensures Before(a + [sep] + c, sep) == a
  {
    if |a| > 0 {
      assert (a + [sep] + c)[1..] == a[1..] + [sep] + c;
      BeforeAppend(a[1..], sep, c);
    } else {
      assert (a + [sep] + c)[0] == sep;
    }
  }

  /** A text without the separator is its own first field. */
  lemma {:induction false} BeforeNoSep(a: string, sep: char)
    requires sep !in a
    ensures Before(a, sep) == a
  {
    if |a| > 0 {
      BeforeNoSep(a[1..], sep);
    }
  }

  /** Leading trimming stops at the first non-space character. */
  lemma {:induction false} TrimStartAppend(a: string, b: string, space: char -> bool)
    requires |b| > 0 && !space(b[0])
    ensures TrimStart(a + b, space) == TrimStart(a, space) + b
  {
    if |a| > 0 {
      assert (a + b)[1..] == a[1..] + b;
      if space(a[0]) {
        TrimStartAppend(a[1..], b, space);
      }
    }
  }

  /** Trailing trimming stops at the last non-space character. */
  lemma {:induction false} TrimEndPrepend(a: string, b: string, space: char -> bool)
    requires |a| > 0 && !space(a[|a| - 1])
    ensures TrimEnd(a + b, space) == a + TrimEnd(b, space)
  {
    if |b| > 0 {
      assert (a + b)[..|a + b| - 1] == a + b[..|b| - 1];
      if space(b[|b| - 1]) {
        TrimEndPrepend(a, b[..|b| - 1], space);
      }
    } else {
      assert a + b == a;
    }
  }

  /**
   * Cutting a text at its first `sep` before or after trimming it gives the
   * same trimmed field, when `sep` itself is not white space.
   */
  lemma TrimmedFieldCut(a: string, sep: char, rest: string, space: char -> bool)
    requires sep !in a && !space(sep)
    ensures Trim(Before(Trim(a + [sep] + rest, space), sep), space) == Trim(Before(Trim(a, space), sep), space)
  {
    var t := TrimStart(a, space);
    TrimAroundSep(a, sep, rest, space);
    BeforeAppend(t, sep, TrimEnd(rest, space));
    assert Before(Trim(a + [sep] + rest, space), sep) == t;
    TrimOfTrimStart(a, space);
    BeforeOfTrim(a, sep, space);
    TrimIdempotent(a, space);
  }

  /** Trimming the leading white space first does not change the trim. */
  lemma TrimOfTrimStart(a: string, space: char -> bool)
    ensures Trim(TrimStart(a, space), space) == Trim(a, space)
  {
    var t := TrimStart(a, space);
    assert TrimStart(t, space) == t;
  }

  /** A trimmed text whose leading part has no separator is its own first field. */
  lemma BeforeOfTrim(a: string, sep: char, space: char -> bool)
    requires sep !in TrimStart(a, space)
    ensures Before(Trim(a, space), sep) == Trim(a, space)
  {
    var t := TrimStart(a, space);
    var u := Trim(a, space);
    assert sep !in u by {
      forall k | 0 <= k < |u| ensures u[k] != sep {
        assert u[k] == t[k];
      }
    }
    BeforeNoSep(u, sep);
  }

  /** Leading trimming only removes characters, so none is added. */
  lemma TrimStartKeepsOut(a: string, c: char, space: char -> bool)
    requires c !in a
    ensures c !in TrimStart(a, space)
  {
    var t := TrimStart(a, space);
    forall k | 0 <= k < |t| ensures t[k] != c {
      assert t[k] == a[|a| - |t| + k];
    }
  }

  /** Trimming stops at a non-space separator from both sides. */
  lemma TrimAroundSep(a: string, sep: char, rest: string, space: char -> bool)
    requires sep !in a && !space(sep)
    ensures sep !in TrimStart(a, space)
    ensures Trim(a + [sep] + rest, space) == TrimStart(a, space) + [sep] + TrimEnd(rest, space)
  {
    var t := TrimStart(a, space);
    TrimStartKeepsOut(a, sep, space);
    var s := a + [sep] + rest;
    Associative(a, [sep], rest);
    TrimStartAppend(a, [sep] + rest, space);
    Associative(t, [sep], rest);
    assert TrimStart(s, space) == (t + [sep]) + rest;
    TrimEndPrepend(t + [sep], rest, space);
    assert Trim(s, space) == TrimEnd(TrimStart(s, space), space);
  }

  /** Regrouping a concatenation; named so that proofs pick the grouping the next lemma expects. */
  lemma Associative(x: string, y: string, z: string)
    ensures x + y + z == x + (y + z)
  {
  }

  /** A text without the separator is one piece. */
  lemma {:induction false} SplitNoSep(a: string, sep: char)
    requires sep !in a
    ensures Split(a, sep) == [a]
  {
    if |a| > 0 {
      SplitNoSep(a[1..], sep);
      assert [a[0]] + a[1..] == a;
    }
  }

  /** The first piece ends at the first separator; the rest is split on its own. */
  lemma {:induction false} SplitAfter(a: string, sep: char, b: string)
    requires sep !in a
    ensures Split(a + [sep] + b, sep) == [a] + Split(b, sep)
  {
    var s := a + [sep] + b;
    if |a| == 0 {
      assert s[1..] == b;
    } else {
      assert s[1..] == a[1..] + [sep] + b;
      SplitAfter(a[1..], sep, b);
      assert [a[0]] + a[1..] == a;
    }
  }

  /** A text with no white space at either end is its own trim. */
  lemma TrimmedAlready(s: string, space: char -> bool)
    requires s == [] || (!space(s[0]) && !space(s[|s| - 1]))
    ensures Trim(s, space) == s
  {
  }
}
