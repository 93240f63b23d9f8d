/** Python string operations the loader relies on, stated over `seq<char>`:
    `str.split` with and without a split limit, `re.split` on `([|/])`,
    `str.strip`, slicing with negative bounds, string ordering, `int()`,
    `str()` of an integer and the shape of a `float()` literal. */
module Strings {

  // ---------------------------------------------------------------------------
  // str.split(c)
  // ---------------------------------------------------------------------------

  /** Python's `s.split(c)` for a one-character separator: never empty, and
      consecutive separators give empty pieces. */
  function Split(s: string, c: char): (r: seq<string>)
    ensures |r| >= 1
    decreases |s|
  {
    if |s| == 0 then [""]
    else
      var rest := Split(s[1..], c);
      if s[0] == c then [""] + rest
      else [[s[0]] + rest[0]] + rest[1..]
  }

  /** `c.join(parts)`, the inverse of Split. */
  function Join(parts: seq<string>, c: char): string
    requires |parts| >= 1
    decreases |parts|
  {
    if |parts| == 1 then parts[0] else parts[0] + [c] + Join(parts[1..], c)
  }

  lemma {:induction false} JoinSplit(s: string, c: char)
    ensures Join(Split(s, c), c) == s
    decreases |s|
  {
    if |s| > 0 {
      var rest := Split(s[1..], c);
      JoinSplit(s[1..], c);
      if s[0] == c {
        assert Split(s, c) == [""] + rest;
        assert Join([""] + rest, c) == "" + [c] + Join(rest, c);
        assert s == [s[0]] + s[1..];
      } else {
        var r := Split(s, c);
        assert r == [[s[0]] + rest[0]] + rest[1..];
        if |rest| == 1 {
          assert r == [[s[0]] + rest[0]];
        } else {
          assert r[1..] == rest[1..];
          assert Join(rest, c) == rest[0] + [c] + Join(rest[1..], c);
        }
      }
    }
  }

  lemma {:induction false} SplitPiecesLackSeparator(s: string, c: char)
    ensures forall k :: 0 <= k < |Split(s, c)| ==> c !in Split(s, c)[k]
    decreases |s|
  {
    if |s| > 0 {
      SplitPiecesLackSeparator(s[1..], c);
    }
  }

  /** Split undoes Join when no part holds the separator. */
  lemma {:induction false} SplitJoin(parts: seq<string>, c: char)
    requires |parts| >= 1
    requires forall k :: 0 <= k < |parts| ==> c !in parts[k]
    ensures Split(Join(parts, c), c) == parts
    decreases |parts|
  {
    if |parts| == 1 {
      SplitWithoutSeparator(parts[0], c);
    } else {
      SplitJoin(parts[1..], c);
      SplitAfterPiece(parts[0], Join(parts[1..], c), c);
      assert Join(parts, c) == parts[0] + [c] + Join(parts[1..], c);
      assert parts == [parts[0]] + parts[1..];
    }
  }

  lemma {:induction false} SplitWithoutSeparator(s: string, c: char)
    requires c !in s
    ensures Split(s, c) == [s]
    decreases |s|
  {
    if |s| > 0 {
      assert c !in s[1..] by {
        forall i | 0 <= i < |s[1..]| ensures s[1..][i] != c { assert s[1..][i] == s[i + 1]; }
      }
      SplitWithoutSeparator(s[1..], c);
      assert s == [s[0]] + s[1..];
    }
  }

  /** A piece free of the separator followed by the separator is split off whole. */
  lemma {:induction false} SplitAfterPiece(a: string, b: string, c: char)
    requires c !in a
    ensures Split(a + [c] + b, c) == [a] + Split(b, c)
    decreases |a|
  {
    if |a| == 0 {
      assert a + [c] + b == [c] + b;
      assert ([c] + b)[1..] == b;
    } else {
      var s := a + [c] + b;
      assert s[0] == a[0];
      assert s[1..] == a[1..] + [c] + b;
      assert c !in a[1..] by {
        forall i | 0 <= i < |a[1..]| ensures a[1..][i] != c { assert a[1..][i] == a[i + 1]; }
      }
      SplitAfterPiece(a[1..], b, c);
      assert [a[0]] + a[1..] == a;
    }
  }

  // ---------------------------------------------------------------------------
  // str.split(c, n)
  // ---------------------------------------------------------------------------

  /** Appending text without the separator extends the last piece only. */
  lemma SplitAppend(s: string, t: string, c: char)
    requires c !in t
    ensures var r := Split(s, c);
      Split(s + t, c) == r[..|r| - 1] + [r[|r| - 1] + t]
  {
    var r := Split(s, c);
    var r' := r[..|r| - 1] + [r[|r| - 1] + t];
    JoinSplit(s, c);
    SplitPiecesLackSeparator(s, c);
    JoinExtendLast(r, t, c);
    forall k | 0 <= k < |r'| ensures c !in r'[k] {
      if k < |r| - 1 {
        assert r'[k] == r[k];
      } else {
        assert r'[k] == r[|r| - 1] + t;
      }
    }
    SplitJoin(r', c);
  }

  /** Extending the last part extends the joined string. */
  lemma {:induction false} JoinExtendLast(parts: seq<string>, t: string, c: char)
    requires |parts| >= 1
    ensures Join(parts[..|parts| - 1] + [parts[|parts| - 1] + t], c) == Join(parts, c) + t
    decreases |parts|
  {
    var n := |parts|;
    var ext := parts[..n - 1] + [parts[n - 1] + t];
    if n > 1 {
      var tail := parts[1..];
      JoinExtendLast(tail, t, c);
      assert ext[0] == parts[0];
      assert ext[1..] == tail[..|tail| - 1] + [tail[|tail| - 1] + t];
      assert Join(ext, c) == parts[0] + [c] + Join(ext[1..], c);
    }
  }

  /** Python's `s.split(c, n)`: at most `n` splits, so at most `n + 1` pieces;
      the last piece keeps any further separators. */
  function SplitN(s: string, c: char, n: nat): (r: seq<string>)
    ensures 1 <= |r| <= n + 1
    decreases |s|
  {
    if n == 0 || |s| == 0 then [s]
    else if s[0] == c then [""] + SplitN(s[1..], c, n - 1)
    else
      var rest := SplitN(s[1..], c, n);
      [[s[0]] + rest[0]] + rest[1..]
  }

  lemma {:induction false} SplitNAfterPiece(a: string, b: string, c: char, n: nat)
    requires c !in a
    requires n >= 1
    ensures SplitN(a + [c] + b, c, n) == [a] + SplitN(b, c, n - 1)
    decreases |a|
  {
    if |a| == 0 {
      assert a + [c] + b == [c] + b;
      assert ([c] + b)[1..] == b;
    } else {
      var s := a + [c] + b;
      assert s[0] == a[0];
      assert s[1..] == a[1..] + [c] + b;
      assert c !in a[1..] by {
        forall i | 0 <= i < |a[1..]| ensures a[1..][i] != c { assert a[1..][i] == a[i + 1]; }
      }
      SplitNAfterPiece(a[1..], b, c, n);
      assert [a[0]] + a[1..] == a;
    }
  }

  // ---------------------------------------------------------------------------
  // re.split(r'([|/])', s)
  // ---------------------------------------------------------------------------

  predicate IsAlleleSeparator(ch: char) { ch == '|' || ch == '/' }

  /** `re.split(r'([|/])', s)`: the text between separators, with each
      separator kept as a piece of its own between them. */
  function SplitAlleles(s: string): (r: seq<string>)
    ensures |r| % 2 == 1
    decreases |s|
  {
    if |s| == 0 then [""]
    else
      var rest := SplitAlleles(s[1..]);
      if IsAlleleSeparator(s[0]) then ["", [s[0]]] + rest
      else [[s[0]] + rest[0]] + rest[1..]
  }

  function Concat(parts: seq<string>): string
    decreases |parts|
  {
    if |parts| == 0 then "" else parts[0] + Concat(parts[1..])
  }

  /** The pieces of SplitAlleles give back the text, odd pieces are the
      separators and even pieces hold none. */
  lemma SplitAllelesShape(s: string)
    ensures Concat(SplitAlleles(s)) == s
    ensures forall k :: 0 <= k < |SplitAlleles(s)| && k % 2 == 1 ==>
      |SplitAlleles(s)[k]| == 1 && IsAlleleSeparator(SplitAlleles(s)[k][0])
    ensures forall k, j :: 0 <= k < |SplitAlleles(s)| && k % 2 == 0 && 0 <= j < |SplitAlleles(s)[k]| ==>
      !IsAlleleSeparator(SplitAlleles(s)[k][j])
  {
    SplitAllelesConcat(s);
    SplitAllelesOdd(s);
    SplitAllelesEven(s);
  }

  lemma {:induction false} SplitAllelesConcat(s: string)
    ensures Concat(SplitAlleles(s)) == s
    decreases |s|
  {
    if |s| > 0 {
      var rest := SplitAlleles(s[1..]);
      SplitAllelesConcat(s[1..]);
      var r := SplitAlleles(s);
      assert s == [s[0]] + s[1..];
      if IsAlleleSeparator(s[0]) {
        assert r == ["", [s[0]]] + rest;
        assert r[1..][1..] == rest;
        assert Concat(r) == "" + ([s[0]] + Concat(rest));
      } else {
        assert r == [[s[0]] + rest[0]] + rest[1..];
        assert Concat(rest) == rest[0] + Concat(rest[1..]);
        assert r[1..] == rest[1..];
        assert Concat(r) == [s[0]] + rest[0] + Concat(rest[1..]);
      }
    }
  }

  lemma {:induction false} SplitAllelesOdd(s: string)
    ensures forall k :: 0 <= k < |SplitAlleles(s)| && k % 2 == 1 ==>
      |SplitAlleles(s)[k]| == 1 && IsAlleleSeparator(SplitAlleles(s)[k][0])
    decreases |s|
  {
    if |s| > 0 {
      var rest := SplitAlleles(s[1..]);
      SplitAllelesOdd(s[1..]);
      var r := SplitAlleles(s);
      if IsAlleleSeparator(s[0]) {
        assert r == ["", [s[0]]] + rest;
        forall k | 2 <= k < |r| ensures r[k] == rest[k - 2] { }
      } else {
        assert r == [[s[0]] + rest[0]] + rest[1..];
        forall k | 1 <= k < |r| ensures r[k] == rest[k] { }
      }
    }
  }

  lemma {:induction false} SplitAllelesEven(s: string)
    ensures forall k, j :: 0 <= k < |SplitAlleles(s)| && k % 2 == 0 && 0 <= j < |SplitAlleles(s)[k]| ==>
      !IsAlleleSeparator(SplitAlleles(s)[k][j])
    decreases |s|
  {
    if |s| > 0 {
      var rest := SplitAlleles(s[1..]);
      SplitAllelesEven(s[1..]);
      var r := SplitAlleles(s);
      if IsAlleleSeparator(s[0]) {
        assert r == ["", [s[0]]] + rest;
        forall k | 2 <= k < |r| ensures r[k] == rest[k - 2] { }
      } else {
        assert r == [[s[0]] + rest[0]] + rest[1..];
        forall k | 1 <= k < |r| ensures r[k] == rest[k] { }
        forall j | 0 <= j < |r[0]| ensures !IsAlleleSeparator(r[0][j]) {
          if j > 0 { assert r[0][j] == rest[0][j - 1]; }
        }
      }
    }
  }

  // ---------------------------------------------------------------------------
  // str.strip() and slicing
  // ---------------------------------------------------------------------------

  /** The characters of Python 2's `string.whitespace`. */
  predicate IsSpace(ch: char)
  {
    ch == ' ' || ch == '\t' || ch == '\n' || ch == '\r' || ch == '\U{0B}' || ch == '\U{0C}'
  }

  function StripLeft(s: string): (r: string)
    decreases |s|
  {
    if |s| > 0 && IsSpace(s[0]) then StripLeft(s[1..]) else s
  }

  function StripRight(s: string): (r: string)
    decreases |s|
  {
    if |s| > 0 && IsSpace(s[|s| - 1]) then StripRight(s[..|s| - 1]) else s
  }

  /** Python's `s.strip()`. */
  function Strip(s: string): string
  {
    StripRight(StripLeft(s))
  }

  lemma {:induction false} StripRightSpaces(s: string, t: string)
    requires forall i :: 0 <= i < |t| ==> IsSpace(t[i])
    requires |s| > 0 && !IsSpace(s[|s| - 1])
    ensures StripRight(s + t) == s
    decreases |t|
  {
    if |t| > 0 {
      var u := s + t;
      assert u[..|u| - 1] == s + t[..|t| - 1];
      StripRightSpaces(s, t[..|t| - 1]);
    } else {
      assert s + t == s;
    }
  }

  /** Stripping a line that starts and ends with a non-space character drops
      only its line terminator. */
  lemma StripLine(s: string)
    requires |s| > 0 && !IsSpace(s[0]) && !IsSpace(s[|s| - 1])
    ensures Strip(s + "\n") == s
  {
    assert StripLeft(s + "\n") == s + "\n";
    StripRightSpaces(s, "\n");
  }

  /** Python's `s.startswith(p)`. */
  predicate StartsWith(s: string, p: string)
  {
    |p| <= |s| && s[..|p|] == p
  }

  /** Python's `s[lo:hi]` for a non-negative `lo` and any `hi`: out-of-range
      bounds are clamped and a negative `hi` counts from the end. */
  function Slice(s: string, lo: nat, hi: int): (r: string)
    ensures |r| <= |s|
  {
    var h := if hi < 0 then (if |s| + hi < 0 then 0 else |s| + hi) else (if hi > |s| then |s| else hi);
    var l := if lo > |s| then |s| else lo;
    if l >= h then "" else s[l..h]
  }

  // ---------------------------------------------------------------------------
  // Python string ordering
  // ---------------------------------------------------------------------------

  /** Python's `a < b` on strings: lexicographic by character code. */
  predicate LexLess(a: string, b: string)
    decreases |a|
  {
    if |a| == 0 then |b| > 0
    else |b| > 0 && (a[0] < b[0] || (a[0] == b[0] && LexLess(a[1..], b[1..])))
  }

  lemma {:induction false} LexLessIrreflexive(a: string)
    ensures !LexLess(a, a)
    decreases |a|
  {
    if |a| > 0 { LexLessIrreflexive(a[1..]); }
  }

  lemma {:induction false} LexLessTransitive(a: string, b: string, c: string)
    requires LexLess(a, b) && LexLess(b, c)
    ensures LexLess(a, c)
    decreases |a|
  {
    if |a| > 0 && a[0] == b[0] && b[0] == c[0] {
      LexLessTransitive(a[1..], b[1..], c[1..]);
    }
  }

  lemma {:induction false} LexLessTotal(a: string, b: string)
    ensures a == b || LexLess(a, b) || LexLess(b, a)
    decreases |a|
  {
    if |a| > 0 && |b| > 0 && a[0] == b[0] {
      LexLessTotal(a[1..], b[1..]);
      if a[1..] == b[1..] {
        assert a == [a[0]] + a[1..] && b == [b[0]] + b[1..];
      }
    }
  }

  lemma LexLessAsymmetric(a: string, b: string)
    requires LexLess(a, b)
    ensures !LexLess(b, a)
  {
    if LexLess(b, a) {
      LexLessTransitive(a, b, a);
      LexLessIrreflexive(a);
    }
  }

  // ---------------------------------------------------------------------------
  // int() and str() of integers
  // ---------------------------------------------------------------------------

  predicate IsDigit(ch: char) { '0' <= ch <= '9' }

  predicate AllDigits(s: string)
  {
    forall i :: 0 <= i < |s| ==> IsDigit(s[i])
  }

  function DigitValue(ch: char): nat
    requires IsDigit(ch)
  {
    (ch as int) - ('0' as int)
  }

  /** The value of a decimal numeral, most significant digit first. */
  function DigitsValue(s: string): nat
    requires AllDigits(s)
    decreases |s|
  {
    if |s| == 0 then 0 else DigitsValue(s[..|s| - 1]) * 10 + DigitValue(s[|s| - 1])
  }

  /** Python 2's `int(s)` in base 10: surrounding whitespace, an optional
      sign, more whitespace after the sign (the C parser skips it again), then
      at least one decimal digit; anything else raises ValueError (None here).
      A numeral of any size is read with the same grammar; the value is
      unbounded here. */
  function ParseInt(s: string): (r: Option<int>)
  {
    var t := Strip(s);
    if |t| > 0 && (t[0] == '-' || t[0] == '+') then
      var d := StripLeft(t[1..]);
      (if |d| > 0 && AllDigits(d)
       then var v: int := DigitsValue(d); Some(if t[0] == '-' then -v else v)
       else None)
    else if |t| > 0 && AllDigits(t) then Some(DigitsValue(t))
    else None
  }

  /** Whitespace between the sign and the digits is accepted: `int('- 1') == -1`
      and `int('+\t7') == 7`, while a sign alone or a doubled sign is not a number. */
  lemma SpaceAfterSign()
    ensures ParseInt("- 1") == Some(-1) && ParseInt("+\t7") == Some(7)
    ensures ParseInt("- ") == None && ParseInt("-+1") == None
  {
    assert Strip("- 1") == "- 1" by {
      assert StripLeft("- 1") == "- 1";
      assert StripRight("- 1") == "- 1";
    }
    assert StripLeft(" 1") == StripLeft("1") == "1";
    assert DigitsValue("1") == 1 by { assert "1"[..0] == ""; }
    assert Strip("+\t7") == "+\t7" by {
      assert StripLeft("+\t7") == "+\t7";
      assert StripRight("+\t7") == "+\t7";
    }
    assert StripLeft("\t7") == StripLeft("7") == "7";
    assert DigitsValue("7") == 7 by { assert "7"[..0] == ""; }
    assert Strip("- ") == "-" by {
      assert StripLeft("- ") == "- ";
      assert "- "[..1] == "-";
      assert StripRight("- ") == StripRight("-") == "-";
    }
    assert Strip("-+1") == "-+1" by {
      assert StripLeft("-+1") == "-+1";
      assert StripRight("-+1") == "-+1";
    }
    assert StripLeft("+1") == "+1";
  }

  datatype Option<+T> = None | Some(value: T)

  function DigitChar(d: nat): (ch: char)
    requires d < 10
    ensures IsDigit(ch) && DigitValue(ch) == d
  {
    (('0' as int) + d) as char
  }

  function NatToStr(n: nat): (s: string)
    ensures |s| >= 1 && AllDigits(s) && DigitsValue(s) == n
    decreases n
  {
    if n < 10 then [DigitChar(n)]
    else
      var p := NatToStr(n / 10);
      var s := p + [DigitChar(n % 10)];
      assert s[..|s| - 1] == p;
      s
  }

  /** Python's `str(n)` for an integer. */
  function IntToStr(n: int): string
  {
    if n < 0 then "-" + NatToStr(-n) else NatToStr(n)
  }

  lemma {:induction false} StripDigits(t: string)
    requires |t| > 0 && (AllDigits(t) || (t[0] == '-' && AllDigits(t[1..])))
    requires IsDigit(t[|t| - 1])
    ensures Strip(t) == t
  {
    assert !IsSpace(t[0]);
    assert StripLeft(t) == t;
    assert !IsSpace(t[|t| - 1]);
  }

  /** `int(str(n)) == n`. */
  lemma IntRoundTrip(n: int)
    ensures ParseInt(IntToStr(n)) == Some(n)
  {
    var t := IntToStr(n);
    if n < 0 {
      var d := NatToStr(-n);
      assert t[1..] == d;
      assert StripLeft(d) == d by { assert !IsSpace(d[0]); }
      StripDigits(t);
    } else {
      StripDigits(t);
    }
  }

  /** `str(n)` is injective, because `int` undoes it. */
  lemma IntToStrInjective(m: int, n: int)
    requires IntToStr(m) == IntToStr(n)
    ensures m == n
  {
    IntRoundTrip(m);
    IntRoundTrip(n);
  }

  // ---------------------------------------------------------------------------
  // float()
  // ---------------------------------------------------------------------------

  function LowerAscii(s: string): string
    decreases |s|
  {
    if |s| == 0 then ""
    else [if 'A' <= s[0] <= 'Z' then ((s[0] as int) + 32) as char else s[0]] + LowerAscii(s[1..])
  }

  function IndexOfExponent(s: string, i: nat): (r: nat)
    requires i <= |s|
    ensures i <= r <= |s|
    decreases |s| - i
  {
    if i == |s| then |s| else if s[i] == 'e' || s[i] == 'E' then i else IndexOfExponent(s, i + 1)
  }

  /** Digits with at most one decimal point and at least one digit: `1`, `1.`, `.5`, `1.5`. */
  predicate IsMantissa(m: string)
  {
    var parts := Split(m, '.');
    |parts| <= 2 && (forall k :: 0 <= k < |parts| ==> AllDigits(parts[k]))
    && (exists k :: 0 <= k < |parts| && |parts[k]| > 0)
  }

  predicate IsExponent(x: string)
  {
    var d := if |x| > 0 && (x[0] == '+' || x[0] == '-') then x[1..] else x;
    |d| > 0 && AllDigits(d)
  }

  /** The literals Python's `float()` accepts once surrounding whitespace is
      stripped: a signed decimal with an optional exponent, or inf/nan. */
  predicate IsFloatLiteral(t: string)
  {
    var u := if |t| > 0 && (t[0] == '+' || t[0] == '-') then t[1..] else t;
    var e := IndexOfExponent(u, 0);
    LowerAscii(u) in {"inf", "infinity", "nan"}
    || (if e == |u| then IsMantissa(u) else IsMantissa(u[..e]) && IsExponent(u[e + 1..]))
  }

  // ---------------------------------------------------------------------------
  // re.match(r'^[a-zA-Z0-9_]+$', s)
  // ---------------------------------------------------------------------------

  predicate IsNameChar(ch: char)
  {
    ('a' <= ch <= 'z') || ('A' <= ch <= 'Z') || ('0' <= ch <= '9') || ch == '_'
  }

  predicate AllNameChars(s: string)
  {
    forall i :: 0 <= i < |s| ==> IsNameChar(s[i])
  }

  /** `re.match(r'^[a-zA-Z0-9_]+$', s)` succeeds. Python's `$` also matches
      just before a newline that ends the string. */
  predicate MatchesNamePattern(s: string)
  {
    (|s| > 0 && AllNameChars(s))
    || (|s| > 1 && s[|s| - 1] == '\n' && AllNameChars(s[..|s| - 1]))
  }
}
