/**
 * String operations of the JavaScript standard library that the core relies on:
 * `trim`, `split` on one character, `join`, `indexOf`, `replace` of the first
 * occurrence, `replace(/\n/g, …)`, `startsWith`, `Number#toString()` for
 * non-negative integers and the string-to-number conversion behind `==` and `<`.
 */
module Text {
  import opened Wrappers

  /** The code points of JavaScript's WhiteSpace and LineTerminator productions:
      exactly what `String.prototype.trim` strips. */
  predicate IsWhitespace(c: char) {
    || c == '\t' || c == '\U{000B}' || c == '\U{000C}' || c == ' '
    || c == '\U{00A0}' || c == '\U{FEFF}' || c == '\U{1680}'
    || ('\U{2000}' <= c <= '\U{200A}')
    || c == '\U{202F}' || c == '\U{205F}' || c == '\U{3000}'
    || IsLineTerminator(c)
  }

  /** The characters the regular-expression `.` does not match. */
  predicate IsLineTerminator(c: char) {
    c == '\n' || c == '\r' || c == '\U{2028}' || c == '\U{2029}'
  }

  predicate AllWhitespace(s: string) {
    forall i :: 0 <= i < |s| ==> IsWhitespace(s[i])
  }

  /** A string with no whitespace at either end. */
  predicate IsTrimmed(s: string) {
    |s| == 0 || (!IsWhitespace(s[0]) && !IsWhitespace(s[|s| - 1]))
  }

  function TrimStart(s: string): (r: string)
    ensures |r| <= |s| && r == s[|s| - |r|..]
    ensures AllWhitespace(s[..|s| - |r|])
    ensures |r| == 0 || !IsWhitespace(r[0])
  {
    if |s| > 0 && IsWhitespace(s[0]) then
      var r := TrimStart(s[1..]);
      assert s[1..][..|s[1..]| - |r|] == s[1..|s| - |r|];
      r
    else s
  }

  function TrimEnd(s: string): (r: string)
    ensures |r| <= |s| && r == s[..|r|]
    ensures AllWhitespace(s[|r|..])
    ensures |r| == 0 || !IsWhitespace(r[|r| - 1])
  {
    if |s| > 0 && IsWhitespace(s[|s| - 1]) then
      var r := TrimEnd(s[..|s| - 1]);
      assert s[..|s| - 1][|r|..] == s[|r|..|s| - 1];
      r
    else s
  }

  /** `s.trim()`: the string without its leading and trailing whitespace. */
  function Trim(s: string): (r: string)
  {
    TrimEnd(TrimStart(s))
  }

  /** Trimming leaves a trimmed string that sits in `s` between two runs of whitespace. */
  lemma TrimSpec(s: string)
    ensures IsTrimmed(Trim(s))
    ensures exists i, j :: 0 <= i <= j <= |s| && Trim(s) == s[i..j]
                           && AllWhitespace(s[..i]) && AllWhitespace(s[j..])
  {
    var a := TrimStart(s);
    var r := TrimEnd(a);
    var i := |s| - |a|;
    var j := i + |r|;
    assert r == s[i..j];
    assert s[j..] == a[|r|..];
    if |r| > 0 {
      assert r[0] == a[0];
    }
  }

  lemma TrimStartPadded(w: string, t: string)
    requires AllWhitespace(w)
    requires |t| == 0 || !IsWhitespace(t[0])
    ensures TrimStart(w + t) == t
  {
    if |w| > 0 {
      assert (w + t)[1..] == w[1..] + t;
      TrimStartPadded(w[1..], t);
    }
  }

  lemma TrimEndPadded(t: string, w: string)
    requires AllWhitespace(w)
    requires |t| == 0 || !IsWhitespace(t[|t| - 1])
    ensures TrimEnd(t + w) == t
  {
    if |w| > 0 {
      assert (t + w)[..|t + w| - 1] == t + w[..|w| - 1];
      TrimEndPadded(t, w[..|w| - 1]);
    }
  }

  /** Trimming a trimmed string padded with whitespace on both sides gives it back. */
  lemma {:induction false} TrimPadded(w1: string, t: string, w2: string)
    requires AllWhitespace(w1) && AllWhitespace(w2) && IsTrimmed(t)
    ensures Trim(w1 + t + w2) == t
  {
    if |t| == 0 {
      assert w1 + t + w2 == w1 + w2;
      TrimStartPadded(w1 + w2, "");
      assert w1 + w2 + "" == w1 + w2;
      TrimEndPadded("", "");
    } else {
      assert w1 + t + w2 == w1 + (t + w2);
      TrimStartPadded(w1, t + w2);
      TrimEndPadded(t, w2);
    }
  }

  /** `s.split(c)` for a one-character separator. */
  function Split(s: string, c: char): (r: seq<string>)
    ensures |r| >= 1
    ensures forall i :: 0 <= i < |r| ==> c !in r[i]
  {
    if |s| == 0 then [""]
    else if s[0] == c then [""] + Split(s[1..], c)
    else
      var rest := Split(s[1..], c);
      [[s[0]] + rest[0]] + rest[1..]
  }

  /** `parts.join(sep)`. */
  function Join(parts: seq<string>, sep: string): string
  {
    if |parts| == 0 then ""
    else if |parts| == 1 then parts[0]
    else parts[0] + sep + Join(parts[1..], sep)
  }

  lemma {:induction false} SplitNoSeparator(s: string, c: char)
    requires c !in s
    ensures Split(s, c) == [s]
  {
    if |s| > 0 {
      SplitNoSeparator(s[1..], c);
      assert [s[0]] + s[1..] == s;
    }
  }

  /** A separator-free prefix glues onto the first piece. */
  lemma {:induction false} SplitPrefix(a: string, b: string, c: char)
    requires c !in a
    ensures Split(a + b, c) == [a + Split(b, c)[0]] + Split(b, c)[1..]
  {
    if |a| > 0 {
      assert (a + b)[1..] == a[1..] + b;
      SplitPrefix(a[1..], b, c);
      assert [a[0]] + (a[1..] + Split(b, c)[0]) == a + Split(b, c)[0];
    } else {
      assert a + b == b;
      assert a + Split(b, c)[0] == Split(b, c)[0];
      assert [Split(b, c)[0]] + Split(b, c)[1..] == Split(b, c);
    }
  }

  /** A separator-free piece followed by the separator splits off as one piece. */
  lemma {:induction false} SplitAtSeparator(a: string, b: string, c: char)
    requires c !in a
    ensures Split(a + [c] + b, c) == [a] + Split(b, c)
  {
    assert a + [c] + b == a + ([c] + b);
    SplitPrefix(a, [c] + b, c);
    assert ([c] + b)[1..] == b;
    assert Split([c] + b, c) == [""] + Split(b, c);
    assert a + "" == a;
  }

  /** Splitting what `join` produced, when the separator is `c` followed by `pad`, gives
      the first part back and every later part with `pad` in front. */
  lemma {:induction false} SplitJoinPadded(parts: seq<string>, c: char, pad: string)
    requires |parts| >= 1
    requires c !in pad
    requires forall i :: 0 <= i < |parts| ==> c !in parts[i]
    ensures |Split(Join(parts, [c] + pad), c)| == |parts|
    ensures Split(Join(parts, [c] + pad), c)[0] == parts[0]
    ensures forall i :: 1 <= i < |parts| ==> Split(Join(parts, [c] + pad), c)[i] == pad + parts[i]
  {
    var sep := [c] + pad;
    if |parts| == 1 {
      SplitNoSeparator(parts[0], c);
    } else {
      var rest := parts[1..];
      SplitJoinPadded(rest, c, pad);
      var tail := Join(rest, sep);
      assert Join(parts, sep) == parts[0] + [c] + (pad + tail);
      SplitAtSeparator(parts[0], pad + tail, c);
      SplitPrefix(pad, tail, c);
      var r := Split(Join(parts, sep), c);
      assert r == [parts[0]] + ([pad + Split(tail, c)[0]] + Split(tail, c)[1..]);
      forall i | 1 <= i < |parts| ensures r[i] == pad + parts[i] {
        if i > 1 {
          assert r[i] == Split(tail, c)[i - 1];
        }
      }
    }
  }

  /** Joining the pieces of a split with the separator gives the string back. */
  lemma {:induction false} JoinSplit(s: string, c: char)
    ensures Join(Split(s, c), [c]) == s
  {
    if |s| > 0 {
      JoinSplit(s[1..], c);
      var rest := Split(s[1..], c);
      if s[0] == c {
        assert Join([""] + rest, [c]) == "" + [c] + Join(rest, [c]);
        assert s == [c] + s[1..];
      } else {
        var r := [[s[0]] + rest[0]] + rest[1..];
        if |rest| == 1 {
          assert Join(r, [c]) == [s[0]] + rest[0];
          assert Join(rest, [c]) == rest[0];
        } else {
          assert Join(r, [c]) == [s[0]] + rest[0] + [c] + Join(rest[1..], [c]);
          assert Join(rest, [c]) == rest[0] + [c] + Join(rest[1..], [c]);
        }
        assert s == [s[0]] + s[1..];
      }
    }
  }

  /** Whether `pat` occurs in `s` at position `i`. */
  predicate OccursAt(s: string, pat: string, i: nat) {
    i + |pat| <= |s| && s[i..i + |pat|] == pat
  }

  /** `s.indexOf(pat, from)`: the first occurrence at or after `from`, if any. */
  function IndexOfFrom(s: string, pat: string, from: nat): (r: Option<nat>)
    decreases |s| + 1 - from
    ensures r.Some? ==> from <= r.value && OccursAt(s, pat, r.value)
    ensures r.Some? ==> forall j :: from <= j < r.value ==> !OccursAt(s, pat, j)
    ensures r.None? ==> forall j :: from <= j ==> !OccursAt(s, pat, j)
  {
    if from + |pat| > |s| then None
    else if s[from..from + |pat|] == pat then Some(from)
    else IndexOfFrom(s, pat, from + 1)
  }

  /** `s.replace(pat, rep)` with a string pattern: only the first occurrence is replaced. */
  function ReplaceFirst(s: string, pat: string, rep: string): string
  {
    match IndexOfFrom(s, pat, 0)
    case None => s
    case Some(i) => s[..i] + rep + s[i + |pat|..]
  }

  /** Removing a marker the string starts with leaves what follows the marker. */
  lemma RemoveLeadingMarker(s: string, pat: string)
    requires pat <= s
    ensures ReplaceFirst(s, pat, "") == s[|pat|..]
  {
    assert OccursAt(s, pat, 0);
  }

  /** `s.replace(/\n/g, rep)`: every newline replaced by `rep`. */
  function ReplaceNewlines(s: string, rep: string): string
  {
    if |s| == 0 then ""
    else (if s[0] == '\n' then rep else [s[0]]) + ReplaceNewlines(s[1..], rep)
  }

  /** The replacement acts on each character separately, so it distributes over concatenation. */
  lemma {:induction false} ReplaceNewlinesAppend(a: string, b: string, rep: string)
    ensures ReplaceNewlines(a + b, rep) == ReplaceNewlines(a, rep) + ReplaceNewlines(b, rep)
  {
    if |a| > 0 {
      assert (a + b)[1..] == a[1..] + b;
      ReplaceNewlinesAppend(a[1..], b, rep);
    } else {
      assert a + b == b;
    }
  }

  /** With a newline-free replacement no newline survives. */
  lemma {:induction false} ReplaceNewlinesRemovesAll(s: string, rep: string)
    requires '\n' !in rep
    ensures '\n' !in ReplaceNewlines(s, rep)
  {
    if |s| > 0 {
      ReplaceNewlinesRemovesAll(s[1..], rep);
    }
  }

  /** Text without newlines is left as it is. */
  lemma {:induction false} ReplaceNewlinesNoNewline(s: string, rep: string)
    requires '\n' !in s
    ensures ReplaceNewlines(s, rep) == s
  {
    if |s| > 0 {
      ReplaceNewlinesNoNewline(s[1..], rep);
      assert [s[0]] + s[1..] == s;
    }
  }

  predicate IsDigit(c: char) { '0' <= c <= '9' }

  predicate AllDigits(s: string) {
    forall i :: 0 <= i < |s| ==> IsDigit(s[i])
  }

  function DigitChar(d: nat): char
    requires d < 10
  {
    ['0', '1', '2', '3', '4', '5', '6', '7', '8', '9'][d]
  }

  function DigitValue(c: char): nat
    requires IsDigit(c)
  {
    (c as int - '0' as int) as nat
  }

  /** The number a string of decimal digits denotes. */
  function DigitsValue(s: string): nat
    requires AllDigits(s)
  {
    if |s| == 0 then 0 else DigitsValue(s[..|s| - 1]) * 10 + DigitValue(s[|s| - 1])
  }

  /** `n.toString()` for a non-negative integer: its decimal digits, no leading zero. */
  function DecimalString(n: nat): (r: string)
    ensures |r| >= 1 && AllDigits(r)
  {
    if n < 10 then [DigitChar(n)] else DecimalString(n / 10) + [DigitChar(n % 10)]
  }

  /** Reading back the decimal digits of `n` gives `n`. */
  lemma {:induction false} DecimalStringValue(n: nat)
    ensures DigitsValue(DecimalString(n)) == n
  {
    if n >= 10 {
      DecimalStringValue(n / 10);
      var s := DecimalString(n);
      assert s[..|s| - 1] == DecimalString(n / 10);
    }
  }

  /** Distinct timestamps give distinct ids. */
  lemma DecimalStringInjective(m: nat, n: nat)
    requires m != n
    ensures DecimalString(m) != DecimalString(n)
  {
    DecimalStringValue(m);
    DecimalStringValue(n);
  }

  /** JavaScript's string-to-number conversion restricted to integers: surrounding
      whitespace is ignored, the empty string is 0, an optional sign may precede
      decimal digits; anything else is NaN (`None`). */
  function StringToNumber(s: string): Option<int>
  {
    var t := Trim(s);
    if |t| == 0 then Some(0)
    else if AllDigits(t) then Some(DigitsValue(t))
    else if |t| >= 2 && (t[0] == '-' || t[0] == '+') && AllDigits(t[1..]) then
      var v: int := DigitsValue(t[1..]);
      Some(if t[0] == '-' then -v else v)
    else None
  }

  lemma DigitNotWhitespace(c: char)
    requires IsDigit(c)
    ensures !IsWhitespace(c)
  {
  }

  /** `Number(String(n)) === n`. */
  lemma StringToNumberOfDecimal(n: nat)
    ensures StringToNumber(DecimalString(n)) == Some(n)
  {
    var s := DecimalString(n);
    DecimalStringValue(n);
    DigitNotWhitespace(s[0]);
    DigitNotWhitespace(s[|s| - 1]);
    TrimPadded("", s, "");
    assert "" + s + "" == s;
    assert Trim(s) == s;
  }

  /** JavaScript's `<` on two strings: lexicographic order on characters. */
  predicate LexLess(a: string, b: string) {
    if |a| == 0 then |b| > 0
    else if |b| == 0 then false
    else if a[0] != b[0] then a[0] < b[0]
    else LexLess(a[1..], b[1..])
  }

  lemma {:induction false} LexLessIrreflexive(a: string)
    ensures !LexLess(a, a)
  {
    if |a| > 0 {
      LexLessIrreflexive(a[1..]);
    }
  }

  lemma {:induction false} LexLessTransitive(a: string, b: string, c: string)
    requires LexLess(a, b) && LexLess(b, c)
    ensures LexLess(a, c)
  {
    if |a| > 0 && |b| > 0 && |c| > 0 && a[0] == b[0] && b[0] == c[0] {
      LexLessTransitive(a[1..], b[1..], c[1..]);
    }
  }

  /** Any two different strings are ordered one way or the other. */
  lemma {:induction false} LexLessTotal(a: string, b: string)
    requires a != b
    ensures LexLess(a, b) || LexLess(b, a)
  {
    if |a| > 0 && |b| > 0 && a[0] == b[0] {
      assert a == [a[0]] + a[1..] && b == [b[0]] + b[1..];
      LexLessTotal(a[1..], b[1..]);
    }
  }
}
