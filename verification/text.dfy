/** Character classes and the handful of Python `str` operations the package
    relies on: `strip()`, `lower()`, `endswith`, `in` (substring), `split`,
    `int()` and `str()` of an integer. */
module Text {
  import opened Wrappers

  predicate IsDigit(c: char) { '0' <= c <= '9' }

  predicate IsLetter(c: char) { 'a' <= c <= 'z' || 'A' <= c <= 'Z' }

  /** The regex class `[a-zA-Z0-9]`. */
  predicate IsAlnum(c: char) { IsDigit(c) || IsLetter(c) }

  predicate AllDigits(s: string) { forall i :: 0 <= i < |s| ==> IsDigit(s[i]) }

  /** The characters for which Python's `str.isspace()` holds; `str.strip()`
      with no argument removes exactly these. */
  predicate IsSpace(c: char) {
    || '\t' <= c <= '\r'
    || '\U{1C}' <= c <= '\U{1F}'
    || c == ' ' || c == '\U{85}' || c == '\U{A0}' || c == '\U{1680}'
    || '\U{2000}' <= c <= '\U{200A}'
    || c == '\U{2028}' || c == '\U{2029}' || c == '\U{202F}' || c == '\U{205F}' || c == '\U{3000}'
  }

  /** `s.lstrip()` */
  function StripLeft(s: string): (r: string)
    ensures |r| <= |s| && r == s[|s| - |r|..]
    ensures forall i :: 0 <= i < |s| - |r| ==> IsSpace(s[i])
    ensures |r| > 0 ==> !IsSpace(r[0])
    decreases |s|
  {
    if |s| > 0 && IsSpace(s[0]) then StripLeft(s[1..]) else s
  }

  /** `s.rstrip()` */
  function StripRight(s: string): (r: string)
    ensures |r| <= |s| && r == s[..|r|]
    ensures forall i :: |r| <= i < |s| ==> IsSpace(s[i])
    ensures |r| > 0 ==> !IsSpace(r[|r| - 1])
    decreases |s|
  {
    if |s| > 0 && IsSpace(s[|s| - 1]) then StripRight(s[..|s| - 1]) else s
  }

  /** `s.strip()`: the longest middle part with no surrounding white space. */
  function Strip(s: string): (r: string)
    ensures |r| <= |s|
    ensures |r| > 0 ==> !IsSpace(r[0]) && !IsSpace(r[|r| - 1])
    ensures forall i :: 0 <= i < |s| && !IsSpace(s[i]) ==> |r| > 0
  {
    var l := StripLeft(s);
    var r := StripRight(l);
    assert forall i :: 0 <= i < |s| && !IsSpace(s[i]) ==> |r| > 0 by {
      forall i | 0 <= i < |s| && !IsSpace(s[i]) ensures |r| > 0 {
        var j := i - (|s| - |l|);
        assert 0 <= j < |l| && l[j] == s[i];
        assert j < |r|;
      }
    }
    r
  }

  /** Every character of `t` is white space. */
  predicate AllSpace(t: string) { forall i :: 0 <= i < |t| ==> IsSpace(t[i]) }

  /** `s` is white space, then `s.strip()`, then white space. With `Strip`'s
      contract (no white space at either end of the result) this pins the
      result. */
  lemma StripSlice(s: string)
    ensures var r := Strip(s);
            var a := |s| - |StripLeft(s)|;
            && a + |r| <= |s| && s == s[..a] + r + s[a + |r|..]
            && AllSpace(s[..a]) && AllSpace(s[a + |r|..])
  {
    var l := StripLeft(s);
    var r := Strip(s);
    assert r == StripRight(l);
    var a := |s| - |l|;
    Decompose(s, l, r, IsSpace);
    var lead, trail := s[..a], s[a + |r|..];
    forall i | 0 <= i < |lead| ensures IsSpace(lead[i]) {
      assert lead[i] == s[i];
    }
    forall i | 0 <= i < |trail| ensures IsSpace(trail[i]) {
      assert trail[i] == s[a + |r| + i];
    }
  }

  /** A prefix `r` of a suffix `l` of `s` cuts `s` into three parts; what
      follows `r` in `l` is the third. */
  lemma Decompose(s: string, l: string, r: string, p: char -> bool)
    requires |l| <= |s| && l == s[|s| - |l|..]
    requires |r| <= |l| && r == l[..|r|]
    requires forall i :: |r| <= i < |l| ==> p(l[i])
    ensures var a := |s| - |l|;
            && s == s[..a] + r + s[a + |r|..]
            && forall i :: a + |r| <= i < |s| ==> p(s[i])
  {
    var a := |s| - |l|;
    forall i | a + |r| <= i < |s| ensures p(s[i]) {
      assert s[i] == l[i - a];
    }
    assert s == s[..a] + l;
    assert l == r + l[|r|..];
  }

  /** Stripping a string with no white space at either end changes nothing. */
  lemma StripClean(s: string)
    requires |s| > 0 ==> !IsSpace(s[0]) && !IsSpace(s[|s| - 1])
    ensures Strip(s) == s
  {
    assert StripLeft(s) == s;
  }

  /** `s.strip().strip() == s.strip()` */
  lemma StripIdempotent(s: string)
    ensures Strip(Strip(s)) == Strip(s)
  {
    StripClean(Strip(s));
  }

  lemma StripNoSpace(s: string)
    requires forall i :: 0 <= i < |s| ==> !IsSpace(s[i])
    ensures Strip(s) == s
  {
  }

  function LowerChar(c: char): char {
    if 'A' <= c <= 'Z' then (c as int + 32) as char else c
  }

  /** `s.lower()` restricted to ASCII letters; every other character is kept. */
  function Lower(s: string): (r: string)
    ensures |r| == |s|
    ensures forall i :: 0 <= i < |s| ==> r[i] == LowerChar(s[i])
  {
    seq(|s|, i requires 0 <= i < |s| => LowerChar(s[i]))
  }

  /** Lower-casing neither makes nor removes white space, so it commutes
      with stripping: `s.lower().strip() == s.strip().lower()`. */
  lemma {:induction false} StripLower(s: string)
    ensures Strip(Lower(s)) == Lower(Strip(s))
  {
    StripLeftLower(s);
    StripRightLower(StripLeft(s));
  }

  lemma {:induction false} StripLeftLower(s: string)
    ensures StripLeft(Lower(s)) == Lower(StripLeft(s))
    decreases |s|
  {
    if |s| > 0 {
      var t := Lower(s);
      assert IsSpace(t[0]) == IsSpace(s[0]);
      if IsSpace(s[0]) {
        assert t[1..] == Lower(s[1..]);
        StripLeftLower(s[1..]);
      }
    }
  }

  lemma {:induction false} StripRightLower(s: string)
    ensures StripRight(Lower(s)) == Lower(StripRight(s))
    decreases |s|
  {
    if |s| > 0 {
      var t := Lower(s);
      var n := |s| - 1;
      assert IsSpace(t[n]) == IsSpace(s[n]);
      if IsSpace(s[n]) {
        assert t[..n] == Lower(s[..n]);
        assert StripRight(t) == StripRight(t[..n]);
        assert StripRight(s) == StripRight(s[..n]);
        StripRightLower(s[..n]);
      }
    }
  }

  function UpperChar(c: char): char {
    if 'a' <= c <= 'z' then (c as int - 32) as char else c
  }

  /** `s.upper()` restricted to ASCII letters. */
  function Upper(s: string): (r: string)
    ensures |r| == |s|
    ensures forall i :: 0 <= i < |s| ==> r[i] == UpperChar(s[i])
  {
    seq(|s|, i requires 0 <= i < |s| => UpperChar(s[i]))
  }

  predicate StartsWith(s: string, p: string) { |p| <= |s| && s[..|p|] == p }

  predicate EndsWith(s: string, q: string) { |q| <= |s| && s[|s| - |q|..] == q }

  /** Python's `k in t` for two strings. */
  function IsSubstring(k: string, t: string): bool
    decreases |t|
  {
    StartsWith(t, k) || (|t| > 0 && IsSubstring(k, t[1..]))
  }

  lemma {:induction false} SubstringOfConcat(a: string, k: string, b: string)
    ensures IsSubstring(k, a + k + b)
    decreases |a|
  {
    if |a| == 0 {
      assert a + k + b == k + b;
      assert (k + b)[..|k|] == k;
    } else {
      assert (a + k + b)[1..] == a[1..] + k + b;
      SubstringOfConcat(a[1..], k, b);
    }
  }

  /** A substring of `b` is a substring of `p + b`. */
  lemma {:induction false} SubstringShift(k: string, p: string, b: string)
    requires IsSubstring(k, b)
    ensures IsSubstring(k, p + b)
    decreases |p|
  {
    if |p| > 0 {
      assert (p + b)[1..] == p[1..] + b;
      SubstringShift(k, p[1..], b);
    } else {
      assert p + b == b;
    }
  }

  /** A substring of `b` is a substring of `b + c`. */
  lemma {:induction false} SubstringExtend(k: string, b: string, c: string)
    requires IsSubstring(k, b)
    ensures IsSubstring(k, b + c)
    decreases |b|
  {
    if StartsWith(b, k) {
      assert (b + c)[..|k|] == b[..|k|];
    } else {
      assert (b + c)[1..] == b[1..] + c;
      SubstringExtend(k, b[1..], c);
    }
  }

  /** Some two adjacent characters of `t` are `x` then `y`. */
  predicate HasBigram(t: string, x: char, y: char) {
    exists j :: 0 <= j < |t| - 1 && t[j] == x && t[j + 1] == y
  }

  lemma {:induction false} SubstringHasBigrams(k: string, t: string, j: int)
    requires IsSubstring(k, t)
    requires 0 <= j < |k| - 1
    ensures HasBigram(t, k[j], k[j + 1])
    decreases |t|
  {
    if StartsWith(t, k) {
      assert t[j] == k[j] && t[j + 1] == k[j + 1];
    } else {
      SubstringHasBigrams(k, t[1..], j);
      var i :| 0 <= i < |t[1..]| - 1 && t[1..][i] == k[j] && t[1..][i + 1] == k[j + 1];
      assert t[i + 1] == k[j] && t[i + 2] == k[j + 1];
    }
  }

  lemma BigramOfConcat(a: string, b: string, x: char, y: char)
    requires HasBigram(a + b, x, y)
    ensures || HasBigram(a, x, y)
            || HasBigram(b, x, y)
            || (|a| > 0 && |b| > 0 && a[|a| - 1] == x && b[0] == y)
  {
    var j :| 0 <= j < |a + b| - 1 && (a + b)[j] == x && (a + b)[j + 1] == y;
    if j + 1 < |a| {
      assert a[j] == x && a[j + 1] == y;
    } else if j >= |a| {
      assert b[j - |a|] == x && b[j - |a| + 1] == y;
    }
  }

  /** `sep.join(parts)`, the inverse of `split`. */
  function Join(parts: seq<string>, sep: char): string
    requires |parts| >= 1
    decreases |parts|
  {
    if |parts| == 1 then parts[0] else parts[0] + [sep] + Join(parts[1..], sep)
  }

  /** Joining after extending the first piece by one character at the front
      extends the joined text by that character. */
  lemma JoinExtendFirst(c: char, parts: seq<string>, sep: char)
    requires |parts| >= 1
    ensures Join([[c] + parts[0]] + parts[1..], sep) == [c] + Join(parts, sep)
  {
    var q := [[c] + parts[0]] + parts[1..];
    if |parts| > 1 {
      assert q[1..] == parts[1..];
    }
  }

  /** Python's `s.split(sep)`: the pieces between occurrences of `sep`. */
  function Split(s: string, sep: char): (parts: seq<string>)
    ensures |parts| >= 1
    decreases |s|
  {
    if |s| == 0 then [""]
    else
      var rest := Split(s[1..], sep);
      if s[0] == sep then [""] + rest else [[s[0]] + rest[0]] + rest[1..]
  }

  /** Joining the pieces with the separator gives the text back. */
  lemma {:induction false} JoinSplit(s: string, sep: char)
    ensures Join(Split(s, sep), sep) == s
    decreases |s|
  {
    if |s| > 0 {
      var rest := Split(s[1..], sep);
      JoinSplit(s[1..], sep);
      if s[0] == sep {
        assert ([""] + rest)[1..] == rest;
      } else {
        JoinExtendFirst(s[0], rest, sep);
      }
      assert [s[0]] + s[1..] == s;
    }
  }

  /** There is one more piece than there are separators. */
  lemma {:induction false} SplitCount(s: string, sep: char)
    ensures |Split(s, sep)| == multiset(s)[sep] + 1
    decreases |s|
  {
    if |s| > 0 {
      SplitCount(s[1..], sep);
      assert s == [s[0]] + s[1..];
    }
  }

  /** Splitting at a first separator splits off the text before it. */
  lemma {:induction false} SplitFirst(a: string, b: string, sep: char)
    requires sep !in a
    ensures Split(a + [sep] + b, sep) == [a] + Split(b, sep)
    decreases |a|
  {
    var s := a + [sep] + b;
    if |a| == 0 {
      assert s[1..] == b;
    } else {
      assert s[1..] == a[1..] + [sep] + b;
      SplitFirst(a[1..], b, sep);
      assert [a[0]] + a[1..] == a;
    }
  }

  /** Pieces free of the separator are what splitting their join gives
      back: with `Split`'s own contract, `split` and `join` are inverse. */
  lemma {:induction false} SplitJoin(parts: seq<string>, sep: char)
    requires |parts| >= 1
    requires forall k :: 0 <= k < |parts| ==> sep !in parts[k]
    ensures Split(Join(parts, sep), sep) == parts
    decreases |parts|
  {
    if |parts| == 1 {
      SplitNoSeparator(parts[0], sep);
    } else {
      SplitJoin(parts[1..], sep);
      SplitFirst(parts[0], Join(parts[1..], sep), sep);
      assert [parts[0]] + parts[1..] == parts;
    }
  }

  /** Every character of `s` is the separator or lies in one of the pieces. */
  lemma {:induction false} SplitCovers(s: string, sep: char, i: int)
    requires 0 <= i < |s|
    ensures s[i] == sep || exists p :: p in Split(s, sep) && s[i] in p
    decreases |s|
  {
    var rest := Split(s[1..], sep);
    if i == 0 {
      if s[0] != sep {
        assert s[0] in Split(s, sep)[0];
      }
    } else {
      SplitCovers(s[1..], sep, i - 1);
      if s[i] != sep {
        var p :| p in rest && s[1..][i - 1] in p;
        if s[0] != sep && p == rest[0] {
          assert s[i] in Split(s, sep)[0];
        } else {
          assert p in Split(s, sep);
        }
      }
    }
  }

  /** No piece contains the separator. */
  lemma {:induction false} SplitPiecesFree(s: string, sep: char)
    ensures forall p :: p in Split(s, sep) ==> sep !in p
    decreases |s|
  {
    if |s| > 0 {
      SplitPiecesFree(s[1..], sep);
    }
  }

  function DigitValue(c: char): nat { if IsDigit(c) then c as int - '0' as int else 0 }

  function DigitChar(d: nat): char
    requires d < 10
  {
    ('0' as int + d) as char
  }

  /** The number a run of decimal digits denotes (Python's `int()` on it). */
  function DecimalValue(s: string): nat
    decreases |s|
  {
    if |s| == 0 then 0 else DecimalValue(s[..|s| - 1]) * 10 + DigitValue(s[|s| - 1])
  }

  /** `str(n)` for a natural number. */
  function NatToDecimal(n: nat): string
    decreases n
  {
    if n < 10 then [DigitChar(n)] else NatToDecimal(n / 10) + [DigitChar(n % 10)]
  }

  lemma {:induction false} DecimalRoundTrip(n: nat)
    ensures |NatToDecimal(n)| >= 1 && AllDigits(NatToDecimal(n))
    ensures DecimalValue(NatToDecimal(n)) == n
    ensures n < 10 ==> |NatToDecimal(n)| == 1
    ensures n < 100 ==> |NatToDecimal(n)| <= 2
    ensures n < 1000 ==> |NatToDecimal(n)| <= 3
    ensures n < 10000 ==> |NatToDecimal(n)| <= 4
    ensures n < 100000 ==> |NatToDecimal(n)| <= 5
    decreases n
  {
    if n >= 10 {
      DecimalRoundTrip(n / 10);
      var s := NatToDecimal(n);
      assert s[..|s| - 1] == NatToDecimal(n / 10);
    }
  }

  /** `str(i)` for an integer. */
  function IntToDecimal(i: int): string {
    if i < 0 then "-" + NatToDecimal(-i) else NatToDecimal(i)
  }

  /** Digits with single underscores between them, as `int()` accepts. */
  function UnderscoredDigits(s: string): Option<nat> {
    var groups := Split(s, '_');
    if DigitGroups(groups) then Some(DecimalValue(Flatten(groups))) else None
  }

  predicate DigitGroups(gs: seq<string>) {
    forall i :: 0 <= i < |gs| ==> |gs[i]| > 0 && AllDigits(gs[i])
  }

  function Flatten(gs: seq<string>): string {
    if |gs| == 0 then "" else gs[0] + Flatten(gs[1..])
  }

  /** Python's `int(s)` for a `str` argument (decimal, ASCII digits);
      `None` stands for the `ValueError` it raises. */
  function PyInt(s: string): (r: Option<int>)
    ensures r.Some? ==> |Strip(s)| > 0
    ensures r.Some? && r.value < 0 ==> Strip(s)[0] == '-'
  {
    var t := Strip(s);
    if |t| > 0 && (t[0] == '+' || t[0] == '-') then
      match UnderscoredDigits(t[1..])
      case None => None
      case Some(v) => var n: int := v; Some(if t[0] == '-' then -n else n)
    else
      UnderscoredDigits(t)
  }

  lemma {:induction false} SplitNoSeparator(s: string, sep: char)
    requires sep !in s
    ensures Split(s, sep) == [s]
    decreases |s|
  {
    if |s| > 0 {
      SplitNoSeparator(s[1..], sep);
      assert [s[0]] + s[1..] == s;
    }
  }

  lemma SingleDigitGroup(d: string)
    requires |d| >= 1 && AllDigits(d)
    ensures DigitGroups([d]) && Flatten([d]) == d
  {
    assert [d][0] == d;
    assert [d][1..] == [];
  }

  lemma NoUnderscoreInDigits(d: string)
    requires AllDigits(d)
    ensures '_' !in d
  {
  }

  lemma UnderscoredOfDigits(d: string)
    requires |d| >= 1 && AllDigits(d)
    ensures UnderscoredDigits(d) == Some(DecimalValue(d))
  {
    NoUnderscoreInDigits(d);
    SplitNoSeparator(d, '_');
    SingleDigitGroup(d);
  }

  lemma DigitsHaveNoSpace(d: string)
    requires AllDigits(d)
    ensures Strip(d) == d
  {
    assert forall k :: 0 <= k < |d| ==> !IsSpace(d[k]) by {
      forall k | 0 <= k < |d| ensures !IsSpace(d[k]) {
        assert IsDigit(d[k]);
      }
    }
    StripNoSpace(d);
  }

  lemma SignedDigitsHaveNoSpace(d: string)
    requires AllDigits(d)
    ensures Strip("-" + d) == "-" + d
  {
    var s := "-" + d;
    assert forall k :: 0 <= k < |s| ==> !IsSpace(s[k]) by {
      forall k | 0 <= k < |s| ensures !IsSpace(s[k]) {
        if k > 0 {
          assert s[k] == d[k - 1];
          assert IsDigit(d[k - 1]);
        }
      }
    }
    StripNoSpace(s);
  }

  lemma PyIntOfDigits(d: string)
    requires |d| >= 1 && AllDigits(d)
    ensures PyInt(d) == Some(DecimalValue(d))
  {
    UnderscoredOfDigits(d);
    DigitsHaveNoSpace(d);
    assert IsDigit(d[0]);
  }

  lemma PyIntOfSignedDigits(d: string, s: string)
    requires |d| >= 1 && AllDigits(d)
    requires s == "-" + d
    ensures PyInt(s) == Some(-(DecimalValue(d) as int))
  {
    assert s[1..] == d;
    UnderscoredOfDigits(d);
    SignedDigitsHaveNoSpace(d);
    NegatedDigits(s, DecimalValue(d));
  }

  lemma NegatedDigits(s: string, v: nat)
    requires |s| >= 2 && s[0] == '-'
    requires Strip(s) == s
    requires UnderscoredDigits(s[1..]) == Some(v)
    ensures PyInt(s) == Some(-(v as int))
  {
  }

  /** `int(str(i)) == i`: the integer parser inverts the printer. */
  lemma PyIntRoundTrip(i: int)
    ensures PyInt(IntToDecimal(i)) == Some(i)
  {
    var n: nat := if i < 0 then -i else i;
    DecimalRoundTrip(n);
    if i < 0 {
      PyIntOfSignedDigits(NatToDecimal(n), IntToDecimal(i));
    } else {
      PyIntOfDigits(NatToDecimal(n));
    }
  }
}
