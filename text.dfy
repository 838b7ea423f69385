// The pieces of Go's string handling the back end relies on: byte-wise
// string order, strings.Split on a one-character separator, decimal
// formatting with fmt's "%0Nd" verb and strconv.Atoi.
//
// Strings are sequences of Unicode scalar values; comparing them code point
// by code point orders them exactly as Go orders their UTF-8 bytes.
module Text {
  import opened Common

  // ---------------------------------------------------------------------
  // strings.Index and strings.Split with a one-character separator
  // ---------------------------------------------------------------------

  /** Position of the first occurrence of `c` in `s`. */
  function IndexOf(s: string, c: char): (i: nat)
    requires c in s
    ensures i < |s| && s[i] == c
    ensures forall j :: 0 <= j < i ==> s[j] != c
  {
    if s[0] == c then 0 else IndexOf(s[1..], c) + 1
  }

  /** strings.Split(s, string(sep)): every occurrence of `sep` cuts `s`. */
  function Split(s: string, sep: char): (parts: seq<string>)
    ensures |parts| >= 1
    decreases |s|
  {
    if sep !in s then [s]
    else
      var i := IndexOf(s, sep);
      [s[..i]] + Split(s[i + 1..], sep)
  }

  /** strings.Join(parts, string(sep)). */
  function Join(parts: seq<string>, sep: char): string
    requires |parts| >= 1
  {
    if |parts| == 1 then parts[0] else parts[0] + [sep] + Join(parts[1..], sep)
  }

  /** Splitting loses nothing: joining the parts back gives the string, and no part holds the separator. */
  lemma {:induction false} SplitJoin(s: string, sep: char)
    ensures Join(Split(s, sep), sep) == s
    ensures forall k :: 0 <= k < |Split(s, sep)| ==> sep !in Split(s, sep)[k]
    decreases |s|
  {
    if sep in s {
      var i := IndexOf(s, sep);
      SplitJoin(s[i + 1..], sep);
      var rest := Split(s[i + 1..], sep);
      assert Split(s, sep) == [s[..i]] + rest;
      assert Split(s, sep)[1..] == rest;
      assert s == s[..i] + [sep] + s[i + 1..];
    }
  }

  lemma IndexOfAfterFreePrefix(p: string, sep: char, t: string)
    requires sep !in p
    ensures sep in p + [sep] + t
    ensures IndexOf(p + [sep] + t, sep) == |p|
  {
    var s := p + [sep] + t;
    assert s[|p|] == sep;
    assert forall j :: 0 <= j < |p| ==> s[j] == p[j];
  }

  /** Splitting at a first separator: the piece before it, then the pieces of the rest. */
  lemma SplitAtFirst(p: string, sep: char, t: string)
    requires sep !in p
    ensures Split(p + [sep] + t, sep) == [p] + Split(t, sep)
  {
    var s := p + [sep] + t;
    IndexOfAfterFreePrefix(p, sep, t);
    assert s[..|p|] == p;
    assert s[|p| + 1..] == t;
  }

  /** Joining separator-free parts and splitting again gives the parts back. */
  lemma {:induction false} JoinSplit(parts: seq<string>, sep: char)
    requires |parts| >= 1
    requires forall k :: 0 <= k < |parts| ==> sep !in parts[k]
    ensures Split(Join(parts, sep), sep) == parts
  {
    if |parts| > 1 {
      var rest := Join(parts[1..], sep);
      JoinSplit(parts[1..], sep);
      assert Join(parts, sep) == parts[0] + [sep] + rest;
      SplitAtFirst(parts[0], sep, rest);
      assert parts == [parts[0]] + parts[1..];
    }
  }

  // ---------------------------------------------------------------------
  // Go's `<` on strings
  // ---------------------------------------------------------------------

  /** Go's `a < b`: lexicographic, a proper prefix sorts first. */
  predicate StrLess(a: string, b: string)
    decreases |a|
  {
    if |a| == 0 then |b| > 0
    else if |b| == 0 then false
    else if a[0] != b[0] then a[0] < b[0]
    else StrLess(a[1..], b[1..])
  }

  lemma {:induction false} StrLessIrreflexive(a: string)
    ensures !StrLess(a, a)
    decreases |a|
  {
    if |a| > 0 {
      StrLessIrreflexive(a[1..]);
    }
  }

  /** Two different strings are ordered one way and not the other. */
  lemma {:induction false} StrLessTrichotomy(a: string, b: string)
    ensures a == b || StrLess(a, b) || StrLess(b, a)
    ensures !(StrLess(a, b) && StrLess(b, a))
    decreases |a|
  {
    if |a| > 0 && |b| > 0 && a[0] == b[0] {
      StrLessTrichotomy(a[1..], b[1..]);
      if a[1..] == b[1..] {
        assert a == [a[0]] + a[1..] && b == [b[0]] + b[1..];
      }
    }
  }

  /** Order of concatenations whose first halves have the same length. */
  lemma {:induction false} StrLessConcat(x: string, y: string, x': string, y': string)
    requires |x| == |x'|
    ensures StrLess(x + y, x' + y') <==> StrLess(x, x') || (x == x' && StrLess(y, y'))
    decreases |x|
  {
    if |x| == 0 {
      assert x + y == y && x' + y' == y';
      assert !StrLess(x, x');
    } else {
      assert (x + y)[0] == x[0] && (x' + y')[0] == x'[0];
      assert (x + y)[1..] == x[1..] + y && (x' + y')[1..] == x'[1..] + y';
      StrLessConcat(x[1..], y, x'[1..], y');
      if x[0] == x'[0] {
        assert x == x' <==> x[1..] == x'[1..] by {
          assert x == [x[0]] + x[1..] && x' == [x'[0]] + x'[1..];
        }
      }
    }
  }

  // ---------------------------------------------------------------------
  // Decimal digits
  // ---------------------------------------------------------------------

  predicate IsDigit(c: char) { '0' <= c <= '9' }

  predicate AllDigits(s: string) { forall i :: 0 <= i < |s| ==> IsDigit(s[i]) }

  function DigitValue(c: char): (d: nat)
    requires IsDigit(c)
    ensures d < 10
  {
    (c as int) - ('0' as int)
  }

  function DigitChar(d: nat): (c: char)
    requires d < 10
    ensures IsDigit(c) && DigitValue(c) == d
  {
    (('0' as int) + d) as char
  }

  /** The number a string of decimal digits denotes; leading zeros allowed. */
  function DigitsValue(s: string): nat
    requires AllDigits(s)
  {
    if s == [] then 0 else DigitsValue(s[..|s| - 1]) * 10 + DigitValue(s[|s| - 1])
  }

  /** Decimal rendering of a natural number, as strconv.Itoa / fmt "%d" print it. */
  function NatToString(n: nat): (s: string)
    ensures |s| >= 1 && AllDigits(s)
    ensures DigitsValue(s) == n
  {
    if n < 10 then [DigitChar(n)]
    else
      var p := NatToString(n / 10);
      var s := p + [DigitChar(n % 10)];
      assert s[..|s| - 1] == p;
      s
  }

  function Pow10(k: nat): (p: nat)
    ensures p >= 1
  {
    if k == 0 then 1 else 10 * Pow10(k - 1)
  }

  /** A number below 10^k needs at most k digits. */
  lemma {:induction false} NatToStringLength(n: nat, k: nat)
    requires 1 <= k && n < Pow10(k)
    ensures |NatToString(n)| <= k
  {
    if n >= 10 {
      NatToStringLength(n / 10, k - 1);
    }
  }

  function Zeros(k: nat): (z: string)
    ensures |z| == k && forall i :: 0 <= i < k ==> z[i] == '0'
  {
    seq(k, _ => '0')
  }

  function PadLeft(s: string, w: nat): (r: string)
    ensures |r| == if |s| >= w then |s| else w
  {
    if |s| >= w then s else Zeros(w - |s|) + s
  }

  lemma {:induction false} LeadingZerosValue(k: nat, s: string)
    requires AllDigits(s)
    ensures AllDigits(Zeros(k) + s)
    ensures DigitsValue(Zeros(k) + s) == DigitsValue(s)
    decreases |s| + k
  {
    var t := Zeros(k) + s;
    if s == [] {
      assert t == Zeros(k);
      if k > 0 {
        assert t[..|t| - 1] == Zeros(k - 1) + [];
        LeadingZerosValue(k - 1, []);
      }
    } else {
      assert t[..|t| - 1] == Zeros(k) + s[..|s| - 1];
      LeadingZerosValue(k, s[..|s| - 1]);
    }
  }

  /** fmt.Sprintf("%0<w>d", i): zero padding to width w, after the sign. */
  function FormatInt(i: int, w: nat): string
  {
    if i < 0 then "-" + PadLeft(NatToString(-i), if w > 0 then w - 1 else 0)
    else PadLeft(NatToString(i), w)
  }

  lemma PaddedDigits(n: nat, w: nat)
    ensures AllDigits(PadLeft(NatToString(n), w))
    ensures DigitsValue(PadLeft(NatToString(n), w)) == n
  {
    var s := NatToString(n);
    if |s| < w {
      LeadingZerosValue(w - |s|, s);
    }
  }

  /** A non-negative number printed with "%0<w>d" is exactly w digits wide when it fits. */
  lemma FormatIntWidth(n: nat, w: nat)
    requires 1 <= w && n < Pow10(w)
    ensures |FormatInt(n, w)| == w && AllDigits(FormatInt(n, w))
  {
    NatToStringLength(n, w);
    PaddedDigits(n, w);
  }

  // ---------------------------------------------------------------------
  // strconv.Atoi
  // ---------------------------------------------------------------------

  /**
   * strconv.Atoi: an optional sign and at least one decimal digit, nothing
   * else; None is the syntax error.
   */
  function Atoi(s: string): Option<int>
  {
    if |s| > 0 && (s[0] == '-' || s[0] == '+') then
      var t := s[1..];
      if |t| > 0 && AllDigits(t) then
        var v: int := DigitsValue(t);
        Some(if s[0] == '-' then -v else v)
      else None
    else if |s| > 0 && AllDigits(s) then Some(DigitsValue(s))
    else None
  }

  /** `n, _ := strconv.Atoi(s)`: the error is dropped and the value is 0. */
  function AtoiOrZero(s: string): int
  {
    match Atoi(s)
    case Some(v) => v
    case None => 0
  }

  /** Reading back what "%0<w>d" printed gives the number: formatting is invertible. */
  lemma FormatIntRoundTrip(i: int, w: nat)
    ensures Atoi(FormatInt(i, w)) == Some(i)
  {
    if i < 0 {
      var w' := if w > 0 then w - 1 else 0;
      var t := PadLeft(NatToString(-i), w');
      PaddedDigits(-i, w');
      AtoiNegative(t);
      assert 0 - DigitsValue(t) == i;
    } else {
      PaddedDigits(i, w);
      AtoiDigits(PadLeft(NatToString(i), w));
    }
  }

  lemma AtoiDigits(t: string)
    requires |t| > 0 && AllDigits(t)
    ensures Atoi(t) == Some(DigitsValue(t))
  {
    assert IsDigit(t[0]);
  }

  lemma AtoiNegative(t: string)
    requires |t| > 0 && AllDigits(t)
    ensures Atoi("-" + t) == Some(0 - DigitsValue(t))
  {
    assert ("-" + t)[1..] == t;
  }

  lemma FormatIntInjective(a: int, b: int, w: nat)
    requires FormatInt(a, w) == FormatInt(b, w)
    ensures a == b
  {
    FormatIntRoundTrip(a, w);
    FormatIntRoundTrip(b, w);
  }

  /** Equal-length digit strings are ordered as strings exactly as their values are. */
  lemma {:induction false} DigitsOrder(a: string, b: string)
    requires AllDigits(a) && AllDigits(b) && |a| == |b|
    ensures StrLess(a, b) <==> DigitsValue(a) < DigitsValue(b)
    ensures a == b <==> DigitsValue(a) == DigitsValue(b)
    decreases |a|
  {
    if |a| > 0 {
      var a', b' := a[..|a| - 1], b[..|b| - 1];
      var c, d := a[|a| - 1], b[|b| - 1];
      assert a == a' + [c] && b == b' + [d];
      DigitsOrder(a', b');
      StrLessConcat(a', [c], b', [d]);
      assert StrLess([c], [d]) <==> c < d by {
        assert [c][1..] == [] && [d][1..] == [];
      }
      assert c < d <==> DigitValue(c) < DigitValue(d);
    }
  }

  // ---------------------------------------------------------------------
  // Go's len() on a string: its UTF-8 byte count
  // ---------------------------------------------------------------------

  function Utf8Width(c: char): nat
  {
    if c as int < 0x80 then 1
    else if c as int < 0x800 then 2
    else if c as int < 0x10000 then 3
    else 4
  }

  /** Go's `len(s)`: the number of bytes of the UTF-8 encoding of `s`. */
  function Utf8Length(s: string): (n: nat)
    ensures |s| <= n <= 4 * |s|
    ensures (forall i :: 0 <= i < |s| ==> s[i] as int < 0x80) ==> n == |s|
  {
    if s == [] then 0 else Utf8Width(s[0]) + Utf8Length(s[1..])
  }
}
