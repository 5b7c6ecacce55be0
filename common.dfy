/** Value types and string helpers shared by the workflow modules: Python's
    `dict.get`, decimal rendering and parsing of numbers, `str.strip()`, and
    the ordering Python uses when it compares two strings. */
module Common {

  datatype Option<T> = None | Some(value: T) {
    /** The value, or `default` when absent. */
    function GetOr(default: T): T {
      match this
      case Some(v) => v
      case None => default
    }
  }

  /** Python's `d.get(key, default)`. */
  function Get<K, V>(d: map<K, V>, key: K, default: V): V {
    if key in d then d[key] else default
  }

  // ----- decimal digits -----

  predicate IsDigit(c: char) {
    '0' <= c <= '9'
  }

  predicate AllDigits(s: string) {
    forall i :: 0 <= i < |s| ==> IsDigit(s[i])
  }

  function DigitChar(d: nat): (c: char)
    requires d < 10
    ensures IsDigit(c) && c as int - '0' as int == d
  {
    (('0' as int) + d) as char
  }

  function DigitValue(c: char): (d: nat)
    requires IsDigit(c)
    ensures d < 10
  {
    c as int - '0' as int
  }

  function Pow10(k: nat): (p: nat)
    ensures p >= 1
  {
    if k == 0 then 1 else 10 * Pow10(k - 1)
  }

  /** Python's `str(n)` for a natural number: decimal digits, no leading zero. */
  function NatToDecimal(n: nat): (s: string)
    ensures |s| >= 1 && AllDigits(s)
    ensures |s| == 1 || s[0] != '0'
    ensures n < 10 ==> |s| == 1
    ensures 10 <= n < 100 ==> |s| == 2
    ensures 100 <= n < 1000 ==> |s| == 3
    ensures 1000 <= n ==> |s| >= 4
    decreases n
  {
    if n < 10 then [DigitChar(n)] else NatToDecimal(n / 10) + [DigitChar(n % 10)]
  }

  /** Python's `str(i)` for any integer. */
  function IntToDecimal(i: int): (s: string)
    ensures |s| >= 1
    ensures i >= 0 ==> AllDigits(s)
    ensures i < 0 ==> s[0] == '-' && AllDigits(s[1..])
  {
    if i < 0 then "-" + NatToDecimal(-i) else NatToDecimal(i)
  }

  /** The value of a string of decimal digits (leading zeros allowed). */
  function ParseDecimal(s: string): nat
    requires AllDigits(s)
  {
    if s == [] then 0 else ParseDecimal(s[..|s| - 1]) * 10 + DigitValue(s[|s| - 1])
  }

  lemma {:induction false} ParseNatToDecimal(n: nat)
    ensures ParseDecimal(NatToDecimal(n)) == n
    decreases n
  {
    if n >= 10 {
      var s := NatToDecimal(n);
      assert s[..|s| - 1] == NatToDecimal(n / 10);
      ParseNatToDecimal(n / 10);
    }
  }

  /** `k` zero digits. */
  function Zeros(k: nat): (z: string)
    ensures |z| == k && AllDigits(z)
    ensures forall i :: 0 <= i < k ==> z[i] == '0'
  {
    if k == 0 then "" else Zeros(k - 1) + "0"
  }

  lemma {:induction false} ParseAppend(a: string, b: string)
    requires AllDigits(a) && AllDigits(b)
    ensures AllDigits(a + b)
    ensures ParseDecimal(a + b) == ParseDecimal(a) * Pow10(|b|) + ParseDecimal(b)
    decreases |b|
  {
    if b != [] {
      var b' := b[..|b| - 1];
      var d := DigitValue(b[|b| - 1]);
      assert (a + b)[..|a + b| - 1] == a + b';
      assert (a + b)[|a + b| - 1] == b[|b| - 1];
      ParseAppend(a, b');
      assert ParseDecimal(a + b) == ParseDecimal(a + b') * 10 + d;
      assert ParseDecimal(b) == ParseDecimal(b') * 10 + d;
      assert Pow10(|b|) == Pow10(|b'|) * 10;
      ShiftDigit(ParseDecimal(a), Pow10(|b'|), ParseDecimal(b'), d);
    } else {
      assert a + b == a;
    }
  }

  /** Appending a digit to `x * p + r` shifts both parts. */
  lemma ShiftDigit(x: int, p: int, r: int, d: int)
    ensures (x * p + r) * 10 + d == x * (p * 10) + (r * 10 + d)
  {
    assert (x * p) * 10 == x * (p * 10);
  }

  lemma {:induction false} ParseZeros(k: nat)
    ensures ParseDecimal(Zeros(k)) == 0
  {
    if k > 0 {
      assert Zeros(k)[..k - 1] == Zeros(k - 1);
      ParseZeros(k - 1);
    }
  }

  /** Python's `f'{n:03d}'` for n >= 0: the decimal digits of `n`, left-padded
      with zeros to three characters (longer numbers are not cut). */
  function ZeroPad3(n: nat): (s: string)
    ensures AllDigits(s) && |s| >= 3
    ensures n < 1000 ==> |s| == 3
    ensures n >= 1000 ==> s == NatToDecimal(n)
    ensures ParseDecimal(s) == n
  {
    var d := NatToDecimal(n);
    ParseNatToDecimal(n);
    if |d| >= 3 then d
    else
      PadParses(3 - |d|, d);
      Zeros(3 - |d|) + d
  }

  /** Leading zeros do not change the value of a digit string. */
  lemma PadParses(k: nat, d: string)
    requires AllDigits(d)
    ensures AllDigits(Zeros(k) + d) && ParseDecimal(Zeros(k) + d) == ParseDecimal(d)
  {
    var z := Zeros(k);
    ParseZeros(k);
    ParseAppend(z, d);
    assert ParseDecimal(z) * Pow10(|d|) == 0;
  }

  /** Three-digit padding spelled out digit by digit. */
  lemma ZeroPad3Digits(n: nat)
    requires n < 1000
    ensures ZeroPad3(n) == [DigitChar(n / 100), DigitChar(n / 10 % 10), DigitChar(n % 10)]
  {
    if n >= 100 {
      assert NatToDecimal(n / 10) == NatToDecimal(n / 100) + [DigitChar(n / 10 % 10)];
      assert n / 10 / 10 == n / 100;
    } else if n >= 10 {
      assert n / 100 == 0;
      assert NatToDecimal(n) == [DigitChar(n / 10)] + [DigitChar(n % 10)];
    }
  }

  // ----- Python's str.strip() -----

  /** The characters Python's `str.strip()` removes (`str.isspace`). */
  predicate IsSpace(c: char) {
    var k := c as int;
    (9 <= k <= 13) || (28 <= k <= 32) || k == 0x85 || k == 0xA0 || k == 0x1680
    || (0x2000 <= k <= 0x200A) || k == 0x2028 || k == 0x2029 || k == 0x202F
    || k == 0x205F || k == 0x3000
  }

  function StripStart(s: string): (r: string)
    ensures |r| <= |s| && r == s[|s| - |r|..]
    ensures r == [] || !IsSpace(r[0])
    ensures forall i :: 0 <= i < |s| - |r| ==> IsSpace(s[i])
  {
    if s != [] && IsSpace(s[0]) then StripStart(s[1..]) else s
  }

  function StripEnd(s: string): (r: string)
    ensures |r| <= |s| && r == s[..|r|]
    ensures r == [] || !IsSpace(r[|r| - 1])
    ensures forall i :: |r| <= i < |s| ==> IsSpace(s[i])
  {
    if s != [] && IsSpace(s[|s| - 1]) then StripEnd(s[..|s| - 1]) else s
  }

  /** Python's `s.strip()`: `s` without leading and trailing whitespace. */
  function Strip(s: string): (r: string)
    ensures r == [] || (!IsSpace(r[0]) && !IsSpace(r[|r| - 1]))
    ensures (s == [] || (!IsSpace(s[0]) && !IsSpace(s[|s| - 1]))) ==> r == s
  {
    StripEnd(StripStart(s))
  }

  /** Trimming removes only whitespace: any other character of `s` is kept. */
  lemma StripKeeps(s: string, c: char)
    requires c in s && !IsSpace(c)
    ensures c in Strip(s)
  {
    var k :| 0 <= k < |s| && s[k] == c;
    var t := StripStart(s);
    var off := |s| - |t|;
    assert k >= off;
    assert t[k - off] == c;
    var u := StripEnd(t);
    assert k - off < |u|;
    assert u[k - off] == c;
  }

  /** The four pieces of `a + b + c + d` are found back at their offsets. */
  lemma FourParts<T>(a: seq<T>, b: seq<T>, c: seq<T>, d: seq<T>)
    ensures var s := a + b + c + d;
      && |s| == |a| + |b| + |c| + |d|
      && s[..|a|] == a && s[|a|..|a| + |b|] == b
      && s[|a| + |b|..|a| + |b| + |c|] == c && s[|a| + |b| + |c|..] == d
  {
    var s := a + b + c + d;
    assert s == a + (b + (c + d));
    assert s[|a|..] == b + (c + d);
    assert s[|a| + |b|..] == c + d;
  }

  // ----- Python's string ordering -----

  /** Python's `a < b` on strings: lexicographic by code point. */
  predicate StrLess(a: string, b: string)
    decreases |a|
  {
    if a == [] then b != []
    else if b == [] then false
    else if a[0] != b[0] then a[0] < b[0]
    else StrLess(a[1..], b[1..])
  }

  lemma {:induction false} StrLessTotal(a: string, b: string)
    ensures a == b || StrLess(a, b) || StrLess(b, a)
    ensures !(StrLess(a, b) && StrLess(b, a))
    decreases |a|
  {
    if a != [] && b != [] && a[0] == b[0] {
      StrLessTotal(a[1..], b[1..]);
      if a[1..] == b[1..] {
        assert a == [a[0]] + a[1..] && b == [b[0]] + b[1..];
      }
    }
  }

  /** Comparing two strings that share a first character compares the rests. */
  lemma StrLessCommonHead(c: char, a: string, b: string)
    ensures StrLess([c] + a, [c] + b) == StrLess(a, b)
  {
    assert ([c] + a)[1..] == a && ([c] + b)[1..] == b;
  }

  // ----- substrings -----

  /** `t in s` for Python strings. */
  ghost predicate IsSubstring(t: string, s: string) {
    exists i :: OccursAt(t, s, i)
  }

  /** `t` occurs in `s` starting at index `i`. */
  predicate OccursAt(t: string, s: string, i: int) {
    0 <= i <= |s| - |t| && s[i..i + |t|] == t
  }

  lemma SubstringOfConcat(a: string, t: string, b: string)
    ensures IsSubstring(t, a + t + b)
  {
    assert OccursAt(t, a + t + b, |a|);
  }

  lemma InHead(t: string, b: string)
    ensures IsSubstring(t, t + b)
  {
    assert OccursAt(t, t + b, 0);
  }

  lemma InTail(a: string, t: string)
    ensures IsSubstring(t, a + t)
  {
    assert OccursAt(t, a + t, |a|);
  }

  lemma SubstringTrans(t: string, u: string, s: string)
    requires IsSubstring(t, u) && IsSubstring(u, s)
    ensures IsSubstring(t, s)
  {
    var i :| OccursAt(t, u, i);
    var j :| OccursAt(u, s, j);
    forall k | 0 <= k < |t|
      ensures s[j + i + k] == t[k]
    {
      assert u[i + k] == u[i..i + |t|][k];
      assert s[j + (i + k)] == s[j..j + |u|][i + k];
    }
    assert OccursAt(t, s, j + i);
  }
}
