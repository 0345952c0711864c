/**
 * The pieces of PHP string behaviour the gateway depends on: trim() with its
 * default character list, the decimal rendering of a non-negative int used
 * when building the MediaUrl{i} and MediaContentType{i} keys, and the value
 * of an integer string such as the NumMedia field.
 */
module PhpStrings {

  /** The characters trim() strips by default: NUL, tab, newline, vertical tab, carriage return, space. */
  predicate IsTrimmable(c: char) {
    c as int == 0 || c as int == 9 || c as int == 10 || c as int == 11 || c as int == 13 || c as int == 32
  }

  predicate AllTrimmable(s: string) {
    forall k :: 0 <= k < |s| ==> IsTrimmable(s[k])
  }

  /** Strips trimmable characters from the front. */
  function TrimLeft(s: string): (r: string)
    ensures |r| <= |s| && r == s[|s| - |r|..]
    ensures AllTrimmable(s[..|s| - |r|])
    ensures r == [] || !IsTrimmable(r[0])
  {
    if s != [] && IsTrimmable(s[0]) then TrimLeft(s[1..]) else s
  }

  /** Strips trimmable characters from the back. */
  function TrimRight(s: string): (r: string)
    ensures |r| <= |s| && r == s[..|r|]
    ensures AllTrimmable(s[|r|..])
    ensures r == [] || !IsTrimmable(r[|r| - 1])
  {
    if s != [] && IsTrimmable(s[|s| - 1]) then TrimRight(s[..|s| - 1]) else s
  }

  /** PHP's trim($s) with the default character list. */
  function Trim(s: string): (r: string)
    ensures |r| <= |s|
    ensures r == [] || (!IsTrimmable(r[0]) && !IsTrimmable(r[|r| - 1]))
    ensures r == [] <==> AllTrimmable(s)
  {
    var l := TrimLeft(s);
    assert l == [] ==> AllTrimmable(s) by {
      if l == [] { assert s[..|s|] == s; }
    }
    TrimRight(l)
  }

  /** r is the slice of s starting at i, and everything around it in s is trimmable. */
  predicate TrimmableAround(s: string, i: int, r: string) {
    0 <= i <= |s| - |r| && r == s[i..i + |r|] && AllTrimmable(s[..i]) && AllTrimmable(s[i + |r|..])
  }

  /** trim() keeps one contiguous slice of s: everything before it and everything after it is trimmable. */
  lemma TrimIsSlice(s: string)
    ensures exists i :: TrimmableAround(s, i, Trim(s))
  {
    var l := TrimLeft(s);
    var r := TrimRight(l);
    assert Trim(s) == r;
    SliceOfSuffix(s, l, r);
  }

  /** A prefix r of a suffix l of s, followed in l by trimmable characters only, is a slice of s with trimmable surroundings. */
  lemma SliceOfSuffix(s: string, l: string, r: string)
    requires |l| <= |s| && l == s[|s| - |l|..] && AllTrimmable(s[..|s| - |l|])
    requires |r| <= |l| && r == l[..|r|] && AllTrimmable(l[|r|..])
    ensures TrimmableAround(s, |s| - |l|, r)
  {
    assert s[|s| - |l| + |r|..] == l[|r|..];
  }

  lemma {:induction false} TrimLeftSkips(a: string, t: string)
    requires AllTrimmable(a)
    requires t == [] || !IsTrimmable(t[0])
    ensures TrimLeft(a + t) == t
  {
    if a != [] {
      assert (a + t)[1..] == a[1..] + t;
      TrimLeftSkips(a[1..], t);
    } else {
      assert a + t == t;
    }
  }

  lemma {:induction false} TrimRightSkips(t: string, b: string)
    requires AllTrimmable(b)
    requires t == [] || !IsTrimmable(t[|t| - 1])
    ensures TrimRight(t + b) == t
  {
    if b != [] {
      assert (t + b)[..|t + b| - 1] == t + b[..|b| - 1];
      TrimRightSkips(t, b[..|b| - 1]);
    } else {
      assert t + b == t;
    }
  }

  /**
   * trim() removes exactly the trimmable run on each side: a string made of a
   * trimmable prefix, a core that neither starts nor ends with a trimmable
   * character, and a trimmable suffix trims to that core.
   */
  lemma {:induction false} TrimExact(a: string, m: string, b: string)
    requires AllTrimmable(a) && AllTrimmable(b)
    requires m == [] || (!IsTrimmable(m[0]) && !IsTrimmable(m[|m| - 1]))
    ensures Trim(a + m + b) == m
  {
    assert a + m + b == a + (m + b);
    if m == [] {
      assert a + m + b == a + b;
      assert AllTrimmable(a + b) by {
        forall k | 0 <= k < |a + b| ensures IsTrimmable((a + b)[k]) {
          if k >= |a| { assert (a + b)[k] == b[k - |a|]; }
        }
      }
    } else {
      assert (m + b)[0] == m[0];
      TrimLeftSkips(a, m + b);
      TrimRightSkips(m, b);
    }
  }

  /** trim() is idempotent. */
  lemma TrimIdempotent(s: string)
    ensures Trim(Trim(s)) == Trim(s)
  {
    var r, e := Trim(s), "";
    assert e + r + e == r;
    TrimExact(e, r, e);
  }

  predicate IsDigit(c: char) {
    '0' <= c <= '9'
  }

  predicate IsDigits(s: string) {
    |s| > 0 && forall k :: 0 <= k < |s| ==> IsDigit(s[k])
  }

  function DigitChar(d: nat): (c: char)
    requires d < 10
    ensures IsDigit(c)
  {
    ('0' as int + d) as char
  }

  /** The decimal rendering PHP gives a non-negative int when it is concatenated to a string. */
  function NatToString(n: nat): (r: string)
    ensures IsDigits(r)
    ensures |r| == 1 <==> n < 10
    ensures r[0] != '0' || n == 0
  {
    if n < 10 then [DigitChar(n)] else NatToString(n / 10) + [DigitChar(n % 10)]
  }

  /** The value of a string of decimal digits, most significant first. */
  function DigitsValue(s: string): (v: nat)
    requires forall k :: 0 <= k < |s| ==> IsDigit(s[k])
  {
    if s == [] then 0
    else
      var last := s[|s| - 1];
      assert IsDigit(last);
      DigitsValue(s[..|s| - 1]) * 10 + (last as int - '0' as int)
  }

  /** A numeric integer string: decimal digits with an optional leading sign. */
  predicate IsIntegerString(s: string) {
    IsDigits(s) || (|s| > 1 && (s[0] == '-' || s[0] == '+') && IsDigits(s[1..]))
  }

  /** The int an integer string stands for when PHP compares it with an int. */
  function IntegerValue(s: string): int
    requires IsIntegerString(s)
  {
    if IsDigits(s) then DigitsValue(s)
    else if s[0] == '-' then -(DigitsValue(s[1..]) as int)
    else DigitsValue(s[1..])
  }

  /** Reading back the decimal rendering of n gives n. */
  lemma {:induction false} DigitsValueOfNatToString(n: nat)
    ensures DigitsValue(NatToString(n)) == n
  {
    var s := NatToString(n);
    if n >= 10 {
      assert s[..|s| - 1] == NatToString(n / 10);
      DigitsValueOfNatToString(n / 10);
    }
  }

  /** The integer string carried by a payload field reads back as the number written into it. */
  lemma IntegerValueRoundTrip(n: nat)
    ensures IsIntegerString(NatToString(n)) && IntegerValue(NatToString(n)) == n
    ensures IsIntegerString("-" + NatToString(n)) && IntegerValue("-" + NatToString(n)) == -(n as int)
  {
    DigitsValueOfNatToString(n);
    assert ("-" + NatToString(n))[1..] == NatToString(n);
  }

  /** Distinct numbers render to distinct strings. */
  lemma NatToStringInjective(m: nat, n: nat)
    requires NatToString(m) == NatToString(n)
    ensures m == n
  {
    DigitsValueOfNatToString(m);
    DigitsValueOfNatToString(n);
  }
}
