/**
 * The pieces of java.lang that the timer, settings and classifier code lean on:
 * 32-bit `int`, `long` division (rounds toward zero), the `(int)` narrowing
 * cast, `Math.max`, `Math.round(float)`, `String.trim`, `Integer.parseInt`
 * (radix 10) and `Integer.toString`.
 */
module JavaLang {

  datatype Option<+T> = None | Some(value: T)

  const IntMin: int := -0x8000_0000
  const IntMax: int := 0x7fff_ffff
  const LongMin: int := -0x8000_0000_0000_0000
  const LongMax: int := 0x7fff_ffff_ffff_ffff

  /** Java `int`. */
  type int32 = x: int | IntMin <= x <= IntMax

  predicate InLong(x: int) { LongMin <= x <= LongMax }

  /** `Math.max(a, b)`. */
  function Max(a: int, b: int): (r: int)
    ensures r >= a && r >= b
    ensures r == a || r == b
  {
    if a >= b then a else b
  }

  /** Java's `a / b` for a positive divisor: the quotient is rounded toward zero. */
  function Quot(a: int, b: int): (q: int)
    requires b > 0
    ensures a >= 0 ==> q == a / b
    ensures a < 0 ==> q == -((-a) / b)
  {
    if a >= 0 then a / b else -((-a) / b)
  }

  /** Java's `a % b` for a positive divisor: the remainder takes the sign of `a`. */
  function Rem(a: int, b: int): (r: int)
    requires b > 0
    ensures Quot(a, b) * b + r == a
    ensures a >= 0 ==> 0 <= r < b
    ensures a < 0 ==> -b < r <= 0
  {
    if a >= 0 then
      assert a == (a / b) * b + a % b;
      a - Quot(a, b) * b
    else
      assert -a == ((-a) / b) * b + (-a) % b;
      assert a - Quot(a, b) * b == -((-a) % b);
      a - Quot(a, b) * b
  }

  /** The `(int)` cast of a `long`: keeps the low 32 bits, as two's complement. */
  function WrapInt(x: int): (r: int32)
    ensures (r - x) % 0x1_0000_0000 == 0
    ensures IntMin <= x <= IntMax ==> r == x
  {
    (x - IntMin) % 0x1_0000_0000 + IntMin
  }

  /**
   * `Math.round(float)`: the integer nearest to `x`, halves rounded up, i.e.
   * floor(x + 1/2), saturated to the `int` range.
   */
  function JavaRound(x: real): (r: int32)
    ensures IntMin <= (x + 0.5).Floor <= IntMax ==> r as real - 0.5 <= x < r as real + 0.5
    ensures (x + 0.5).Floor < IntMin ==> r == IntMin
    ensures (x + 0.5).Floor > IntMax ==> r == IntMax
  {
    var f := (x + 0.5).Floor;
    if f < IntMin then IntMin else if f > IntMax then IntMax else f
  }

  lemma {:induction false} JavaRoundMonotone(x: real, y: real)
    requires x <= y
    ensures JavaRound(x) <= JavaRound(y)
  {
    assert (x + 0.5).Floor <= (y + 0.5).Floor by {
      var fx := (x + 0.5).Floor;
      assert fx as real <= x + 0.5 <= y + 0.5;
    }
  }

  // ---------------------------------------------------------------------
  // Decimal digits
  // ---------------------------------------------------------------------

  predicate IsDigit(c: char) { '0' <= c <= '9' }

  function DigitValue(c: char): (d: nat)
    requires IsDigit(c)
    ensures d < 10
  {
    (c as int) - ('0' as int)
  }

  function DigitChar(d: nat): (c: char)
    requires d < 10
    ensures IsDigit(c) && DigitValue(c) == d
  {
    ('0' as int + d) as char
  }

  predicate AllDigits(s: string) { forall i :: 0 <= i < |s| ==> IsDigit(s[i]) }

  /** The value of a string of decimal digits, most significant first. */
  function DigitsValue(ds: string): nat
    requires AllDigits(ds)
    decreases |ds|
  {
    if ds == [] then 0 else DigitsValue(ds[..|ds| - 1]) * 10 + DigitValue(ds[|ds| - 1])
  }

  /** Decimal digits of `n` as `Integer.toString` writes them: at least one digit, no leading zero. */
  function NatToDigits(n: nat): (ds: string)
    ensures |ds| >= 1 && AllDigits(ds)
    ensures DigitsValue(ds) == n
    ensures |ds| > 1 ==> ds[0] != '0'
    decreases n
  {
    if n < 10 then [DigitChar(n)]
    else
      var prefix := NatToDigits(n / 10);
      var ds := prefix + [DigitChar(n % 10)];
      assert ds[..|ds| - 1] == prefix;
      ds
  }

  /** `Integer.toString(n)` / `String.valueOf(n)` / `"" + n`. */
  function ToDecimal(n: int): (s: string)
    ensures |s| >= 1
    ensures n >= 0 ==> s == NatToDigits(n)
    ensures n < 0 ==> s == "-" + NatToDigits(-n)
  {
    if n < 0 then "-" + NatToDigits(-n) else NatToDigits(n)
  }

  // ---------------------------------------------------------------------
  // Integer.parseInt(s), radix 10
  // ---------------------------------------------------------------------

  /** A literal `Integer.parseInt` accepts: an optional `-` or `+`, then one or more digits. */
  predicate IsDecimalLiteral(s: string)
  {
    |s| >= 1 &&
    if s[0] == '-' || s[0] == '+' then |s| >= 2 && AllDigits(s[1..]) else AllDigits(s)
  }

  function LiteralValue(s: string): int
    requires IsDecimalLiteral(s)
  {
    if s[0] == '-' then -(DigitsValue(s[1..]) as int)
    else if s[0] == '+' then DigitsValue(s[1..])
    else DigitsValue(s)
  }

  /**
   * The digit loop of `Integer.parseInt`: digits are consumed left to right and
   * the call fails on a non-digit or as soon as the magnitude read so far
   * exceeds `limit` (2^31 - 1 for a positive literal, 2^31 for a negative one).
   */
  function AccumulateDigits(ds: string, limit: nat): (r: Option<nat>)
    ensures r.Some? ==> r.value <= limit
    decreases |ds|
  {
    if ds == [] then Some(0)
    else
      match AccumulateDigits(ds[..|ds| - 1], limit)
      case None => None
      case Some(v) =>
        var c := ds[|ds| - 1];
        if !IsDigit(c) then None
        else if v * 10 + DigitValue(c) > limit then None
        else Some(v * 10 + DigitValue(c))
  }

  lemma {:induction false} DigitsValuePrefixBound(ds: string)
    requires |ds| >= 1 && AllDigits(ds)
    ensures DigitsValue(ds[..|ds| - 1]) <= DigitsValue(ds)
  {
  }

  /** The digit loop yields the literal's value exactly when it fits under the limit. */
  lemma {:induction false} AccumulateDigitsCorrect(ds: string, limit: nat)
    ensures AccumulateDigits(ds, limit) ==
      if AllDigits(ds) && DigitsValue(ds) <= limit then Some(DigitsValue(ds)) else None
    decreases |ds|
  {
    if ds != [] {
      var prefix := ds[..|ds| - 1];
      AccumulateDigitsCorrect(prefix, limit);
      if AllDigits(ds) {
        assert AllDigits(prefix);
        DigitsValuePrefixBound(ds);
      } else if AllDigits(prefix) {
        assert forall k :: 0 <= k < |ds| - 1 ==> ds[k] == prefix[k];
      }
    }
  }

  /** `Integer.parseInt(s)`: `None` stands for the NumberFormatException. */
  function ParseInt(s: string): (r: Option<int32>)
    ensures r.Some? ==> IsDecimalLiteral(s) && r.value == LiteralValue(s)
  {
    if s == [] then None
    else
      var signed := s[0] < '0';
      var negative := s[0] == '-';
      if signed && !negative && s[0] != '+' then None
      else if signed && |s| == 1 then None
      else
        var digits := if signed then s[1..] else s;
        var limit: nat := if negative then 0x8000_0000 else IntMax;
        AccumulateDigitsCorrect(digits, limit);
        match AccumulateDigits(digits, limit)
        case None => None
        case Some(m) => Some(if negative then -(m as int) else m)
  }

  /** `Integer.parseInt` succeeds exactly on decimal literals whose value fits in an `int`. */
  lemma ParseIntCorrect(s: string)
    ensures ParseInt(s) ==
      if IsDecimalLiteral(s) && IntMin <= LiteralValue(s) <= IntMax then Some(LiteralValue(s)) else None
  {
    if s != [] {
      var signed := s[0] < '0';
      var negative := s[0] == '-';
      if !(signed && !negative && s[0] != '+') && !(signed && |s| == 1) {
        var digits := if signed then s[1..] else s;
        var limit: nat := if negative then 0x8000_0000 else IntMax;
        AccumulateDigitsCorrect(digits, limit);
      } else {
        assert !IsDecimalLiteral(s) by {
          if s[0] != '-' && s[0] != '+' { assert !IsDigit(s[0]); }
        }
      }
    }
  }

  /** What `Integer.toString` writes, `Integer.parseInt` reads back. */
  lemma ParseIntToDecimal(n: int32)
    ensures ParseInt(ToDecimal(n)) == Some(n)
  {
    var s := ToDecimal(n);
    if n < 0 {
      var ds := NatToDigits(-(n as int));
      assert s[1..] == ds;
      assert IsDecimalLiteral(s) && LiteralValue(s) == -(DigitsValue(ds) as int) == n;
    } else {
      var ds := NatToDigits(n);
      assert IsDigit(s[0]) && s == ds;
      assert IsDecimalLiteral(s) && LiteralValue(s) == DigitsValue(ds);
    }
    ParseIntCorrect(s);
  }

  // ---------------------------------------------------------------------
  // String.trim()
  // ---------------------------------------------------------------------

  /** `String.trim` removes every character at or below U+0020 from both ends. */
  predicate IsTrimmable(c: char) { c <= ' ' }

  predicate AllTrimmable(s: string) { forall i :: 0 <= i < |s| ==> IsTrimmable(s[i]) }

  function TrimLeading(s: string): (r: string)
    ensures |r| <= |s| && r == s[|s| - |r|..]
    ensures r == [] || !IsTrimmable(r[0])
    ensures AllTrimmable(s[..|s| - |r|])
    decreases |s|
  {
    if |s| > 0 && IsTrimmable(s[0]) then
      var r := TrimLeading(s[1..]);
      assert s[..|s| - |r|] == [s[0]] + s[1..][..|s| - 1 - |r|];
      r
    else s
  }

  function TrimTrailing(s: string): (r: string)
    ensures |r| <= |s| && r == s[..|r|]
    ensures r == [] || !IsTrimmable(r[|r| - 1])
    ensures AllTrimmable(s[|r|..])
    decreases |s|
  {
    if |s| > 0 && IsTrimmable(s[|s| - 1]) then
      var r := TrimTrailing(s[..|s| - 1]);
      assert s[|r|..] == s[..|s| - 1][|r|..] + [s[|s| - 1]];
      r
    else s
  }

  /**
   * `s.trim()`: the slice of `s` left after removing the characters at or
   * below U+0020 from the front (the first `k`) and from the back.
   */
  function Trim(s: string): (r: string)
    ensures r == [] || (!IsTrimmable(r[0]) && !IsTrimmable(r[|r| - 1]))
    ensures var k := |s| - |TrimLeading(s)|;
      && k + |r| <= |s|
      && AllTrimmable(s[..k]) && r == s[k..k + |r|] && AllTrimmable(s[k + |r|..])
  {
    var t := TrimLeading(s);
    var r := TrimTrailing(t);
    var k := |s| - |t|;
    assert t == s[k..];
    assert r == s[k..k + |r|];
    assert s[k + |r|..] == t[|r|..];
    r
  }

  lemma {:induction false} TrimLeadingPadded(pre: string, rest: string)
    requires AllTrimmable(pre)
    requires rest == [] || !IsTrimmable(rest[0])
    ensures TrimLeading(pre + rest) == rest
    decreases |pre|
  {
    if pre != [] {
      assert (pre + rest)[1..] == pre[1..] + rest;
      TrimLeadingPadded(pre[1..], rest);
    }
  }

  lemma {:induction false} TrimTrailingPadded(rest: string, post: string)
    requires AllTrimmable(post)
    requires rest == [] || !IsTrimmable(rest[|rest| - 1])
    ensures TrimTrailing(rest + post) == rest
    decreases |post|
  {
    if post != [] {
      var s := rest + post;
      assert s[|s| - 1] == post[|post| - 1];
      assert s[..|s| - 1] == rest + post[..|post| - 1];
      TrimTrailingPadded(rest, post[..|post| - 1]);
    }
  }

  /** Trimming removes exactly the padding around a core that neither starts nor ends with it. */
  lemma TrimPadded(pre: string, core: string, post: string)
    requires AllTrimmable(pre) && AllTrimmable(post)
    requires core == [] || (!IsTrimmable(core[0]) && !IsTrimmable(core[|core| - 1]))
    ensures Trim(pre + core + post) == core
  {
    if core == [] {
      assert pre + core + post == pre + post;
      assert AllTrimmable(pre + post);
      TrimLeadingPadded(pre + post, []);
      assert pre + post + [] == pre + post;
      assert TrimLeading(pre + post) == [];
    } else {
      assert pre + core + post == pre + (core + post);
      TrimLeadingPadded(pre, core + post);
      TrimTrailingPadded(core, post);
    }
  }
}
