/** Decimal parsing of unsigned 32-bit integers, as Rust's `str::parse::<u32>`
    does it: an optional single leading `+`, then at least one ASCII digit, and
    a value that fits in 32 bits. Leading zeros are allowed; `-`, whitespace and
    every other character are rejected. */
module Decimal {
  import opened Wrappers

  const U32_MAX: nat := 0xFFFF_FFFF

  /** The values of Rust's `u32`. */
  type u32 = n: nat | n <= U32_MAX

  predicate IsDigit(c: char) {
    '0' <= c <= '9'
  }

  function DigitValue(c: char): (d: nat)
    requires IsDigit(c)
    ensures d < 10
  {
    c as int - '0' as int
  }

  function DigitChar(d: nat): (c: char)
    requires d < 10
    ensures IsDigit(c) && DigitValue(c) == d
  {
    ('0' as int + d) as char
  }

  predicate AllDigits(s: string) {
    forall i :: 0 <= i < |s| ==> IsDigit(s[i])
  }

  /** The number a digit string denotes, most significant digit first
      (unbounded: no 32-bit limit applies here). */
  function DecimalValue(s: string): nat
    requires AllDigits(s)
    decreases |s|
  {
    if s == [] then 0 else 10 * DecimalValue(s[..|s| - 1]) + DigitValue(s[|s| - 1])
  }

  /** What remains once the single optional leading `+` is stripped. A lone
      `+` leaves nothing, which the parser rejects as empty. */
  function Digits(s: string): string {
    if |s| > 0 && s[0] == '+' then s[1..] else s
  }

  /** The strings `str::parse::<u32>` accepts. */
  predicate IsU32Literal(s: string) {
    var ds := Digits(s);
    |ds| > 0 && AllDigits(ds) && DecimalValue(ds) <= U32_MAX
  }

  /** The value an accepted literal denotes. */
  function LiteralValue(s: string): nat
    requires IsU32Literal(s)
  {
    DecimalValue(Digits(s))
  }

  /** The canonical decimal spelling of `n`: no sign, no leading zeros. */
  function FormatDecimal(n: nat): (s: string)
    ensures |s| > 0 && AllDigits(s)
    ensures DecimalValue(s) == n
    ensures s[0] == '0' ==> n == 0
    decreases n
  {
    if n < 10 then [DigitChar(n)]
    else
      var prefix := FormatDecimal(n / 10);
      var s := prefix + [DigitChar(n % 10)];
      assert s[..|s| - 1] == prefix;
      s
  }

  /** A prefix of a digit string never denotes more than the whole string. */
  lemma {:induction false} PrefixValueLe(s: string, j: nat)
    requires AllDigits(s) && j <= |s|
    ensures DecimalValue(s[..j]) <= DecimalValue(s)
    decreases |s|
  {
    if j < |s| {
      var init := s[..|s| - 1];
      assert init[..j] == s[..j];
      PrefixValueLe(init, j);
    } else {
      assert s[..j] == s;
    }
  }

  /** Extending a digit prefix by one digit: the step of the accumulation loop. */
  lemma StepValue(s: string, i: nat)
    requires i < |s| && AllDigits(s[..i + 1])
    ensures AllDigits(s[..i])
    ensures DecimalValue(s[..i + 1]) == 10 * DecimalValue(s[..i]) + DigitValue(s[i])
  {
    assert s[..i + 1][..i] == s[..i];
  }

  /** The accumulation loop of `from_str_radix` over the digits `ds`, from
      position `i` with `acc` accumulated so far: a non-digit stops it, and so
      does a checked multiplication by ten or a checked addition of the digit
      that leaves the `u32` range. */
  function Accumulate(ds: string, i: nat, acc: u32): (r: Option<u32>)
    requires i <= |ds| && AllDigits(ds[..i]) && acc == DecimalValue(ds[..i])
    ensures r.Some? <==> AllDigits(ds) && DecimalValue(ds) <= U32_MAX
    ensures r.Some? ==> r.value == DecimalValue(ds)
    decreases |ds| - i
  {
    if i == |ds| then
      assert ds[..i] == ds;
      Some(acc)
    else if !IsDigit(ds[i]) then
      None
    else
      var d := DigitValue(ds[i]);
      assert AllDigits(ds[..i + 1]);
      StepValue(ds, i);
      if acc * 10 + d > U32_MAX then
        // One test covers both checked operations, since acc * 10 > U32_MAX
        // implies it. Either way the answer is None; the lemma call, scoped to
        // the case where it applies, shows that the overflowing prefix
        // ds[..i + 1] makes the whole digit string overflow too.
        if AllDigits(ds) then PrefixValueLe(ds, i + 1); None else None
      else
        Accumulate(ds, i + 1, acc * 10 + d)
  }

  /** `str::parse::<u32>`: `None` stands for every parse error (empty input,
      invalid digit, overflow). */
  function ParseU32(s: string): (r: Option<u32>)
    ensures r.Some? <==> IsU32Literal(s)
    ensures r.Some? ==> r.value == LiteralValue(s)
  {
    var ds := Digits(s);
    if ds == [] then None
    else
      assert ds[..0] == [];
      Accumulate(ds, 0, 0)
  }

  /** Parsing undoes formatting, with or without a leading `+`. */
  lemma ParseFormatRoundTrip(n: u32)
    ensures ParseU32(FormatDecimal(n)) == Some(n)
    ensures ParseU32(['+'] + FormatDecimal(n)) == Some(n)
  {
    var s := FormatDecimal(n);
    assert Digits(s) == s;
    assert Digits(['+'] + s) == s;
  }

  /** Any character other than a digit rejects the input, except one `+` in
      front: this covers `-`, whitespace, a second sign and inner punctuation. */
  lemma ParseRejectsNonDigit(s: string, i: nat)
    requires i < |s| && !IsDigit(s[i]) && !(i == 0 && s[i] == '+')
    ensures ParseU32(s) == None
  {
    var ds := Digits(s);
    if |s| > 0 && s[0] == '+' {
      assert ds[i - 1] == s[i];
    } else {
      assert ds[i] == s[i];
    }
  }

  /** The empty string and a lone sign are rejected. */
  lemma ParseRejectsEmpty()
    ensures ParseU32("") == None
    ensures ParseU32("+") == None
    ensures ParseU32("-") == None
  {
    ParseRejectsNonDigit("-", 0);
  }

  /** A leading zero digit changes nothing. */
  lemma {:induction false} LeadingZeroValue(s: string)
    requires AllDigits(s)
    ensures AllDigits(['0'] + s)
    ensures DecimalValue(['0'] + s) == DecimalValue(s)
    decreases |s|
  {
    var z := ['0'] + s;
    assert forall i :: 0 <= i < |z| ==> IsDigit(z[i]);
    if s != [] {
      var init := s[..|s| - 1];
      assert z[..|z| - 1] == ['0'] + init;
      LeadingZeroValue(init);
    }
  }

  /** Leading zeros are accepted and do not change the value. */
  lemma ParseLeadingZero(s: string)
    requires |s| > 0 && s[0] != '+'
    ensures ParseU32(['0'] + s) == ParseU32(s)
  {
    var z := ['0'] + s;
    assert Digits(z) == z;
    assert Digits(s) == s;
    if AllDigits(s) {
      LeadingZeroValue(s);
    } else {
      var i :| 0 <= i < |s| && !IsDigit(s[i]);
      assert z[i + 1] == s[i];
    }
  }

  /** The value of a digit string grows by one digit at the low end. */
  lemma AppendDigit(s: string, c: char)
    requires AllDigits(s) && IsDigit(c)
    ensures AllDigits(s + [c])
    ensures DecimalValue(s + [c]) == 10 * DecimalValue(s) + DigitValue(c)
  {
    var t := s + [c];
    assert t[..|t| - 1] == s;
  }

  /** The digit strings of `u32::MAX` and of one more. */
  lemma BoundaryValues()
    ensures AllDigits("4294967295") && DecimalValue("4294967295") == U32_MAX
    ensures AllDigits("4294967296") && DecimalValue("4294967296") == U32_MAX + 1
  {
    AppendDigit("", '4');
    assert "" + ['4'] == "4";
    AppendDigit("4", '2');
    assert "4" + ['2'] == "42";
    AppendDigit("42", '9');
    assert "42" + ['9'] == "429";
    AppendDigit("429", '4');
    assert "429" + ['4'] == "4294";
    AppendDigit("4294", '9');
    assert "4294" + ['9'] == "42949";
    AppendDigit("42949", '6');
    assert "42949" + ['6'] == "429496";
    AppendDigit("429496", '7');
    assert "429496" + ['7'] == "4294967";
    AppendDigit("4294967", '2');
    assert "4294967" + ['2'] == "42949672";
    AppendDigit("42949672", '9');
    assert "42949672" + ['9'] == "429496729";
    AppendDigit("429496729", '5');
    assert "429496729" + ['5'] == "4294967295";
    AppendDigit("429496729", '6');
    assert "429496729" + ['6'] == "4294967296";
  }

  /** The exact upper boundary: `u32::MAX` is accepted, one more is not. */
  lemma ParseBoundary()
    ensures ParseU32("4294967295") == Some(U32_MAX)
    ensures ParseU32("4294967296") == None
  {
    BoundaryValues();
    assert Digits("4294967295") == "4294967295";
    assert Digits("4294967296") == "4294967296";
  }
}
