/** JavaScript numbers as the source uses them: integer ids compared with
    `===`, tested for truthiness, and read back from form text with
    `parseInt` and `Number`. Fractions and the 2^53 precision limit are not
    modelled: every finite value here is an integer. */
module JsNumber {
  import opened JsText

  /** A number value: an integer, or NaN (which equals nothing, itself included). */
  datatype Num = Int(n: int) | NaN

  /** `!!x`: zero and NaN are falsy. */
  predicate Truthy(x: Num) {
    x.Int? && x.n != 0
  }

  /** `x === Int(n)`, false for NaN. */
  predicate Is(x: Num, n: int) {
    x.Int? && x.n == n
  }

  predicate IsDigit(c: char) {
    '0' <= c <= '9'
  }

  predicate IsHexDigit(c: char) {
    IsDigit(c) || 'a' <= c <= 'f' || 'A' <= c <= 'F'
  }

  /** Is `c` a digit of the given radix (10 or 16)? */
  predicate IsRadixDigit(c: char, radix: nat) {
    if radix == 16 then IsHexDigit(c) else IsDigit(c)
  }

  function HexDigitValue(c: char): (d: nat)
    requires IsHexDigit(c)
    ensures d < 16
    ensures IsDigit(c) ==> d < 10
  {
    if IsDigit(c) then c as int - '0' as int
    else if 'a' <= c <= 'f' then c as int - 'a' as int + 10
    else c as int - 'A' as int + 10
  }

  predicate AllRadixDigits(s: string, radix: nat) {
    forall i :: 0 <= i < |s| ==> IsRadixDigit(s[i], radix)
  }

  /** Value of a digit string, most significant digit first. */
  function DigitsValue(s: string, radix: nat): nat
    requires AllRadixDigits(s, radix)
  {
    if s == [] then 0
    else DigitsValue(s[..|s| - 1], radix) * radix + HexDigitValue(s[|s| - 1])
  }

  function DigitChar(d: nat): (c: char)
    requires d < 10
    ensures IsDigit(c) && HexDigitValue(c) == d
  {
    ('0' as int + d) as char
  }

  /** Decimal rendering of a natural number, as `String(n)` writes it. */
  function NatToString(n: nat): (r: string)
    ensures |r| >= 1 && AllRadixDigits(r, 10)
    ensures DigitsValue(r, 10) == n
  {
    if n < 10 then [DigitChar(n)]
    else
      var r := NatToString(n / 10) + [DigitChar(n % 10)];
      assert r[..|r| - 1] == NatToString(n / 10);
      r
  }

  /** Decimal rendering of an integer: how an id shows up as a form value. */
  function IntToString(n: int): (r: string)
    ensures |r| >= 1
  {
    if n < 0 then "-" + NatToString(-n) else NatToString(n)
  }

  /** Length of the longest prefix of `s` made of radix digits. */
  function DigitRun(s: string, radix: nat): (k: nat)
    ensures k <= |s| && AllRadixDigits(s[..k], radix)
    ensures k == |s| || !IsRadixDigit(s[k], radix)
  {
    if s != [] && IsRadixDigit(s[0], radix) then
      var k := 1 + DigitRun(s[1..], radix);
      assert s[..k] == [s[0]] + s[1..][..k - 1];
      k
    else 0
  }

  predicate HasHexPrefix(s: string) {
    |s| >= 2 && s[0] == '0' && (s[1] == 'x' || s[1] == 'X')
  }

  /** The unsigned part of `parseInt`: a `0x`/`0X` prefix selects radix 16;
      the longest run of digits that follows is the value, NaN when empty. */
  function ParseUnsigned(u: string): (r: Num)
    ensures r.Int? ==> r.n >= 0
  {
    var radix := if HasHexPrefix(u) then 16 else 10;
    var body := if radix == 16 then u[2..] else u;
    var k := DigitRun(body, radix);
    if k == 0 then NaN else Int(DigitsValue(body[..k], radix))
  }

  /** `parseInt(s)` with no radix argument: leading whitespace is skipped,
      then an optional sign, then the unsigned part. */
  function ParseInt(s: string): (r: Num)
  {
    var t := TrimStart(s);
    var negative := |t| > 0 && t[0] == '-';
    var unsigned := if |t| > 0 && (t[0] == '-' || t[0] == '+') then t[1..] else t;
    var r := ParseUnsigned(unsigned);
    if r.Int? && negative then Int(-r.n) else r
  }

  /** A decimal digit string is read whole by the unsigned part. */
  lemma {:induction false} ParseUnsignedDecimal(d: string)
    requires |d| >= 1 && AllRadixDigits(d, 10)
    ensures ParseUnsigned(d) == Int(DigitsValue(d, 10))
  {
    assert !HasHexPrefix(d);
    assert DigitRun(d, 10) == |d|;
    assert d[..|d|] == d;
  }

  /** `Number` on text that has already been trimmed. */
  function TrimmedToNumber(t: string): (r: Num)
  {
    if t == [] then Int(0)
    else if HasHexPrefix(t) && |t| > 2 && AllRadixDigits(t[2..], 16) then
      Int(DigitsValue(t[2..], 16))
    else
      var negative := t[0] == '-';
      var unsigned := if t[0] == '-' || t[0] == '+' then t[1..] else t;
      if unsigned != [] && AllRadixDigits(unsigned, 10) then
        var v: int := DigitsValue(unsigned, 10);
        Int(if negative then -v else v)
      else NaN
  }

  /** `Number(s)` for the spellings this model covers: blank text is 0, an
      optionally signed decimal integer is its value, `0x` followed by hex
      digits is its value; any other text is NaN. */
  function ToNumber(s: string): (r: Num)
  {
    TrimmedToNumber(Trim(s))
  }

  lemma {:induction false} DigitIsNotWhitespace(c: char)
    requires IsDigit(c)
    ensures !IsWhitespace(c)
  {
  }

  /** The decimal rendering of an integer has no surrounding whitespace. */
  lemma {:induction false} IntToStringTrimmed(n: int)
    ensures Trimmed(IntToString(n))
  {
    var s := IntToString(n);
    var d := NatToString(if n < 0 then -n else n);
    assert s[|s| - 1] == d[|d| - 1];
    DigitIsNotWhitespace(d[|d| - 1]);
    if n >= 0 {
      DigitIsNotWhitespace(d[0]);
    }
  }

  /** `parseInt` reads back every integer from its decimal rendering: the
      value of a select option equals the id it was rendered from. */
  lemma {:induction false} ParseIntRoundTrip(n: int)
    ensures ParseInt(IntToString(n)) == Int(n)
  {
    var m: nat := if n < 0 then -n else n;
    var d := NatToString(m);
    var s := IntToString(n);
    IntToStringTrimmed(n);
    TrimStartKeeps(s);
    assert (if n < 0 then s[1..] else s) == d;
    ParseUnsignedDecimal(d);
  }

  lemma {:induction false} TrimmedToNumberDecimal(d: string)
    requires |d| >= 1 && AllRadixDigits(d, 10)
    ensures TrimmedToNumber(d) == Int(DigitsValue(d, 10))
    ensures TrimmedToNumber("-" + d) == Int(-(DigitsValue(d, 10) as int))
  {
    assert !HasHexPrefix(d);
    var m := "-" + d;
    assert !HasHexPrefix(m);
    assert m[1..] == d;
  }

  /** `Number` likewise reads back every integer from its decimal rendering. */
  lemma {:induction false} ToNumberRoundTrip(n: int)
    ensures ToNumber(IntToString(n)) == Int(n)
  {
    IntToStringTrimmed(n);
    TrimOfTrimmed(IntToString(n));
    TrimmedToNumberDecimal(NatToString(if n < 0 then -n else n));
  }

  /** Blank text is falsy for `Number` (it becomes 0) and NaN for `parseInt`. */
  lemma {:induction false} EmptyText()
    ensures ToNumber("") == Int(0) && !Truthy(ToNumber(""))
    ensures ParseInt("") == NaN
  {
  }
}
