/** Java's 32-bit `int` and its decimal text form: `Integer.parseInt`, which
    the merge uses to read integer lines, and `Integer.toString`, which
    `PrintWriter.println(int)` uses to write them. */
module Int32Text {
  import opened Wrappers

  const MIN_VALUE: int := -0x8000_0000
  const MAX_VALUE: int := 0x7fff_ffff

  newtype int32 = x: int | -0x8000_0000 <= x <= 0x7fff_ffff

  predicate IsDigit(c: char) {
    '0' <= c <= '9'
  }

  predicate AllDigits(s: string) {
    forall i :: 0 <= i < |s| ==> IsDigit(s[i])
  }

  function DigitValue(c: char): (d: int)
    requires IsDigit(c)
    ensures 0 <= d <= 9
  {
    c as int - '0' as int
  }

  /** The value of a string of decimal digits, most significant digit first. */
  function DigitsValue(s: string): (n: int)
    requires AllDigits(s)
    ensures n >= 0
  {
    if s == [] then 0 else 10 * DigitsValue(s[..|s| - 1]) + DigitValue(s[|s| - 1])
  }

  /** The digits of `s` after an optional leading sign. */
  function Unsigned(s: string): string {
    if |s| > 0 && (s[0] == '+' || s[0] == '-') then s[1..] else s
  }

  /** The value that optional sign and digits denote. */
  function DecimalValue(s: string): int
    requires AllDigits(Unsigned(s))
  {
    if |s| > 0 && s[0] == '-' then -DigitsValue(Unsigned(s)) else DigitsValue(Unsigned(s))
  }

  /** The reference definition of a parseable line: an optional `+` or `-`,
      a non-empty run of ASCII digits, and a value in the `int` range. */
  predicate IsDecimalInt32(s: string) {
    && |Unsigned(s)| > 0
    && AllDigits(Unsigned(s))
    && MIN_VALUE <= DecimalValue(s) <= MAX_VALUE
  }

  /** `limit / 10` rounded toward zero, as Java's integer division rounds;
      the same for both limits that `Integer.parseInt` uses. */
  function MultMin(limit: int): int {
    -((-limit) / 10)
  }

  /** The digit loop of `Integer.parseInt`. The value read so far is kept
      NEGATED in `result` (so that `MIN_VALUE` fits), and each step rejects
      a non-digit, or a value that would pass `limit` (checked before the
      multiplication and again before the subtraction, so that no Java
      `int` operation overflows). */
  function Accumulate(s: string, i: nat, result: int, limit: int): (r: Option<int>)
    requires i <= |s|
    requires limit == MIN_VALUE || limit == -MAX_VALUE
    requires limit <= result <= 0
    ensures r.Some? ==> limit <= r.value <= 0
    decreases |s| - i
  {
    if i == |s| then Some(result)
    else if !IsDigit(s[i]) || result < MultMin(limit) then None
    else
      var digit := DigitValue(s[i]);
      var scaled := result * 10;
      if scaled < limit + digit then None
      else Accumulate(s, i + 1, scaled - digit, limit)
  }

  /** `Integer.parseInt(s)` with radix 10: `None` stands for the
      `NumberFormatException`. A first character below `'0'` must be a sign
      and may not stand alone; the limit is `MIN_VALUE` for a negative
      number and `-MAX_VALUE` otherwise. */
  function ParseInt(s: string): (r: Option<int32>) {
    if |s| == 0 then None
    else if s[0] < '0' then
      if s[0] != '-' && s[0] != '+' then None
      else if |s| == 1 then None
      else
        var negative := s[0] == '-';
        var limit := if negative then MIN_VALUE else -MAX_VALUE;
        match Accumulate(s, 1, 0, limit)
        case None => None
        case Some(result) => Some((if negative then result else -result) as int32)
    else
      match Accumulate(s, 0, 0, -MAX_VALUE)
      case None => None
      case Some(result) => Some((-result) as int32)
  }

  function DigitChar(d: int): char
    requires 0 <= d <= 9
  {
    ('0' as int + d) as char
  }

  /** The decimal digits of `n`, without leading zeros. */
  function Digits(n: nat): (s: string)
    ensures |s| > 0 && AllDigits(s)
  {
    if n < 10 then [DigitChar(n)] else Digits(n / 10) + [DigitChar(n % 10)]
  }

  /** `Integer.toString(x)`, the text `println(int)` writes. */
  function ToString(x: int32): string {
    if x < 0 then "-" + Digits(-(x as int)) else Digits(x as int)
  }

  /** A longer run of digits is worth at least as much as its prefix. */
  lemma {:induction false} DigitsValuePrefix(t: string, m: nat)
    requires AllDigits(t) && m <= |t|
    ensures DigitsValue(t[..m]) <= DigitsValue(t)
  {
    if m < |t| {
      var t' := t[..|t| - 1];
      assert t'[..m] == t[..m];
      DigitsValuePrefix(t', m);
    } else {
      assert t[..m] == t;
    }
  }

  /** The digit loop, started at `start` and now at `i`, ends with minus the
      value of all digits from `start` on if they all are digits and that
      value does not pass `-limit`, and fails otherwise. */
  lemma {:induction false} AccumulateValue(s: string, start: nat, i: nat, limit: int)
    requires start <= i <= |s|
    requires limit == MIN_VALUE || limit == -MAX_VALUE
    requires AllDigits(s[start..i]) && DigitsValue(s[start..i]) <= -limit
    ensures Accumulate(s, i, -DigitsValue(s[start..i]), limit)
         == if AllDigits(s[start..]) && DigitsValue(s[start..]) <= -limit
            then Some(-DigitsValue(s[start..])) else None
    decreases |s| - i
  {
    if i == |s| {
      assert s[start..i] == s[start..];
    } else if !IsDigit(s[i]) {
      NonDigitRejects(s, start, i);
    } else {
      DigitsStep(s, start, i);
      StepRejects(DigitsValue(s[start..i]), DigitValue(s[i]), limit);
      if DigitsValue(s[start..i + 1]) > -limit {
        OverflowRejects(s, start, i, limit);
      } else {
        AccumulateValue(s, start, i + 1, limit);
      }
    }
  }

  lemma NonDigitRejects(s: string, start: nat, i: nat)
    requires start <= i < |s| && !IsDigit(s[i])
    ensures !AllDigits(s[start..])
  {
    assert s[start..][i - start] == s[i];
  }

  /** One more digit: ten times the value so far, plus the digit. */
  lemma DigitsStep(s: string, start: nat, i: nat)
    requires start <= i < |s| && AllDigits(s[start..i]) && IsDigit(s[i])
    ensures AllDigits(s[start..i + 1])
    ensures DigitsValue(s[start..i + 1]) == 10 * DigitsValue(s[start..i]) + DigitValue(s[i])
  {
    var next := s[start..i + 1];
    assert |next| == i + 1 - start && next[i - start] == s[i];
    assert next[..|next| - 1] == s[start..i];
  }

  /** Once a prefix of the digits passes `-limit`, so does all of them. */
  lemma OverflowRejects(s: string, start: nat, i: nat, limit: int)
    requires start <= i < |s| && AllDigits(s[start..i + 1]) && DigitsValue(s[start..i + 1]) > -limit
    ensures !(AllDigits(s[start..]) && DigitsValue(s[start..]) <= -limit)
  {
    if AllDigits(s[start..]) {
      assert s[start..][..i + 1 - start] == s[start..i + 1];
      DigitsValuePrefix(s[start..], i + 1 - start);
    }
  }

  /** The two overflow checks of one digit step reject exactly the values
      that would pass `-limit`. */
  lemma StepRejects(v: int, d: int, limit: int)
    requires limit == MIN_VALUE || limit == -MAX_VALUE
    requires 0 <= v <= -limit && 0 <= d <= 9
    ensures (-v < MultMin(limit) || -v * 10 < limit + d) <==> 10 * v + d > -limit
  {
    assert MultMin(limit) == -214748364;
  }

  /** `Integer.parseInt` succeeds exactly on the reference form, and then
      returns the value the text denotes. */
  lemma ParseIntIsDecimal(s: string)
    ensures ParseInt(s).Some? <==> IsDecimalInt32(s)
    ensures ParseInt(s).Some? ==> ParseInt(s).value as int == DecimalValue(s)
  {
    if |s| == 0 {
    } else if s[0] < '0' {
      if (s[0] == '-' || s[0] == '+') && |s| > 1 {
        var limit := if s[0] == '-' then MIN_VALUE else -MAX_VALUE;
        assert s[1..1] == [];
        AccumulateValue(s, 1, 1, limit);
      }
    } else {
      assert s[0..0] == [] && s[0..] == s;
      AccumulateValue(s, 0, 0, -MAX_VALUE);
    }
  }

  lemma {:induction false} DigitsRoundTrip(n: nat)
    ensures DigitsValue(Digits(n)) == n
  {
    if n >= 10 {
      var s := Digits(n);
      assert s[..|s| - 1] == Digits(n / 10);
      DigitsRoundTrip(n / 10);
    }
  }

  /** Reading back what `println(int)` writes gives the same number. */
  lemma ParseToString(x: int32)
    ensures ParseInt(ToString(x)) == Some(x)
  {
    var s := ToString(x);
    if x < 0 {
      assert Unsigned(s) == Digits(-(x as int));
      DigitsRoundTrip(-(x as int));
    } else {
      assert Unsigned(s) == s;
      DigitsRoundTrip(x as int);
    }
    ParseIntIsDecimal(s);
  }
}
