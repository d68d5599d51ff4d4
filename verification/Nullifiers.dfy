/** Numbers as strings: canonicalNullifier of eligibility/zkpassport.ts and resolveGrantLifetimeSeconds of authorization.ts. */
module Nullifiers {
  import opened Results

  const TWO_TO_256: nat := 0x1_0000000000000000_0000000000000000_0000000000000000_0000000000000000

  const MAX_GRANT_LIFETIME_SECONDS: nat := 900

  predicate IsDecimalDigit(c: char) { '0' <= c <= '9' }

  predicate IsHexDigit(c: char) { IsDecimalDigit(c) || 'a' <= c <= 'f' || 'A' <= c <= 'F' }

  function DigitValue(c: char): (v: nat)
    requires IsHexDigit(c)
    ensures v < 16 && (IsDecimalDigit(c) ==> v < 10)
  {
    if IsDecimalDigit(c) then c as int - '0' as int
    else if 'a' <= c <= 'f' then c as int - 'a' as int + 10
    else c as int - 'A' as int + 10
  }

  /** The number a row of digits stands for. */
  function ValueOf(digits: string, base: nat): nat
    requires forall i :: 0 <= i < |digits| ==> IsHexDigit(digits[i])
  {
    if digits == "" then 0 else ValueOf(digits[..|digits| - 1], base) * base + DigitValue(digits[|digits| - 1])
  }

  predicate AllDecimal(s: string) { forall i :: 0 <= i < |s| ==> IsDecimalDigit(s[i]) }

  predicate AllHex(s: string) { forall i :: 0 <= i < |s| ==> IsHexDigit(s[i]) }

  predicate IsHexLiteral(s: string) {
    3 <= |s| <= 66 && s[0] == '0' && s[1] == 'x' && AllHex(s[2..])
  }

  predicate IsDecimalLiteral(s: string) {
    1 <= |s| <= 78 && AllDecimal(s)
  }

  /** BigInt of what the pattern lets through. */
  function BigIntOf(s: string): nat
    requires IsHexLiteral(s) || IsDecimalLiteral(s)
  {
    if IsHexLiteral(s) then ValueOf(s[2..], 16) else ValueOf(s, 10)
  }

  /** The decimal digits of a number, without leading zeros. */
  function DecimalString(n: nat): (s: string)
    ensures |s| >= 1 && AllDecimal(s)
  {
    var last := [(n % 10 + '0' as int) as char];
    if n < 10 then last else DecimalString(n / 10) + last
  }

  predicate ValidNullifier(s: string) {
    (IsHexLiteral(s) || IsDecimalLiteral(s)) && 0 < BigIntOf(s) < TWO_TO_256
  }

  function CanonicalNullifier(value: string): Result<string> {
    if !(IsHexLiteral(value) || IsDecimalLiteral(value)) then Failure("INVALID_NULLIFIER")
    else
      var big := BigIntOf(value);
      if big <= 0 || big >= TWO_TO_256 then Failure("INVALID_NULLIFIER") else Success(DecimalString(big))
  }

  /** Printing and reading back gives the number. */
  lemma {:induction false} DecimalRoundTrip(n: nat)
    ensures ValueOf(DecimalString(n), 10) == n
    decreases n
  {
    var s := DecimalString(n);
    if n >= 10 {
      DecimalRoundTrip(n / 10);
      assert s[..|s| - 1] == DecimalString(n / 10);
    } else {
      assert s[..|s| - 1] == "";
    }
  }

  function Power10(k: nat): nat { if k == 0 then 1 else 10 * Power10(k - 1) }

  lemma {:induction false} DecimalLength(n: nat, k: nat)
    requires k >= 1 && n < Power10(k)
    ensures |DecimalString(n)| <= k
    decreases k
  {
    if n >= 10 {
      DecimalLength(n / 10, k - 1);
    }
  }

  lemma TenTimes(x: nat, y: nat)
    ensures 10 * (x * y) == (10 * x) * y
  {
  }

  lemma {:induction false} Power10Adds(j: nat, k: nat)
    ensures Power10(j + k) == Power10(j) * Power10(k)
  {
    if j > 0 {
      Power10Adds(j - 1, k);
      assert j + k - 1 == j - 1 + k;
      TenTimes(Power10(j - 1), Power10(k));
    }
  }

  /** Every accepted number has at most 78 digits. */
  lemma FitsIn78Digits(n: nat)
    requires n < TWO_TO_256
    ensures |DecimalString(n)| <= 78
  {
    hide DecimalString, Power10;
    Power10Of26();
    Power10Adds(26, 26);
    Power10Adds(52, 26);
    assert 26 + 26 == 52 && 52 + 26 == 78;
    DecimalLength(n, 78);
  }

  lemma Power10Of26()
    ensures Power10(26) == 100000000000000000000000000
  {
    assert Power10(13) == 10000000000000;
    Power10Adds(13, 13);
    assert 13 + 13 == 26;
  }

  /** Two encodings of a nullifier, hex or decimal, have the same canonical form exactly when they are the same number. */
  lemma CanonicalIffSameNumber(x: string, y: string)
    requires ValidNullifier(x) && ValidNullifier(y)
    ensures CanonicalNullifier(x).Success? && CanonicalNullifier(y).Success?
    ensures CanonicalNullifier(x) == CanonicalNullifier(y) <==> BigIntOf(x) == BigIntOf(y)
  {
    DecimalRoundTrip(BigIntOf(x));
    DecimalRoundTrip(BigIntOf(y));
  }

  /** A canonical form is accepted again and is its own canonical form. */
  lemma CanonicalIsCanonical(x: string)
    requires ValidNullifier(x)
    ensures var c := CanonicalNullifier(x).value;
            IsDecimalLiteral(c) && ValidNullifier(c) && BigIntOf(c) == BigIntOf(x) && CanonicalNullifier(c) == Success(c)
  {
    hide DecimalString, ValueOf;
    var c := DecimalString(BigIntOf(x));
    DecimalRoundTrip(BigIntOf(x));
    FitsIn78Digits(BigIntOf(x));
    assert |c| >= 2 ==> IsDecimalDigit(c[1]);
  }

  /** The lifetime from the environment: absent or empty for the default, else a plain decimal between 1 and the cap. */
  function ResolveGrantLifetimeSeconds(raw: Option<string>): (r: Result<nat>)
    ensures r.Success? ==> 1 <= r.value <= MAX_GRANT_LIFETIME_SECONDS
  {
    if raw.None? || raw.value == "" then Success(MAX_GRANT_LIFETIME_SECONDS)
    else if !AllDecimal(raw.value) then Failure("INVALID_GRANT_LIFETIME")
    else
      var value := ValueOf(raw.value, 10);
      if value <= 0 || value > MAX_GRANT_LIFETIME_SECONDS then Failure("INVALID_GRANT_LIFETIME") else Success(value)
  }

  /** Every lifetime up to the cap can be asked for, and nothing else. */
  lemma LifetimesAreOneToCap(n: nat)
    ensures ResolveGrantLifetimeSeconds(Some(DecimalString(n))) ==
      if 1 <= n <= MAX_GRANT_LIFETIME_SECONDS then Success(n) else Failure("INVALID_GRANT_LIFETIME")
  {
    DecimalRoundTrip(n);
  }
}
