/** Decimal integers as `strconv.Atoi` reads them and `%d` prints them, on a
    64-bit `int`. */
module Numbers {
  import opened Base

  const MAX_INT := 0x7FFF_FFFF_FFFF_FFFF
  const MIN_INT := -0x8000_0000_0000_0000

  predicate IsInt(n: int) {
    MIN_INT <= n <= MAX_INT
  }

  predicate IsDigit(c: char) {
    '0' <= c <= '9'
  }

  predicate Digits(s: string) {
    s != "" && forall i :: 0 <= i < |s| ==> IsDigit(s[i])
  }

  function Value(s: string): nat
    requires forall i :: 0 <= i < |s| ==> IsDigit(s[i])
  {
    if s == "" then 0
    else
      assert IsDigit(s[|s| - 1]);
      10 * Value(s[..|s| - 1]) + (s[|s| - 1] as int - '0' as int)
  }

  /** An optional sign, then decimal digits, in range. */
  function Atoi(s: string): Option<int> {
    var signed := s != "" && s[0] in "+-";
    var digits := if signed then s[1..] else s;
    if !Digits(digits) then None
    else
      var magnitude: int := Value(digits);
      var n := if signed && s[0] == '-' then -magnitude else magnitude;
      if IsInt(n) then Some(n) else None
  }

  function Decimal(n: nat): string {
    var last := [('0' as int + n % 10) as char];
    if n < 10 then last else Decimal(n / 10) + last
  }

  function Itoa(n: int): string {
    if n < 0 then "-" + Decimal(-n) else Decimal(n)
  }

  lemma {:induction false} DecimalReadsBack(n: nat)
    ensures Digits(Decimal(n))
    ensures Value(Decimal(n)) == n
  {
    if n >= 10 {
      DecimalReadsBack(n / 10);
      var s := Decimal(n);
      assert s[..|s| - 1] == Decimal(n / 10);
    }
  }

  /** No leading zero, and a sign on a negative number alone. */
  lemma {:induction false} DecimalIsPlain(n: nat)
    ensures Decimal(n) != "" && (n == 0 ==> Decimal(n) == "0") && (n > 0 ==> Decimal(n)[0] != '0')
    ensures IsDigit(Decimal(n)[0])
  {
    if n >= 10 { DecimalIsPlain(n / 10); }
  }

  lemma ItoaIsPlain(n: int)
    ensures Itoa(n) != "" && (Itoa(n)[0] == '-' <==> n < 0)
    ensures var digits := if n < 0 then Itoa(n)[1..] else Itoa(n);
            digits == "0" || (Digits(digits) && digits[0] != '0')
  {
    DecimalIsPlain(if n < 0 then -n else n);
    DecimalReadsBack(if n < 0 then -n else n);
  }

  lemma AtoiOfDigits(d: string)
    requires Digits(d)
    ensures Atoi(d) == if Value(d) <= MAX_INT then Some(Value(d)) else None
    ensures Atoi("-" + d) == if Value(d) <= MAX_INT + 1 then Some(-(Value(d) as int)) else None
  {
  }

  /** A plus sign changes nothing, leading zeros change nothing, and nothing but
      digits behind at most one sign is read. */
  lemma AtoiReads(s: string, d: string)
    ensures Digits(d) ==> Atoi("+" + d) == Atoi(d) && Atoi("0" + d) == Atoi(d)
    ensures Atoi(s).Some? ==> Digits(s) || (s != "" && s[0] in "+-" && Digits(s[1..]))
  {
    if Digits(d) {
      assert ("+" + d)[1..] == d;
      ZeroInFront(d);
    }
  }

  lemma {:induction false} ZeroInFront(d: string)
    requires forall i :: 0 <= i < |d| ==> IsDigit(d[i])
    ensures Value("0" + d) == Value(d)
  {
    if d == "" {
      assert "0"[..0] == "";
    } else {
      ZeroInFront(d[..|d| - 1]);
      assert ("0" + d)[..|d|] == "0" + d[..|d| - 1];
    }
  }

  lemma AtoiReadsBack(n: int)
    ensures Atoi(Itoa(n)) == if IsInt(n) then Some(n) else None
    ensures Itoa(n) != "" && '@' !in Itoa(n)
  {
    hide Value, Decimal, Atoi;
    var d := Decimal(if n < 0 then -n else n);
    DecimalReadsBack(if n < 0 then -n else n);
    AtoiOfDigits(d);
  }
}
