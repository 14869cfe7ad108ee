/** The decimal strings that carry user ids between the services: strconv.FormatInt and
    fmt.Sprintf("%d") on one side, strconv.ParseInt(s, 10, 64) on the other. */
module Decimal {

  datatype Option<+T> = None | Some(value: T)

  const MIN_INT64 := -0x8000_0000_0000_0000
  const MAX_INT64 := 0x7fff_ffff_ffff_ffff

  predicate IsInt64(n: int) {
    MIN_INT64 <= n <= MAX_INT64
  }

  predicate IsDigit(c: char) {
    '0' <= c <= '9'
  }

  function DigitValue(c: char): nat
    requires IsDigit(c)
  {
    c as int - '0' as int
  }

  function Digits(n: nat): string {
    if n < 10 then ['0' + n as char] else Digits(n / 10) + ['0' + (n % 10) as char]
  }

  function Format(n: int): string {
    if n < 0 then "-" + Digits(-n) else Digits(n)
  }

  function Value(s: string): nat
    requires forall i :: 0 <= i < |s| ==> IsDigit(s[i])
  {
    if s == "" then 0 else 10 * Value(s[..|s| - 1]) + DigitValue(s[|s| - 1])
  }

  function Unsigned(s: string): Option<nat> {
    if s != "" && (forall i :: 0 <= i < |s| ==> IsDigit(s[i])) then Some(Value(s)) else None
  }

  /** One leading sign, then digits only; out of the 64-bit range is an error. */
  function ParseInt(s: string): Option<int> {
    if s == "" then None
    else
      var body := if s[0] == '-' || s[0] == '+' then s[1..] else s;
      match Unsigned(body)
      case None => None
      case Some(v) =>
        var n: int := if s[0] == '-' then 0 - v else v;
        if IsInt64(n) then Some(n) else None
  }

  lemma {:induction false} DigitsAreRead(n: nat)
    ensures Digits(n) != "" && (forall i :: 0 <= i < |Digits(n)| ==> IsDigit(Digits(n)[i])) && Value(Digits(n)) == n
  {
    if n >= 10 {
      DigitsAreRead(n / 10);
      var s := Digits(n);
      assert s[..|s| - 1] == Digits(n / 10);
    }
  }

  /** Every 64-bit integer is read back from its decimal string. */
  lemma ParseFormat(n: int)
    requires IsInt64(n)
    ensures ParseInt(Format(n)) == Some(n)
  {
    if n < 0 {
      DigitsAreRead(-n);
      assert Format(n)[1..] == Digits(-n);
      assert Unsigned(Digits(-n)) == Some(-n);
    } else {
      DigitsAreRead(n);
      assert IsDigit(Digits(n)[0]);
      assert Unsigned(Digits(n)) == Some(n);
    }
  }

  /** Different integers have different decimal strings. */
  lemma FormatIsInjective(m: int, n: int)
    requires Format(m) == Format(n)
    ensures m == n
  {
    DigitsAreRead(if m < 0 then -m else m);
    DigitsAreRead(if n < 0 then -n else n);
    assert IsDigit(Digits(if m < 0 then -m else m)[0]);
    assert IsDigit(Digits(if n < 0 then -n else n)[0]);
    if m < 0 {
      assert Format(m)[0] == '-';
      assert Format(m)[1..] == Digits(-m);
      assert Format(n)[1..] == Digits(-n);
    }
  }

  // ---- leading zeros

  function Zeros(k: int): string {
    if k <= 0 then "" else "0" + Zeros(k - 1)
  }

  lemma {:induction false} ZerosAre(k: nat)
    ensures |Zeros(k)| == k && forall i :: 0 <= i < k ==> Zeros(k)[i] == '0'
  {
    if k > 0 {
      ZerosAre(k - 1);
    }
  }

  lemma {:induction false} LeadingZero(s: string)
    requires forall i :: 0 <= i < |s| ==> IsDigit(s[i])
    ensures forall i :: 0 <= i < |"0" + s| ==> IsDigit(("0" + s)[i])
    ensures Value("0" + s) == Value(s)
  {
    if s != "" {
      var init := s[..|s| - 1];
      LeadingZero(init);
      assert ("0" + s)[..|s|] == "0" + init;
    } else {
      assert "0" + s == "0";
      assert "0"[..0] == "";
    }
  }

  lemma {:induction false} LeadingZeros(k: nat, s: string)
    requires forall i :: 0 <= i < |s| ==> IsDigit(s[i])
    ensures (forall i :: 0 <= i < |Zeros(k) + s| ==> IsDigit((Zeros(k) + s)[i])) && Value(Zeros(k) + s) == Value(s)
  {
    if k == 0 {
      assert Zeros(0) + s == s;
    } else {
      LeadingZeros(k - 1, s);
      LeadingZero(Zeros(k - 1) + s);
      assert Zeros(k) + s == "0" + (Zeros(k - 1) + s);
    }
  }

  lemma ZerosMore(k: nat)
    ensures Zeros(k) + "0" == Zeros(k + 1)
  {
    ZerosAre(k);
    ZerosAre(k + 1);
  }

  /** A digit string is the digits of its value behind some zeros. */
  lemma {:induction false} DigitsOfValue(s: string) returns (k: nat)
    requires s != "" && forall i :: 0 <= i < |s| ==> IsDigit(s[i])
    ensures s == Zeros(k) + Digits(Value(s))
    decreases |s|
  {
    var init, c := s[..|s| - 1], s[|s| - 1];
    assert s == init + [c];
    var last: char := '0' + DigitValue(c) as char;
    assert last == c;
    if init == "" {
      k := 0;
    } else {
      k := DigitsOfValue(init);
      if Value(init) == 0 {
        assert Digits(0) == "0";
        ZerosMore(k);
        k := k + 1;
      } else {
        assert Digits(Value(s)) == Digits(Value(init)) + [c];
      }
    }
  }

  /** A sign, zeros, and the digits of the number. */
  predicate IsSpelling(s: string, n: int, sign: string, k: nat) {
    && s == sign + (Zeros(k) + Digits(if n < 0 then -n else n))
    && (sign == "" || sign == "+" || sign == "-") && (n < 0 ==> sign == "-") && (n > 0 ==> sign != "-")
  }

  ghost predicate Spells(s: string, n: int) {
    exists sign: string, k: nat :: IsSpelling(s, n, sign, k)
  }

  /** ParseInt reads exactly the 64-bit integers, each from every way to spell it. */
  lemma ParseIntIff(s: string, n: int)
    ensures ParseInt(s) == Some(n) <==> IsInt64(n) && Spells(s, n)
  {
    if ParseInt(s) == Some(n) {
      ParsedIsSpelled(s, n);
    }
    if IsInt64(n) && Spells(s, n) {
      var sign: string, k: nat :| IsSpelling(s, n, sign, k);
      SpelledIsParsed(s, n, sign, k);
    }
  }

  lemma ParsedIsSpelled(s: string, n: int)
    requires ParseInt(s) == Some(n)
    ensures IsInt64(n) && Spells(s, n)
  {
    var signed := s[0] == '-' || s[0] == '+';
    var body := if signed then s[1..] else s;
    var sign := if signed then [s[0]] else "";
    assert s == sign + body;
    var k := DigitsOfValue(body);
    assert IsSpelling(s, n, sign, k);
  }

  lemma BodyIsRead(k: nat, m: nat)
    ensures var body := Zeros(k) + Digits(m); body != "" && IsDigit(body[0]) && Unsigned(body) == Some(m)
  {
    DigitsAreRead(m);
    LeadingZeros(k, Digits(m));
  }

  lemma SpelledIsParsed(s: string, n: int, sign: string, k: nat)
    requires IsInt64(n) && IsSpelling(s, n, sign, k)
    ensures ParseInt(s) == Some(n)
  {
    var m := if n < 0 then -n else n;
    var body := Zeros(k) + Digits(m);
    BodyIsRead(k, m);
    if sign == "" {
      assert s == body;
    } else {
      assert s == sign + body && s[0] == sign[0] && s[1..] == body;
    }
  }
}
