/** Printing wei as a decimal number of ether, and reading such a number back. */
module Ether {
  import opened Wrappers

  const DECIMALS: nat := 18
  const U256_LIMIT: nat := 0x1_0000000000000000_0000000000000000_0000000000000000_0000000000000000

  datatype ParseError = InvalidAmount | NotANumber | Overflow

  // ---------------------------------------------------------------- decimal strings

  predicate IsDigit(c: char) { '0' <= c <= '9' }

  predicate AllDigits(s: string) {
    forall i :: 0 <= i < |s| ==> IsDigit(s[i])
  }

  /** A number followed by `n` decimal zeros. */
  function Shift(x: nat, n: nat): nat {
    if n == 0 then x else 10 * Shift(x, n - 1)
  }

  function Value(s: string): nat
    requires AllDigits(s)
  {
    if s == [] then 0
    else 10 * Value(s[..|s| - 1]) + ((s[|s| - 1] as int) - ('0' as int))
  }

  function Digits(n: nat): string {
    var last := [((n % 10) + ('0' as int)) as char];
    if n < 10 then last else Digits(n / 10) + last
  }

  function Zeros(n: nat): string {
    if n == 0 then "" else Zeros(n - 1) + "0"
  }

  function TrimEnd(s: string, c: char): string {
    if s != [] && s[|s| - 1] == c then TrimEnd(s[..|s| - 1], c) else s
  }

  function SplitDots(s: string): (parts: seq<string>)
    ensures |parts| > 0
  {
    if s == [] then [[]]
    else
      var rest := SplitDots(s[1..]);
      if s[0] == '.' then [[]] + rest else [[s[0]] + rest[0]] + rest[1..]
  }

  // ---------------------------------------------------------------- the two functions

  function FormatUnits(amount: nat, places: nat): string {
    var s := Digits(amount);
    if |s| <= places then "0." + (Zeros(places - |s|) + s)
    else
      var cut := |s| - places;
      s[..cut] + "." + TrimEnd(TrimEnd(s[cut..], '0'), '.')
  }

  /** The number parser: decimal strings by value, others as `other` says. */
  function FromString(s: string, limit: nat, other: string -> Result<nat, ParseError>): Result<nat, ParseError> {
    if AllDigits(s) then InRange(Value(s), limit) else other(s)
  }

  function InRange(v: nat, limit: nat): Result<nat, ParseError> {
    if v < limit then Ok(v) else Err(Overflow)
  }

  function ParseUnits(amount: string, places: nat, limit: nat, other: string -> Result<nat, ParseError>)
    : Result<nat, ParseError>
  {
    var parts := SplitDots(amount);
    if |parts| == 1 then FromString(parts[0] + Zeros(places), limit, other)
    else if |parts| > 2 then Err(InvalidAmount)
    else if |parts[1]| > places then Err(InvalidAmount)
    else FromString(parts[0] + parts[1] + Zeros(places - |parts[1]|), limit, other)
  }

  function FormatEther(wei: nat): string {
    FormatUnits(wei, DECIMALS)
  }

  function ParseEther(amount: string, other: string -> Result<nat, ParseError>): Result<nat, ParseError> {
    ParseUnits(amount, DECIMALS, U256_LIMIT, other)
  }

  // ---------------------------------------------------------------- arithmetic of strings

  lemma {:induction false} ValueOfDigits(n: nat)
    ensures AllDigits(Digits(n)) && Value(Digits(n)) == n
  {
    if n >= 10 {
      ValueOfDigits(n / 10);
      var s := Digits(n);
      assert s[..|s| - 1] == Digits(n / 10);
    }
  }

  lemma {:induction false} ShiftZero(n: nat)
    ensures Shift(0, n) == 0
  {
    if n > 0 { ShiftZero(n - 1); }
  }

  lemma {:induction false} ValueOfConcat(a: string, b: string)
    requires AllDigits(a) && AllDigits(b)
    ensures AllDigits(a + b) && Value(a + b) == Shift(Value(a), |b|) + Value(b)
  {
    if b == [] {
      assert a + b == a;
    } else {
      var n := |b| - 1;
      ValueOfConcat(a, b[..n]);
      assert (a + b)[..|a + b| - 1] == a + b[..n];
    }
  }

  lemma {:induction false} ZerosAreZero(n: nat)
    ensures |Zeros(n)| == n && AllDigits(Zeros(n)) && Value(Zeros(n)) == 0
  {
    if n > 0 {
      ZerosAreZero(n - 1);
      assert Zeros(n)[..n - 1] == Zeros(n - 1);
    }
  }

  lemma {:induction false} TrimmedZeros(s: string)
    ensures |TrimEnd(s, '0')| <= |s|
    ensures s == TrimEnd(s, '0') + Zeros(|s| - |TrimEnd(s, '0')|)
  {
    if s != [] && s[|s| - 1] == '0' {
      var n := |s| - 1;
      TrimmedZeros(s[..n]);
      assert s == s[..n] + "0";
    }
  }

  predicate NoDot(s: string) {
    forall i :: 0 <= i < |s| ==> s[i] != '.'
  }

  lemma {:induction false} NoDotNoSplit(s: string)
    requires NoDot(s)
    ensures SplitDots(s) == [s]
  {
    if s != [] {
      NoDotNoSplit(s[1..]);
      assert s == [s[0]] + s[1..];
    }
  }

  lemma {:induction false} OneDotTwoParts(a: string, b: string)
    requires NoDot(a) && NoDot(b)
    ensures SplitDots(a + "." + b) == [a, b]
  {
    var s := a + "." + b;
    if a == [] {
      assert s[1..] == b;
      NoDotNoSplit(b);
    } else {
      assert s[1..] == a[1..] + "." + b;
      OneDotTwoParts(a[1..], b);
      assert a == [a[0]] + a[1..];
    }
  }

  // ---------------------------------------------------------------- meaning and round trip

  /** The amount that a decimal number with an integer and a fractional part denotes. */
  function Amount(a: string, b: string, places: nat): nat
    requires AllDigits(a) && AllDigits(b) && |b| <= places
  {
    Shift(Value(a), places) + Shift(Value(b), places - |b|)
  }

  lemma PaddedValue(a: string, b: string, places: nat)
    requires AllDigits(a) && AllDigits(b) && |b| <= places
    ensures AllDigits(a + b + Zeros(places - |b|))
    ensures Value(a + b + Zeros(places - |b|)) == Amount(a, b, places)
  {
    var pad := places - |b|;
    ZerosAreZero(pad);
    ValueOfConcat(b, Zeros(pad));
    ValueOfConcat(a, b + Zeros(pad));
    assert a + b + Zeros(pad) == a + (b + Zeros(pad));
  }

  lemma ParseInteger(a: string, places: nat, limit: nat, other: string -> Result<nat, ParseError>)
    requires AllDigits(a)
    ensures ParseUnits(a, places, limit, other) == InRange(Shift(Value(a), places), limit)
  {
    NoDotNoSplit(a);
    ZerosAreZero(places);
    ValueOfConcat(a, Zeros(places));
  }

  lemma ParseFraction(a: string, b: string, places: nat, limit: nat, other: string -> Result<nat, ParseError>)
    requires AllDigits(a) && AllDigits(b)
    ensures ParseUnits(a + "." + b, places, limit, other) ==
            if |b| <= places then InRange(Amount(a, b, places), limit) else Err(InvalidAmount)
  {
    OneDotTwoParts(a, b);
    var parts := SplitDots(a + "." + b);
    assert |parts| == 2 && parts[0] == a && parts[1] == b;
    if |b| <= places { PaddedValue(a, b, places); }
  }

  /** A decimal number is read exactly, with or without a point; more places than
      there are is an error. */
  lemma ParseMeans(a: string, b: string, places: nat, limit: nat, other: string -> Result<nat, ParseError>)
    requires AllDigits(a) && AllDigits(b)
    ensures ParseUnits(a, places, limit, other) == InRange(Shift(Value(a), places), limit)
    ensures ParseUnits(a + "." + b, places, limit, other) ==
            if |b| <= places then InRange(Amount(a, b, places), limit) else Err(InvalidAmount)
  {
    ParseInteger(a, places, limit, other);
    ParseFraction(a, b, places, limit, other);
  }

  /** The dots of a string, and so the parts it splits into. */
  lemma {:induction false} SplitCounts(s: string)
    ensures |SplitDots(s)| == multiset(s)['.'] + 1
  {
    if s != [] {
      SplitCounts(s[1..]);
      assert s == [s[0]] + s[1..];
    }
  }

  /** Two points or more are always an error. */
  lemma ManyDotsRejected(s: string, places: nat, limit: nat, other: string -> Result<nat, ParseError>)
    requires multiset(s)['.'] >= 2
    ensures ParseUnits(s, places, limit, other) == Err(InvalidAmount)
  {
    SplitCounts(s);
  }

  /** Below one unit: padded on the left to all the decimals. */
  lemma PaddedOnLeft(s: string, places: nat)
    requires AllDigits(s) && |s| <= places
    ensures var b := Zeros(places - |s|) + s;
            |b| == places && AllDigits(b) && Amount("0", b, places) == Value(s)
  {
    var zeros := Zeros(places - |s|);
    ZerosAreZero(places - |s|);
    ValueOfConcat(zeros, s);
    ShiftZero(|s|);
    assert Value(zeros + s) == Value(s);
    assert Value("0") == 0;
    ShiftZero(places);
  }

  /** From one unit on: cut before the decimals, whose trailing zeros go. */
  lemma TrimmedOnRight(s: string, places: nat)
    requires AllDigits(s) && |s| > places
    ensures var a, b := s[..|s| - places], TrimEnd(s[|s| - places..], '0');
            && AllDigits(a) && AllDigits(b) && |b| <= places
            && TrimEnd(b, '.') == b && Amount(a, b, places) == Value(s)
  {
    var cut := |s| - places;
    var a, tail := s[..cut], s[cut..];
    var b := TrimEnd(tail, '0');
    TrimmedZeros(tail);
    assert forall i :: 0 <= i < |b| ==> b[i] == tail[i];
    PaddedValue(a, b, places);
    assert a + b + Zeros(places - |b|) == a + tail == s;
  }

  /** What is printed, for every amount: an integer part and at most `places` decimals
      that together denote the amount. */
  lemma FormatMeans(amount: nat, places: nat) returns (a: string, b: string)
    ensures AllDigits(a) && AllDigits(b) && |b| <= places
    ensures FormatUnits(amount, places) == a + "." + b
    ensures Amount(a, b, places) == amount
  {
    PartsPrinted(amount, places);
    var parts := PartsOf(Digits(amount), places);
    a, b := parts.0, parts.1;
  }

  /** Reading back what was printed gives the amount. */
  lemma UnitsRoundTrip(amount: nat, places: nat, limit: nat, other: string -> Result<nat, ParseError>)
    requires amount < limit
    ensures ParseUnits(FormatUnits(amount, places), places, limit, other) == Ok(amount)
  {
    var a, b := FormatMeans(amount, places);
    ParseMeans(a, b, places, limit, other);
  }

  lemma EtherRoundTrip(wei: nat, other: string -> Result<nat, ParseError>)
    requires wei < U256_LIMIT
    ensures ParseEther(FormatEther(wei), other) == Ok(wei)
  {
    UnitsRoundTrip(wei, DECIMALS, U256_LIMIT, other);
  }

  // ---------------------------------------------------------------- the exact strings

  lemma {:induction false} DigitsLength(n: nat, k: nat)
    requires k > 0
    ensures |Digits(n)| <= k <==> n < Shift(1, k)
  {
    if k == 1 {
      assert Shift(1, 1) == 10;
    } else if n >= 10 {
      DigitsLength(n / 10, k - 1);
      TenFold(n, Shift(1, k - 1));
    } else {
      PowAtLeast(k);
    }
  }

  lemma TenFold(n: nat, p: nat)
    ensures n / 10 < p <==> n < 10 * p
  {
  }

  lemma {:induction false} PowAtLeast(k: nat)
    requires k > 0
    ensures Shift(1, k) >= 10
  {
    if k > 1 { PowAtLeast(k - 1); }
  }

  lemma {:induction false} NoLeadingZero(n: nat)
    requires n > 0
    ensures Digits(n)[0] != '0'
  {
    if n >= 10 { NoLeadingZero(n / 10); }
  }

  lemma {:induction false} NoTrailingZero(s: string)
    ensures TrimEnd(s, '0') == "" || TrimEnd(s, '0')[|TrimEnd(s, '0')| - 1] != '0'
  {
    if s != [] && s[|s| - 1] == '0' { NoTrailingZero(s[..|s| - 1]); }
  }

  /** The parts the string is printed from. */
  function PartsOf(s: string, places: nat): (string, string) {
    if |s| <= places then ("0", Zeros(places - |s|) + s)
    else (s[..|s| - places], TrimEnd(s[|s| - places..], '0'))
  }

  lemma PartsPrinted(amount: nat, places: nat)
    ensures var (a, b) := PartsOf(Digits(amount), places);
      && AllDigits(a) && AllDigits(b) && |b| <= places
      && FormatUnits(amount, places) == a + "." + b && Amount(a, b, places) == amount
  {
    var s := Digits(amount);
    ValueOfDigits(amount);
    if |s| <= places {
      PaddedOnLeft(s, places);
      var b := Zeros(places - |s|) + s;
      assert "0." + b == "0" + "." + b;
    } else {
      TrimmedOnRight(s, places);
    }
  }

  lemma PartsShape(amount: nat, places: nat)
    requires places > 0
    ensures var (a, b) := PartsOf(Digits(amount), places);
      && (amount < Shift(1, places) ==> a == "0" && |b| == places)
      && (amount >= Shift(1, places) ==> a != "" && a[0] != '0' && (b == "" || b[|b| - 1] != '0'))
  {
    var s := Digits(amount);
    DigitsLength(amount, places);
    PowAtLeast(places);
    if |s| <= places {
      ZerosAreZero(places - |s|);
    } else {
      NoLeadingZero(amount);
      NoTrailingZero(s[|s| - places..]);
    }
  }

  /** The printed string itself: below one unit a zero and all the decimals, from one
      unit on no leading zero and no trailing zero. */
  lemma FormatShape(amount: nat, places: nat) returns (a: string, b: string)
    requires places > 0
    ensures AllDigits(a) && AllDigits(b) && |b| <= places
    ensures FormatUnits(amount, places) == a + "." + b && Amount(a, b, places) == amount
    ensures amount < Shift(1, places) ==> a == "0" && |b| == places
    ensures amount >= Shift(1, places) ==> a != "" && a[0] != '0' && (b == "" || b[|b| - 1] != '0')
  {
    PartsPrinted(amount, places);
    PartsShape(amount, places);
    var parts := PartsOf(Digits(amount), places);
    a, b := parts.0, parts.1;
  }

  lemma ShiftThree(x: nat, n: nat)
    ensures Shift(x, n + 3) == 1_000 * Shift(x, n)
  {
    assert Shift(x, n + 1) == 10 * Shift(x, n);
    assert Shift(x, n + 2) == 10 * Shift(x, n + 1);
    assert Shift(x, n + 3) == 10 * Shift(x, n + 2);
  }

  lemma ShiftEighteen(x: nat)
    ensures Shift(x, 18) == x * 1_000_000_000_000_000_000
  {
    ShiftThree(x, 0);
    ShiftThree(x, 3);
    ShiftThree(x, 6);
    ShiftThree(x, 9);
    ShiftThree(x, 12);
    ShiftThree(x, 15);
  }

  /** One ether is 10^18 wei, in the integers and in the fractions. */
  lemma AmountOfEther(a: string, b: string, places: nat)
    requires AllDigits(a) && AllDigits(b) && |b| <= places && places == 18
    ensures Shift(Value(a), places) == Value(a) * 1_000_000_000_000_000_000
    ensures Amount(a, b, places) == Value(a) * 1_000_000_000_000_000_000 + Shift(Value(b), places - |b|)
  {
    ShiftEighteen(Value(a));
  }

  lemma EtherMeans(a: string, b: string, other: string -> Result<nat, ParseError>)
    requires AllDigits(a) && AllDigits(b)
    ensures ParseEther(a, other) == InRange(Shift(Value(a), 18), U256_LIMIT)
    ensures ParseEther(a + "." + b, other) ==
      if |b| > 18 then Err(InvalidAmount) else InRange(Amount(a, b, 18), U256_LIMIT)
  {
    ParseMeans(a, b, DECIMALS, U256_LIMIT, other);
  }

  /** Amounts fit in 256 bits. */
  lemma EtherLimit(v: nat)
    ensures InRange(v, U256_LIMIT) ==
      if v < 0x1_0000000000000000_0000000000000000_0000000000000000_0000000000000000 then Ok(v) else Err(Overflow)
  {
  }

  lemma EtherShape(wei: nat) returns (a: string, b: string)
    ensures AllDigits(a) && AllDigits(b) && |b| <= 18 && FormatEther(wei) == a + "." + b
    ensures wei < 1_000_000_000_000_000_000 ==> a == "0" && |b| == 18
    ensures wei >= 1_000_000_000_000_000_000 ==> a != "" && a[0] != '0' && (b == "" || b[|b| - 1] != '0')
  {
    ShiftEighteen(1);
    a, b := FormatShape(wei, DECIMALS);
  }

  /** Parts that are not decimal go to the number parser joined and padded. */
  lemma OtherParts(a: string, b: string, places: nat, limit: nat, other: string -> Result<nat, ParseError>)
    requires NoDot(a) && NoDot(b)
    ensures !AllDigits(a + Zeros(places)) ==> ParseUnits(a, places, limit, other) == other(a + Zeros(places))
    ensures |b| > places ==> ParseUnits(a + "." + b, places, limit, other) == Err(InvalidAmount)
    ensures |b| <= places && !AllDigits(a + b + Zeros(places - |b|)) ==>
      ParseUnits(a + "." + b, places, limit, other) == other(a + b + Zeros(places - |b|))
  {
    NoDotNoSplit(a);
    OneDotTwoParts(a, b);
  }
}
