/** Printing and parsing the version of the operating system. */
module OsInfo {
  import opened Sequences
  import opened Text

  const MAX_INT: int := 0x7FFF_FFFF_FFFF_FFFF
  const MIN_INT: int := -0x8000_0000_0000_0000

  predicate IsInt(i: int) { MIN_INT <= i <= MAX_INT }

  datatype Ver = Ver(major: int, minor: int, patch: int, length: int)

  // ---------- Decimal numbers ----------

  function Digits(n: nat): string {
    if n < 10 then ['0' + n as char] else Digits(n / 10) + ['0' + (n % 10) as char]
  }

  function Print(i: int): string { if i < 0 then "-" + Digits(-i) else Digits(i) }

  predicate IsDigit(c: char) { '0' <= c <= '9' }

  function DigitValue(c: char): nat
    requires IsDigit(c)
  {
    c as int - '0' as int
  }

  /** The value of a run of digits; None when something else is in it. */
  function Value(s: string): Option<nat> {
    if s == "" then Some(0)
    else
      var front := Value(s[..|s| - 1]);
      if front.None? || !IsDigit(s[|s| - 1]) then None
      else Some(10 * front.value + DigitValue(s[|s| - 1]))
  }

  /** strconv.Atoi: an optional sign, at least one digit, and a value that fits. */
  function Atoi(s: string): Option<int> {
    var signed := s != "" && (s[0] == '-' || s[0] == '+');
    var digits := if signed then s[1..] else s;
    if digits == "" || Value(digits).None? then None
    else
      var n: int := if signed && s[0] == '-' then 0 - Value(digits).value else Value(digits).value;
      if IsInt(n) then Some(n) else None
  }

  lemma {:induction false} ValueOfDigits(n: nat)
    ensures Digits(n) != "" && Value(Digits(n)) == Some(n)
    ensures forall c | c in Digits(n) :: IsDigit(c)
  {
    if n >= 10 {
      ValueOfDigits(n / 10);
      assert Digits(n)[..|Digits(n)| - 1] == Digits(n / 10);
    } else {
      assert Digits(n)[..0] == "";
    }
  }

  lemma AtoiPrint(i: int)
    requires IsInt(i)
    ensures Atoi(Print(i)) == Some(i) && '.' !in Print(i)
  {
    var n := if i < 0 then -i else i;
    ValueOfDigits(n);
    assert Digits(n)[0] in Digits(n);
    assert ("-" + Digits(n))[1..] == Digits(n);
  }

  function Zeros(k: nat): string { seq(k, _ => '0') }

  /** The digits of n, behind any number of zeros. */
  ghost predicate Padded(s: string, n: nat) { exists k: nat :: s == Zeros(k) + Digits(n) }

  /** A decimal numeral of n: padded digits, behind a plus sign or none, or a minus sign. */
  ghost predicate IsNumeral(s: string, n: int) {
    || (n >= 0 && Padded(s, n))
    || (n >= 0 && s != "" && s[0] == '+' && Padded(s[1..], n))
    || (n <= 0 && s != "" && s[0] == '-' && Padded(s[1..], -n))
  }

  lemma {:induction false} ZerosDoNotCount(k: nat, s: string)
    ensures Value(Zeros(k) + s) == Value(s)
  {
    var all := Zeros(k) + s;
    if s != "" {
      assert all[..|all| - 1] == Zeros(k) + s[..|s| - 1] && all[|all| - 1] == s[|s| - 1];
      ZerosDoNotCount(k, s[..|s| - 1]);
    } else if k > 0 {
      assert all[..|all| - 1] == Zeros(k - 1) + "" && all[|all| - 1] == '0';
      ZerosDoNotCount(k - 1, "");
    }
  }

  lemma MoreZeros(k: nat)
    ensures Zeros(k) + "0" == Zeros(k + 1)
  {
  }

  lemma MoreDigits(q: nat, c: char)
    requires IsDigit(c)
    ensures Digits(10 * q + DigitValue(c)) == if q == 0 then [c] else Digits(q) + [c]
  {
  }

  lemma Grouped(a: string, b: string, c: string)
    ensures a + b + c == a + (b + c)
  {
  }

  lemma OneMoreDigit(k: nat, q: nat, c: char)
    requires IsDigit(c)
    ensures Padded(Zeros(k) + Digits(q) + [c], 10 * q + DigitValue(c))
  {
    MoreDigits(q, c);
    if q == 0 { MoreZeros(k); } else { Grouped(Zeros(k), Digits(q), [c]); }
  }

  lemma {:induction false} ValuedIsPadded(s: string, n: nat)
    requires s != "" && Value(s) == Some(n)
    ensures Padded(s, n)
  {
    var front, c := s[..|s| - 1], s[|s| - 1];
    assert s == front + [c];
    if front == "" {
      assert s == Zeros(0) + Digits(n);
    } else {
      var q := Value(front).value;
      ValuedIsPadded(front, q);
      var k: nat :| front == Zeros(k) + Digits(q);
      OneMoreDigit(k, q, c);
    }
  }

  lemma ValueIffPadded(s: string, n: nat)
    ensures s != "" && Value(s) == Some(n) <==> Padded(s, n)
  {
    if s != "" && Value(s) == Some(n) { ValuedIsPadded(s, n); }
    if k: nat :| s == Zeros(k) + Digits(n) {
      ZerosDoNotCount(k, Digits(n));
      ValueOfDigits(n);
    }
  }

  lemma PaddedIsDigits(s: string, n: nat)
    requires Padded(s, n)
    ensures s != "" && IsDigit(s[0])
  {
    var k: nat :| s == Zeros(k) + Digits(n);
    ValueOfDigits(n);
    assert Digits(n)[0] in Digits(n);
    if k > 0 { assert s[0] == '0'; } else { assert s == Digits(n); }
  }

  /** A string parses to a number exactly when it is a numeral of it and the number fits. */
  lemma {:induction false} AtoiIff(s: string, n: int)
    ensures Atoi(s) == Some(n) <==> IsInt(n) && IsNumeral(s, n)
  {
    if n >= 0 {
      ValueIffPadded(s, n);
      if Padded(s, n) { PaddedIsDigits(s, n); }
    }
    if s != "" {
      if n >= 0 { ValueIffPadded(s[1..], n); }
      if n <= 0 { ValueIffPadded(s[1..], -n); }
    }
  }

  // ---------- Versions ----------

  function String(v: Ver): string {
    if v.major == 0 then ""
    else
      Print(v.major)
      + (if v.length > 1 then "." + Print(v.minor) else "")
      + (if v.length > 2 then "." + Print(v.patch) else "")
  }

  /** None is the error of a part that is not a number; parts after the third are counted, not read. */
  function ParseVersion(s: string): Option<Ver> {
    var parts := Split(s, '.');
    var major := Atoi(parts[0]);
    var minor := if |parts| > 1 then Atoi(parts[1]) else Some(0);
    var patch := if |parts| > 2 then Atoi(parts[2]) else Some(0);
    if major.None? || minor.None? || patch.None? then None
    else Some(Ver(major.value, minor.value, patch.value, |parts|))
  }

  lemma TwoParts(a: string, b: string)
    requires '.' !in a && '.' !in b
    ensures Split(a + "." + b, '.') == [a, b]
  {
    SplitNoSeparator(a, '.');
    SplitNoSeparator(b, '.');
    SplitConcat(a, '.', b);
    assert a + "." + b == a + ['.'] + b;
  }

  lemma ThreeParts(a: string, b: string, c: string)
    requires '.' !in a && '.' !in b && '.' !in c
    ensures Split(a + "." + b + "." + c, '.') == [a, b, c]
  {
    TwoParts(a, b);
    SplitNoSeparator(c, '.');
    SplitConcat(a + "." + b, '.', c);
    assert a + "." + b + "." + c == (a + "." + b) + ['.'] + c;
  }

  lemma StringParts(v: Ver)
    requires v.major != 0
    ensures String(v) ==
            if v.length > 2 then Print(v.major) + "." + Print(v.minor) + "." + Print(v.patch)
            else if v.length > 1 then Print(v.major) + "." + Print(v.minor)
            else Print(v.major)
  {
    var a, b, c := Print(v.major), Print(v.minor), Print(v.patch);
    assert a + ("." + b) == a + "." + b && a + "." + b + ("." + c) == a + "." + b + "." + c;
    assert a + "" == a && a + "." + b + "" == a + "." + b;
  }

  /** A printed version: the first one, two or three numbers, separated by dots. */
  lemma SplitPrinted(v: Ver)
    requires v.major != 0 && IsInt(v.major) && IsInt(v.minor) && IsInt(v.patch)
    ensures Split(String(v), '.') ==
            if v.length > 2 then [Print(v.major), Print(v.minor), Print(v.patch)]
            else if v.length > 1 then [Print(v.major), Print(v.minor)]
            else [Print(v.major)]
  {
    var a, b, c := Print(v.major), Print(v.minor), Print(v.patch);
    AtoiPrint(v.major);
    AtoiPrint(v.minor);
    AtoiPrint(v.patch);
    StringParts(v);
    if v.length > 2 {
      ThreeParts(a, b, c);
    } else if v.length > 1 {
      TwoParts(a, b);
    } else {
      SplitNoSeparator(a, '.');
    }
  }

  /** A string parses to a version exactly when its parts are numerals of the numbers, counted by the length. */
  lemma {:induction false} ParseVersionIff(s: string, v: Ver)
    requires IsInt(v.major) && IsInt(v.minor) && IsInt(v.patch)
    ensures var parts := Split(s, '.');
            ParseVersion(s) == Some(v) <==>
              && v.length == |parts| && IsNumeral(parts[0], v.major)
              && (if |parts| > 1 then IsNumeral(parts[1], v.minor) else v.minor == 0)
              && (if |parts| > 2 then IsNumeral(parts[2], v.patch) else v.patch == 0)
  {
    var parts := Split(s, '.');
    AtoiIff(parts[0], v.major);
    if |parts| > 1 { AtoiIff(parts[1], v.minor); }
    if |parts| > 2 { AtoiIff(parts[2], v.patch); }
  }

  /** A version survives printing and parsing exactly when it has one to three parts, a first one not zero, unused ones zero. */
  lemma RoundTripIff(v: Ver)
    requires IsInt(v.major) && IsInt(v.minor) && IsInt(v.patch)
    ensures ParseVersion(String(v)) == Some(v) <==>
            && v.major != 0 && 1 <= v.length <= 3
            && (v.length < 2 ==> v.minor == 0) && (v.length < 3 ==> v.patch == 0)
  {
    if v.major != 0 {
      SplitPrinted(v);
      AtoiPrint(v.major);
      AtoiPrint(v.minor);
      AtoiPrint(v.patch);
    } else {
      assert Split("", '.') == [""];
      assert Atoi("") == None;
    }
  }

  /** Digits stand with the units last. */
  lemma DigitsExample()
    ensures Digits(22) == "22" && Digits(104) == "104"
  {
    assert Digits(10) == "10";
  }

  /** A leading zero counts for nothing, so that it is not printed again. */
  lemma LeadingZeroIsLost()
    ensures Atoi("04") == Some(4) && Print(4) == "4"
  {
    assert "04" == Zeros(1) + Digits(4);
    AtoiIff("04", 4);
  }
}
