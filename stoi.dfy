/**
 * `isValidNumber`: `std::stoi` inside a try/catch. `std::stoi` (base 10)
 * skips leading white space, accepts one optional sign, reads the longest
 * run of digits that follows and ignores everything after it; it throws
 * when there is no digit there or when the value does not fit in `int`.
 * The caught exception is the `None` case.
 */
module Stoi {
  import opened Text

  predicate AllSpaces(s: string) {
    forall i :: 0 <= i < |s| ==> IsSpace(s[i])
  }

  /** `s` without its leading white space. */
  function SkipSpaces(s: string): (r: string)
    ensures |r| <= |s| && r == s[|s| - |r|..]
    ensures r == [] || !IsSpace(r[0])
  {
    if s != [] && IsSpace(s[0]) then SkipSpaces(s[1..]) else s
  }

  /** The longest prefix of `s` made of digits. */
  function LeadingDigits(s: string): (r: string)
    ensures |r| <= |s| && r == s[..|r|]
    ensures AllDigits(r)
    ensures |r| < |s| ==> !IsDigit(s[|r|])
  {
    if s != [] && IsDigit(s[0]) then [s[0]] + LeadingDigits(s[1..]) else []
  }

  /** Models `isValidNumber`: `Some(value)` when `std::stoi(s)` returns `value`, `None` when it throws. */
  function IsValidNumber(s: string): (r: Option<int>)
    ensures r.Some? ==> IntMin <= r.value <= IntMax
  {
    ParseSigned(SkipSpaces(s))
  }

  datatype Sign = NoSign | Plus | Minus

  function SignText(sign: Sign): string
  {
    match sign
    case NoSign => ""
    case Plus => "+"
    case Minus => "-"
  }

  /** The optional sign. */
  function ParseSigned(t: string): Option<int>
  {
    if t != [] && t[0] == '-' then ParseDigits(true, t[1..])
    else if t != [] && t[0] == '+' then ParseDigits(false, t[1..])
    else ParseDigits(false, t)
  }

  /** The digit run after the sign, and the `int` range check. */
  function ParseDigits(negative: bool, u: string): (r: Option<int>)
    ensures r.Some? ==> IntMin <= r.value <= IntMax
  {
    var digits := LeadingDigits(u);
    if digits == [] then None else InRange(Signed(negative, digits))
  }

  function Signed(negative: bool, digits: string): int
    requires AllDigits(digits)
  {
    if negative then -(DigitsValue(digits) as int) else DigitsValue(digits)
  }

  function InRange(v: int): (r: Option<int>)
  {
    if IntMin <= v <= IntMax then Some(v) else None
  }

  lemma {:induction false} SkipSpacesOver(spaces: string, t: string)
    requires AllSpaces(spaces)
    requires t == [] || !IsSpace(t[0])
    ensures SkipSpaces(spaces + t) == t
  {
    if spaces != [] {
      assert (spaces + t)[1..] == spaces[1..] + t;
      SkipSpacesOver(spaces[1..], t);
    } else {
      assert spaces + t == t;
    }
  }

  lemma {:induction false} LeadingDigitsOver(digits: string, rest: string)
    requires AllDigits(digits)
    requires rest == [] || !IsDigit(rest[0])
    ensures LeadingDigits(digits + rest) == digits
  {
    if digits != [] {
      assert (digits + rest)[1..] == digits[1..] + rest;
      LeadingDigitsOver(digits[1..], rest);
    } else {
      assert digits + rest == rest;
    }
  }

  /**
   * Reading back: white space, an optional sign, a digit string and any text
   * that does not start with a digit parse to the signed value of the digits
   * when it fits in `int`, and fail otherwise. Leading zeros and trailing
   * characters are ignored ("10abc" reads as 10).
   */
  lemma ReadsSignedDigits(spaces: string, sign: Sign, digits: string, rest: string)
    requires AllSpaces(spaces)
    requires digits != [] && AllDigits(digits)
    requires rest == [] || !IsDigit(rest[0])
    ensures IsValidNumber(spaces + SignText(sign) + digits + rest) == InRange(Signed(sign == Minus, digits))
  {
    var t := SignText(sign) + (digits + rest);
    ReadsSigned(sign, digits, rest);
    SpacesIgnored(spaces, t);
    Reassociate(spaces, SignText(sign), digits, rest);
  }

  /** `ReadsSignedDigits` without leading white space. */
  lemma ReadsSigned(sign: Sign, digits: string, rest: string)
    requires digits != [] && AllDigits(digits)
    requires rest == [] || !IsDigit(rest[0])
    ensures ParseSigned(SignText(sign) + (digits + rest)) == InRange(Signed(sign == Minus, digits))
    ensures !IsSpace((SignText(sign) + (digits + rest))[0])
  {
    LeadingDigitsOver(digits, rest);
    SignRead(sign, digits + rest);
  }

  /** A sign in front of a digit is read as the sign. */
  lemma SignRead(sign: Sign, u: string)
    requires u != [] && IsDigit(u[0])
    ensures ParseSigned(SignText(sign) + u) == ParseDigits(sign == Minus, u)
    ensures !IsSpace((SignText(sign) + u)[0])
  {
    var t := SignText(sign) + u;
    if sign == NoSign {
      assert t == u;
      assert !IsSpace(t[0]) && ParseSigned(t) == ParseDigits(false, u);
    } else {
      assert t[0] == (if sign == Plus then '+' else '-') && t[1..] == u;
      assert ParseSigned(t) == ParseDigits(sign == Minus, t[1..]);
    }
  }

  lemma SpacesIgnored(spaces: string, t: string)
    requires AllSpaces(spaces)
    requires t == [] || !IsSpace(t[0])
    ensures IsValidNumber(spaces + t) == ParseSigned(t)
  {
    SkipSpacesOver(spaces, t);
  }

  /**
   * The decimal text of `n` (as `std::to_string` writes it), after an
   * optional sign and before text that does not start with a digit, reads
   * back as the signed value; with a '-' for negative values only, this is
   * every `int` read back from its own text. `text` is the three parts one
   * after the other.
   */
  lemma ReadsDecimal(sign: Sign, n: nat, rest: string, text: string)
    requires rest == [] || !IsDigit(rest[0])
    requires IntMin <= (if sign == Minus then -(n as int) else n as int) <= IntMax
    requires text == SignText(sign) + (DecimalString(n) + rest)
    ensures IsValidNumber(text) == Some(if sign == Minus then -(n as int) else n as int)
  {
    var digits := DecimalString(n);
    var t := SignText(sign) + (digits + rest);
    DecimalRoundTrip(n);
    assert Signed(sign == Minus, digits) == (if sign == Minus then -(n as int) else n as int);
    ReadsSigned(sign, digits, rest);
    SpacesIgnored("", t);
    assert "" + t == t;
  }

  /**
   * Rejection: white space, at most one sign and then text that does not
   * start with a digit never parse, even when digits come later ("abc10",
   * "- 5", "+-5", " x7"). Without a sign the rest must not itself start with
   * white space or a sign, which would belong to the first two parts.
   */
  lemma RejectsNonDigitStart(spaces: string, sign: Sign, rest: string)
    requires AllSpaces(spaces)
    requires rest == [] || !IsDigit(rest[0])
    requires sign == NoSign ==> rest == [] || (!IsSpace(rest[0]) && rest[0] != '+' && rest[0] != '-')
    ensures IsValidNumber(spaces + SignText(sign) + rest) == None
  {
    var t := SignText(sign) + rest;
    assert spaces + SignText(sign) + rest == spaces + t;
    match sign {
      case NoSign =>
        assert t == rest;
      case Plus =>
        assert t == ['+'] + rest;
        assert t[1..] == rest;
      case Minus =>
        assert t == ['-'] + rest;
        assert t[1..] == rest;
    }
    assert LeadingDigits(rest) == [];
    SpacesIgnored(spaces, t);
  }

  /** The white space `SkipSpaces` drops is all white space. */
  lemma {:induction false} SkippedAreSpaces(s: string)
    ensures AllSpaces(s[..|s| - |SkipSpaces(s)|])
  {
    if s != [] && IsSpace(s[0]) {
      SkippedAreSpaces(s[1..]);
      var n := |s| - |SkipSpaces(s)|;
      assert s[..n] == [s[0]] + s[1..][..n - 1];
    }
  }

  /** A text is its leading digits followed by text that does not start with a digit. */
  lemma DigitsThenRest(u: string) returns (rest: string)
    ensures u == LeadingDigits(u) + rest
    ensures rest == [] || !IsDigit(rest[0])
  {
    var n := |LeadingDigits(u)|;
    rest := u[n..];
    assert u == u[..n] + u[n..];
  }

  /** A text is its leading white space followed by the rest. */
  lemma SpacesThenRest(s: string) returns (spaces: string)
    ensures s == spaces + SkipSpaces(s) && AllSpaces(spaces)
  {
    var n := |s| - |SkipSpaces(s)|;
    spaces := s[..n];
    SkippedAreSpaces(s);
    assert s == s[..n] + s[n..];
  }

  /** A text that does not start with white space is its optional sign followed by the rest. */
  lemma SignThenRest(t: string) returns (sign: Sign, u: string)
    requires t == [] || !IsSpace(t[0])
    ensures t == SignText(sign) + u
    ensures sign == NoSign ==> u == [] || (!IsSpace(u[0]) && u[0] != '+' && u[0] != '-')
  {
    if t != [] && t[0] == '-' {
      sign, u := Minus, t[1..];
      assert t == ['-'] + u;
    } else if t != [] && t[0] == '+' {
      sign, u := Plus, t[1..];
      assert t == ['+'] + u;
    } else {
      sign, u := NoSign, t;
    }
  }

  /** The parts `Split` cuts a text into. */
  lemma SplitParts(s: string) returns (spaces: string, sign: Sign, digits: string, rest: string)
    ensures s == spaces + SignText(sign) + digits + rest
    ensures AllSpaces(spaces) && AllDigits(digits) && (rest == [] || !IsDigit(rest[0]))
    ensures digits == [] && sign == NoSign ==> rest == [] || (!IsSpace(rest[0]) && rest[0] != '+' && rest[0] != '-')
  {
    spaces := SpacesThenRest(s);
    var u: string;
    sign, u := SignThenRest(SkipSpaces(s));
    digits := LeadingDigits(u);
    rest := DigitsThenRest(u);
    Reassociate(spaces, SignText(sign), digits, rest);
    if digits == [] {
      assert u == rest;
    }
  }

  lemma Reassociate(a: string, b: string, c: string, d: string)
    ensures a + (b + (c + d)) == a + b + c + d
  {
  }

  /**
   * Every text splits into white space, an optional sign, a digit run and a
   * rest that does not start with a digit (when there is neither a sign nor
   * a digit, the rest does not start with white space or a sign either, so
   * the split is the one `std::stoi` reads); it parses exactly when the
   * digit run is not empty and its signed value fits in `int`. With
   * `ReadsSignedDigits` and `RejectsNonDigitStart` this covers every input.
   */
  lemma Split(s: string) returns (spaces: string, sign: Sign, digits: string, rest: string)
    ensures s == spaces + SignText(sign) + digits + rest
    ensures AllSpaces(spaces) && AllDigits(digits) && (rest == [] || !IsDigit(rest[0]))
    ensures digits == [] && sign == NoSign ==> rest == [] || (!IsSpace(rest[0]) && rest[0] != '+' && rest[0] != '-')
    ensures IsValidNumber(s) == if digits == [] then None else InRange(Signed(sign == Minus, digits))
  {
    spaces, sign, digits, rest := SplitParts(s);
    if digits == [] {
      assert s == spaces + SignText(sign) + rest;
      RejectsNonDigitStart(spaces, sign, rest);
    } else {
      ReadsSignedDigits(spaces, sign, digits, rest);
    }
  }

  /** Digits in the wrong place: `std::stoi` throws on each of these. */
  lemma LettersFirstRejected()
    ensures IsValidNumber("abc10") == None && IsValidNumber(" x7") == None
  {
    RejectsNonDigitStart("", NoSign, "abc10");
    assert "" + SignText(NoSign) + "abc10" == "abc10";
    RejectsNonDigitStart(" ", NoSign, "x7");
    assert " " + SignText(NoSign) + "x7" == " x7";
  }

  /** A sign must be followed by a digit: `std::stoi` throws on "- 5". */
  lemma SpaceAfterSignRejected()
    ensures IsValidNumber("- 5") == None
  {
    RejectsNonDigitStart("", Minus, " 5");
    assert "" + SignText(Minus) + " 5" == "- 5";
  }

  /** Only one sign is taken: `std::stoi` throws on "+-5". */
  lemma TwoSignsRejected()
    ensures IsValidNumber("+-5") == None
  {
    RejectsNonDigitStart("", Plus, "-5");
    assert "" + SignText(Plus) + "-5" == "+-5";
  }

  /** A text with no digit at all never parses. */
  lemma NoDigitNoNumber(s: string)
    requires NoDigits(s)
    ensures IsValidNumber(s) == None
  {
    var t := SkipSpaces(s);
    var unsigned := if t != [] && (t[0] == '+' || t[0] == '-') then t[1..] else t;
    if unsigned != [] {
      assert unsigned[0] == s[|s| - |unsigned|];
    }
  }
}
