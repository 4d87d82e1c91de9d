/** The conversions Django REST framework's serializer fields apply to request values:
    the text a `CharField` makes of a string or an integer (Python's `str`), and the
    integer an `IntegerField` makes of an integer, a numeric string or a whole float
    (Python's `int`). */
module Fields {
  import opened Base

  // ---------------------------------------------------------------------------
  // Decimal text

  predicate IsDigit(c: char)
  {
    '0' <= c <= '9'
  }

  predicate AllDigits(s: string)
  {
    forall i :: 0 <= i < |s| ==> IsDigit(s[i])
  }

  function DigitChar(d: nat): (c: char)
    requires d < 10
    ensures IsDigit(c)
  {
    ('0' as int + d) as char
  }

  /** The number an ASCII digit string denotes, leading zeros allowed. */
  function DigitsValue(s: string): nat
    requires AllDigits(s)
  {
    if s == [] then 0
    else DigitsValue(s[..|s| - 1]) * 10 + (s[|s| - 1] as int - '0' as int)
  }

  /** The decimal digits of `n`, without leading zeros. */
  function Digits(n: nat): (t: string)
    ensures |t| > 0 && AllDigits(t)
  {
    if n < 10 then [DigitChar(n)] else Digits(n / 10) + [DigitChar(n % 10)]
  }

  lemma {:induction false} DigitsValueOfDigits(n: nat)
    ensures DigitsValue(Digits(n)) == n
  {
    if n >= 10 {
      var t := Digits(n);
      assert t[..|t| - 1] == Digits(n / 10);
      DigitsValueOfDigits(n / 10);
    }
  }

  /** Python's `str()` of an integer: its digits, after a '-' when it is negative. */
  function DecimalText(i: int): (t: string)
    ensures |t| > 0 && t[0] != '.' && (i < 0 ==> t[0] == '-')
    ensures forall k :: 0 < k < |t| ==> IsDigit(t[k])
  {
    if i < 0 then "-" + Digits(-i) else Digits(i)
  }

  /** The number of '0' characters that end `s`. */
  function TrailingZeros(s: string): (z: nat)
    ensures z <= |s|
    ensures forall k :: |s| - z <= k < |s| ==> s[k] == '0'
    ensures z < |s| ==> s[|s| - z - 1] != '0'
  {
    if s == [] || s[|s| - 1] != '0' then 0 else TrailingZeros(s[..|s| - 1]) + 1
  }

  /** `re.sub(r'\.0*\s*$', '', s)` as `IntegerField` applies it: a final '.' followed only
      by zeros is dropped. */
  function DropZeroFraction(s: string): (t: string)
    ensures t == s || (|t| < |s| && s[|t|] == '.' && t == s[..|t|])
  {
    var i := |s| - TrailingZeros(s) - 1;
    if i >= 0 && s[i] == '.' then s[..i] else s
  }

  /** `int(t)` for an optional sign followed by ASCII digits; anything else raises
      ValueError (None). */
  function ParseSigned(t: string): (r: Option<int>)
    ensures r.Some? ==> |t| > 0
  {
    if |t| > 1 && (t[0] == '-' || t[0] == '+') && AllDigits(t[1..]) then
      var magnitude: int := DigitsValue(t[1..]);
      Some(if t[0] == '-' then -magnitude else magnitude)
    else if |t| > 0 && AllDigits(t) then Some(DigitsValue(t))
    else None
  }

  /** The integer `IntegerField` reads from a string: `int(re.sub(r'\.0*\s*$', '', s))`. */
  function ParseInteger(s: string): Option<int>
  {
    ParseSigned(DropZeroFraction(s))
  }

  /** Reading back what `str()` writes gives the integer again. */
  lemma {:induction false} ParseDecimalText(i: int)
    ensures ParseInteger(DecimalText(i)) == Some(i)
  {
    var t := DecimalText(i);
    assert DropZeroFraction(t) == t;
    if i < 0 {
      assert t[1..] == Digits(-i);
      DigitsValueOfDigits(-i);
    } else {
      DigitsValueOfDigits(i);
    }
  }

  // ---------------------------------------------------------------------------
  // Field conversions

  /** The text `CharField` makes of a value: a string as it is, an integer as `str()`
      writes it. Booleans, lists and objects are 'invalid' (None). */
  function TextOf(v: Value): (t: Option<string>)
    ensures v.Str? ==> t == Some(v.s)
    ensures v.Int? ==> t == Some(DecimalText(v.i)) && t.value != ""
    ensures !v.Str? && !v.Int? ==> t.None?
  {
    match v
    case Str(s) => Some(s)
    case Int(i) => Some(DecimalText(i))
    case _ => None
  }

  /** `IntegerField.MAX_STRING_LENGTH`: longer string input is refused before parsing. */
  const MaxIntegerString: nat := 1000

  /** Python prints a float of magnitude 1e16 or more in exponent form, which `int`
      refuses. */
  const FloatExponentThreshold: real := 10000000000000000.0

  /** `IntegerField.to_internal_value`: an integer as it is; a string of at most 1000
      characters that `int` reads after the zero fraction is dropped; a whole float
      printed without an exponent. Anything else is 'invalid'. */
  function IntegerOf(v: Value): (c: Checked<int>)
    ensures v.Int? ==> c == FieldOk(v.i)
    ensures v.Str? && |v.s| > MaxIntegerString ==> c == FieldErr(MaxStringLength)
    ensures v.Str? && |v.s| <= MaxIntegerString ==>
              (c.FieldOk? <==> ParseInteger(v.s).Some?) && (c.FieldOk? ==> Some(c.value) == ParseInteger(v.s))
    ensures v.Num? ==> (c.FieldOk? <==> v.r == v.r.Floor as real && -FloatExponentThreshold < v.r < FloatExponentThreshold)
    ensures v.Num? && c.FieldOk? ==> c.value as real == v.r
    ensures !v.Int? && !v.Str? && !v.Num? ==> c == FieldErr(WrongType)
  {
    match v
    case Int(i) => FieldOk(i)
    case Str(s) =>
      if |s| > MaxIntegerString then FieldErr(MaxStringLength)
      else if ParseInteger(s).Some? then FieldOk(ParseInteger(s).value)
      else FieldErr(WrongType)
    case Num(r) =>
      if r == r.Floor as real && -FloatExponentThreshold < r < FloatExponentThreshold then FieldOk(r.Floor)
      else FieldErr(WrongType)
    case _ => FieldErr(WrongType)
  }

  /** An integer sent as its decimal text is read as that integer. */
  lemma NumericTextAccepted(i: int)
    requires |DecimalText(i)| <= MaxIntegerString
    ensures IntegerOf(Str(DecimalText(i))) == FieldOk(i)
  {
    ParseDecimalText(i);
  }

  /** A required `CharField` of a serializer: present, not null, text (a string or an
      integer), not blank and, when the field has a `max_length`, no longer than it. */
  function RequiredTextField(data: map<string, Value>, key: string, maxLen: Option<nat>): (c: Checked<string>)
    ensures c.FieldOk? <==> key in data && TextOf(data[key]).Some? && TextOf(data[key]).value != ""
                            && (maxLen.Some? ==> |TextOf(data[key]).value| <= maxLen.value)
    ensures c.FieldOk? ==> TextOf(data[key]) == Some(c.value)
    ensures key !in data ==> c == FieldErr(Required)
  {
    if key !in data then FieldErr(Required)
    else if data[key] == Null then FieldErr(NotNull)
    else match TextOf(data[key])
      case None => FieldErr(WrongType)
      case Some(s) =>
        if s == "" then FieldErr(Blank)
        else if maxLen.Some? && |s| > maxLen.value then FieldErr(MaxLength(maxLen.value))
        else FieldOk(s)
  }
}
