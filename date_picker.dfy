/**
 * The date field of the web app (`apps/web/src/components/date-picker.tsx`):
 * rendering a date as "dd/mm/yyyy", reading one back (with a calendar check
 * and a two-digit-year pivot), masking typed text, placing the cursor after
 * masking, and the field's validation message.
 *
 * A JavaScript Date is modelled by its calendar fields. `new Date(y, m, d)`
 * reads back as the same fields exactly when the fields form a real date and
 * the year is not in 0..99 (which JavaScript moves to 1900..1999). The
 * free-form `new Date(text)` fallback is an input.
 */
module DatePicker {
  import opened Wrappers
  import opened Strs
  import DateConvert

  /** A valid Date's local year, month (0-based) and day of month. */
  datatype JsDate = JsDate(year: int, month: nat, day: nat)

  /** The Gregorian rule: every fourth year, except centuries not divisible by 400. */
  predicate IsLeapYear(y: int)
    ensures IsLeapYear(y) ==> y % 4 == 0
    ensures y % 100 == 0 ==> (IsLeapYear(y) <==> y % 400 == 0)
  {
    (y % 4 == 0 && y % 100 != 0) || y % 400 == 0
  }

  function DaysInMonth(y: int, m: nat): (n: nat)
    requires m < 12
    ensures 28 <= n <= 31
  {
    if m == 1 then (if IsLeapYear(y) then 29 else 28)
    else if m == 3 || m == 5 || m == 8 || m == 10 then 30
    else 31
  }

  /** `new Date(y, m, d)` has exactly these fields: a real date, and a year JavaScript does not move. */
  predicate ConstructsExactly(y: int, m: int, d: int)
  {
    0 <= m < 12 && 1 <= d <= DaysInMonth(y, m) && !(0 <= y <= 99)
  }

  // ---------------------------------------------------------------------------
  // formatDate / parseDate
  // ---------------------------------------------------------------------------

  /** `formatDate`: day and month padded to two digits, the year as JavaScript prints it. */
  function FormatDate(date: Option<JsDate>): (s: string)
    ensures date.None? <==> s == []
  {
    if date.None? then []
    else Pad2(date.value.day) + "/" + Pad2(date.value.month + 1) + "/" + IntToString(date.value.year)
  }

  /** The three numbers of a `d/m/y` match. */
  datatype DateFields = DateFields(day: nat, month: nat, year: nat)

  /** `/^(\d{1,2})\/(\d{1,2})\/(\d{n})$/` with `n` year digits, and the numbers it captures. */
  function MatchDmy(s: string, yearDigits: nat): (r: Option<DateFields>)
    ensures r.Some? ==> r.value.day < 100 && r.value.month < 100
    ensures r.Some? && yearDigits <= 2 ==> r.value.year < 100
  {
    var p := Split(s, '/');
    if |p| == 3 && 1 <= |p[0]| <= 2 && 1 <= |p[1]| <= 2 && |p[2]| == yearDigits &&
       AllDigits(p[0]) && AllDigits(p[1]) && AllDigits(p[2]) then
      DigitsBelow100(p[0]);
      DigitsBelow100(p[1]);
      DigitsBelow100(p[2]);
      Some(DateFields(DigitsValue(p[0]), DigitsValue(p[1]), DigitsValue(p[2])))
    else None
  }

  lemma DigitsBelow100(s: string)
    requires AllDigits(s)
    ensures |s| <= 2 ==> DigitsValue(s) < 100
  {
    if |s| == 2 {
      assert DigitsValue(s[..1]) == DigitValue(s[0]) by {
        assert s[..1][..0] == [];
      }
    }
  }

  /** The year a two-digit year stands for: 00-30 are 2000s, 31-99 are 1900s. */
  function PivotYear(yy: nat): (y: nat)
    requires yy < 100
    ensures 1931 <= y <= 2030
    ensures yy <= 30 ==> y == 2000 + yy
    ensures yy > 30 ==> y == 1900 + yy
  {
    yy + (if yy <= 30 then 2000 else 1900)
  }

  /**
   * `parseDate`: nothing for ""; `d/m/yyyy` when it is a real date; `d/m/yy`
   * with the pivoted year when that is a real date; otherwise whatever the
   * free-form parse gives.
   */
  function ParseDate(s: string, fallback: string -> Option<JsDate>): (r: Option<JsDate>)
    ensures s == [] ==> r.None?
    ensures s != [] && MatchDmy(s, 4).Some? ==>
      var f := MatchDmy(s, 4).value;
      r == if ConstructsExactly(f.year, f.month - 1, f.day) then Some(JsDate(f.year, f.month - 1, f.day)) else fallback(s)
    ensures s != [] && MatchDmy(s, 2).Some? ==>
      var f := MatchDmy(s, 2).value;
      var y := PivotYear(f.year);
      r == if ConstructsExactly(y, f.month - 1, f.day) then Some(JsDate(y, f.month - 1, f.day)) else fallback(s)
    ensures s != [] && MatchDmy(s, 4).None? && MatchDmy(s, 2).None? ==> r == fallback(s)
  {
    if s == [] then None
    else
      var long := MatchDmy(s, 4);
      if long.Some? && ConstructsExactly(long.value.year, long.value.month - 1, long.value.day) then
        Some(JsDate(long.value.year, long.value.month - 1, long.value.day))
      else
        var short := MatchDmy(s, 2);
        if short.Some? && ConstructsExactly(PivotYear(short.value.year), short.value.month - 1, short.value.day) then
          Some(JsDate(PivotYear(short.value.year), short.value.month - 1, short.value.day))
        else fallback(s)
  }

  /** A strict "dd/mm/yyyy" text matches with its three fields. */
  lemma StrictMatch(s: string)
    requires DateConvert.IsDmyShape(s)
    ensures MatchDmy(s, 4) == Some(DateFields(DigitsValue(s[..2]), DigitsValue(s[3..5]), DigitsValue(s[6..])))
  {
    DateConvert.DmySplit(s);
  }

  /** Two decimal digits are the two-digit rendering of their value. */
  lemma Pad2OfTwoDigits(x: string)
    requires |x| == 2 && AllDigits(x)
    ensures Pad2(DigitsValue(x)) == x
  {
    assert x[..1][..0] == [];
    if x[0] == '0' {
      NatToStringOfDigits(x[1..]);
      assert DigitsValue(x[1..]) == DigitsValue(x);
    } else {
      NatToStringOfDigits(x);
    }
  }

  /**
   * Reading a strict "dd/mm/yyyy" date and rendering it gives the text back,
   * for a real date whose year has no leading zero.
   */
  lemma FormatParseRoundTrip(s: string, fallback: string -> Option<JsDate>)
    requires DateConvert.IsDmyShape(s) && s[6] != '0'
    requires ConstructsExactly(DigitsValue(s[6..]), DigitsValue(s[3..5]) - 1, DigitsValue(s[..2]))
    ensures FormatDate(ParseDate(s, fallback)) == s
  {
    StrictMatch(s);
    Pad2OfTwoDigits(s[..2]);
    Pad2OfTwoDigits(s[3..5]);
    NatToStringOfDigits(s[6..]);
    assert s == s[..2] + "/" + s[3..5] + "/" + s[6..];
  }

  /** A leading zero adds nothing to a number's value. */
  lemma {:induction false} LeadingZero(x: string)
    requires AllDigits(x) && x != [] && x[0] == '0'
    ensures DigitsValue(x) == DigitsValue(x[1..])
    decreases |x|
  {
    if |x| == 1 {
      assert x[..0] == [] && x[1..] == [];
    } else {
      var front := x[..|x| - 1];
      LeadingZero(front);
      assert front[1..] == x[1..][..|x| - 2];
    }
  }

  /** Three digits at most make a number below 1000. */
  lemma DigitsBelow1000(x: string)
    requires AllDigits(x) && |x| <= 3
    ensures DigitsValue(x) < 1000
  {
    if |x| == 3 {
      DigitsBelow100(x[..2]);
    } else {
      DigitsBelow100(x);
    }
  }

  /** A number below 1000 is printed with three digits at most. */
  lemma ShortYearText(n: nat)
    requires n < 1000
    ensures |NatToString(n)| <= 3
  {
    if n >= 10 {
      assert n / 10 < 100;
      if n / 10 >= 10 {
        assert n / 10 / 10 < 10;
      }
    }
  }

  /**
   * A real date whose year is written with a leading zero is read, but printed
   * differently: the year comes back without its zeros.
   */
  lemma FormatDropsYearZeros(s: string, fallback: string -> Option<JsDate>)
    requires DateConvert.IsDmyShape(s) && s[6] == '0'
    requires ConstructsExactly(DigitsValue(s[6..]), DigitsValue(s[3..5]) - 1, DigitsValue(s[..2]))
    ensures ParseDate(s, fallback).Some?
    ensures FormatDate(ParseDate(s, fallback)) != s
  {
    StrictMatch(s);
    LeadingZero(s[6..]);
    DigitsBelow1000(s[6..][1..]);
    var d := ParseDate(s, fallback).value;
    ShortYearText(d.year);
    assert |FormatDate(Some(d))| <= 9;
  }

  /** "01/01/0100", the first of January of the year 100, is such a date. */
  lemma ZeroLedYearExample()
    ensures DateConvert.IsDmyShape("01/01/0100") && "01/01/0100"[6] == '0'
    ensures ConstructsExactly(DigitsValue("01/01/0100"[6..]), DigitsValue("01/01/0100"[3..5]) - 1, DigitsValue("01/01/0100"[..2]))
  {
    var s := "01/01/0100";
    assert s[..2] == "01" && s[3..5] == "01" && s[6..] == "0100";
    assert DigitsValue("01") == 1 by {
      assert "01"[..1] == "0" && "0"[..0] == [];
    }
    LeadingZero("0100");
    assert "0100"[1..] == "100";
    assert DigitsValue("100") == 100 by {
      assert "100"[..2] == "10" && "10"[..1] == "1" && "1"[..0] == [];
    }
  }

  // ---------------------------------------------------------------------------
  // applyDateMask
  // ---------------------------------------------------------------------------

  /** The digits of a text, in order (`replace(/\D/g, '')`). */
  function DigitsOf(s: string): (d: string)
    ensures |d| <= |s| && AllDigits(d)
    decreases |s|
  {
    if s == [] then []
    else DigitsOf(s[..|s| - 1]) + (if IsDigit(s[|s| - 1]) then [s[|s| - 1]] else [])
  }

  lemma {:induction false} DigitsOfConcat(a: string, b: string)
    ensures DigitsOf(a + b) == DigitsOf(a) + DigitsOf(b)
    decreases |b|
  {
    if b == [] {
      assert a + b == a;
    } else {
      assert (a + b)[..|a + b| - 1] == a + b[..|b| - 1];
      DigitsOfConcat(a, b[..|b| - 1]);
    }
  }

  lemma {:induction false} DigitsOfDigits(s: string)
    requires AllDigits(s)
    ensures DigitsOf(s) == s
    decreases |s|
  {
    if s != [] {
      DigitsOfDigits(s[..|s| - 1]);
    }
  }

  /** `applyDateMask`: the first eight digits typed, with '/' after the day and the month once more digits follow. */
  function ApplyDateMask(value: string): (r: string)
    ensures |r| <= 10
    ensures forall i :: 0 <= i < |r| ==> IsDigit(r[i]) || r[i] == '/'
  {
    var digitsOnly := DigitsOf(value);
    var truncated := if |digitsOnly| <= 8 then digitsOnly else digitsOnly[..8];
    if |truncated| == 0 then []
    else if |truncated| <= 2 then truncated
    else if |truncated| <= 4 then truncated[..2] + "/" + truncated[2..]
    else truncated[..2] + "/" + truncated[2..4] + "/" + truncated[4..]
  }

  /** The first `min(8, n)` of the n digits typed. */
  function KeptDigits(value: string): (d: string)
  {
    var digitsOnly := DigitsOf(value);
    if |digitsOnly| <= 8 then digitsOnly else digitsOnly[..8]
  }

  /** At most ten characters, '/' only at positions 2 and 5 and only before a digit, digits elsewhere. */
  predicate MaskShaped(r: string)
  {
    |r| <= 10 &&
    forall i :: 0 <= i < |r| ==>
      (r[i] == '/' <==> (i == 2 || i == 5) && i + 1 < |r|) && (r[i] != '/' ==> IsDigit(r[i]))
  }

  /** Three to four digits with one slash after the day. */
  lemma TwoFieldMask(t: string)
    requires AllDigits(t) && 2 < |t| <= 4
    ensures DigitsOf(t[..2] + "/" + t[2..]) == t
    ensures MaskShaped(t[..2] + "/" + t[2..])
  {
    DigitsOfConcat(t[..2] + "/", t[2..]);
    DigitsOfConcat(t[..2], "/");
    DigitsOfDigits(t[..2]);
    DigitsOfDigits(t[2..]);
    assert DigitsOf("/") == [] by {
      assert "/"[..0] == [];
    }
    assert t == t[..2] + t[2..];
  }

  /** Five to eight digits with slashes after the day and the month. */
  lemma ThreeFieldMask(t: string)
    requires AllDigits(t) && 4 < |t| <= 8
    ensures DigitsOf(t[..2] + "/" + t[2..4] + "/" + t[4..]) == t
    ensures MaskShaped(t[..2] + "/" + t[2..4] + "/" + t[4..])
  {
    DigitsOfConcat(t[..2] + "/" + t[2..4] + "/", t[4..]);
    DigitsOfConcat(t[..2] + "/" + t[2..4], "/");
    DigitsOfConcat(t[..2] + "/", t[2..4]);
    DigitsOfConcat(t[..2], "/");
    DigitsOfDigits(t[..2]);
    DigitsOfDigits(t[2..4]);
    DigitsOfDigits(t[4..]);
    assert DigitsOf("/") == [] by {
      assert "/"[..0] == [];
    }
    assert t == t[..2] + t[2..4] + t[4..];
  }

  /**
   * The mask keeps exactly the first eight digits in order; it is at most ten
   * characters long, with '/' only at positions 2 and 5 and only when a digit
   * follows, and digits everywhere else.
   */
  lemma MaskShape(value: string)
    ensures DigitsOf(ApplyDateMask(value)) == KeptDigits(value)
    ensures MaskShaped(ApplyDateMask(value))
  {
    var t := KeptDigits(value);
    if |t| <= 2 {
      DigitsOfDigits(t);
    } else if |t| <= 4 {
      TwoFieldMask(t);
    } else {
      ThreeFieldMask(t);
    }
  }

  /** Masking a masked text changes nothing. */
  lemma MaskIdempotent(value: string)
    ensures ApplyDateMask(ApplyDateMask(value)) == ApplyDateMask(value)
  {
    MaskShape(value);
    var r := ApplyDateMask(value);
    var t := KeptDigits(value);
    assert KeptDigits(r) == t;
  }

  // ---------------------------------------------------------------------------
  // getCursorPosition
  // ---------------------------------------------------------------------------

  function CountDigits(s: string): nat
  {
    |DigitsOf(s)|
  }

  /** A prefix never has more digits than the whole text. */
  lemma CountDigitsPrefix(s: string, j: nat)
    requires j <= |s|
    ensures CountDigits(s[..j]) <= CountDigits(s)
  {
    assert s == s[..j] + s[j..];
    DigitsOfConcat(s[..j], s[j..]);
  }

  /** Where the first digit of a text is, or its length when it has none. */
  function FirstDigit(s: string): (f: nat)
    ensures f <= |s| && (f < |s| ==> IsDigit(s[f]))
    ensures forall j :: 0 <= j < f ==> !IsDigit(s[j])
    decreases |s|
  {
    if s == [] then 0
    else if IsDigit(s[0]) then 0
    else 1 + FirstDigit(s[1..])
  }

  /** The digits typed before the cursor (`slice(0, cursor)`). */
  function DigitsBeforeCursor(inputValue: string, currentCursor: nat): nat
  {
    CountDigits(inputValue[..if currentCursor <= |inputValue| then currentCursor else |inputValue|])
  }

  /** One step of the scan: a character's digit joins the count. */
  lemma CountDigitsStep(s: string, i: nat)
    requires i < |s|
    ensures CountDigits(s[..i + 1]) == CountDigits(s[..i]) + (if IsDigit(s[i]) then 1 else 0)
  {
    assert s[..i + 1][..i] == s[..i];
  }

  /**
   * `getCursorPosition`: the cursor goes right after the masked digit that has
   * as many digits up to it as were typed before the cursor; past the end when
   * there are not that many; and with no digit before the cursor, one place
   * before the first masked digit (at 0 at least).
   */
  method GetCursorPosition(inputValue: string, maskedValue: string, currentCursor: nat) returns (position: int)
    ensures 0 <= position <= |maskedValue|
    ensures var k := DigitsBeforeCursor(inputValue, currentCursor);
      && (k == 0 ==> position == (if FirstDigit(maskedValue) == 0 then 0 else FirstDigit(maskedValue) - 1))
      && (1 <= k <= CountDigits(maskedValue) ==>
            1 <= position && IsDigit(maskedValue[position - 1]) && CountDigits(maskedValue[..position]) == k)
      && (k > CountDigits(maskedValue) ==> position == |maskedValue|)
  {
    var digitsBeforeCursor := DigitsBeforeCursor(inputValue, currentCursor);
    ghost var f := FirstDigit(maskedValue);
    var digitCount := 0;
    position := 0;
    var i := 0;
    while i < |maskedValue|
      invariant 0 <= i <= |maskedValue|
      invariant digitCount == CountDigits(maskedValue[..i])
      invariant digitsBeforeCursor >= 1 ==> digitCount < digitsBeforeCursor
      invariant i <= f ==> digitCount == 0
      invariant i > f ==> digitCount > 0
      invariant position == (if i <= f then (if i == 0 then 0 else i - 1) else (if f == 0 then 0 else f - 1))
    {
      CountDigitsStep(maskedValue, i);
      if IsDigit(maskedValue[i]) {
        digitCount := digitCount + 1;
        if digitCount == digitsBeforeCursor {
          position := i + 1;
          CountDigitsPrefix(maskedValue, i + 1);
          break;
        }
      }
      if digitCount == 0 {
        position := i;
      }
      i := i + 1;
    }
    assert i == |maskedValue| ==> maskedValue[..i] == maskedValue;
    if digitCount < digitsBeforeCursor {
      position := |maskedValue|;
    }
  }

  // ---------------------------------------------------------------------------
  // validateDateFormat
  // ---------------------------------------------------------------------------

  function FormatMessage(fieldName: string): string
  {
    "Hãy nhập " + fieldName + " theo định dạng dd/mm/yyyy"
  }

  const InvalidDateMessage: string := "Vui lòng nhập một ngày hợp lệ"

  /** `validateDateFormat`: a format message, an invalid-date message, or no error. */
  function ValidateDateFormat(value: string, fieldName: string, fallback: string -> Option<JsDate>): (r: Option<string>)
    ensures r.Some? ==> r.value in {FormatMessage(fieldName), InvalidDateMessage}
  {
    if !DateConvert.IsDmyShape(value) then Some(FormatMessage(fieldName))
    else if ParseDate(value, fallback).None? then Some(InvalidDateMessage)
    else None
  }

  /**
   * The format message is given exactly for a text that is not strict
   * "dd/mm/yyyy"; no error exactly for a strict text that parses, which is a
   * real date or one the free-form parse accepts.
   */
  lemma ValidateDateFormatIff(value: string, fieldName: string, fallback: string -> Option<JsDate>)
    ensures ValidateDateFormat(value, fieldName, fallback) == Some(FormatMessage(fieldName)) <==> !DateConvert.IsDmyShape(value)
    ensures ValidateDateFormat(value, fieldName, fallback).None? <==>
      DateConvert.IsDmyShape(value) &&
      (ConstructsExactly(DigitsValue(value[6..]), DigitsValue(value[3..5]) - 1, DigitsValue(value[..2])) ||
       fallback(value).Some?)
  {
    var r := ValidateDateFormat(value, fieldName, fallback);
    if DateConvert.IsDmyShape(value) {
      StrictMatch(value);
      assert FormatMessage(fieldName) != InvalidDateMessage by {
        assert FormatMessage(fieldName)[..4] == "Hãy ";
        assert InvalidDateMessage[..4] == "Vui ";
      }
    }
  }
}
