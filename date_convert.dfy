/**
 * The web app's date normalisation (`apps/web/src/common/index.ts`): between the
 * displayed "dd/mm/yyyy" and the stored ISO "yyyy-mm-dd", by moving the fields
 * of a text of the right shape and leaving any other text trimmed.
 */
module DateConvert {
  import opened Strs

  /** `/^\d{4}-\d{2}-\d{2}$/` */
  predicate IsIsoShape(t: string)
  {
    |t| == 10 && AllDigits(t[..4]) && t[4] == '-' && AllDigits(t[5..7]) && t[7] == '-' && AllDigits(t[8..])
  }

  /** `/^\d{2}\/\d{2}\/\d{4}$/` */
  predicate IsDmyShape(t: string)
  {
    |t| == 10 && AllDigits(t[..2]) && t[2] == '/' && AllDigits(t[3..5]) && t[5] == '/' && AllDigits(t[6..])
  }

  /** A text of either shape has no space at its ends, so trimming keeps it. */
  lemma ShapedIsTrimmed(t: string)
    requires IsIsoShape(t) || IsDmyShape(t)
    ensures Trim(t, Js) == t
  {
    assert IsDigit(t[0]) && IsDigit(t[9]);
    TrimOfTrimmed(t, Js);
  }

  /** Splitting three fields joined by a separator that none of them contains. */
  lemma SplitThree(a: string, b: string, c: string, sep: char)
    requires sep !in a && sep !in b && sep !in c
    ensures Split(a + [sep] + b + [sep] + c, sep) == [a, b, c]
  {
    assert a + [sep] + b + [sep] + c == a + [sep] + (b + [sep] + c);
    SplitFirst(a, b + [sep] + c, sep);
    SplitFirst(b, c, sep);
    SplitNoSeparator(c, sep);
  }

  /** A digit field holds no separator. */
  lemma DigitsHaveNo(s: string, sep: char)
    requires AllDigits(s) && !IsDigit(sep)
    ensures sep !in s
  {
  }

  /** `trimmed.split('/')` on a "dd/mm/yyyy" text: its day, month and year fields. */
  lemma DmySplit(t: string)
    requires IsDmyShape(t)
    ensures Split(t, '/') == [t[..2], t[3..5], t[6..]]
  {
    DigitsHaveNo(t[..2], '/');
    DigitsHaveNo(t[3..5], '/');
    DigitsHaveNo(t[6..], '/');
    assert t == t[..2] + ['/'] + t[3..5] + ['/'] + t[6..];
    SplitThree(t[..2], t[3..5], t[6..], '/');
  }

  /** `trimmed.split('-')` on a "yyyy-mm-dd" text: its year, month and day fields. */
  lemma IsoSplit(t: string)
    requires IsIsoShape(t)
    ensures Split(t, '-') == [t[..4], t[5..7], t[8..]]
  {
    DigitsHaveNo(t[..4], '-');
    DigitsHaveNo(t[5..7], '-');
    DigitsHaveNo(t[8..], '-');
    assert t == t[..4] + ['-'] + t[5..7] + ['-'] + t[8..];
    SplitThree(t[..4], t[5..7], t[8..], '-');
  }

  /**
   * `toIsoDate` on a text: "" for "", an ISO date as it is, "dd/mm/yyyy" with
   * its fields moved (no calendar check), anything else trimmed.
   */
  function ToIsoDate(value: string): (r: string)
    ensures value == [] ==> r == []
    ensures value != [] && IsIsoShape(Trim(value, Js)) ==> r == Trim(value, Js)
    ensures value != [] && IsDmyShape(Trim(value, Js)) ==>
      var t := Trim(value, Js); r == t[6..] + "-" + t[3..5] + "-" + t[..2]
    ensures value != [] && !IsIsoShape(Trim(value, Js)) && !IsDmyShape(Trim(value, Js)) ==> r == Trim(value, Js)
  {
    if value == [] then []
    else
      var trimmed := Trim(value, Js);
      if IsIsoShape(trimmed) then trimmed
      else if IsDmyShape(trimmed) then
        DmySplit(trimmed);
        var parts := Split(trimmed, '/');
        parts[2] + "-" + parts[1] + "-" + parts[0]
      else trimmed
  }

  /**
   * `toDdMmYyyy`: "" for "", "dd/mm/yyyy" as it is, an ISO date with its fields
   * moved, anything else trimmed.
   */
  function ToDdMmYyyy(value: string): (r: string)
    ensures value == [] ==> r == []
    ensures value != [] && IsDmyShape(Trim(value, Js)) ==> r == Trim(value, Js)
    ensures value != [] && IsIsoShape(Trim(value, Js)) ==>
      var t := Trim(value, Js); r == t[8..] + "/" + t[5..7] + "/" + t[..4]
    ensures value != [] && !IsIsoShape(Trim(value, Js)) && !IsDmyShape(Trim(value, Js)) ==> r == Trim(value, Js)
  {
    if value == [] then []
    else
      var trimmed := Trim(value, Js);
      if IsDmyShape(trimmed) then trimmed
      else if IsIsoShape(trimmed) then
        IsoSplit(trimmed);
        var parts := Split(trimmed, '-');
        parts[2] + "/" + parts[1] + "/" + parts[0]
      else trimmed
  }

  /** Fields joined as an ISO date: the shape, and the fields read back. */
  lemma IsoOfFields(y: string, m: string, d: string)
    requires |y| == 4 && |m| == 2 && |d| == 2 && AllDigits(y) && AllDigits(m) && AllDigits(d)
    ensures var t := y + "-" + m + "-" + d;
      IsIsoShape(t) && !IsDmyShape(t) && t[..4] == y && t[5..7] == m && t[8..] == d
  {
    var t := y + "-" + m + "-" + d;
    assert t[..4] == y && t[5..7] == m && t[8..] == d;
    assert t[2] == y[2];
  }

  /** Fields joined as a displayed date: the shape, and the fields read back. */
  lemma DmyOfFields(d: string, m: string, y: string)
    requires |y| == 4 && |m| == 2 && |d| == 2 && AllDigits(y) && AllDigits(m) && AllDigits(d)
    ensures var t := d + "/" + m + "/" + y;
      IsDmyShape(t) && !IsIsoShape(t) && t[..2] == d && t[3..5] == m && t[6..] == y
  {
    var t := d + "/" + m + "/" + y;
    assert t[..2] == d && t[3..5] == m && t[6..] == y;
    assert t[4] == m[1];
  }

  /** Converting a displayed date to ISO and back gives it again. */
  lemma DisplayRoundTrip(s: string)
    requires IsDmyShape(s)
    ensures ToDdMmYyyy(ToIsoDate(s)) == s
  {
    ShapedIsTrimmed(s);
    var iso := ToIsoDate(s);
    IsoOfFields(s[6..], s[3..5], s[..2]);
    ShapedIsTrimmed(iso);
    assert s == s[..2] + "/" + s[3..5] + "/" + s[6..];
  }

  /** Converting an ISO date for display and back gives it again. */
  lemma IsoRoundTrip(s: string)
    requires IsIsoShape(s)
    ensures ToIsoDate(ToDdMmYyyy(s)) == s
  {
    ShapedIsTrimmed(s);
    var d := ToDdMmYyyy(s);
    DmyOfFields(s[8..], s[5..7], s[..4]);
    ShapedIsTrimmed(d);
    assert s == s[..4] + "-" + s[5..7] + "-" + s[8..];
  }

  /** Normalising twice is normalising once. */
  lemma ToIsoDateIdempotent(value: string)
    ensures ToIsoDate(ToIsoDate(value)) == ToIsoDate(value)
  {
    var r := ToIsoDate(value);
    if value != [] {
      var t := Trim(value, Js);
      if IsIsoShape(t) {
        ShapedIsTrimmed(r);
      } else if IsDmyShape(t) {
        IsoOfFields(t[6..], t[3..5], t[..2]);
        ShapedIsTrimmed(r);
      } else if r != [] {
        TrimIdempotent(value, Js);
      }
    }
  }

  /** Converting for display twice is converting once. */
  lemma ToDdMmYyyyIdempotent(value: string)
    ensures ToDdMmYyyy(ToDdMmYyyy(value)) == ToDdMmYyyy(value)
  {
    var r := ToDdMmYyyy(value);
    if value != [] {
      var t := Trim(value, Js);
      if IsDmyShape(t) {
        ShapedIsTrimmed(r);
      } else if IsIsoShape(t) {
        DmyOfFields(t[8..], t[5..7], t[..4]);
        ShapedIsTrimmed(r);
      } else if r != [] {
        TrimIdempotent(value, Js);
      }
    }
  }
}
