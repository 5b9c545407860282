/** Days since 1 January 1970 as dates of the Gregorian calendar. */
module Calendar {
  import opened Common
  import opened Numerals

  predicate Leap(year: int) { year % 4 == 0 && (year % 100 != 0 || year % 400 == 0) }

  function YearLength(year: int): nat { if Leap(year) then 366 else 365 }

  function MonthLength(leap: bool, month: nat): nat {
    if month == 2 then if leap then 29 else 28
    else if month == 4 || month == 6 || month == 9 || month == 11 then 30
    else 31
  }

  /** The year that lies `days` after the first day of another, and the days left. */
  function YearFrom(year: int, days: int): (int, nat)
    decreases if days < 0 then -days else 0, if days < 0 then 0 else days
  {
    if days < 0 then YearFrom(year - 1, days + YearLength(year - 1))
    else if days >= YearLength(year) then YearFrom(year + 1, days - YearLength(year))
    else (year, days)
  }

  function MonthFrom(leap: bool, month: nat, days: nat): (nat, nat)
    requires month <= 12
    decreases 12 - month
  {
    if month == 12 || days < MonthLength(leap, month) then (month, days + 1)
    else MonthFrom(leap, month + 1, days - MonthLength(leap, month))
  }

  function DateText(day: int): string {
    var (year, rest) := YearFrom(1970, day);
    var (month, number) := MonthFrom(Leap(year), 1, rest);
    Signed(year, 4, 4) + "-" + (Padded(month, 2) + "-" + Padded(number, 2))
  }

  /** Days from the first day of one year to that of another. */
  function Between(from: int, to: int): int
    decreases if from <= to then to - from else from - to
  {
    if from == to then 0
    else if from < to then YearLength(from) + Between(from + 1, to)
    else Between(from - 1, to) - YearLength(from - 1)
  }

  lemma {:induction false} YearFromSide(year: int, days: int)
    ensures days < 0 ==> YearFrom(year, days).0 < year
    ensures days >= 0 ==> YearFrom(year, days).0 >= year
    decreases if days < 0 then -days else 0, if days < 0 then 0 else days
  {
    if days < 0 {
      var next := days + YearLength(year - 1);
      YearFromSide(year - 1, next);
      if next >= 0 {
        assert YearFrom(year - 1, next) == (year - 1, next);
      }
    } else if days >= YearLength(year) {
      YearFromSide(year + 1, days - YearLength(year));
    }
  }

  lemma {:induction false} YearFromReads(year: int, days: int)
    ensures var (y, rest) := YearFrom(year, days); days == Between(year, y) + rest
    decreases if days < 0 then -days else 0, if days < 0 then 0 else days
  {
    YearFromSide(year, days);
    if days < 0 {
      YearFromReads(year - 1, days + YearLength(year - 1));
    } else if days >= YearLength(year) {
      YearFromReads(year + 1, days - YearLength(year));
      YearFromSide(year + 1, days - YearLength(year));
    }
  }

  lemma MonthGoesOn(leap: bool, month: nat, days: nat)
    requires month < 12 && days >= MonthLength(leap, month)
    ensures MonthFrom(leap, month, days) == MonthFrom(leap, month + 1, days - MonthLength(leap, month))
  {
  }

  lemma {:induction false} MonthFromReads(leap: bool, month: nat, a: nat, b: nat)
    requires month <= 12 && MonthFrom(leap, month, a) == MonthFrom(leap, month, b)
    ensures a == b
    decreases 12 - month
  {
    MonthFromSide(leap, month, a);
    MonthFromSide(leap, month, b);
    var length := MonthLength(leap, month);
    if month < 12 && a >= length {
      MonthGoesOn(leap, month, a);
      MonthGoesOn(leap, month, b);
      MonthFromReads(leap, month + 1, a - length, b - length);
    }
  }

  lemma {:induction false} MonthFromSide(leap: bool, month: nat, days: nat)
    requires month <= 12
    ensures MonthFrom(leap, month, days).0 >= month
    ensures MonthFrom(leap, month, days).0 == month <==> month == 12 || days < MonthLength(leap, month)
    decreases 12 - month
  {
    if month < 12 && days >= MonthLength(leap, month) {
      MonthFromSide(leap, month + 1, days - MonthLength(leap, month));
    }
  }

  predicate DateChars(s: string) { forall i :: 0 <= i < |s| ==> '0' <= s[i] <= '9' || s[i] == '-' }

  lemma CharsJoin(s: string, t: string)
    requires DateChars(s) && DateChars(t)
    ensures DateChars(s + "-" + t) && '-' in s + "-" + t
  {
    assert (s + "-" + t)[|s|] == '-';
  }

  lemma DateTextShape(day: int)
    ensures DateChars(DateText(day)) && '-' in DateText(day)
  {
    var (year, rest) := YearFrom(1970, day);
    var (month, number) := MonthFrom(Leap(year), 1, rest);
    SignedChars(year);
    PaddedReads(month, 2);
    PaddedReads(number, 2);
    CharsJoin(Padded(month, 2), Padded(number, 2));
    CharsJoin(Signed(year, 4, 4), Padded(month, 2) + "-" + Padded(number, 2));
  }

  lemma SignedChars(year: int)
    ensures DateChars(Signed(year, 4, 4))
  {
    PaddedReads(if year < 0 then -year else year, 4);
  }

  lemma NumeralHasNoDash(n: nat, width: nat)
    ensures '-' !in Padded(n, width)
  {
    PaddedReads(n, width);
  }

  /** A year begins with a dash exactly when it is before year zero. */
  lemma YearStarts(y: int, s: string)
    ensures (Signed(y, 4, 4) + "-" + s)[0] == '-' <==> y < 0
  {
    PaddedNotEmpty(if y < 0 then -y else y, 4);
    NumeralHasNoDash(if y < 0 then -y else y, 4);
    assert (Signed(y, 4, 4) + "-" + s)[0] == Signed(y, 4, 4)[0];
    assert Padded(if y < 0 then -y else y, 4)[0] != '-';
  }

  lemma PositiveYearReads(y: nat, s: string, z: nat, t: string)
    requires Padded(y, 4) + "-" + s == Padded(z, 4) + "-" + t
    ensures Padded(y, 4) == Padded(z, 4) && s == t
  {
    NumeralHasNoDash(y, 4);
    NumeralHasNoDash(z, 4);
    SplitUnique(Padded(y, 4), s, Padded(z, 4), t, '-');
  }

  lemma NegativeYear(y: int, s: string)
    requires y < 0
    ensures Signed(y, 4, 4) == "-" + Padded(-y, 4)
    ensures Signed(y, 4, 4) + "-" + s == "-" + (Padded(-y, 4) + "-" + s)
  {
  }

  lemma NegativeYearReads(y: int, s: string, z: int, t: string)
    requires y < 0 && z < 0 && Signed(y, 4, 4) + "-" + s == Signed(z, 4, 4) + "-" + t
    ensures Signed(y, 4, 4) == Signed(z, 4, 4) && s == t
  {
    NegativeYear(y, s);
    NegativeYear(z, t);
    SameTail("-", Padded(-y, 4) + "-" + s, Padded(-z, 4) + "-" + t);
    PositiveYearReads(-y, s, -z, t);
  }

  lemma YearReads(y: int, s: string, z: int, t: string)
    requires Signed(y, 4, 4) + "-" + s == Signed(z, 4, 4) + "-" + t
    ensures y == z && s == t
  {
    YearStarts(y, s);
    YearStarts(z, t);
    if y < 0 {
      NegativeYearReads(y, s, z, t);
    } else {
      PositiveYearReads(y, s, z, t);
    }
    SignedReads(y, z, 4, 4);
  }

  /** Different days have different dates. */
  lemma DateTextInjective(a: int, b: int)
    requires DateText(a) == DateText(b)
    ensures a == b
  {
    var (ya, ra) := YearFrom(1970, a);
    var (yb, rb) := YearFrom(1970, b);
    var (ma, na) := MonthFrom(Leap(ya), 1, ra);
    var (mb, nb) := MonthFrom(Leap(yb), 1, rb);
    YearReads(ya, Padded(ma, 2) + "-" + Padded(na, 2), yb, Padded(mb, 2) + "-" + Padded(nb, 2));
    NumeralHasNoDash(ma, 2);
    NumeralHasNoDash(mb, 2);
    SplitUnique(Padded(ma, 2), Padded(na, 2), Padded(mb, 2), Padded(nb, 2), '-');
    PaddedReads(ma, 2);
    PaddedReads(mb, 2);
    PaddedReads(na, 2);
    PaddedReads(nb, 2);
    MonthFromReads(Leap(ya), 1, ra, rb);
    YearFromReads(1970, a);
    YearFromReads(1970, b);
  }

  // ------------------------------------------------------------- one day after another

  /** Year, month and day of the month. */
  function Civil(day: int): (int, nat, nat) {
    var (year, rest) := YearFrom(1970, day);
    var (month, number) := MonthFrom(Leap(year), 1, rest);
    (year, month, number)
  }

  /** How long a month is, by the rule of the Gregorian calendar. */
  function Lasts(year: int, month: nat): nat
    requires 1 <= month <= 12
  {
    var leap := if year % 100 == 0 then year % 400 == 0 else year % 4 == 0;
    [31, if leap then 29 else 28, 31, 30, 31, 30, 31, 31, 30, 31, 30, 31][month - 1]
  }

  lemma HundredIsFour(year: int)
    requires year % 100 == 0
    ensures year % 4 == 0
  {
    var k := year / 100;
    assert year == 4 * (25 * k);
  }

  lemma LastsIsLength(year: int, month: nat)
    requires 1 <= month <= 12
    ensures MonthLength(Leap(year), month) == Lasts(year, month)
  {
    if year % 100 == 0 {
      HundredIsFour(year);
    }
  }

  lemma {:induction false} YearStep(year: int, days: int)
    ensures var (y, rest) := YearFrom(year, days);
            rest < YearLength(y) &&
            YearFrom(year, days + 1) == if rest + 1 < YearLength(y) then (y, rest + 1) else (y + 1, 0)
    decreases if days < 0 then -days else 0, if days < 0 then 0 else days
  {
    if days < 0 {
      var next := days + YearLength(year - 1);
      YearStep(year - 1, next);
      if days == -1 {
        assert YearFrom(year - 1, next) == (year - 1, next);
      }
    } else if days >= YearLength(year) {
      YearStep(year + 1, days - YearLength(year));
    } else if days + 1 == YearLength(year) {
      assert YearFrom(year + 1, 0) == (year + 1, 0);
    }
  }

  /** Days from the first of a month to the end of the year. */
  function ToYearEnd(leap: bool, month: nat): nat
    requires month <= 12
    decreases 12 - month
  {
    MonthLength(leap, month) + if month == 12 then 0 else ToYearEnd(leap, month + 1)
  }

  lemma WholeYear(year: int)
    ensures ToYearEnd(Leap(year), 1) == YearLength(year)
  {
    assert ToYearEnd(Leap(year), 9) == 30 + (31 + (30 + 31)) by { assert ToYearEnd(Leap(year), 11) == 61; }
    assert ToYearEnd(Leap(year), 5) == 31 + (30 + (31 + (31 + 122))) by { assert ToYearEnd(Leap(year), 7) == 62 + 122; }
    assert ToYearEnd(Leap(year), 3) == 31 + (30 + 245);
  }

  lemma {:induction false} MonthPlace(leap: bool, month: nat, days: nat)
    requires 1 <= month <= 12 && days < ToYearEnd(leap, month)
    ensures var (m, d) := MonthFrom(leap, month, days);
            month <= m <= 12 && 1 <= d <= MonthLength(leap, m)
    decreases 12 - month
  {
    if month < 12 && days >= MonthLength(leap, month) {
      MonthPlace(leap, month + 1, days - MonthLength(leap, month));
    }
  }

  lemma MonthEnds(leap: bool, month: nat, days: nat)
    requires 1 <= month < 12 && days + 1 == MonthLength(leap, month)
    ensures MonthFrom(leap, month, days) == (month, days + 1)
    ensures MonthFrom(leap, month, days + 1) == (month + 1, 1)
  {
    assert MonthFrom(leap, month + 1, 0) == (month + 1, 1);
  }

  lemma YearGoesOn(leap: bool, month: nat)
    requires 1 <= month <= 12
    ensures ToYearEnd(leap, month) >= MonthLength(leap, month) > 0
    ensures month < 12 ==> ToYearEnd(leap, month) == MonthLength(leap, month) + ToYearEnd(leap, month + 1)
  {
  }

  /** Whether a day is the last of its month, when the months of the year that are left
      begin with a given one. */
  ghost predicate Steps(leap: bool, month: nat, days: nat)
    requires 1 <= month <= 12
  {
    StepsTo(leap, MonthFrom(leap, month, days), MonthFrom(leap, month, days + 1), days + 1 < ToYearEnd(leap, month))
  }

  predicate StepsTo(leap: bool, here: (nat, nat), next: (nat, nat), inside: bool) {
    var (m, d) := here;
    if inside then next == if d < MonthLength(leap, m) then (m, d + 1) else (m + 1, 1)
    else m == 12 && d == MonthLength(leap, 12)
  }

  lemma {:induction false} MonthStep(leap: bool, month: nat, days: nat)
    requires 1 <= month <= 12 && days < ToYearEnd(leap, month)
    ensures Steps(leap, month, days)
    decreases 12 - month
  {
    YearGoesOn(leap, month);
    var length := MonthLength(leap, month);
    if month < 12 {
      YearGoesOn(leap, month + 1);
      if days >= length {
        MonthStep(leap, month + 1, days - length);
        LaterMonth(leap, month, days);
      } else if days + 1 == length {
        MonthEnds(leap, month, days);
      }
    }
  }

  lemma LaterMonth(leap: bool, month: nat, days: nat)
    requires 1 <= month < 12 && days >= MonthLength(leap, month)
    requires Steps(leap, month + 1, days - MonthLength(leap, month))
    ensures Steps(leap, month, days)
  {
    YearGoesOn(leap, month);
    MonthGoesOn(leap, month, days);
    MonthGoesOn(leap, month, days + 1);
  }

  /** Within a year a day is followed by the next of its month, or the first of the next
      month; the last day of the year is the last of December. */
  lemma DayStep(year: int, rest: nat)
    requires rest < YearLength(year)
    ensures var (m, d) := MonthFrom(Leap(year), 1, rest);
            && 1 <= m <= 12 && 1 <= d <= Lasts(year, m)
            && (rest + 1 < YearLength(year) ==>
                  MonthFrom(Leap(year), 1, rest + 1) == (if d < Lasts(year, m) then (m, d + 1) else (m + 1, 1))
                  && (d == Lasts(year, m) ==> m < 12))
            && (rest + 1 == YearLength(year) ==> m == 12 && d == Lasts(year, 12))
  {
    WholeYear(year);
    MonthStep(Leap(year), 1, rest);
    MonthPlace(Leap(year), 1, rest);
    LastsIsLength(year, MonthFrom(Leap(year), 1, rest).0);
    if rest + 1 < YearLength(year) {
      MonthPlace(Leap(year), 1, rest + 1);
    }
  }

  /** Day zero is 1 January 1970, and every day's date is followed by the next date of
      the calendar: that fixes the date of every day, before and after. */
  lemma DaysFollow(day: int)
    ensures Civil(0) == (1970, 1, 1)
    ensures var (y, m, d) := Civil(day);
            && 1 <= m <= 12 && 1 <= d <= Lasts(y, m)
            && Civil(day + 1) == if d < Lasts(y, m) then (y, m, d + 1)
                                 else if m < 12 then (y, m + 1, 1) else (y + 1, 1, 1)
  {
    var (y, rest) := YearFrom(1970, day);
    YearStep(1970, day);
    DayStep(y, rest);
    FirstOfYear(Leap(y + 1));
    FirstOfYear(Leap(1970));
  }

  lemma FirstOfYear(leap: bool)
    ensures MonthFrom(leap, 1, 0) == (1, 1)
  {
  }

  lemma Between3(a: string, b: string, c: string)
    requires |a| == 4 && |b| == 2 && |c| == 2
    ensures var text := a + "-" + (b + "-" + c);
            |text| == 10 && text[4] == '-' && text[7] == '-' && text[..4] == a && text[5..7] == b && text[8..] == c
  {
    var text := a + "-" + (b + "-" + c);
    assert text[5..7] == b && text[8..] == c;
  }

  lemma TwoDigits(n: nat)
    requires n < 100
    ensures |Padded(n, 2)| == 2 && IsNumeral(Padded(n, 2)) && Number(Padded(n, 2)) == n
  {
    assert Power10(2) == 10 * Power10(1);
    PaddedReads(n, 2);
    PaddedLength(n, 2);
  }

  lemma FourDigits(n: nat)
    requires n <= 9999
    ensures |Padded(n, 4)| == 4 && IsNumeral(Padded(n, 4)) && Number(Padded(n, 4)) == n
  {
    assert Power10(4) == 10 * (10 * Power10(2)) && Power10(2) == 10 * Power10(1);
    PaddedReads(n, 4);
    PaddedLength(n, 4);
  }

  /** A date is written as year, month and day with dashes between. */
  lemma DateWritten(day: int)
    ensures var (y, m, d) := Civil(day);
            var text := DateText(day);
            0 <= y <= 9999 ==>
              && |text| == 10 && text[4] == '-' && text[7] == '-'
              && IsNumeral(text[..4]) && Number(text[..4]) == y
              && IsNumeral(text[5..7]) && Number(text[5..7]) == m
              && IsNumeral(text[8..]) && Number(text[8..]) == d
  {
    var (y, m, d) := Civil(day);
    if 0 <= y <= 9999 {
      DaysFollow(day);
      FourDigits(y);
      TwoDigits(m);
      TwoDigits(d);
      Between3(Padded(y, 4), Padded(m, 2), Padded(d, 2));
    }
  }
}
