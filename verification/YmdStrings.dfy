/**
 Dates written as year, month and day, and the ASCII comparison the stats code orders them with.
 */
module YmdStrings {
  import opened Calendar

  function DigitChar(n: int): char
    requires 0 <= n < 10
  {
    ('0' as int + n) as char
  }

  /** "%d" */
  function Decimal(n: nat): (s: string)
    ensures s != []
  {
    if n < 10 then [DigitChar(n)] else Decimal(n / 10) + [DigitChar(n % 10)]
  }

  /** "%02d" */
  function TwoDigits(n: nat): string
    requires n < 100
  {
    [DigitChar(n / 10), DigitChar(n % 10)]
  }

  /** "%d-%02d-%02d" */
  function Format(d: Date): string {
    Decimal(d.year) + MonthDay(d)
  }

  function MonthDay(d: Date): string {
    ['-'] + TwoDigits(d.month) + ['-'] + TwoDigits(d.day)
  }

  function ToLowerAscii(c: char): char {
    if 'A' <= c <= 'Z' then (c as int + 32) as char else c
  }

  /** Compares like memcmp after lower-casing ASCII letters; a proper prefix is smaller. */
  function Compare(a: string, b: string): int {
    if a == [] && b == [] then 0
    else if a == [] then -1
    else if b == [] then 1
    else if ToLowerAscii(a[0]) < ToLowerAscii(b[0]) then -1
    else if ToLowerAscii(b[0]) < ToLowerAscii(a[0]) then 1
    else Compare(a[1..], b[1..])
  }

  lemma {:induction false} CompareFlip(a: string, b: string)
    ensures Compare(b, a) == -Compare(a, b)
    decreases |a|
  {
    if a != [] && b != [] {
      CompareFlip(a[1..], b[1..]);
    }
  }

  lemma {:induction false} CompareHeads(a: char, s: string, b: char, t: string)
    ensures Compare([a] + s, [b] + t)
         == if ToLowerAscii(a) < ToLowerAscii(b) then -1
            else if ToLowerAscii(b) < ToLowerAscii(a) then 1
            else Compare(s, t)
  {
  }

  lemma {:induction false} CompareDigits(m: int, s: string, n: int, t: string)
    requires 0 <= m < 10 && 0 <= n < 10
    ensures Compare([DigitChar(m)] + s, [DigitChar(n)] + t) == if m < n then -1 else if n < m then 1 else Compare(s, t)
  {
  }

  function Sign(x: int): int {
    if x < 0 then -1 else if 0 < x then 1 else 0
  }

  /** Numbers with equally many digits compare as numbers; what follows only matters when they are equal. */
  lemma {:induction false} CompareEqualLength(m: nat, s: string, n: nat, t: string)
    requires |Decimal(m)| == |Decimal(n)|
    ensures Compare(Decimal(m) + s, Decimal(n) + t) == if m == n then Compare(s, t) else Sign(m - n)
    decreases m
  {
    if m < 10 {
      assert n < 10;
      CompareDigits(m, s, n, t);
    } else {
      var c, d := DigitChar(m % 10), DigitChar(n % 10);
      assert Decimal(m) + s == Decimal(m / 10) + ([c] + s);
      assert Decimal(n) + t == Decimal(n / 10) + ([d] + t);
      CompareEqualLength(m / 10, [c] + s, n / 10, [d] + t);
      CompareDigits(m % 10, s, n % 10, t);
    }
  }

  lemma {:induction false} MoreDigits(m: nat, n: nat)
    requires m <= n
    ensures |Decimal(m)| <= |Decimal(n)|
    decreases n
  {
    if 10 <= m {
      MoreDigits(m / 10, n / 10);
    }
  }

  /** The number that the first `k` digits of `n` make. */
  function Leading(n: nat, k: nat): nat
    requires 1 <= k
    decreases n
  {
    if |Decimal(n)| <= k then n else Leading(n / 10, k)
  }

  /** What follows the first `k` digits are digits. */
  lemma {:induction false} SplitDigits(n: nat, k: nat) returns (rest: string)
    requires 1 <= k <= |Decimal(n)|
    ensures |Decimal(Leading(n, k))| == k
    ensures Decimal(n) == Decimal(Leading(n, k)) + rest
    ensures forall j :: 0 <= j < |rest| ==> '0' <= rest[j] <= '9'
    decreases n
  {
    if |Decimal(n)| <= k {
      rest := [];
    } else {
      var r := SplitDigits(n / 10, k);
      rest := r + [DigitChar(n % 10)];
      assert Decimal(n) == Decimal(Leading(n / 10, k)) + r + [DigitChar(n % 10)];
    }
  }

  lemma {:induction false} CompareWithLeading(m: nat, s: string, k: nat, t: string)
    requires |Decimal(m)| == |Decimal(k)| && s != [] && s[0] == '-' && t != [] && '0' <= t[0] <= '9'
    ensures Compare(Decimal(m) + s, Decimal(k) + t) == (if m <= k then -1 else 1)
  {
    CompareEqualLength(m, s, k, t);
    DashBeforeDigit(s, t);
  }

  /** A year with fewer digits than a later one: the digits they share decide, and when those are equal
      the dash after the shorter year comes before any digit. */
  lemma {:induction false} CompareShorter(m: nat, s: string, n: nat, t: string)
    requires |Decimal(m)| < |Decimal(n)| && s != [] && s[0] == '-'
    ensures Compare(Decimal(m) + s, Decimal(n) + t)
         == (if m <= Leading(n, |Decimal(m)|) then -1 else 1)
  {
    var k := Leading(n, |Decimal(m)|);
    var rest := SplitDigits(n, |Decimal(m)|);
    assert (Decimal(k) + rest) + t == Decimal(k) + (rest + t);
    CompareWithLeading(m, s, k, rest + t);
  }

  lemma {:induction false} DashBeforeDigit(s: string, t: string)
    requires s != [] && s[0] == '-' && t != [] && '0' <= t[0] <= '9'
    ensures Compare(s, t) == -1
  {
  }

  lemma CompareMonthDay(a: Date, b: Date)
    ensures Compare(MonthDay(a), MonthDay(b))
         == if a.month != b.month then Sign(a.month - b.month) else Sign(a.day - b.day)
  {
    var a1, b1 := ['-'] + TwoDigits(a.day), ['-'] + TwoDigits(b.day);
    assert MonthDay(a) == ['-'] + (TwoDigits(a.month) + a1);
    assert MonthDay(b) == ['-'] + (TwoDigits(b.month) + b1);
    CompareHeads('-', TwoDigits(a.month) + a1, '-', TwoDigits(b.month) + b1);
    CompareTwoDigits(a.month, a1, b.month, b1);
    CompareHeads('-', TwoDigits(a.day), '-', TwoDigits(b.day));
    assert TwoDigits(a.day) + [] == TwoDigits(a.day) && TwoDigits(b.day) + [] == TwoDigits(b.day);
    CompareTwoDigits(a.day, [], b.day, []);
  }

  lemma {:induction false} CompareTwoDigits(m: nat, s: string, n: nat, t: string)
    requires m < 100 && n < 100
    ensures Compare(TwoDigits(m) + s, TwoDigits(n) + t) == if m == n then Compare(s, t) else Sign(m - n)
  {
  }

  /** The text of a later date compares greater than that of an earlier one exactly when the earlier
      year is not above the equally long beginning of the later year. */
  lemma LaterComparesGreater(a: Date, b: Date)
    requires DayNumber(a) < DayNumber(b)
    ensures Compare(Format(b), Format(a)) == 1 <==> a.year <= Leading(b.year, |Decimal(a.year)|)
    ensures Compare(Format(b), Format(a)) != 0
  {
    DayNumberOrder(a, b);
    MoreDigits(a.year, b.year);
    CompareFlip(Format(a), Format(b));
    if |Decimal(a.year)| == |Decimal(b.year)| {
      CompareEqualLength(a.year, MonthDay(a), b.year, MonthDay(b));
      CompareMonthDay(a, b);
    } else {
      CompareShorter(a.year, MonthDay(a), b.year, MonthDay(b));
    }
  }

  /** In particular always while both years have the same number of digits, */
  lemma LaterComparesGreaterSameDigits(a: Date, b: Date)
    requires DayNumber(a) < DayNumber(b) && |Decimal(a.year)| == |Decimal(b.year)|
    ensures Compare(Format(b), Format(a)) == 1
  {
    LaterComparesGreater(a, b);
    DayNumberOrder(a, b);
  }

  /** but not from the last day of the year 9999 to the next. */
  lemma YearTenThousandComparesSmaller()
    ensures var a, b := CivilDate(9999, 12, 31), CivilDate(10000, 1, 1);
            DayNumber(a) + 1 == DayNumber(b) && Compare(Format(b), Format(a)) == -1
  {
    var a, b := CivilDate(9999, 12, 31), CivilDate(10000, 1, 1);
    MonthTable(9999, 12);
    FourDigits(9999);
    FourDigits(1000);
    assert Decimal(10000) == Decimal(1000) + [DigitChar(0)];
    assert Leading(10000, 4) == Leading(1000, 4) == 1000;
    LaterComparesGreater(a, b);
    CompareRange(Format(b), Format(a));
  }

  lemma {:induction false} FourDigits(n: nat)
    requires 1000 <= n < 10000
    ensures |Decimal(n)| == 4
  {
    assert |Decimal(n / 10)| == 3 by {
      assert |Decimal(n / 10 / 10)| == 2;
    }
  }

  lemma {:induction false} CompareRange(a: string, b: string)
    ensures -1 <= Compare(a, b) <= 1
    decreases |a|
  {
    if a != [] && b != [] {
      CompareRange(a[1..], b[1..]);
    }
  }

  /** Two dates have the same text exactly when they are the same date, so testing for equality is safe
      in every year. */
  lemma SameTextSameDate(a: Date, b: Date)
    ensures Compare(Format(a), Format(b)) == 0 <==> a == b
    ensures Format(a) == Format(b) <==> a == b
  {
    DayNumberOrder(a, b);
    CompareFlip(Format(a), Format(b));
    CompareSelf(Format(a));
    if DayNumber(a) < DayNumber(b) {
      LaterComparesGreater(a, b);
    } else if DayNumber(b) < DayNumber(a) {
      LaterComparesGreater(b, a);
    }
  }

  lemma {:induction false} CompareSelf(s: string)
    ensures Compare(s, s) == 0
    decreases |s|
  {
    if s != [] {
      CompareSelf(s[1..]);
    }
  }

  /** Equal but for the case of ASCII letters, spelled out. */
  predicate SameButForCase(a: char, b: char) {
    || a == b
    || ('A' <= a <= 'Z' && b as int == a as int + 32)
    || ('A' <= b <= 'Z' && a as int == b as int + 32)
  }

  /** The comparison finds no difference exactly between texts that are equal but for case. */
  lemma {:induction false} CompareIgnoresCaseOnly(a: string, b: string)
    ensures Compare(a, b) == 0 <==> |a| == |b| && forall i :: 0 <= i < |a| ==> SameButForCase(a[i], b[i])
    decreases |a|
  {
    if a != [] && b != [] {
      var s, t := a[1..], b[1..];
      CompareIgnoresCaseOnly(s, t);
      assert a == [a[0]] + s && b == [b[0]] + t;
      if SameButForCase(a[0], b[0]) && |s| == |t| && (forall i :: 0 <= i < |s| ==> SameButForCase(s[i], t[i])) {
        forall i | 0 <= i < |a|
          ensures SameButForCase(a[i], b[i])
        {
          assert 0 < i ==> a[i] == s[i - 1] && b[i] == t[i - 1];
        }
      }
      if |a| == |b| && (forall i :: 0 <= i < |a| ==> SameButForCase(a[i], b[i])) {
        forall i | 0 <= i < |s|
          ensures SameButForCase(s[i], t[i])
        {
          assert s[i] == a[i + 1] && t[i] == b[i + 1];
        }
      }
    }
  }

  /** Month and day have two digits each, the year as many as it needs. */
  lemma FormatLooksLike()
    ensures Format(CivilDate(2021, 3, 7)) == "2021-03-07" && Format(CivilDate(987, 12, 31)) == "987-12-31"
  {
    assert Decimal(2021) == Decimal(202) + "1" && Decimal(202) == Decimal(20) + "2" && Decimal(20) == "2" + "0";
    assert Decimal(987) == Decimal(98) + "7" && Decimal(98) == "9" + "8";
  }
}
