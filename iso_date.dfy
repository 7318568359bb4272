/** The cutover rule of src/automate-login.js and src/server.js: a day whose
    ISO 8601 calendar date (`YYYY-MM-DD`, the prefix of `toISOString()`)
    compares below the fixed initial date is "before data availability". The
    comparison is JavaScript's string `<`; the lemmas show that on well-formed
    dates it is the chronological order. */
module IsoDate {
  import opened Strings

  const InitialDate: string := "2025-11-20"

  /** The fixed message written for, and reported about, days before the cutover. */
  const BeforeInitialDayMessage: string :=
    "Data not available - date is before initial day (November 20, 2025)"

  /** `isBeforeInitialDate(dateString)`: `dateString < INITIAL_DATE`. */
  predicate IsBeforeInitialDate(date: string) {
    LexLess(date, InitialDate)
  }

  predicate IsDigit(c: char) { '0' <= c <= '9' }

  predicate AllDigits(s: string) { forall i :: 0 <= i < |s| ==> IsDigit(s[i]) }

  /** The `YYYY-MM-DD` shape. */
  predicate WellFormed(s: string) {
    |s| == 10 && s[4] == '-' && s[7] == '-'
    && AllDigits(s[..4]) && AllDigits(s[5..7]) && AllDigits(s[8..])
  }

  function Pow10(n: nat): (p: nat)
    ensures p >= 1
  {
    if n == 0 then 1 else 10 * Pow10(n - 1)
  }

  /** The decimal value of a digit string. */
  function Num(s: string): (v: nat)
    requires AllDigits(s)
    ensures v < Pow10(|s|)
  {
    if |s| == 0 then 0
    else
      var d := s[0] as int - '0' as int;
      var rest := Num(s[1..]);
      MulStep(d, 9, Pow10(|s| - 1));
      d * Pow10(|s| - 1) + rest
  }

  lemma MulStep(x: int, y: int, p: nat)
    requires 0 <= x <= y
    ensures x * p <= y * p
  {
  }

  function Year(s: string): nat requires WellFormed(s) { Num(s[..4]) }
  function Month(s: string): nat requires WellFormed(s) { Num(s[5..7]) }
  function Day(s: string): nat requires WellFormed(s) { Num(s[8..]) }

  /** On digit strings of equal length, string order is numeric order, and
      equal values mean equal strings. */
  lemma {:induction false} DigitsOrder(a: string, b: string)
    requires |a| == |b| && AllDigits(a) && AllDigits(b)
    ensures LexLess(a, b) <==> Num(a) < Num(b)
    ensures a == b <==> Num(a) == Num(b)
    decreases |a|
  {
    if |a| > 0 {
      DigitsOrder(a[1..], b[1..]);
      if a[0] != b[0] {
        if a[0] < b[0] {
          LeadingDigitDecides(a, b);
        } else {
          LeadingDigitDecides(b, a);
        }
      } else {
        assert Num(a) - Num(a[1..]) == Num(b) - Num(b[1..]);
        if a[1..] == b[1..] { assert a == b; }
      }
    }
  }

  /** A smaller leading digit makes the smaller number. */
  lemma LeadingDigitDecides(a: string, b: string)
    requires |a| == |b| > 0 && AllDigits(a) && AllDigits(b) && a[0] < b[0]
    ensures Num(a) < Num(b)
  {
    PlaceValue(a[0] as int - '0' as int, b[0] as int - '0' as int, Pow10(|a| - 1), Num(a[1..]), Num(b[1..]));
  }

  lemma PlaceValue(x: nat, y: nat, p: nat, r: nat, s: nat)
    requires x < y && r < p
    ensures x * p + r < y * p + s
  {
    MulStep(x + 1, y, p);
  }

  /** String comparison of two well-formed dates is the chronological order:
      by year, then month, then day. */
  lemma Chronological(a: string, b: string)
    requires WellFormed(a) && WellFormed(b)
    ensures LexLess(a, b) <==>
      Year(a) < Year(b)
      || (Year(a) == Year(b) && (Month(a) < Month(b) || (Month(a) == Month(b) && Day(a) < Day(b))))
  {
    DigitsOrder(a[..4], b[..4]);
    DigitsOrder(a[5..7], b[5..7]);
    DigitsOrder(a[8..], b[8..]);
    assert a == a[..4] + (a[4..5] + (a[5..7] + (a[7..8] + a[8..])));
    assert b == b[..4] + (b[4..5] + (b[5..7] + (b[7..8] + b[8..])));
    LexLessConcat(a[..4], a[4..5] + (a[5..7] + (a[7..8] + a[8..])), b[..4], b[4..5] + (b[5..7] + (b[7..8] + b[8..])));
    LexLessConcat(a[4..5], a[5..7] + (a[7..8] + a[8..]), b[4..5], b[5..7] + (b[7..8] + b[8..]));
    LexLessConcat(a[5..7], a[7..8] + a[8..], b[5..7], b[7..8] + b[8..]);
    LexLessConcat(a[7..8], a[8..], b[7..8], b[8..]);
  }

  /** A well-formed day is before the cutover exactly when it is
      chronologically earlier than 20 November 2025. */
  lemma BeforeCutoverIsChronological(d: string)
    requires WellFormed(d)
    ensures IsBeforeInitialDate(d) <==>
      Year(d) < 2025 || (Year(d) == 2025 && (Month(d) < 11 || (Month(d) == 11 && Day(d) < 20)))
  {
    assert WellFormed(InitialDate);
    Chronological(d, InitialDate);
    assert InitialDate[..4] == "2025" && InitialDate[5..7] == "11" && InitialDate[8..] == "20";
    assert Num("2025") == 2025 && Num("11") == 11 && Num("20") == 20;
  }
}
