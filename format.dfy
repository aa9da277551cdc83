/** The timer display: `formatElapsed` and `pad` (app.js:149-156), with
    `Number.prototype.toString` for integers written out as decimal digits. */
module Format {

  predicate IsDigit(c: char)
  {
    '0' <= c <= '9'
  }

  predicate AllDigits(s: string)
  {
    forall i :: 0 <= i < |s| ==> IsDigit(s[i])
  }

  function DigitChar(d: nat): (c: char)
    requires d < 10
    ensures IsDigit(c)
  {
    ('0' as int + d) as char
  }

  function DigitValue(c: char): nat
    requires IsDigit(c)
  {
    c as int - '0' as int
  }

  /** The decimal digits of `n`, most significant first, without leading zeros. */
  function Decimal(n: nat): (s: string)
    ensures 1 <= |s| && AllDigits(s)
    ensures |s| == 1 || s[0] != '0'
    ensures n < 10 <==> |s| == 1
    ensures n < 100 ==> |s| <= 2
  {
    if n < 10 then [DigitChar(n)] else Decimal(n / 10) + [DigitChar(n % 10)]
  }

  /** Reads a string of decimal digits back as a number: the partner of Decimal. */
  function DecimalValue(s: string): nat
    requires AllDigits(s)
  {
    if s == [] then 0 else DecimalValue(s[..|s| - 1]) * 10 + DigitValue(s[|s| - 1])
  }

  lemma {:induction false} DecimalRoundTrip(n: nat)
    ensures DecimalValue(Decimal(n)) == n
  {
    if n >= 10 {
      DecimalRoundTrip(n / 10);
      var s := Decimal(n);
      assert s[..|s| - 1] == Decimal(n / 10);
    }
  }

  /** Different numbers are written differently. */
  lemma DecimalInjective(m: nat, n: nat)
    requires Decimal(m) == Decimal(n)
    ensures m == n
  {
    DecimalRoundTrip(m);
    DecimalRoundTrip(n);
  }

  /** `n.toString()` for an integer: a minus sign before the digits of |n| when negative. */
  function ToString(n: int): (s: string)
    ensures n >= 0 ==> s == Decimal(n)
    ensures n < 0 ==> |s| >= 2 && s[0] == '-' && s[1..] == Decimal(-n)
  {
    if n < 0 then "-" + Decimal(-n) else Decimal(n)
  }

  /** `pad(n)`: `n.toString().padStart(2, '0')`, zeros prepended up to two characters. */
  function Pad(n: int): (padded: string)
    ensures |padded| == if |ToString(n)| < 2 then 2 else |ToString(n)|
    ensures padded[|padded| - |ToString(n)|..] == ToString(n)
    ensures forall i :: 0 <= i < |padded| - |ToString(n)| ==> padded[i] == '0'
  {
    var s := ToString(n);
    if |s| < 2 then seq(2 - |s|, _ => '0') + s else s
  }

  /** A padded non-negative number is all digits and still reads as that number. */
  lemma PadValue(n: nat)
    ensures AllDigits(Pad(n)) && DecimalValue(Pad(n)) == n
  {
    DecimalRoundTrip(n);
    var s := Decimal(n);
    if |s| < 2 {
      var padded := Pad(n);
      assert padded == ['0'] + s;
      assert padded[..1] == ['0'];
      assert padded[..|padded| - 1][..0] == [];
    }
  }

  /** Hours, minutes and seconds of a duration. */
  datatype Clock = Clock(h: int, m: int, s: int)

  /** The split `formatElapsed` performs: whole seconds `floor(ms / 1000)` (Dafny's
      division by a positive constant floors), hours, then minutes and seconds of the rest. */
  function Split(ms: int): (c: Clock)
    ensures c.h * 3600 + c.m * 60 + c.s == ms / 1000
    ensures 0 <= c.m < 60 && 0 <= c.s < 60
    ensures ms >= 0 ==> c.h >= 0
  {
    var total := ms / 1000;
    var h := total / 3600;
    var rest := total - h * 3600;
    var m := rest / 60;
    Clock(h, m, rest - m * 60)
  }

  /** `formatElapsed(ms)`: "hh:mm:ss". */
  function FormatElapsed(ms: int): (text: string)
    ensures |text| >= 8
  {
    var c := Split(ms);
    Pad(c.h) + ":" + Pad(c.m) + ":" + Pad(c.s)
  }

  lemma PadBelowHundred(n: nat)
    requires n < 100
    ensures |Pad(n)| == 2
  {
  }

  /** `r` is the text of a clock showing `seconds` whole seconds: an hours field,
      a colon, two minute digits, a colon and two second digits, which read back
      as hours * 3600 + minutes * 60 + seconds. */
  predicate ShowsSeconds(r: string, seconds: int)
  {
    |r| >= 8 && r[|r| - 6] == ':' && r[|r| - 3] == ':' &&
    AllDigits(r[..|r| - 6]) && AllDigits(r[|r| - 5..|r| - 3]) && AllDigits(r[|r| - 2..]) &&
    DecimalValue(r[..|r| - 6]) * 3600 + DecimalValue(r[|r| - 5..|r| - 3]) * 60
      + DecimalValue(r[|r| - 2..]) == seconds
  }

  /** The display reads back as the whole seconds elapsed. */
  lemma FormatElapsedReadsBack(ms: int)
    requires ms >= 0
    ensures ShowsSeconds(FormatElapsed(ms), ms / 1000)
  {
    var c := Split(ms);
    var hh, mm, ss := Pad(c.h), Pad(c.m), Pad(c.s);
    PadValue(c.h);
    PadValue(c.m);
    PadValue(c.s);
    PadBelowHundred(c.m);
    PadBelowHundred(c.s);
    FieldsShow(FormatElapsed(ms), hh, mm, ss, ms / 1000);
  }

  /** Three digit fields joined by colons show the seconds they add up to. */
  lemma FieldsShow(r: string, a: string, b: string, c: string, seconds: int)
    requires r == a + ":" + b + ":" + c
    requires AllDigits(a) && AllDigits(b) && AllDigits(c) && |a| >= 2 && |b| == 2 && |c| == 2
    requires seconds == DecimalValue(a) * 3600 + DecimalValue(b) * 60 + DecimalValue(c)
    ensures ShowsSeconds(r, seconds)
  {
    Fields(a, b, c);
  }

  /** Where the three fields of "a:bb:cc" sit. */
  lemma Fields(a: string, b: string, c: string)
    requires |b| == 2 && |c| == 2
    ensures var r := a + ":" + b + ":" + c;
      |r| == |a| + 6 && r[..|r| - 6] == a && r[|r| - 6] == ':' &&
      r[|r| - 5..|r| - 3] == b && r[|r| - 3] == ':' && r[|r| - 2..] == c
  {
    var r := a + ":" + b + ":" + c;
    assert r[..|r| - 6] == a;
    assert r[|r| - 5..|r| - 3] == b;
    assert r[|r| - 2..] == c;
  }
}
