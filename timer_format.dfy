/**
 * `formatTime` of the two timer screens: a number of seconds shown as
 * hours, minutes and seconds, each padded to two digits.
 */
module TimerFormat {
  import opened Text

  const HourSeconds: int := 3600
  const MinuteSeconds: int := 60

  /** JavaScript's `%`: the remainder takes the sign of the dividend. */
  function JsRem(a: int, b: int): (r: int)
    requires b > 0
    ensures a >= 0 ==> 0 <= r < b && r == a % b
    ensures a < 0 ==> -b < r <= 0
    ensures (a - r) % b == 0
  {
    JsRemMultiple(a, b);
    if a >= 0 then a % b else -((-a) % b)
  }

  /** The dividend minus its JavaScript remainder is a whole multiple of the divisor. */
  lemma JsRemMultiple(a: int, b: int)
    requires b > 0
    ensures a >= 0 ==> (a - a % b) % b == 0
    ensures a < 0 ==> (a + (-a) % b) % b == 0
  {
    if a >= 0 {
      assert a - a % b == b * (a / b);
      MultipleHasNoRemainder(b, a / b);
    } else {
      assert a + (-a) % b == b * -((-a) / b);
      MultipleHasNoRemainder(b, -((-a) / b));
    }
  }

  lemma MultipleHasNoRemainder(b: int, q: int)
    requires b > 0
    ensures (b * q) % b == 0
  {
    var m := b * q;
    var d := q - m / b;
    assert b * d == m % b;
  }

  /** The three fields `formatTime` shows. */
  datatype Hms = Hms(h: int, m: int, s: int)

  /**
   * `Math.floor(t / 3600)`, `Math.floor((t % 3600) / 60)` and `t % 60`
   * (Dafny's `/` by a positive divisor is already the floor).
   */
  function Decompose(t: int): Hms {
    Hms(t / HourSeconds, JsRem(t, HourSeconds) / MinuteSeconds, JsRem(t, MinuteSeconds))
  }

  /** `x.toString().padStart(2, '0')`. */
  function Pad2(x: int): string {
    PadStart(IntToString(x), 2, '0')
  }

  /**
   * `formatTime`: below 100 hours it is `HH:MM:SS`, and the three fields
   * read back as numbers add up to the count again.
   */
  function FormatTime(t: int): (r: string)
    ensures 0 <= t < 360000 ==> |r| == 8 && r[2] == ':' && r[5] == ':'
    ensures 0 <= t < 360000 ==> ParseDigits(r[0..2]) * 3600 + ParseDigits(r[3..5]) * 60 + ParseDigits(r[6..8]) == t
  {
    var p := Decompose(t);
    FieldsReadBack(t);
    Pad2(p.h) + ":" + Pad2(p.m) + ":" + Pad2(p.s)
  }

  /** The joined fields of a count below 100 hours have their colons in place and parse back to the count. */
  lemma FieldsReadBack(t: int)
    ensures 0 <= t < 360000 ==>
      var p := Decompose(t);
      var r := Pad2(p.h) + ":" + Pad2(p.m) + ":" + Pad2(p.s);
      && |r| == 8 && r[2] == ':' && r[5] == ':'
      && ParseDigits(r[0..2]) * 3600 + ParseDigits(r[3..5]) * 60 + ParseDigits(r[6..8]) == t
  {
    if 0 <= t < 360000 {
      var p := Decompose(t);
      DecomposeSplits(t);
      assert p.h < 100;
      Pad2TwoDigits(p.h);
      Pad2TwoDigits(p.m);
      Pad2TwoDigits(p.s);
      ThreeFields(Pad2(p.h), Pad2(p.m), Pad2(p.s));
      assert Pow10(2) == 100 by {
        assert Pow10(1) == 10;
      }
      DigitsOfRoundTrip(p.h, 2);
      DigitsOfRoundTrip(p.m, 2);
      DigitsOfRoundTrip(p.s, 2);
    }
  }

  lemma MulAtLeast(b: int, d: int)
    requires b > 0 && d >= 1
    ensures b * d >= b
  {
    assert b * d == b + b * (d - 1);
  }

  /** A quotient and remainder with the remainder in range are the ones `/` and `%` give. */
  lemma DivModUnique(a: int, b: int, q: int, r: int)
    requires b > 0 && a == b * q + r && 0 <= r < b
    ensures a / b == q && a % b == r
  {
    var q', r' := a / b, a % b;
    assert a == b * q' + r';
    assert b * (q - q') == b * q - b * q';
    if q > q' {
      MulAtLeast(b, q - q');
    } else if q < q' {
      MulAtLeast(b, q' - q);
    }
  }

  /**
   * For a non-negative count the fields are whole hours, minutes below 60 and
   * seconds below 60 that add back up to the count.
   */
  lemma DecomposeSplits(t: int)
    requires t >= 0
    ensures var p := Decompose(t);
      && p.h * 3600 + p.m * 60 + p.s == t
      && 0 <= p.h && 0 <= p.m < 60 && 0 <= p.s < 60
  {
    var h, r := t / 3600, t % 3600;
    var m, s := r / 60, r % 60;
    assert t == 60 * (60 * h + m) + s;
    DivModUnique(t, 60, 60 * h + m, s);
  }

  /** Splitting is the inverse of adding up: minutes and seconds below 60 come back as they were. */
  lemma {:induction false} DecomposeRoundTrip(h: nat, m: nat, s: nat)
    requires m < 60 && s < 60
    ensures Decompose(h * 3600 + m * 60 + s) == Hms(h, m, s)
  {
    var t := h * 3600 + m * 60 + s;
    DivModUnique(t, 3600, h, m * 60 + s);
    DivModUnique(m * 60 + s, 60, m, s);
    DivModUnique(t, 60, h * 60 + m, s);
  }

  /** A field below 100 is shown as its two digits. */
  lemma Pad2TwoDigits(x: int)
    requires 0 <= x < 100
    ensures Pad2(x) == DigitsOf(x, 2)
  {
    assert IntToString(x) == DecimalString(x);
    PadStartTwoDigits(x);
  }

  /** Below 100 hours the rendering is `HH:MM:SS`, eight characters of two-digit fields. */
  lemma TwoDigitFields(t: int)
    requires 0 <= t < 360000
    ensures var p := Decompose(t);
      FormatTime(t) == DigitsOf(p.h, 2) + ":" + DigitsOf(p.m, 2) + ":" + DigitsOf(p.s, 2)
    ensures |FormatTime(t)| == 8
  {
    var p := Decompose(t);
    DecomposeSplits(t);
    assert p.h < 100;
    assert FormatTime(t) == Pad2(p.h) + ":" + Pad2(p.m) + ":" + Pad2(p.s);
    Pad2TwoDigits(p.h);
    Pad2TwoDigits(p.m);
    Pad2TwoDigits(p.s);
  }

  /** The pieces of `aa:bb:cc` sit at the offsets 0, 3 and 6. */
  lemma ThreeFields(a: string, b: string, c: string)
    requires |a| == 2 && |b| == 2 && |c| == 2
    ensures var r := a + ":" + b + ":" + c;
      && |r| == 8 && r[0..2] == a && r[2] == ':' && r[3..5] == b && r[5] == ':' && r[6..8] == c
  {
  }
}
