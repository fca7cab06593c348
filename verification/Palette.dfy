/** The text laid on an accent, whatever the accent (section 1.4.3 of WCAG 2.1), over reals. */
module Palette {
  type Channel = v: int | 0 <= v < 256

  datatype Rgb = Rgb(r: Channel, g: Channel, b: Channel)

  const DARK := Rgb(0x14, 0x18, 0x1D)
  const WHITE := Rgb(0xFF, 0xFF, 0xFF)
  const WEAK_CONTRAST := 3.0

  /** From no light to all of it; a channel of 0x1D gives an eightieth at most. */
  ghost predicate IsLinear(linear: Channel -> real) {
    && linear(0) == 0.0 && linear(0xFF) == 1.0 && linear(0x1D) <= 0.0125
    && forall v: Channel, w: Channel | v <= w :: linear(v) <= linear(w)
  }

  function Luminance(linear: Channel -> real, c: Rgb): real {
    0.2126 * linear(c.r) + 0.7152 * linear(c.g) + 0.0722 * linear(c.b)
  }

  /** Of white, green gives most and blue least: the standard's weights, which add up. */
  lemma Weights(linear: Channel -> real)
    requires IsLinear(linear)
    ensures Luminance(linear, Rgb(0xFF, 0, 0)) == 0.2126
    ensures Luminance(linear, Rgb(0, 0xFF, 0)) == 0.7152
    ensures Luminance(linear, Rgb(0, 0, 0xFF)) == 0.0722
    ensures Luminance(linear, WHITE) == 1.0
  {
  }

  lemma LuminanceIsBounded(linear: Channel -> real, c: Rgb)
    requires IsLinear(linear)
    ensures 0.0 <= Luminance(linear, c) <= 1.0
  {
    assert linear(0) <= linear(c.r) <= linear(0xFF);
    assert linear(0) <= linear(c.g) <= linear(0xFF);
    assert linear(0) <= linear(c.b) <= linear(0xFF);
  }

  /** The lighter over the darker. */
  function Ratio(a: real, b: real): real
    requires a >= 0.0 && b >= 0.0
  {
    if a > b then (a + 0.05) / (b + 0.05) else (b + 0.05) / (a + 0.05)
  }

  function Contrast(linear: Channel -> real, a: Rgb, b: Rgb): real
    requires IsLinear(linear)
  {
    LuminanceIsBounded(linear, a);
    LuminanceIsBounded(linear, b);
    Ratio(Luminance(linear, a), Luminance(linear, b))
  }

  datatype Palette = Palette(accent: Rgb, onAccent: Rgb)

  /** The text with the better contrast. */
  function WithAccent(linear: Channel -> real, p: Palette, accent: Rgb): Palette
    requires IsLinear(linear)
  {
    Palette(accent, if Contrast(linear, DARK, accent) >= Contrast(linear, WHITE, accent) then DARK else WHITE)
  }

  lemma Divided(a: real, b: real, q: real)
    requires b > 0.0
    ensures a / b >= q <==> a >= q * b
  {
    assert a == (a / b) * b;
    if a / b >= q {
      Scaled(a / b, q, b);
    } else {
      Scaled(q, a / b, b);
      assert a < q * b by { ScaledLess(a / b, q, b); }
    }
  }

  lemma Scaled(x: real, y: real, b: real)
    requires x >= y && b > 0.0
    ensures x * b >= y * b
  {
  }

  lemma ScaledLess(x: real, y: real, b: real)
    requires x < y && b > 0.0
    ensures x * b < y * b
  {
  }

  /** Dark or white, one of the two is four times off any accent: below 0.2 white is, above
      it dark. */
  lemma OneOfThemContrasts(dark: real, accent: real)
    requires 0.0 <= dark <= 0.0125 && 0.0 <= accent <= 1.0
    ensures Ratio(dark, accent) >= 4.0 || Ratio(1.0, accent) >= 4.0
  {
    if accent <= 0.2 {
      Divided(1.05, accent + 0.05, 4.0);
    } else {
      Divided(accent + 0.05, dark + 0.05, 4.0);
    }
  }

  /** The text on the primary button is readable on every accent, so none is ever refused for
      its contrast; and it is the better of the two, the dark one when neither is. */
  lemma TextOnAnyAccent(linear: Channel -> real, p: Palette, accent: Rgb)
    requires IsLinear(linear)
    ensures var on := WithAccent(linear, p, accent).onAccent;
            && Contrast(linear, on, accent) >= 4.0 > WEAK_CONTRAST
            && Contrast(linear, on, accent) >= Contrast(linear, DARK, accent)
            && Contrast(linear, on, accent) >= Contrast(linear, WHITE, accent)
            && (on == WHITE <==> Contrast(linear, WHITE, accent) > Contrast(linear, DARK, accent))
            && (on == DARK || on == WHITE)
  {
    LuminanceIsBounded(linear, DARK);
    LuminanceIsBounded(linear, accent);
    assert linear(0x14) <= linear(0x1D) && linear(0x18) <= linear(0x1D);
    assert Luminance(linear, WHITE) == 1.0;
    OneOfThemContrasts(Luminance(linear, DARK), Luminance(linear, accent));
  }
}
