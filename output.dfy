/** The text formatters of the command line. A chalk colour is kept as a
    `Color` tag beside the text rather than as terminal escape codes. */
module Output {
  import opened Wrappers
  import opened JsBuiltins

  datatype Color = Plain | Green | Gray | Red | Yellow | Blue | White

  /** A piece of text and the colour it is printed in. */
  datatype Styled = Styled(text: string, color: Color)

  // ---------------------------------------------------------------------
  // formatState
  // ---------------------------------------------------------------------

  /** `formatState`: `on`, `off` and `unavailable`, in any letter case, get a
      fixed lower-case label and colour; any other state is shown as is. */
  function FormatState(state: string): (r: Styled)
    ensures var key := ToLower(state);
      && (r.color == Plain <==> key != "on" && key != "off" && key != "unavailable")
      && (r.color == Plain ==> r.text == state)
      && (r.color != Plain ==> r.text == key)
      && (r.color == Green <==> key == "on")
      && (r.color == Gray <==> key == "off")
      && (r.color == Red <==> key == "unavailable")
  {
    var key := ToLower(state);
    if key == "on" then Styled("on", Green)
    else if key == "off" then Styled("off", Gray)
    else if key == "unavailable" then Styled("unavailable", Red)
    else Styled(state, Plain)
  }

  /** The label only depends on the letters, not on their case. */
  lemma FormatStateIgnoresCase(a: string, b: string)
    requires ToLower(a) == ToLower(b)
    ensures FormatState(a).color == FormatState(b).color
    ensures FormatState(a).color != Plain ==> FormatState(a) == FormatState(b)
  {
  }

  /** Formatting a formatted state gives the same result again. */
  lemma FormatStateIdempotent(state: string)
    ensures FormatState(FormatState(state).text) == FormatState(state)
  {
    var key := ToLower(state);
    if key == "on" {
      assert ToLower("on") == "on";
    } else if key == "off" {
      assert ToLower("off") == "off";
    } else if key == "unavailable" {
      assert ToLower("unavailable") == "unavailable";
    }
  }

  // ---------------------------------------------------------------------
  // Numbers
  // ---------------------------------------------------------------------

  const NotAvailable: Styled := Styled("N/A", Gray)

  /** `formatNumber`: the number and its suffix, or a grey N/A. A `null`
      is not `undefined` and prints as `null`. */
  function FormatNumber(value: NumberValue, suffix: string): Styled {
    match value
    case Undefined => NotAvailable
    case _ => Styled(NumberText(value) + suffix, Plain)
  }

  /** `formatKelvin`: `<k>K`, yellow below 3000 K, blue above 5000 K. Only
      `undefined` is N/A: `null` compares as 0 and prints as `nullK`. */
  function FormatKelvin(kelvin: NumberValue): (r: Styled)
    ensures r == NotAvailable <==> kelvin.Undefined?
    ensures kelvin.Number? ==>
      && r.text == IntToString(kelvin.value) + "K"
      && (r.color == Yellow <==> kelvin.value < 3000)
      && (r.color == Blue <==> kelvin.value > 5000)
      && (r.color == White <==> 3000 <= kelvin.value <= 5000)
    ensures kelvin.NullNumber? ==> r == Styled("nullK", Yellow)
  {
    match kelvin
    case Undefined => NotAvailable
    case _ =>
      var k := ToNumber(kelvin);
      var color := if k < 3000 then Yellow else if k > 5000 then Blue else White;
      Styled(NumberText(kelvin) + "K", color)
  }

  /** `Math.round(brightness / 255 * 100)`: a 0–255 brightness as a percentage. */
  function BrightnessPercent(brightness: int): int {
    Round((brightness as real / 255.0) * 100.0)
  }

  /** The percentage stays within 0–100, is monotone, and maps the ends of
      the brightness range to 0 and 100. */
  lemma BrightnessPercentRange(b: int, c: int)
    requires 0 <= b <= c <= 255
    ensures 0 <= BrightnessPercent(b) <= BrightnessPercent(c) <= 100
    ensures BrightnessPercent(0) == 0 && BrightnessPercent(255) == 100
  {
    var x, y := (b as real / 255.0) * 100.0, (c as real / 255.0) * 100.0;
    assert 0.0 <= x <= y <= 100.0;
    FloorMonotone(x + 0.5, y + 0.5);
  }

  lemma FloorMonotone(x: real, y: real)
    requires x <= y
    ensures x.Floor <= y.Floor
  {
  }

  /** `formatBrightness`: `<p>%`, grey below 30 %, yellow above 70 %. Only
      `undefined` is N/A: `null` divides as 0 and prints as a grey `0%`. */
  function FormatBrightness(brightness: NumberValue): (r: Styled)
    ensures r == NotAvailable <==> brightness.Undefined?
    ensures brightness.Number? ==>
      var p := BrightnessPercent(brightness.value);
      && r.text == IntToString(p) + "%"
      && (r.color == Gray <==> p < 30)
      && (r.color == Yellow <==> p > 70)
      && (r.color == White <==> 30 <= p <= 70)
    ensures brightness.NullNumber? ==> r == Styled("0%", Gray)
  {
    match brightness
    case Undefined => NotAvailable
    case _ =>
      var p := BrightnessPercent(ToNumber(brightness));
      var color := if p < 30 then Gray else if p > 70 then Yellow else White;
      var text := IntToString(p) + "%";
      assert text[|text| - 1] == '%' != NotAvailable.text[2];
      Styled(text, color)
  }

  /** On the 0–255 scale the buckets are 0–75 (grey), 76–179 (white) and
      180–255 (yellow). */
  lemma BrightnessBuckets(b: int)
    requires 0 <= b <= 255
    ensures FormatBrightness(Number(b)).color == Gray <==> b <= 75
    ensures FormatBrightness(Number(b)).color == Yellow <==> b >= 180
  {
    var x := (b as real / 255.0) * 100.0;
    if b <= 75 {
      assert x + 0.5 < 30.0;
    } else {
      assert x + 0.5 >= 30.0;
      FloorMonotone(30.0, x + 0.5);
    }
    if b >= 180 {
      assert x + 0.5 >= 71.0;
      FloorMonotone(71.0, x + 0.5);
    } else {
      assert x + 0.5 < 71.0;
    }
  }

  /** The numbers printed by the formatters read back with `parseInt`. */
  lemma FormattedNumbersReadBack(v: int, b: int)
    ensures ParseInt(FormatNumber(Number(v), "").text) == Some(v)
    ensures ParseInt(FormatKelvin(Number(v)).text) == Some(v)
    ensures ParseInt(FormatBrightness(Number(b)).text) == Some(BrightnessPercent(b))
  {
    assert IntToString(v) + "" == IntToString(v);
    ParseIntOfIntText(v, "");
    ParseIntOfIntText(v, "K");
    ParseIntOfIntText(BrightnessPercent(b), "%");
  }

  // ---------------------------------------------------------------------
  // truncate
  // ---------------------------------------------------------------------

  /** The default width of `truncate`. */
  const DefaultTruncateLength: int := 40

  /** `truncate`: a string that is too long keeps its first `maxLength - 3`
      characters and gets `...` appended. */
  function Truncate(s: string, maxLength: int): string {
    if |s| <= maxLength then s else Substring(s, 0, maxLength - 3) + "..."
  }

  /** Short strings are untouched; long ones become a prefix plus `...` of
      exactly `maxLength` characters (exactly `...` when `maxLength < 3`). */
  lemma TruncateShape(s: string, maxLength: int)
    ensures |s| <= maxLength ==> Truncate(s, maxLength) == s
    ensures |s| > maxLength >= 3 ==>
      Truncate(s, maxLength) == s[..maxLength - 3] + "..." && |Truncate(s, maxLength)| == maxLength
    ensures |s| > maxLength && maxLength < 3 ==> Truncate(s, maxLength) == "..."
  {
  }

  /** Truncating twice is truncating once, for every width. */
  lemma TruncateIdempotent(s: string, maxLength: int)
    ensures Truncate(Truncate(s, maxLength), maxLength) == Truncate(s, maxLength)
  {
    TruncateShape(s, maxLength);
    if |s| > maxLength && maxLength < 3 {
      assert |Truncate(s, maxLength)| == 3;
    }
  }

  /** A truncated string never exceeds its width once the width leaves room
      for the dots. */
  lemma TruncateFits(s: string, maxLength: int)
    requires maxLength >= 3
    ensures |Truncate(s, maxLength)| <= maxLength
  {
    TruncateShape(s, maxLength);
  }
}
