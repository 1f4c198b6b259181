/** Argument validators of the command line: entity ids, brightness,
    Kelvin, transition and RGB ranges, and the `r,g,b` parser. A thrown
    `Error` becomes an `Invalid` (or `Err`) carrying which check failed. */
module Validators {
  import opened Wrappers
  import opened JsBuiltins

  /** The distinct errors the validators throw. */
  datatype ValidationError =
    | EntityIdRequired
    | EntityIdFormat
    | BrightnessOutOfRange
    | KelvinOutOfRange
    | RgbLength
    | RgbComponentOutOfRange(index: nat)
    | TransitionOutOfRange
    | RgbFormat
    | RgbNotNumbers

  /** The outcome of a `void` validator: it returns, or throws. */
  datatype Check = Valid | Invalid(error: ValidationError)

  /** The text of each thrown error. */
  function Message(e: ValidationError): string {
    match e
    case EntityIdRequired => "Entity ID is required"
    case EntityIdFormat => "Invalid entity ID format. Expected: domain.entity_name"
    case BrightnessOutOfRange => "Brightness must be between 0 and 255"
    case KelvinOutOfRange => "Kelvin must be between 1000 and 10000"
    case RgbLength => "RGB must have exactly 3 values"
    case RgbComponentOutOfRange(i) => "RGB value at index " + NatToString(i) + " must be between 0 and 255"
    case TransitionOutOfRange => "Transition must be between 0 and 3600 seconds"
    case RgbFormat => "RGB format must be: r,g,b (e.g., 255,128,0)"
    case RgbNotNumbers => "RGB values must be numbers"
  }

  // ---------------------------------------------------------------------
  // Entity ids
  // ---------------------------------------------------------------------

  /** `validateEntityId`: non-empty, contains a `.`, and the first two
      `.`-separated pieces are non-empty. */
  function ValidateEntityId(entityId: string): (r: Check)
    ensures r == Invalid(EntityIdRequired) <==> entityId == ""
    ensures r.Invalid? ==> r.error == EntityIdRequired || r.error == EntityIdFormat
  {
    if entityId == "" then Invalid(EntityIdRequired)
    else if '.' !in entityId then Invalid(EntityIdFormat)
    else
      var parts := Split(entityId, '.');
      SplitHasSecond(entityId, '.');
      if parts[0] == "" || parts[1] == "" then Invalid(EntityIdFormat) else Valid
  }

  /** Splitting at a separator that occurs gives at least two pieces. */
  lemma SplitHasSecond(s: string, d: char)
    requires d in s
    ensures |Split(s, d)| >= 2
    ensures Split(s, d)[0] == s[..IndexOf(s, d)]
    ensures Split(s, d)[1] == Split(s[IndexOf(s, d) + 1..], d)[0]
  {
  }

  /** The first piece of a split is empty iff the text is empty or starts
      with the separator. */
  lemma SplitHeadEmpty(s: string, d: char)
    ensures Split(s, d)[0] == "" <==> s == "" || s[0] == d
  {
    if d in s {
      var i := IndexOf(s, d);
      assert |s[..i]| == i;
    }
  }

  /** The shape an accepted id has, stated on character positions: a
      non-empty domain before the first `.`, and a character after that
      `.` which is not another `.`. Anything after the second `.` is free. */
  predicate WellFormedEntityId(s: string) {
    '.' in s
    && var i := IndexOf(s, '.');
    0 < i && i + 1 < |s| && s[i + 1] != '.'
  }

  lemma ValidateEntityIdIsWellFormed(s: string)
    ensures ValidateEntityId(s) == Valid <==> WellFormedEntityId(s)
  {
    if '.' in s {
      var i := IndexOf(s, '.');
      SplitHasSecond(s, '.');
      assert |s[..i]| == i;
      SplitHeadEmpty(s[i + 1..], '.');
    }
  }

  /** Trailing segments are not looked at: extending an accepted id by a
      further `.`-separated piece keeps it accepted. */
  lemma TrailingSegmentsUnchecked(s: string, t: string)
    requires ValidateEntityId(s) == Valid
    ensures ValidateEntityId(s + "." + t) == Valid
  {
    ValidateEntityIdIsWellFormed(s);
    var u := s + "." + t;
    var i := IndexOf(s, '.');
    assert u[..i] == s[..i] && u[i] == '.' && u[i + 1] == s[i + 1];
    FirstIndexOf(u, '.', i);
    ValidateEntityIdIsWellFormed(u);
  }

  /** The first occurrence is the one with no earlier occurrence. */
  lemma FirstIndexOf(s: string, d: char, i: nat)
    requires i < |s| && s[i] == d && d !in s[..i]
    ensures d in s && IndexOf(s, d) == i
  {
  }

  // ---------------------------------------------------------------------
  // Ranges
  // ---------------------------------------------------------------------

  /** `validateBrightness`: 0..255 inclusive. */
  function ValidateBrightness(brightness: real): (r: Check)
    ensures r == Valid <==> 0.0 <= brightness <= 255.0
    ensures r.Invalid? ==> r.error == BrightnessOutOfRange
  {
    if brightness < 0.0 || brightness > 255.0 then Invalid(BrightnessOutOfRange) else Valid
  }

  /** `validateKelvin`: 1000..10000 inclusive. */
  function ValidateKelvin(kelvin: real): (r: Check)
    ensures r == Valid <==> 1000.0 <= kelvin <= 10000.0
    ensures r.Invalid? ==> r.error == KelvinOutOfRange
  {
    if kelvin < 1000.0 || kelvin > 10000.0 then Invalid(KelvinOutOfRange) else Valid
  }

  /** `validateTransition`: 0..3600 seconds inclusive. */
  function ValidateTransition(transition: real): (r: Check)
    ensures r == Valid <==> 0.0 <= transition <= 3600.0
    ensures r.Invalid? ==> r.error == TransitionOutOfRange
  {
    if transition < 0.0 || transition > 3600.0 then Invalid(TransitionOutOfRange) else Valid
  }

  // ---------------------------------------------------------------------
  // RGB
  // ---------------------------------------------------------------------

  predicate InByteRange(v: real) {
    0.0 <= v <= 255.0
  }

  /** The index where `forEach` throws: the first component out of range,
      counting from `from`. */
  function FirstOutOfRange(rgb: seq<real>, from: nat): (r: Option<nat>)
    requires from <= |rgb|
    ensures r.None? <==> forall j :: from <= j < |rgb| ==> InByteRange(rgb[j])
    ensures r.Some? ==> from <= r.value < |rgb| && !InByteRange(rgb[r.value])
                        && forall j :: from <= j < r.value ==> InByteRange(rgb[j])
    decreases |rgb| - from
  {
    if from == |rgb| then None
    else if !InByteRange(rgb[from]) then Some(from)
    else FirstOutOfRange(rgb, from + 1)
  }

  /** `validateRGB`: three values, each in 0..255; the error names the
      lowest index out of range. */
  function ValidateRGB(rgb: seq<real>): (r: Check)
    ensures r == Invalid(RgbLength) <==> |rgb| != 3
    ensures |rgb| == 3 ==> (r == Valid <==> forall j :: 0 <= j < 3 ==> InByteRange(rgb[j]))
    ensures r.Invalid? && r.error.RgbComponentOutOfRange? ==>
      var i := r.error.index;
      i < 3 && !InByteRange(rgb[i]) && forall j :: 0 <= j < i ==> InByteRange(rgb[j])
    ensures r.Invalid? ==> r.error == RgbLength || r.error.RgbComponentOutOfRange?
  {
    if |rgb| != 3 then Invalid(RgbLength)
    else
      match FirstOutOfRange(rgb, 0)
      case None => Valid
      case Some(i) => Invalid(RgbComponentOutOfRange(i))
  }

  /** `parseInt(part.trim())` for each comma-separated piece; `None` is NaN. */
  function ParsedParts(s: string): (r: seq<Option<int>>)
    ensures |r| == |Split(s, ',')|
    ensures forall i :: 0 <= i < |r| ==> r[i] == ParseInt(Trim(Split(s, ',')[i]))
  {
    var parts := Split(s, ',');
    seq(|parts|, i requires 0 <= i < |parts| => ParseInt(Trim(parts[i])))
  }

  function AsReals(xs: seq<int>): (r: seq<real>)
    ensures |r| == |xs| && forall i :: 0 <= i < |xs| ==> r[i] == xs[i] as real
  {
    seq(|xs|, i requires 0 <= i < |xs| => xs[i] as real)
  }

  /** `parseRGB`: split at commas, parse each trimmed piece with `parseInt`,
      demand three numbers, and range-check them. */
  function ParseRGB(s: string): (r: Result<seq<int>, ValidationError>)
    ensures r == Err(RgbFormat) <==> |Split(s, ',')| != 3
    ensures r == Err(RgbNotNumbers) <==>
      |Split(s, ',')| == 3 && exists i :: 0 <= i < 3 && ParseInt(Trim(Split(s, ',')[i])).None?
    ensures r.Ok? ==>
      |r.value| == 3
      && (forall i :: 0 <= i < 3 ==> ParseInt(Trim(Split(s, ',')[i])) == Some(r.value[i]))
      && (forall i :: 0 <= i < 3 ==> 0 <= r.value[i] <= 255)
    ensures r.Err? && r.error.RgbComponentOutOfRange? ==>
      |Split(s, ',')| == 3 && r.error.index < 3
      && ParseInt(Trim(Split(s, ',')[r.error.index])).Some?
      && !InByteRange(ParseInt(Trim(Split(s, ',')[r.error.index])).value as real)
      && forall j :: 0 <= j < r.error.index ==>
           ParseInt(Trim(Split(s, ',')[j])).Some? && 0 <= ParseInt(Trim(Split(s, ',')[j])).value <= 255
    ensures r.Err? ==> r.error == RgbFormat || r.error == RgbNotNumbers || r.error.RgbComponentOutOfRange?
    ensures |Split(s, ',')| == 3
            && (forall i :: 0 <= i < 3 ==>
                  ParseInt(Trim(Split(s, ',')[i])).Some? && 0 <= ParseInt(Trim(Split(s, ',')[i])).value <= 255)
            ==> r.Ok?
  {
    var parsed := ParsedParts(s);
    if |parsed| != 3 then Err(RgbFormat)
    else if exists i :: 0 <= i < 3 && parsed[i].None? then Err(RgbNotNumbers)
    else
      var rgb := [parsed[0].value, parsed[1].value, parsed[2].value];
      assert forall j :: 0 <= j < 3 ==> parsed[j] == Some(rgb[j]);
      assert forall j :: 0 <= j < 3 ==> (InByteRange(AsReals(rgb)[j]) <==> 0 <= rgb[j] <= 255);
      match ValidateRGB(AsReals(rgb))
      case Valid => Ok(rgb)
      case Invalid(e) => Err(e)
  }

  /** The text `r,g,b` of three components. */
  function RgbText(r: nat, g: nat, b: nat): string {
    Join([NatToString(r), NatToString(g), NatToString(b)], ',')
  }

  /** `parseRGB` reads back every in-range triple written as decimal text. */
  lemma ParseRGBRoundTrip(r: nat, g: nat, b: nat)
    requires r <= 255 && g <= 255 && b <= 255
    ensures ParseRGB(RgbText(r, g, b)) == Ok([r, g, b])
  {
    var parsed := ParsedParts(RgbText(r, g, b));
    PartsOfRgbText(r, g, b);
    var rgb := [parsed[0].value, parsed[1].value, parsed[2].value];
    assert rgb == [r, g, b];
    assert ValidateRGB(AsReals(rgb)) == Valid;
  }

  lemma PartsOfRgbText(r: nat, g: nat, b: nat)
    ensures ParsedParts(RgbText(r, g, b)) == [Some(r), Some(g), Some(b)]
  {
    var parts := [NatToString(r), NatToString(g), NatToString(b)];
    NatToStringDigits(r);
    NatToStringDigits(g);
    NatToStringDigits(b);
    SplitOfJoin(parts, ',');
    assert Split(RgbText(r, g, b), ',') == parts;
    var parsed := ParsedParts(RgbText(r, g, b));
    assert parsed[0] == Some(r) by {
      TrimOfNatToString(r);
      ParseIntOfNatToString(r);
    }
    assert parsed[1] == Some(g) by {
      TrimOfNatToString(g);
      ParseIntOfNatToString(g);
    }
    assert parsed[2] == Some(b) by {
      TrimOfNatToString(b);
      ParseIntOfNatToString(b);
    }
  }

  /** Any other number of comma-separated pieces is a format error, even
      when each piece is a valid number. */
  lemma ParseRGBTwoParts(r: nat, g: nat)
    ensures ParseRGB(Join([NatToString(r), NatToString(g)], ',')) == Err(RgbFormat)
  {
    NatToStringDigits(r);
    NatToStringDigits(g);
    SplitOfJoin([NatToString(r), NatToString(g)], ',');
  }
}
