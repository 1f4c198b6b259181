/** The `adaptive` command: `status` lists the adaptive-lighting switches,
    `enable` and `disable` turn the global one on or off, and `simulate`
    picks a colour temperature and a brightness from the hour of the day. */
module AdaptiveCommand {
  import opened Wrappers
  import opened JsBuiltins
  import opened Seqs
  import opened Entities
  import opened Output

  // ---------------------------------------------------------------------
  // simulate
  // ---------------------------------------------------------------------

  datatype Simulation = Simulation(kelvin: int, brightness: int)

  /** The circadian table of `simulate`, keyed by the local hour. */
  function SimulateHour(hour: int): Simulation {
    if hour < 6 then Simulation(2000, 10)
    else if hour < 8 then Simulation(2500, 50)
    else if hour < 12 then Simulation(5000, 200)
    else if hour < 17 then Simulation(6000, 255)
    else if hour < 20 then Simulation(4000, 150)
    else if hour < 22 then Simulation(3000, 80)
    else Simulation(2200, 20)
  }

  /** `simulate` on the hour of `--date`, where `None` is the NaN hour of a
      date that does not parse. Every comparison with NaN is false, so such
      an hour takes the last row; the JSON output then fails, because
      `toISOString` throws on an invalid date, and the command reports it. */
  function Simulate(hour: Option<int>, json: bool): (r: Result<Simulation, string>)
    ensures r.Err? <==> hour.None? && json
    ensures r.Err? ==> r.error == "Failed to simulate: Invalid time value"
    ensures hour.Some? ==> r == Ok(SimulateHour(hour.value))
    ensures hour.None? && !json ==> r == Ok(Table[|Table| - 1].value)
  {
    match hour
    case Some(h) => Ok(SimulateHour(h))
    case None =>
      if json then Err("Failed to simulate: Invalid time value")
      else Ok(Simulation(2200, 20))
  }

  /** One row of the table as a half-open range of hours. */
  datatype Bucket = Bucket(from: int, until: int, value: Simulation)

  /** The table written out as ranges that tile the 24 hours of a day. */
  const Table: seq<Bucket> := [
    Bucket(0, 6, Simulation(2000, 10)),
    Bucket(6, 8, Simulation(2500, 50)),
    Bucket(8, 12, Simulation(5000, 200)),
    Bucket(12, 17, Simulation(6000, 255)),
    Bucket(17, 20, Simulation(4000, 150)),
    Bucket(20, 22, Simulation(3000, 80)),
    Bucket(22, 24, Simulation(2200, 20))
  ]

  predicate InBucket(hour: int, b: Bucket) {
    b.from <= hour < b.until
  }

  /** Every hour of the day falls in exactly one row of the table, and the
      simulation gives that row's values. */
  lemma SimulateFollowsTable(hour: int)
    requires 0 <= hour < 24
    ensures exists i :: 0 <= i < |Table| && InBucket(hour, Table[i]) && SimulateHour(hour) == Table[i].value
    ensures forall i, j :: 0 <= i < |Table| && 0 <= j < |Table| && InBucket(hour, Table[i]) && InBucket(hour, Table[j])
              ==> i == j
  {
    var i := if hour < 6 then 0 else if hour < 8 then 1 else if hour < 12 then 2 else if hour < 17 then 3
             else if hour < 20 then 4 else if hour < 22 then 5 else 6;
    assert InBucket(hour, Table[i]) && SimulateHour(hour) == Table[i].value;
    forall i, j | 0 <= i < |Table| && 0 <= j < |Table| && InBucket(hour, Table[i]) && InBucket(hour, Table[j])
      ensures i == j
    {
      if i < j {
        TableIsSorted(i, j);
      } else if j < i {
        TableIsSorted(j, i);
      }
    }
  }

  /** A later row starts no earlier than an earlier row ends. */
  lemma TableIsSorted(i: int, j: int)
    requires 0 <= i < j < |Table|
    ensures Table[i].until <= Table[j].from
  {
  }

  /** Colour temperatures stay within 2000–6000 K and brightness within
      10–255, whatever the hour. */
  lemma SimulateRange(hour: int)
    ensures 2000 <= SimulateHour(hour).kelvin <= 6000
    ensures 10 <= SimulateHour(hour).brightness <= 255
  {
  }

  /** Both values rise until noon and fall from noon on, peaking in the
      afternoon bucket. */
  lemma SimulateRisesThenFalls(h1: int, h2: int)
    requires h1 <= h2
    ensures h2 <= 12 ==> SimulateHour(h1).kelvin <= SimulateHour(h2).kelvin
    ensures h2 <= 12 ==> SimulateHour(h1).brightness <= SimulateHour(h2).brightness
    ensures 12 <= h1 ==> SimulateHour(h1).kelvin >= SimulateHour(h2).kelvin
    ensures 12 <= h1 ==> SimulateHour(h1).brightness >= SimulateHour(h2).brightness
    ensures 12 <= h1 < 17 ==> SimulateHour(h1) == Simulation(6000, 255)
  {
  }

  /** The `brightness_percent` of the JSON output lies in 0–100. */
  function SimulatedPercent(hour: int): (p: int)
    ensures 0 <= p <= 100
  {
    var b := SimulateHour(hour).brightness;
    BrightnessPercentRange(b, 255);
    BrightnessPercent(b)
  }

  /** The colours `simulate` prints: warm (yellow) Kelvin at night and dawn,
      blue in the afternoon; dim (grey) brightness at night and dawn, bright
      (yellow) from morning to afternoon. */
  lemma SimulateColours(hour: int)
    ensures var s := SimulateHour(hour);
      && (FormatKelvin(Number(s.kelvin)).color == Yellow <==> hour < 8 || 22 <= hour)
      && (FormatKelvin(Number(s.kelvin)).color == Blue <==> 12 <= hour < 17)
      && (FormatBrightness(Number(s.brightness)).color == Gray <==> hour < 8 || 22 <= hour)
      && (FormatBrightness(Number(s.brightness)).color == Yellow <==> 8 <= hour < 17)
  {
    var s := SimulateHour(hour);
    BrightnessBuckets(s.brightness);
  }

  // ---------------------------------------------------------------------
  // status
  // ---------------------------------------------------------------------

  predicate IsAdaptiveSwitch(e: Entity) {
    Includes(e.entityId, "adaptive_lighting") && StartsWith(e.entityId, "switch.")
  }

  function AdaptiveSwitch(): Entity -> bool {
    (e: Entity) => IsAdaptiveSwitch(e)
  }

  datatype StatusRow = StatusRow(id: string, name: string, state: Styled)

  /** What `status` prints: a warning when there is no switch, otherwise a
      header with the number of switches and one row per switch. */
  datatype StatusView = NoSwitches | Listing(count: nat, rows: seq<StatusRow>)

  function StatusRowOf(e: Entity): StatusRow {
    StatusRow(Truncate(e.entityId, 40), Truncate(DisplayName(e), 35), FormatState(e.state))
  }

  function Status(states: seq<Entity>): StatusView {
    var switches := Filter(states, AdaptiveSwitch());
    if |switches| == 0 then NoSwitches
    else Listing(|switches|, seq(|switches|, i requires 0 <= i < |switches| => StatusRowOf(switches[i])))
  }

  /** The warning appears exactly when no entity is an adaptive-lighting
      switch; otherwise there is one row per such switch, in the order of the
      fetched states, and the header counts them. */
  lemma StatusFacts(states: seq<Entity>)
    ensures Status(states).NoSwitches? <==> forall e :: e in states ==> !IsAdaptiveSwitch(e)
    ensures Status(states).Listing? ==>
      var switches := Filter(states, AdaptiveSwitch());
      && IsSubsequence(switches, states)
      && (forall e :: e in switches <==> e in states && IsAdaptiveSwitch(e))
      && Status(states).count == |Status(states).rows| == |switches|
      && forall i :: 0 <= i < |switches| ==> Status(states).rows[i] == StatusRowOf(switches[i])
  {
    var switches := Filter(states, AdaptiveSwitch());
    if |switches| > 0 {
      assert switches[0] in switches;
    }
  }

  // ---------------------------------------------------------------------
  // enable / disable
  // ---------------------------------------------------------------------

  predicate IsGlobalSwitch(e: Entity) {
    Includes(e.entityId, "global") && Includes(e.entityId, "adaptive_lighting") && StartsWith(e.entityId, "switch.")
  }

  function GlobalSwitch(): Entity -> bool {
    (e: Entity) => IsGlobalSwitch(e)
  }

  datatype ServiceCall = ServiceCall(domain: string, service: string, entityId: string)

  /** How `enable` or `disable` ends: without a target, without a global
      switch (both exit with status 1), or after the service call it made,
      if any, and the per-light notice, if `--light` was given. */
  datatype Toggle = MissingTarget | SwitchNotFound | Toggled(call: Option<ServiceCall>, perLightNotice: bool)

  /** `enable` (`turnOn`) or `disable`; `states` is what the global lookup
      fetches. */
  function ToggleAdaptive(turnOn: bool, global: bool, light: Option<string>, states: seq<Entity>): Toggle {
    if !global && !Given(light) then MissingTarget
    else if global then
      match Find(states, GlobalSwitch())
      case None => SwitchNotFound
      case Some(sw) => Toggled(Some(ServiceCall("switch", if turnOn then "turn_on" else "turn_off", sw.entityId)),
                               Given(light))
    else Toggled(None, true)
  }

  /** Without `--global` and `--light` the command stops before any call; a
      call is made exactly when `--global` is given and a global switch
      exists, it goes to the first such switch and turns it on for `enable`,
      off for `disable`; `--light` alone only prints a notice. */
  lemma ToggleFacts(turnOn: bool, global: bool, light: Option<string>, states: seq<Entity>)
    ensures var r := ToggleAdaptive(turnOn, global, light, states);
      && (r.MissingTarget? <==> !global && !Given(light))
      && (r.SwitchNotFound? <==> global && forall i :: 0 <= i < |states| ==> !IsGlobalSwitch(states[i]))
      && (r.Toggled? && r.call.Some? <==> global && exists i :: 0 <= i < |states| && IsGlobalSwitch(states[i]))
      && (r.Toggled? && r.call.Some? ==>
            && r.call.value.domain == "switch"
            && r.call.value.service == (if turnOn then "turn_on" else "turn_off")
            && exists i :: 0 <= i < |states| && states[i].entityId == r.call.value.entityId
                           && IsGlobalSwitch(states[i]) && forall j :: 0 <= j < i ==> !IsGlobalSwitch(states[j]))
      && (r.Toggled? ==> r.perLightNotice == Given(light))
  {
  }
}
