/** The `lights` command: `list` narrows the fetched states to lights and
    shows them in a table; `batch` turns every light of a selection on or
    off, one call after the other. */
module LightsCommand {
  import opened Wrappers
  import opened JsBuiltins
  import opened Seqs
  import opened Entities
  import opened Output

  // ---------------------------------------------------------------------
  // The filters
  // ---------------------------------------------------------------------

  predicate IsLight(e: Entity) {
    StartsWith(e.entityId, "light.")
  }

  /** `area_id === area`, or the friendly name contains the area, ignoring case. */
  predicate InArea(e: Entity, area: string) {
    ("area_id" in e.attributes && e.attributes["area_id"] == Str(area))
    || (FriendlyName(e).Some? && Includes(ToLower(FriendlyName(e).value), ToLower(area)))
  }

  /** The light can be given a colour temperature. */
  predicate SupportsCt(e: Entity) {
    SupportsColorMode(e, "color_temp") || SupportsColorMode(e, "color_temp_kelvin")
  }

  function LightFilter(): Entity -> bool {
    (e: Entity) => IsLight(e)
  }

  function AreaFilter(area: string): Entity -> bool {
    (e: Entity) => InArea(e, area)
  }

  function StateFilter(state: string): Entity -> bool {
    (e: Entity) => e.state == state
  }

  function CtFilter(): Entity -> bool {
    (e: Entity) => SupportsCt(e)
  }

  /** The lights, narrowed to an area when one is given. */
  function InAreaIfGiven(states: seq<Entity>, area: Option<string>): seq<Entity> {
    var lights := Filter(states, LightFilter());
    if Given(area) then Filter(lights, AreaFilter(area.value)) else lights
  }

  // ---------------------------------------------------------------------
  // list
  // ---------------------------------------------------------------------

  datatype ListOptions = ListOptions(area: Option<string>, state: Option<string>, supportsCt: bool)

  /** The lights `list` shows, in the order of the fetched states. */
  function ListLights(states: seq<Entity>, o: ListOptions): seq<Entity> {
    var s1 := InAreaIfGiven(states, o.area);
    var s2 := if Given(o.state) then Filter(s1, StateFilter(o.state.value)) else s1;
    if o.supportsCt then Filter(s2, CtFilter()) else s2
  }

  /** A state passes every filter of `list` that was given. */
  predicate Listed(e: Entity, o: ListOptions) {
    && IsLight(e)
    && (Given(o.area) ==> InArea(e, o.area.value))
    && (Given(o.state) ==> e.state == o.state.value)
    && (o.supportsCt ==> SupportsCt(e))
  }

  /** `list` keeps exactly the lights that pass every given filter, in their
      original order. */
  lemma ListLightsFacts(states: seq<Entity>, o: ListOptions)
    ensures IsSubsequence(ListLights(states, o), states)
    ensures forall e :: e in ListLights(states, o) <==> e in states && Listed(e, o)
  {
    var s0 := Filter(states, LightFilter());
    var s1 := InAreaIfGiven(states, o.area);
    var s2 := if Given(o.state) then Filter(s1, StateFilter(o.state.value)) else s1;
    var s3 := ListLights(states, o);
    SubsequenceReflexive(s0);
    SubsequenceReflexive(s1);
    SubsequenceReflexive(s2);
    SubsequenceTransitive(s1, s0, states);
    SubsequenceTransitive(s2, s1, states);
    SubsequenceTransitive(s3, s2, states);
  }

  /** With a mode list, `--supports-ct` asks for `color_temp` or
      `color_temp_kelvin` in it; without one, the light is left out. */
  lemma SupportsCtModes(e: Entity)
    ensures "supported_color_modes" !in e.attributes ==> !SupportsCt(e)
    ensures "supported_color_modes" in e.attributes && e.attributes["supported_color_modes"].List? ==>
      (SupportsCt(e) <==> Str("color_temp") in e.attributes["supported_color_modes"].items
                          || Str("color_temp_kelvin") in e.attributes["supported_color_modes"].items)
  {
  }

  datatype ListRow = ListRow(id: string, name: string, state: Styled, brightness: Styled, colorTemp: Styled)

  /** A row of the table: brightness and colour temperature only for a light
      that is on. */
  function ListRowOf(light: Entity): (r: ListRow)
    ensures light.state != "on" ==> r.brightness == NotAvailable && r.colorTemp == NotAvailable
    ensures light.state == "on" ==>
      r.brightness == FormatBrightness(NumAttr(light, "brightness"))
      && r.colorTemp == FormatKelvin(NumAttr(light, "color_temp_kelvin"))
  {
    var on := light.state == "on";
    ListRow(Truncate(light.entityId, 30), Truncate(DisplayName(light), 25), FormatState(light.state),
            FormatBrightness(if on then NumAttr(light, "brightness") else Undefined),
            FormatKelvin(if on then NumAttr(light, "color_temp_kelvin") else Undefined))
  }

  /** A light that is off shows its columns as N/A whatever it reports; a
      light that is on and reports a brightness shows its percentage, and one
      that reports `null` shows a grey `0%` and a yellow `nullK`. */
  lemma ColumnsOnlyWhenOn(light: Entity)
    ensures light.state != "on" ==> ListRowOf(light).brightness.text == "N/A"
    ensures light.state == "on" && NumAttr(light, "brightness").Number? ==>
      ListRowOf(light).brightness.text == IntToString(BrightnessPercent(NumAttr(light, "brightness").value)) + "%"
    ensures light.state == "on" && "brightness" in light.attributes && light.attributes["brightness"] == Null ==>
      ListRowOf(light).brightness == Styled("0%", Gray)
    ensures light.state == "on" && "color_temp_kelvin" in light.attributes
            && light.attributes["color_temp_kelvin"] == Null ==>
      ListRowOf(light).colorTemp == Styled("nullK", Yellow)
  {
  }

  // ---------------------------------------------------------------------
  // batch
  // ---------------------------------------------------------------------

  /** `--brightness` and `--kelvin` go through `parseInt`; `--transition` is
      passed on as given (its `parseFloat` is not modelled). */
  datatype BatchOptions = BatchOptions(area: Option<string>, filter: Option<string>, brightness: Option<string>,
                                       kelvin: Option<string>, transition: Option<string>, dryRun: bool)

  /** A numeric option that was given, with its `parseInt` (`None` for NaN). */
  function NumberOption(o: Option<string>): Option<Option<int>> {
    if Given(o) then Some(ParseInt(o.value)) else None
  }

  function TransitionOption(o: Option<string>): Option<string> {
    if Given(o) then o else None
  }

  datatype LightCall =
    | TurnOn(entityId: string, brightness: Option<Option<int>>, kelvin: Option<Option<int>>, transition: Option<string>)
    | TurnOff(entityId: string, transition: Option<string>)

  /** The call `batch` makes for one light. */
  function CallFor(command: string, light: Entity, o: BatchOptions): (c: LightCall)
    requires command == "on" || command == "off"
    ensures c.entityId == light.entityId
    ensures c.TurnOn? <==> command == "on"
    ensures c.transition == TransitionOption(o.transition)
  {
    if command == "on" then
      TurnOn(light.entityId, NumberOption(o.brightness), NumberOption(o.kelvin), TransitionOption(o.transition))
    else
      TurnOff(light.entityId, TransitionOption(o.transition))
  }

  /** The calls one after the other; a call that throws ends the loop, so
      `completed` is false and no later light is tried. `failing` names the
      lights whose call throws. */
  method ExecuteBatch(command: string, lights: seq<Entity>, o: BatchOptions, failing: set<string>)
    returns (calls: seq<LightCall>, completed: bool)
    requires command == "on" || command == "off"
    ensures completed <==> forall i :: 0 <= i < |lights| ==> lights[i].entityId !in failing
    ensures |calls| <= |lights|
    ensures forall i :: 0 <= i < |calls| ==> calls[i] == CallFor(command, lights[i], o)
    ensures completed ==> |calls| == |lights|
    ensures !completed ==>
      && |calls| > 0
      && lights[|calls| - 1].entityId in failing
      && forall i :: 0 <= i < |calls| - 1 ==> lights[i].entityId !in failing
  {
    calls := [];
    var i := 0;
    while i < |lights|
      invariant 0 <= i <= |lights|
      invariant |calls| == i
      invariant forall j :: 0 <= j < i ==> calls[j] == CallFor(command, lights[j], o)
      invariant forall j :: 0 <= j < i ==> lights[j].entityId !in failing
    {
      calls := calls + [CallFor(command, lights[i], o)];
      if lights[i].entityId in failing {
        completed := false;
        return;
      }
      i := i + 1;
    }
    completed := true;
  }

  /** How `batch` ends: a refused command (before anything is fetched), a
      `--filter` that is not JSON, no matching light, a dry run listing the
      selection, or the calls it made. */
  datatype BatchOutcome =
    | BadCommand
    | BadFilter
    | NoMatch
    | DryRun(selected: seq<Entity>)
    | Executed(calls: seq<LightCall>, completed: bool)

  /** `batch <command>`; `filterIsJson` says whether `JSON.parse` accepts the
      `--filter` text. */
  method Batch(command: string, states: seq<Entity>, o: BatchOptions, filterIsJson: bool, failing: set<string>)
    returns (r: BatchOutcome)
    ensures r.BadCommand? <==> command != "on" && command != "off"
    ensures r.BadFilter? <==> (command == "on" || command == "off") && Given(o.filter) && !filterIsJson
    ensures r.NoMatch? <==> (command == "on" || command == "off") && !(Given(o.filter) && !filterIsJson)
                            && InAreaIfGiven(states, o.area) == []
    ensures r.DryRun? <==> (command == "on" || command == "off") && !(Given(o.filter) && !filterIsJson)
                           && InAreaIfGiven(states, o.area) != [] && o.dryRun
    ensures r.DryRun? ==> r.selected == InAreaIfGiven(states, o.area)
    ensures r.Executed? ==>
      var lights := InAreaIfGiven(states, o.area);
      && lights != [] && !o.dryRun
      && (command == "on" || command == "off")
      && |r.calls| <= |lights|
      && (forall i :: 0 <= i < |r.calls| ==> r.calls[i] == CallFor(command, lights[i], o))
      && (r.completed <==> forall i :: 0 <= i < |lights| ==> lights[i].entityId !in failing)
      && (r.completed ==> |r.calls| == |lights|)
      && (!r.completed ==>
            |r.calls| > 0 && lights[|r.calls| - 1].entityId in failing
            && forall i :: 0 <= i < |r.calls| - 1 ==> lights[i].entityId !in failing)
  {
    if command != "on" && command != "off" {
      return BadCommand;
    }
    var lights := InAreaIfGiven(states, o.area);
    if Given(o.filter) && !filterIsJson {
      return BadFilter;
    }
    if |lights| == 0 {
      return NoMatch;
    }
    if o.dryRun {
      return DryRun(lights);
    }
    var calls, completed := ExecuteBatch(command, lights, o, failing);
    return Executed(calls, completed);
  }

  /** The selection of `batch` is the lights of the area, as `list` with
      the same area would show them; `--filter` plays no part in it. */
  lemma BatchSelectsLikeList(states: seq<Entity>, area: Option<string>)
    ensures InAreaIfGiven(states, area) == ListLights(states, ListOptions(area, None, false))
    ensures forall e :: e in InAreaIfGiven(states, area) <==>
      e in states && IsLight(e) && (Given(area) ==> InArea(e, area.value))
  {
  }
}
