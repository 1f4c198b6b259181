/** The adaptive-lighting control loop: which lights take part, when a light
    is left alone, the command sent to it, and the manual-override table that
    pauses automation for thirty minutes after a user touches a light.

    The clock is an explicit `now` in milliseconds, the sun's elevation is an
    input, `setTimeout` becomes a deadline per entity, and the light service
    call becomes an entry appended to a log of attempts. */
module AdaptiveLighting {
  import opened Wrappers
  import opened JsBuiltins
  import opened Seqs
  import opened Entities
  import opened Solar

  const TransitionDuration: int := 30
  const ManualOverrideTimeout: int := 30 * 60 * 1000
  const SleepKelvin: real := 2200.0

  /** A `light.turn_on` call. */
  datatype TurnOn = TurnOn(entityId: string, colorTemp: int, brightnessPct: real, transition: int)

  /** One service call and whether it went through. */
  datatype Attempt = Attempt(command: TurnOn, ok: bool)

  // ---------------------------------------------------------------------
  // Which lights take part
  // ---------------------------------------------------------------------

  predicate IsAdaptive(light: Entity) {
    SupportsColorMode(light, "color_temp")
  }

  /** The lights of the `light` domain that support colour temperature, in order. */
  function GetAdaptiveLights(domainLights: seq<Entity>): (r: seq<Entity>)
    ensures IsSubsequence(r, domainLights)
    ensures forall l :: l in r <==> l in domainLights && IsAdaptive(l)
  {
    Filter(domainLights, IsAdaptive)
  }

  // ---------------------------------------------------------------------
  // One light
  // ---------------------------------------------------------------------

  /** The Kelvin to send: the default curve, capped at 2200 K in sleep mode. */
  function TargetKelvin(elevation: real, sleep: bool): (k: real)
    ensures !sleep ==> k == CalculateColorTemp(elevation, DefaultConfig)
    ensures sleep ==> k <= SleepKelvin && k <= CalculateColorTemp(elevation, DefaultConfig)
    ensures sleep ==> k == SleepKelvin || k == CalculateColorTemp(elevation, DefaultConfig)
  {
    var k := CalculateColorTemp(elevation, DefaultConfig);
    if sleep then (if k < SleepKelvin then k else SleepKelvin) else k
  }

  /** Sleep mode always sends exactly 2200 K, since the default curve never
      goes below its night value of 2200 K. */
  lemma SleepKelvinIsConstant(elevation: real)
    ensures TargetKelvin(elevation, true) == SleepKelvin
  {
    DefaultColorTempRange(elevation);
  }

  /** The sent Kelvin is always within the default curve's range [2200, 5500]. */
  lemma TargetKelvinRange(elevation: real, sleep: bool)
    ensures SleepKelvin <= TargetKelvin(elevation, sleep) <= 5500.0
  {
    DefaultColorTempRange(elevation);
  }

  /** `Math.round(1000000 / kelvin)`: Kelvin to mireds. */
  function Mired(kelvin: real): int
    requires kelvin > 0.0
  {
    Round(1000000.0 / kelvin)
  }

  /** Over [2200, 5500] K the mired value lies in [182, 455]. */
  lemma MiredRange(kelvin: real)
    requires 2200.0 <= kelvin <= 5500.0
    ensures 182 <= Mired(kelvin) <= 455
  {
    var q := 1000000.0 / kelvin;
    assert q * kelvin == 1000000.0;
    if q < 181.8 {
      MulMonotone(q, kelvin, 5500.0);
      assert false;
    }
    if q > 454.6 {
      MulMonotone(kelvin, 454.6, q);
      assert false;
    }
    assert 182.3 <= q + 0.5 <= 455.1;
  }

  /** Sleep mode sends 455 mireds. */
  lemma SleepMired(elevation: real)
    ensures Mired(TargetKelvin(elevation, true)) == 455
  {
    SleepKelvinIsConstant(elevation);
    var q := 1000000.0 / SleepKelvin;
    assert q * SleepKelvin == 1000000.0;
    assert 454.5 <= q <= 454.6;
  }

  /** The gate of `updateLight`: master switch on, light on, no manual override. */
  predicate Eligible(master: bool, overrides: map<string, int>, light: Entity) {
    master && light.state == "on" && light.entityId !in overrides
  }

  /** The colour temperature (in mireds) and brightness the curve asks for. */
  datatype Settings = Settings(colorTemp: int, brightnessPct: real)

  /** The settings for the sun at `elevation`, with or without sleep mode. */
  function AdaptiveSettings(sleep: bool, elevation: real): (s: Settings)
    ensures 182 <= s.colorTemp <= 455
    ensures 30.0 <= s.brightnessPct <= 100.0 && s.brightnessPct == CalculateBrightness(elevation)
    ensures sleep ==> s.colorTemp == 455
  {
    var k := TargetKelvin(elevation, sleep);
    TargetKelvinRange(elevation, sleep);
    MiredRange(k);
    BrightnessRange(elevation);
    assert sleep ==> Mired(k) == 455 by { if sleep { SleepMired(elevation); } }
    Settings(Mired(k), CalculateBrightness(elevation))
  }

  /** The payload sent to an eligible light. */
  function MakeCommand(light: Entity, settings: Settings): TurnOn {
    TurnOn(light.entityId, settings.colorTemp, settings.brightnessPct, TransitionDuration)
  }

  /** What `updateLight` sends, if anything. */
  function LightCommand(master: bool, overrides: map<string, int>, light: Entity, settings: Settings)
    : (r: Option<TurnOn>)
    ensures r.None? <==> !master || light.state != "on" || light.entityId in overrides
    ensures r.Some? ==> r.value == TurnOn(light.entityId, settings.colorTemp, settings.brightnessPct, TransitionDuration)
  {
    if Eligible(master, overrides, light) then Some(MakeCommand(light, settings)) else None
  }

  // ---------------------------------------------------------------------
  // One cycle over all lights
  // ---------------------------------------------------------------------

  /** The commands of one cycle over `lights`, in order. */
  function CycleCommands(master: bool, overrides: map<string, int>, lights: seq<Entity>, settings: Settings)
    : seq<TurnOn>
  {
    if |lights| == 0 then []
    else
      var last := lights[|lights| - 1];
      CycleCommands(master, overrides, lights[..|lights| - 1], settings)
        + (if Eligible(master, overrides, last) then [MakeCommand(last, settings)] else [])
  }

  function Commands(lights: seq<Entity>, settings: Settings): (r: seq<TurnOn>)
    ensures |r| == |lights|
    ensures forall i :: 0 <= i < |lights| ==> r[i] == MakeCommand(lights[i], settings)
  {
    if |lights| == 0 then [] else [MakeCommand(lights[0], settings)] + Commands(lights[1..], settings)
  }

  function Gate(master: bool, overrides: map<string, int>): Entity -> bool {
    l => Eligible(master, overrides, l)
  }

  /** A cycle sends one command to each eligible light, in the lights' order,
      and nothing to the others. */
  lemma {:induction false} CycleIsEligibleLights(master: bool, overrides: map<string, int>,
                                                 lights: seq<Entity>, settings: Settings)
    ensures CycleCommands(master, overrides, lights, settings)
         == Commands(Filter(lights, Gate(master, overrides)), settings)
  {
    if |lights| > 0 {
      var init, last := lights[..|lights| - 1], lights[|lights| - 1];
      CycleIsEligibleLights(master, overrides, init, settings);
      assert lights == init + [last];
      EligibleCommandsSnoc(master, overrides, init, last, settings);
    }
  }

  lemma EligibleCommandsSnoc(master: bool, overrides: map<string, int>, init: seq<Entity>, last: Entity,
                             settings: Settings)
    ensures Commands(Filter(init + [last], Gate(master, overrides)), settings)
         == Commands(Filter(init, Gate(master, overrides)), settings)
            + (if Eligible(master, overrides, last) then [MakeCommand(last, settings)] else [])
  {
    var p := Gate(master, overrides);
    var tail := if p(last) then [last] else [];
    FilterSnoc(init, last, p);
    CommandsAppend(Filter(init, p), tail, settings);
    assert Commands(tail, settings) == if Eligible(master, overrides, last) then [MakeCommand(last, settings)] else [];
  }

  lemma CommandsAppend(a: seq<Entity>, b: seq<Entity>, settings: Settings)
    ensures Commands(a + b, settings) == Commands(a, settings) + Commands(b, settings)
  {
    var l, r := Commands(a + b, settings), Commands(a, settings) + Commands(b, settings);
    assert |l| == |r|;
    forall i | 0 <= i < |l| ensures l[i] == r[i] {
      if i < |a| { assert (a + b)[i] == a[i]; } else { assert (a + b)[i] == b[i - |a|]; }
    }
  }

  /** With the master switch off a cycle sends nothing. */
  lemma {:induction false} MasterOffSendsNothing(overrides: map<string, int>, lights: seq<Entity>, settings: Settings)
    ensures CycleCommands(false, overrides, lights, settings) == []
  {
    if |lights| > 0 {
      MasterOffSendsNothing(overrides, lights[..|lights| - 1], settings);
    }
  }

  /** A light under manual override gets no command in a cycle. */
  lemma {:induction false} OverriddenLightUntouched(master: bool, overrides: map<string, int>,
                                                    lights: seq<Entity>, settings: Settings, id: string)
    requires id in overrides
    ensures forall c :: c in CycleCommands(master, overrides, lights, settings) ==> c.entityId != id
  {
    if |lights| > 0 {
      OverriddenLightUntouched(master, overrides, lights[..|lights| - 1], settings, id);
    }
  }

  /** The attempt made for an optional command. */
  function AttemptOf(command: Option<TurnOn>, failing: set<string>): (r: seq<Attempt>)
    ensures command.None? ==> r == []
    ensures command.Some? ==> r == [Attempt(command.value, command.value.entityId !in failing)]
  {
    match command
    case Some(c) => [Attempt(c, c.entityId !in failing)]
    case None => []
  }

  /** Extending a cycle by one light adds that light's attempt, if any. */
  lemma CycleStep(master: bool, overrides: map<string, int>, lights: seq<Entity>, i: nat,
                  settings: Settings, failing: set<string>)
    requires i < |lights|
    ensures Attempts(CycleCommands(master, overrides, lights[..i + 1], settings), failing)
         == Attempts(CycleCommands(master, overrides, lights[..i], settings), failing)
            + AttemptOf(LightCommand(master, overrides, lights[i], settings), failing)
  {
    assert lights[..i + 1][..i] == lights[..i];
    var before := CycleCommands(master, overrides, lights[..i], settings);
    if Eligible(master, overrides, lights[i]) {
      var c := MakeCommand(lights[i], settings);
      assert CycleCommands(master, overrides, lights[..i + 1], settings) == before + [c];
      assert (before + [c])[..|before|] == before;
    } else {
      assert CycleCommands(master, overrides, lights[..i + 1], settings) == before;
    }
  }

  /** Attempts for a list of commands; a call fails when its light is in `failing`. */
  function Attempts(commands: seq<TurnOn>, failing: set<string>): (r: seq<Attempt>)
    ensures |r| == |commands|
    ensures forall i :: 0 <= i < |r| ==> r[i].command == commands[i] && (r[i].ok <==> commands[i].entityId !in failing)
  {
    if |commands| == 0 then []
    else
      var last := commands[|commands| - 1];
      Attempts(commands[..|commands| - 1], failing) + [Attempt(last, last.entityId !in failing)]
  }

  lemma AppendAssoc<T>(a: seq<T>, b: seq<T>, c: seq<T>)
    ensures a + b + c == a + (b + c)
  {
  }

  // ---------------------------------------------------------------------
  // Manual overrides
  // ---------------------------------------------------------------------

  /** A state change of a tracked light: one attributed to a user (a
      non-empty `user_id`) arms or re-arms its override for thirty minutes. */
  function ArmOverride(overrides: map<string, int>, tracked: set<string>, entityId: string,
                       userId: Option<string>, now: int): (r: map<string, int>)
    ensures (userId.Some? && userId.value != "" && entityId in tracked)
            ==> r == overrides[entityId := now + ManualOverrideTimeout]
    ensures !(userId.Some? && userId.value != "" && entityId in tracked) ==> r == overrides
  {
    if userId.Some? && userId.value != "" && entityId in tracked
    then overrides[entityId := now + ManualOverrideTimeout]
    else overrides
  }

  /** An armed override replaces any earlier deadline of that light, keeps
      every other light's entry, and blocks automation of that light. */
  lemma ArmedOverrideFacts(overrides: map<string, int>, tracked: set<string>, light: Entity, user: string, now: int,
                           master: bool, settings: Settings)
    requires user != "" && light.entityId in tracked
    ensures var r := ArmOverride(overrides, tracked, light.entityId, Some(user), now);
      && r.Keys == overrides.Keys + {light.entityId}
      && r[light.entityId] == now + ManualOverrideTimeout
      && (forall id :: id in overrides && id != light.entityId ==> id in r && r[id] == overrides[id])
      && LightCommand(master, r, light, settings).None?
  {
  }

  /** The expiry of an override removes that entry only. */
  function ExpireOverride(overrides: map<string, int>, entityId: string): (r: map<string, int>)
    ensures entityId !in r
    ensures r.Keys == overrides.Keys - {entityId}
    ensures forall id :: id in r ==> r[id] == overrides[id]
  {
    overrides - {entityId}
  }

  /** After expiry a light is updated again exactly when the master switch
      and the light are on. */
  lemma ExpiryResumes(overrides: map<string, int>, light: Entity, master: bool, settings: Settings)
    ensures LightCommand(master, ExpireOverride(overrides, light.entityId), light, settings).Some?
        <==> master && light.state == "on"
  {
  }

  // ---------------------------------------------------------------------
  // The service
  // ---------------------------------------------------------------------

  class AdaptiveLightingService {
    /** The "Adaptive Lighting Master" switch. */
    var masterOn: bool
    /** The "Adaptive Lighting Sleep Mode" switch. */
    var sleepOn: bool
    /** Lights under manual override, with the time their timer fires. */
    var overrides: map<string, int>
    /** Lights whose updates are watched for manual changes. */
    var tracked: set<string>
    /** Every `light.turn_on` call made so far. */
    var log: seq<Attempt>

    constructor ()
      ensures masterOn && !sleepOn && overrides == map[] && tracked == {} && log == []
    {
      masterOn := true;
      sleepOn := false;
      overrides := map[];
      tracked := {};
      log := [];
    }

    method SetMaster(on: bool)
      modifies this`masterOn
      ensures masterOn == on
    {
      masterOn := on;
    }

    method SetSleepMode(on: bool)
      modifies this`sleepOn
      ensures sleepOn == on
    {
      sleepOn := on;
    }

    /** `updateLight`: send the adaptive settings to one light unless it is gated off. */
    method UpdateLight(light: Entity, elevation: real, failing: set<string>)
      modifies this`log
      ensures log == old(log) + AttemptOf(LightCommand(masterOn, overrides, light, AdaptiveSettings(sleepOn, elevation)), failing)
    {
      var settings := AdaptiveSettings(sleepOn, elevation);
      var cmd := LightCommand(masterOn, overrides, light, settings);
      if cmd.Some? {
        var ok := cmd.value.entityId !in failing;
        log := log + [Attempt(cmd.value, ok)];
      }
      assert log == old(log) + AttemptOf(cmd, failing);
    }

    /** `updateAllLights`: one update per adaptive light; a failed call does
        not stop the others. */
    method UpdateAllLights(domainLights: seq<Entity>, elevation: real, failing: set<string>)
      modifies this`log
      ensures log == old(log) + Attempts(CycleCommands(masterOn, overrides, GetAdaptiveLights(domainLights),
                                                       AdaptiveSettings(sleepOn, elevation)), failing)
    {
      var lights := GetAdaptiveLights(domainLights);
      UpdateEach(lights, elevation, failing);
    }

    /** Update `lights` one after the other. */
    method UpdateEach(lights: seq<Entity>, elevation: real, failing: set<string>)
      modifies this`log
      ensures log == old(log) + Attempts(CycleCommands(masterOn, overrides, lights, AdaptiveSettings(sleepOn, elevation)), failing)
    {
      var settings := AdaptiveSettings(sleepOn, elevation);
      var i := 0;
      while i < |lights|
        invariant 0 <= i <= |lights|
        invariant log == old(log) + Attempts(CycleCommands(masterOn, overrides, lights[..i], settings), failing)
      {
        ghost var done := Attempts(CycleCommands(masterOn, overrides, lights[..i], settings), failing);
        ghost var step := AttemptOf(LightCommand(masterOn, overrides, lights[i], settings), failing);
        CycleStep(masterOn, overrides, lights, i, settings, failing);
        UpdateLight(lights[i], elevation, failing);
        assert log == old(log) + done + step;
        AppendAssoc(old(log), done, step);
        i := i + 1;
      }
      assert lights[..i] == lights;
    }

    /** `setupManualOverrideDetection`: watch every adaptive light. */
    method SetupOverrideDetection(domainLights: seq<Entity>)
      modifies this`tracked
      ensures tracked == set l | l in GetAdaptiveLights(domainLights) :: l.entityId
    {
      tracked := set l | l in GetAdaptiveLights(domainLights) :: l.entityId;
    }

    /** A state-change event for `entityId`, attributed to `userId`. */
    method OnStateChange(entityId: string, userId: Option<string>, now: int)
      modifies this`overrides
      ensures overrides == ArmOverride(old(overrides), tracked, entityId, userId, now)
    {
      if userId.Some? && userId.value != "" && entityId in tracked {
        overrides := overrides[entityId := now + ManualOverrideTimeout];
      }
    }

    /** The override timer of `light` fires: drop the override and update that light alone. */
    method OnOverrideExpired(light: Entity, now: int, elevation: real, failing: set<string>)
      requires light.entityId in overrides && overrides[light.entityId] <= now
      modifies this`overrides, this`log
      ensures overrides == ExpireOverride(old(overrides), light.entityId)
      ensures log == old(log) + AttemptOf(LightCommand(masterOn, overrides, light, AdaptiveSettings(sleepOn, elevation)), failing)
    {
      overrides := overrides - {light.entityId};
      UpdateLight(light, elevation, failing);
    }
  }
}
