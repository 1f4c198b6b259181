/** The `watch` command: it polls Home Assistant and reports what changed
    since the previous poll. `watch entity` keeps the last snapshot of one
    entity; `watch lights` keeps the last reported snapshot of every light
    it has seen. A poll is given as its result, `None` when the request
    failed; the timer and the timestamps of the reports are not modelled. */
module Watch {
  import opened Wrappers
  import opened JsBuiltins
  import opened Entities
  import opened Output
  import LightsCommand

  // ---------------------------------------------------------------------
  // watch entity
  // ---------------------------------------------------------------------

  /** An old and a new value, printed as `old → new`. */
  datatype Transition = Transition(before: Styled, after: Styled)

  /** What one poll of `watch entity` prints. */
  datatype EntityReport =
    | PollError
    | Initial(state: Styled, brightness: Option<Styled>, colorTemp: Option<Styled>)
    | Changed(stateLine: Option<Transition>, brightnessLine: Option<Transition>, colorTempLine: Option<Transition>)
    | Unchanged

  /** A number attribute the first poll shows: truthy (a non-zero number;
      `null` is falsy) and the light on. */
  function ShownWhenOn(e: Entity, key: string, format: NumberValue -> Styled): Option<Styled> {
    var v := NumAttr(e, key);
    if e.state == "on" && v.Number? && v.value != 0 then Some(format(v)) else None
  }

  function AttrOf(e: Entity, key: string): Option<AttrValue> {
    if key in e.attributes then Some(e.attributes[key]) else None
  }

  /** The line for attribute `key`, printed when its value differs. */
  function AttrTransition(last: Entity, e: Entity, key: string, format: NumberValue -> Styled): Option<Transition> {
    if AttrOf(e, key) != AttrOf(last, key) then Some(Transition(format(NumAttr(last, key)), format(NumAttr(e, key))))
    else None
  }

  function BrightnessFormat(): NumberValue -> Styled {
    (b: NumberValue) => FormatBrightness(b)
  }

  function KelvinFormat(): NumberValue -> Styled {
    (k: NumberValue) => FormatKelvin(k)
  }

  /** One poll of `watch entity`: the report, and the snapshot kept for the
      next poll. */
  function EntityPoll(last: Option<Entity>, result: Option<Entity>): (Option<Entity>, EntityReport) {
    match result
    case None => (last, PollError)
    case Some(e) =>
      var report :=
        match last
        case None =>
          Initial(FormatState(e.state), ShownWhenOn(e, "brightness", BrightnessFormat()),
                  ShownWhenOn(e, "color_temp_kelvin", KelvinFormat()))
        case Some(l) =>
          if e.state != l.state || e.attributes != l.attributes then
            Changed(if e.state != l.state then Some(Transition(FormatState(l.state), FormatState(e.state))) else None,
                    AttrTransition(l, e, "brightness", BrightnessFormat()),
                    AttrTransition(l, e, "color_temp_kelvin", KelvinFormat()))
          else Unchanged;
      (Some(e), report)
  }

  /** The first successful poll shows the initial state; a later one reports
      exactly when the state or the attributes differ from the previous
      successful poll, with a state line exactly when the state differs; a
      successful poll always replaces the snapshot and a failed one keeps it. */
  lemma EntityPollFacts(last: Option<Entity>, result: Option<Entity>)
    ensures var (next, report) := EntityPoll(last, result);
      && (result.None? ==> next == last && report == PollError)
      && (result.Some? ==> next == result)
      && (report.Initial? <==> result.Some? && last.None?)
      && (report.Changed? <==> result.Some? && last.Some?
                               && (result.value.state != last.value.state
                                   || result.value.attributes != last.value.attributes))
      && (report.Changed? ==> (report.stateLine.Some? <==> result.value.state != last.value.state))
      && (report.Unchanged? <==> result.Some? && last.Some? && result.value.state == last.value.state
                                 && result.value.attributes == last.value.attributes)
  {
  }

  /** A change report has a brightness or colour-temperature line exactly
      when that attribute differs (`!==`), showing the old and the new value
      as the formatters print them: a value that became `null`, as when a
      light is switched off, shows as a grey `0%` or a yellow `nullK`, and
      only a missing one as N/A. */
  lemma ChangedAttrLines(l: Entity, e: Entity)
    ensures var report := EntityPoll(Some(l), Some(e)).1;
      report.Changed? ==>
        && (report.brightnessLine.Some? <==> AttrOf(e, "brightness") != AttrOf(l, "brightness"))
        && (report.colorTempLine.Some? <==> AttrOf(e, "color_temp_kelvin") != AttrOf(l, "color_temp_kelvin"))
        && (report.brightnessLine.Some? ==>
              report.brightnessLine.value
              == Transition(FormatBrightness(NumAttr(l, "brightness")), FormatBrightness(NumAttr(e, "brightness"))))
        && (report.colorTempLine.Some? ==>
              report.colorTempLine.value
              == Transition(FormatKelvin(NumAttr(l, "color_temp_kelvin")), FormatKelvin(NumAttr(e, "color_temp_kelvin"))))
        && (report.brightnessLine.Some? && AttrOf(e, "brightness") == Some(Null) ==>
              report.brightnessLine.value.after == Styled("0%", Gray))
        && (report.colorTempLine.Some? && AttrOf(e, "color_temp_kelvin") == Some(Null) ==>
              report.colorTempLine.value.after == Styled("nullK", Yellow))
        && (report.brightnessLine.Some? && AttrOf(e, "brightness").None? ==>
              report.brightnessLine.value.after == NotAvailable)
  {
  }

  /** The snapshot after a run of polls. */
  function EntityPolls(last: Option<Entity>, results: seq<Option<Entity>>): Option<Entity>
    decreases |results|
  {
    if |results| == 0 then last else EntityPolls(EntityPoll(last, results[0]).0, results[1..])
  }

  /** The result of the last successful poll, if any. */
  function LastSuccess(results: seq<Option<Entity>>): Option<Entity>
    decreases |results|
  {
    if |results| == 0 then None
    else if results[|results| - 1].Some? then results[|results| - 1]
    else LastSuccess(results[..|results| - 1])
  }

  /** After any run of polls the watcher compares against the last successful
      one: failures in between are forgotten. */
  lemma {:induction false} EntityPollsKeepLastSuccess(last: Option<Entity>, results: seq<Option<Entity>>)
    ensures EntityPolls(last, results) == if LastSuccess(results).Some? then LastSuccess(results) else last
    decreases |results|
  {
    if |results| > 0 {
      var next := EntityPoll(last, results[0]).0;
      EntityPollsKeepLastSuccess(next, results[1..]);
      LastSuccessOfCons(results);
    }
  }

  lemma {:induction false} LastSuccessOfCons(results: seq<Option<Entity>>)
    requires |results| > 0
    ensures LastSuccess(results) == if LastSuccess(results[1..]).Some? then LastSuccess(results[1..]) else
                                      (if results[0].Some? then results[0] else None)
    decreases |results|
  {
    if |results| > 1 {
      assert results[1..][..|results| - 2] == results[..|results| - 1][1..];
      LastSuccessOfCons(results[..|results| - 1]);
    }
  }

  class EntityWatcher {
    var lastState: Option<Entity>

    constructor ()
      ensures lastState == None
    {
      lastState := None;
    }

    method Poll(result: Option<Entity>) returns (report: EntityReport)
      modifies this
      ensures (lastState, report) == EntityPoll(old(lastState), result)
    {
      var next;
      next, report := EntityPoll(lastState, result).0, EntityPoll(lastState, result).1;
      lastState := next;
    }
  }

  // ---------------------------------------------------------------------
  // watch lights
  // ---------------------------------------------------------------------

  /** One line of `watch lights`: the light's name and its state change. */
  datatype Change = Change(name: string, change: Transition)

  /** The stored snapshots and the lines printed so far. */
  datatype Seen = Seen(last: map<string, Entity>, changes: seq<Change>)

  /** One light of a poll: stored when new, replaced and reported when its
      state differs from the stored one, ignored otherwise. */
  function Observe(s: Seen, light: Entity): Seen {
    var id := light.entityId;
    if id !in s.last then Seen(s.last[id := light], s.changes)
    else if light.state != s.last[id].state then
      Seen(s.last[id := light],
           s.changes + [Change(Truncate(DisplayName(light), 30),
                               Transition(FormatState(s.last[id].state), FormatState(light.state)))])
    else s
  }

  /** The lights of a poll, one after the other. */
  function ObserveAll(s: Seen, lights: seq<Entity>): Seen
    decreases |lights|
  {
    if |lights| == 0 then s else Observe(ObserveAll(s, lights[..|lights| - 1]), lights[|lights| - 1])
  }

  /** The first sight of a light stores it without a line; a known light gets
      a line exactly when its state differs, and only then is its snapshot
      replaced: a poll with the same state but other attributes changes
      nothing. */
  lemma ObserveFacts(s: Seen, light: Entity)
    ensures var id, t := light.entityId, Observe(s, light);
      && (id !in s.last ==> t.last == s.last[id := light] && t.changes == s.changes)
      && (id in s.last ==> (|t.changes| == |s.changes| + 1 <==> light.state != s.last[id].state))
      && (id in s.last && light.state == s.last[id].state ==> t == s)
      && (forall k :: k != id && k in s.last ==> k in t.last && t.last[k] == s.last[k])
      && t.last.Keys == s.last.Keys + {id}
      && t.last[id].state == light.state
  {
  }

  /** Over a whole poll the stored ids only grow, by the ids of the polled
      lights. */
  lemma {:induction false} ObserveAllKeys(s: Seen, lights: seq<Entity>)
    ensures ObserveAll(s, lights).last.Keys == s.last.Keys + (set l | l in lights :: l.entityId)
    decreases |lights|
  {
    if |lights| > 0 {
      var n := |lights| - 1;
      var init := lights[..n];
      ObserveAllKeys(s, init);
      ObserveKeys(ObserveAll(s, init), lights[n]);
      IdsOfSnoc(lights);
    }
  }

  lemma ObserveKeys(s: Seen, light: Entity)
    ensures Observe(s, light).last.Keys == s.last.Keys + {light.entityId}
  {
  }

  lemma IdsOfSnoc(lights: seq<Entity>)
    requires |lights| > 0
    ensures (set l | l in lights :: l.entityId)
         == (set l | l in lights[..|lights| - 1] :: l.entityId) + {lights[|lights| - 1].entityId}
  {
    var n := |lights| - 1;
    assert lights == lights[..n] + [lights[n]];
    forall l | l in lights ensures l in lights[..n] || l == lights[n] {
    }
  }

  /** A stored light missing from the poll keeps its snapshot. */
  lemma {:induction false} ObserveAllKeepsOthers(s: Seen, lights: seq<Entity>, k: string)
    requires k in s.last && forall i :: 0 <= i < |lights| ==> lights[i].entityId != k
    ensures k in ObserveAll(s, lights).last && ObserveAll(s, lights).last[k] == s.last[k]
    decreases |lights|
  {
    if |lights| > 0 {
      var n := |lights| - 1;
      ObserveAllKeepsOthers(s, lights[..n], k);
      ObserveFacts(ObserveAll(s, lights[..n]), lights[n]);
    }
  }

  /** A light whose id does not come again later in the poll ends up stored
      with the state it was polled with. */
  lemma {:induction false} ObserveAllLatest(s: Seen, lights: seq<Entity>, i: nat)
    requires i < |lights| && forall j :: i < j < |lights| ==> lights[j].entityId != lights[i].entityId
    ensures lights[i].entityId in ObserveAll(s, lights).last
    ensures ObserveAll(s, lights).last[lights[i].entityId].state == lights[i].state
    decreases |lights|
  {
    var n := |lights| - 1;
    var u := ObserveAll(s, lights[..n]);
    ObserveFacts(u, lights[n]);
    if i < n {
      ObserveAllLatest(s, lights[..n], i);
    }
  }

  /** Lines are only appended, at most one per polled light. */
  lemma {:induction false} ObserveAllChanges(s: Seen, lights: seq<Entity>)
    ensures var t := ObserveAll(s, lights);
      |s.changes| <= |t.changes| <= |s.changes| + |lights| && t.changes[..|s.changes|] == s.changes
    decreases |lights|
  {
    if |lights| > 0 {
      var n := |lights| - 1;
      var u := ObserveAll(s, lights[..n]);
      ObserveAllChanges(s, lights[..n]);
      var t := ObserveAll(s, lights);
      assert t.changes[..|s.changes|] == u.changes[..|s.changes|];
    }
  }

  class LightsWatcher {
    /** The last reported (or first seen) snapshot of each light. */
    var lastStates: map<string, Entity>
    /** The lines printed so far. */
    var printed: seq<Change>

    constructor ()
      ensures lastStates == map[] && printed == []
    {
      lastStates := map[];
      printed := [];
    }

    /** One poll: the lights of the area (all lights without one), observed in
        order; a failed poll changes nothing. */
    method Poll(result: Option<seq<Entity>>, area: Option<string>)
      modifies this
      ensures result.None? ==> lastStates == old(lastStates) && printed == old(printed)
      ensures result.Some? ==>
        Seen(lastStates, printed)
          == ObserveAll(Seen(old(lastStates), old(printed)), LightsCommand.InAreaIfGiven(result.value, area))
    {
      if result.None? {
        return;
      }
      var lights := LightsCommand.InAreaIfGiven(result.value, area);
      var i := 0;
      while i < |lights|
        invariant 0 <= i <= |lights|
        invariant Seen(lastStates, printed) == ObserveAll(Seen(old(lastStates), old(printed)), lights[..i])
      {
        assert lights[..i + 1][..i] == lights[..i];
        var light := lights[i];
        var id := light.entityId;
        if id !in lastStates {
          lastStates := lastStates[id := light];
        } else if light.state != lastStates[id].state {
          printed := printed + [Change(Truncate(DisplayName(light), 30),
                                       Transition(FormatState(lastStates[id].state), FormatState(light.state)))];
          lastStates := lastStates[id := light];
        }
        i := i + 1;
      }
      assert lights[..i] == lights;
    }
  }
}
