/** The `query` command: `find` narrows the fetched states through a chain of
    filters and shows at most 50 of them; `count` groups the states by a key;
    `stats` counts states of a few kinds. */
module Query {
  import opened Wrappers
  import opened JsBuiltins
  import opened Seqs
  import opened Entities
  import opened Grouping
  import opened Output

  // ---------------------------------------------------------------------
  // find: the filters
  // ---------------------------------------------------------------------

  /** The options of `find`; a string option counts only when it is `Given`. */
  datatype FindOptions = FindOptions(domain: Option<string>, state: Option<string>, unavailable: bool,
                                     name: Option<string>, attrs: seq<string>)

  function InDomain(domain: string): Entity -> bool {
    (e: Entity) => StartsWith(e.entityId, domain + ".")
  }

  function HasState(state: string): Entity -> bool {
    (e: Entity) => e.state == state
  }

  /** The id or the friendly name contains `pattern` (already lower-case),
      ignoring case. */
  function NameMatches(pattern: string): Entity -> bool {
    (e: Entity) => Includes(ToLower(e.entityId), pattern)
         || (FriendlyName(e).Some? && Includes(ToLower(FriendlyName(e).value), pattern))
  }

  /** `key=value` split at `=`: the key, and the value when there is one. */
  function AttrKey(attr: string): string {
    Split(attr, '=')[0]
  }

  function AttrValueText(attr: string): Option<string> {
    var parts := Split(attr, '=');
    if |parts| >= 2 then Some(parts[1]) else None
  }

  /** The entity has attribute `key` and its text equals `value`, ignoring case. */
  function AttrMatches(key: string, value: string): Entity -> bool {
    (e: Entity) => key in e.attributes && ToLower(AttrToString(e.attributes[key])) == ToLower(value)
  }

  predicate HasAttr(key: string, e: Entity) {
    key in e.attributes
  }

  /** One `--attr` filter. Without `=` the value is undefined, and the filter
      throws as soon as it meets an entity that has the key; the command then
      fails, which is `None`. */
  function ApplyAttr(states: seq<Entity>, attr: string): (r: Option<seq<Entity>>)
    ensures AttrValueText(attr).Some? ==> r == Some(Filter(states, AttrMatches(AttrKey(attr), AttrValueText(attr).value)))
    ensures AttrValueText(attr).None? ==>
      (r.None? <==> exists e :: e in states && HasAttr(AttrKey(attr), e))
    ensures r.Some? ==> IsSubsequence(r.value, states)
  {
    var key := AttrKey(attr);
    match AttrValueText(attr)
    case Some(value) => Some(Filter(states, AttrMatches(key, value)))
    case None =>
      if exists e :: e in states && HasAttr(key, e) then None
      else Some([])
  }

  /** The `--attr` filters in order; a failing one stops the command. */
  function ApplyAttrs(states: seq<Entity>, attrs: seq<string>): Option<seq<Entity>>
    decreases |attrs|
  {
    if |attrs| == 0 then Some(states)
    else
      match ApplyAttr(states, attrs[0])
      case None => None
      case Some(next) => ApplyAttrs(next, attrs[1..])
  }

  /** Every `--attr` has a value and they all hold. */
  function AllAttrs(attrs: seq<string>): Entity -> bool
    decreases |attrs|
  {
    if |attrs| == 0 then (e: Entity) => true
    else And(AttrMatches(AttrKey(attrs[0]), AttrValueText(attrs[0]).GetOr("")), AllAttrs(attrs[1..]))
  }

  predicate AllHaveValues(attrs: seq<string>) {
    forall a :: a in attrs ==> AttrValueText(a).Some?
  }

  /** Repeated `--attr` options are a conjunction: when each has a value,
      applying them in turn is one filter by all of them. */
  lemma {:induction false} AttrsAreConjunction(states: seq<Entity>, attrs: seq<string>)
    requires AllHaveValues(attrs)
    ensures ApplyAttrs(states, attrs) == Some(Filter(states, AllAttrs(attrs)))
    decreases |attrs|
  {
    if |attrs| == 0 {
      FilterAll(states);
    } else {
      var a := attrs[0];
      assert a in attrs;
      assert AllHaveValues(attrs[1..]) by {
        forall b | b in attrs[1..] ensures AttrValueText(b).Some? {
          assert b in attrs;
        }
      }
      var p := AttrMatches(AttrKey(a), AttrValueText(a).value);
      AttrsAreConjunction(Filter(states, p), attrs[1..]);
      FilterFilter(states, p, AllAttrs(attrs[1..]));
    }
  }

  lemma {:induction false} FilterAll(xs: seq<Entity>)
    ensures Filter(xs, (e: Entity) => true) == xs
  {
    if |xs| > 0 {
      FilterAll(xs[1..]);
    }
  }

  /** The filters of `find` before the attribute filters. */
  predicate Found(e: Entity, o: FindOptions) {
    && (Given(o.domain) ==> StartsWith(e.entityId, o.domain.value + "."))
    && (Given(o.state) ==> e.state == o.state.value)
    && (o.unavailable ==> e.state == "unavailable")
    && (Given(o.name) ==> NameMatches(ToLower(o.name.value))(e))
  }

  /** Domain, state, unavailable and name, in that order. */
  function Prefilter(states: seq<Entity>, o: FindOptions): seq<Entity> {
    var s1 := if Given(o.domain) then Filter(states, InDomain(o.domain.value)) else states;
    var s2 := if Given(o.state) then Filter(s1, HasState(o.state.value)) else s1;
    var s3 := if o.unavailable then Filter(s2, HasState("unavailable")) else s2;
    if Given(o.name) then Filter(s3, NameMatches(ToLower(o.name.value))) else s3
  }

  /** The whole `find` pipeline: the first four filters, then the attribute
      filters. */
  function Find(states: seq<Entity>, o: FindOptions): Option<seq<Entity>> {
    ApplyAttrs(Prefilter(states, o), o.attrs)
  }

  /** The first four filters keep exactly the entities that pass each one
      that was given, in their original order. */
  lemma PrefilterFacts(states: seq<Entity>, o: FindOptions)
    ensures IsSubsequence(Prefilter(states, o), states)
    ensures forall e :: e in Prefilter(states, o) <==> e in states && Found(e, o)
  {
    var s1 := if Given(o.domain) then Filter(states, InDomain(o.domain.value)) else states;
    var s2 := if Given(o.state) then Filter(s1, HasState(o.state.value)) else s1;
    var s3 := if o.unavailable then Filter(s2, HasState("unavailable")) else s2;
    var s4 := Prefilter(states, o);
    SubsequenceReflexive(states);
    SubsequenceReflexive(s1);
    SubsequenceReflexive(s2);
    SubsequenceReflexive(s3);
    SubsequenceTransitive(s2, s1, states);
    SubsequenceTransitive(s3, s2, states);
    SubsequenceTransitive(s4, s3, states);
  }

  lemma {:induction false} ApplyAttrsSubsequence(states: seq<Entity>, attrs: seq<string>)
    ensures ApplyAttrs(states, attrs).Some? ==> IsSubsequence(ApplyAttrs(states, attrs).value, states)
    decreases |attrs|
  {
    if |attrs| > 0 {
      var r := ApplyAttr(states, attrs[0]);
      if r.Some? {
        ApplyAttrsSubsequence(r.value, attrs[1..]);
        if ApplyAttrs(states, attrs).Some? {
          SubsequenceTransitive(ApplyAttrs(states, attrs).value, r.value, states);
        }
      }
    } else {
      SubsequenceReflexive(states);
    }
  }

  /** What `find` keeps is an order-preserving selection of the fetched
      states, every kept entity passes each filter that was given, and when
      every `--attr` has a value, exactly the entities passing all filters
      are kept. */
  lemma FindKeepsOrderAndFilters(states: seq<Entity>, o: FindOptions)
    ensures var r := Find(states, o);
      && (r.Some? ==>
            && IsSubsequence(r.value, states)
            && forall e :: e in r.value ==> e in states && Found(e, o))
      && (AllHaveValues(o.attrs) ==>
            && r.Some?
            && forall e :: e in r.value <==> e in states && Found(e, o) && AllAttrs(o.attrs)(e))
  {
    var s4 := Prefilter(states, o);
    PrefilterFacts(states, o);
    ApplyAttrsSubsequence(s4, o.attrs);
    var r := Find(states, o);
    if r.Some? {
      SubsequenceTransitive(r.value, s4, states);
      SubsequenceMembers(r.value, s4);
    }
    if AllHaveValues(o.attrs) {
      AttrsAreConjunction(s4, o.attrs);
    }
  }

  /** For a domain without a dot, the domain filter keeps exactly the
      entities whose domain key (the text before the first dot) is that
      domain and whose id goes on after it. */
  lemma DomainFilterIsDomainKey(id: string, domain: string)
    requires '.' !in domain
    ensures StartsWith(id, domain + ".") <==> DomainOf(id) == domain && |domain| < |id|
  {
    var d := DomainOf(id);
    assert forall j :: 0 <= j < |d| ==> id[j] == d[j] && d[j] != '.';
    if StartsWith(id, domain + ".") {
      assert id[|domain|] == '.';
      assert forall j :: 0 <= j < |domain| ==> id[j] == domain[j] && domain[j] != '.';
      assert |d| == |domain|;
      assert d == id[..|d|];
    }
    if d == domain && |domain| < |id| {
      assert id[..|domain| + 1] == domain + ".";
    }
  }

  // ---------------------------------------------------------------------
  // find: what is shown
  // ---------------------------------------------------------------------

  const MaxRows: nat := 50

  datatype Row = Row(id: string, name: string, state: Styled, domain: string)

  function RowOf(e: Entity): Row {
    Row(Truncate(e.entityId, 30), Truncate(DisplayName(e), 25), FormatState(e.state), DomainOf(e.entityId))
  }

  /** `states.slice(0, 50)`, one row each. */
  function Rows(states: seq<Entity>): (rows: seq<Row>)
    ensures |rows| == if |states| < MaxRows then |states| else MaxRows
    ensures forall i :: 0 <= i < |rows| ==> rows[i] == RowOf(states[i])
  {
    var shown := if |states| <= MaxRows then states else states[..MaxRows];
    seq(|shown|, i requires 0 <= i < |shown| => RowOf(shown[i]))
  }

  /** The note under the table, printed only when rows were cut. */
  function OverflowNote(n: nat): (r: Option<string>)
    ensures r.Some? <==> n > MaxRows
  {
    if n > MaxRows then Some("Showing first 50 of " + NatToString(n) + " entities. Use --json for full list.")
    else None
  }

  /** The note appears exactly when fewer rows are shown than were found. */
  lemma NoteIffRowsCut(states: seq<Entity>)
    ensures OverflowNote(|states|).Some? <==> |Rows(states)| < |states|
  {
  }

  // ---------------------------------------------------------------------
  // count
  // ---------------------------------------------------------------------

  /** The key an entity is counted under for `--by <by>`. */
  function CountKey(groupBy: string, e: Entity): string {
    if groupBy == "domain" then DomainOf(e.entityId)
    else if groupBy == "state" then e.state
    else if groupBy == "area" then
      (if "area_id" in e.attributes && Truthy(e.attributes["area_id"]) then AttrToString(e.attributes["area_id"])
       else "no_area")
    else "unknown"
  }

  function CountKeysOf(states: seq<Entity>, groupBy: string): (keys: seq<string>)
    ensures |keys| == |states|
    ensures forall i :: 0 <= i < |states| ==> keys[i] == CountKey(groupBy, states[i])
  {
    seq(|states|, i requires 0 <= i < |states| => CountKey(groupBy, states[i]))
  }

  /** `query count --by <by>`: the rows printed, and the total under them. */
  method CountCommand(states: seq<Entity>, groupBy: string) returns (rows: seq<KeyCount>, total: nat)
    ensures rows == CountByKey(CountKeysOf(states, groupBy))
    ensures total == |states|
  {
    var keys := CountKeysOf(states, groupBy);
    var counts := CountKeys(keys);
    rows := SortByCountDesc(counts);
    total := |states|;
  }

  /** Each key once, each count the number of entities under it, sorted by
      non-increasing count, the counts adding up to the printed total. */
  lemma CountRowsFacts(states: seq<Entity>, groupBy: string)
    ensures var rows := CountByKey(CountKeysOf(states, groupBy));
      && DistinctNames(rows)
      && SortedByCountDesc(rows)
      && Total(rows) == |states|
      && (forall i :: 0 <= i < |rows| ==> rows[i].count == multiset(CountKeysOf(states, groupBy))[rows[i].name])
      && (groupBy == "domain" ==> forall i :: 0 <= i < |rows| ==> '.' !in rows[i].name)
  {
    var keys := CountKeysOf(states, groupBy);
    CountByKeyFacts(keys);
    if groupBy == "domain" {
      var rows := CountByKey(keys);
      forall i | 0 <= i < |rows| ensures '.' !in rows[i].name {
        assert rows[i].name in Names(rows);
        var k :| k in keys && k == rows[i].name;
        var j :| 0 <= j < |keys| && keys[j] == k;
      }
    }
  }

  /** An unrecognised `--by` puts every entity under `unknown`. */
  lemma UnknownGrouping(states: seq<Entity>, groupBy: string)
    requires groupBy != "domain" && groupBy != "state" && groupBy != "area" && |states| > 0
    ensures CountByKey(CountKeysOf(states, groupBy)) == [KeyCount("unknown", |states|)]
  {
    var keys := CountKeysOf(states, groupBy);
    var rows := CountByKey(keys);
    CountByKeyFacts(keys);
    assert (set k | k in keys) == {"unknown"} by {
      assert keys[0] in keys;
    }
    assert |rows| == 1;
    assert rows[0].name in Names(rows);
    assert Total(rows) == rows[0].count;
  }

  // ---------------------------------------------------------------------
  // stats
  // ---------------------------------------------------------------------

  datatype Stats = Stats(totalEntities: nat, domains: nat, unavailable: nat, lights: nat, lightsOn: nat,
                         switches: nat, sensors: nat, automations: nat, automationsEnabled: nat,
                         scripts: nat, scenes: nat)

  function IdPrefix(prefix: string): Entity -> bool {
    (e: Entity) => StartsWith(e.entityId, prefix)
  }

  function PrefixAndOn(prefix: string): Entity -> bool {
    (e: Entity) => StartsWith(e.entityId, prefix) && e.state == "on"
  }

  function ComputeStats(states: seq<Entity>): Stats {
    Stats(|states|,
          |set e | e in states :: DomainOf(e.entityId)|,
          CountWhere(states, HasState("unavailable")),
          CountWhere(states, IdPrefix("light.")),
          CountWhere(states, PrefixAndOn("light.")),
          CountWhere(states, IdPrefix("switch.")),
          CountWhere(states, IdPrefix("sensor.")),
          CountWhere(states, IdPrefix("automation.")),
          CountWhere(states, PrefixAndOn("automation.")),
          CountWhere(states, IdPrefix("script.")),
          CountWhere(states, IdPrefix("scene.")))
  }

  /** Lights that are on are among the lights, enabled automations among the
      automations, and no count exceeds the total. */
  lemma StatsBounds(states: seq<Entity>)
    ensures var s := ComputeStats(states);
      && s.lightsOn <= s.lights <= s.totalEntities
      && s.automationsEnabled <= s.automations <= s.totalEntities
      && s.unavailable <= s.totalEntities
  {
    CountWhereMonotone(states, IdPrefix("light."), PrefixAndOn("light."));
    CountWhereMonotone(states, IdPrefix("automation."), PrefixAndOn("automation."));
  }

  /** The number of domains `stats` reports is the number of rows
      `count --by domain` prints, at most the number of entities, and
      positive when there is any entity. */
  lemma StatsDomains(states: seq<Entity>)
    ensures var s := ComputeStats(states);
      && s.domains == |CountByKey(CountKeysOf(states, "domain"))|
      && s.domains <= s.totalEntities
      && (s.totalEntities > 0 ==> s.domains > 0)
  {
    var keys := CountKeysOf(states, "domain");
    var rows := CountByKey(keys);
    CountByKeyFacts(keys);
    DomainSet(states);
    TotalAtLeastLength(rows);
    if |states| > 0 {
      assert keys[0] in (set k | k in keys);
    }
  }

  lemma DomainSet(states: seq<Entity>)
    ensures (set e | e in states :: DomainOf(e.entityId)) == (set k | k in CountKeysOf(states, "domain"))
  {
    var keys := CountKeysOf(states, "domain");
    forall k | k in keys ensures k in set e | e in states :: DomainOf(e.entityId) {
      var j :| 0 <= j < |keys| && keys[j] == k;
      assert states[j] in states;
    }
    forall e | e in states ensures DomainOf(e.entityId) in keys {
      var j :| 0 <= j < |states| && states[j] == e;
      assert keys[j] == DomainOf(e.entityId);
    }
  }

  lemma {:induction false} TotalAtLeastLength(t: seq<KeyCount>)
    requires forall i :: 0 <= i < |t| ==> t[i].count > 0
    ensures Total(t) >= |t|
  {
    if |t| > 0 {
      TotalAtLeastLength(t[1..]);
    }
  }
}
