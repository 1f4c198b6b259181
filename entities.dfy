/** Home Assistant entity snapshots as the commands and the service see them:
    an id, a state string and a map of JSON attribute values. */
module Entities {
  import opened Wrappers
  import opened JsBuiltins

  /** A JSON attribute value. Objects are kept opaque: no command reads into them. */
  datatype AttrValue =
    | Null
    | Bool(b: bool)
    | Num(n: int)
    | Str(s: string)
    | List(items: seq<AttrValue>)
    | Object

  datatype Entity = Entity(entityId: string, state: string, attributes: map<string, AttrValue>)

  /** JavaScript truthiness of an attribute value. */
  predicate Truthy(v: AttrValue) {
    match v
    case Null => false
    case Bool(b) => b
    case Num(n) => n != 0
    case Str(s) => s != ""
    case List(_) => true
    case Object => true
  }

  /** `String(v)`: arrays print their elements joined by commas, objects as
      `[object Object]`. */
  function AttrToString(v: AttrValue): string
    decreases v
  {
    match v
    case Null => "null"
    case Bool(b) => if b then "true" else "false"
    case Num(n) => IntToString(n)
    case Str(s) => s
    case List(items) => JoinAttrs(items, v)
    case Object => "[object Object]"
  }

  /** The elements of an array joined by commas; `null` elements print as
      the empty string. */
  function JoinAttrs(items: seq<AttrValue>, ghost parent: AttrValue): string
    requires forall i :: 0 <= i < |items| ==> items[i] < parent
    decreases parent, |items|
  {
    if |items| == 0 then ""
    else
      var first := if items[0].Null? then "" else AttrToString(items[0]);
      if |items| == 1 then first else first + "," + JoinAttrs(items[1..], parent)
  }

  /** `entity_id.split('.')[0]`: the domain part of an id. */
  function DomainOf(entityId: string): (d: string)
    ensures '.' !in d
    ensures StartsWith(entityId, d)
    ensures |d| < |entityId| ==> entityId[|d|] == '.'
  {
    var parts := Split(entityId, '.');
    assert parts[0] in parts;
    SplitHead(entityId, '.');
    parts[0]
  }

  /** The domain of each entity, in order. */
  function DomainKeys(entities: seq<Entity>): (keys: seq<string>)
    ensures |keys| == |entities|
    ensures forall i :: 0 <= i < |entities| ==> keys[i] == DomainOf(entities[i].entityId)
  {
    seq(|entities|, i requires 0 <= i < |entities| => DomainOf(entities[i].entityId))
  }

  /** The first piece of a split is the text up to the first separator. */
  lemma SplitHead(s: string, d: char)
    ensures StartsWith(s, Split(s, d)[0])
    ensures |Split(s, d)[0]| < |s| ==> s[|Split(s, d)[0]|] == d
  {
  }

  /** `attributes.friendly_name`, when it is a string. */
  function FriendlyName(e: Entity): (r: Option<string>)
    ensures r.Some? <==> "friendly_name" in e.attributes && e.attributes["friendly_name"].Str?
    ensures r.Some? ==> r.value == e.attributes["friendly_name"].s
  {
    if "friendly_name" in e.attributes && e.attributes["friendly_name"].Str?
    then Some(e.attributes["friendly_name"].s) else None
  }

  /** `attributes.friendly_name || entity_id`: the name shown in tables. */
  function DisplayName(e: Entity): (r: string)
    ensures FriendlyName(e).Some? && FriendlyName(e).value != "" ==> r == FriendlyName(e).value
    ensures !(FriendlyName(e).Some? && FriendlyName(e).value != "") ==> r == e.entityId
  {
    match FriendlyName(e)
    case Some(n) => if n != "" then n else e.entityId
    case None => e.entityId
  }

  /** A numeric attribute such as `brightness` or `color_temp_kelvin`:
      missing, JSON `null`, or a number. */
  function NumAttr(e: Entity, key: string): (r: NumberValue)
    ensures r.Number? <==> key in e.attributes && e.attributes[key].Num?
    ensures r.Number? ==> r.value == e.attributes[key].n
    ensures r.NullNumber? <==> key in e.attributes && e.attributes[key].Null?
  {
    if key !in e.attributes then Undefined
    else match e.attributes[key]
      case Num(n) => Number(n)
      case Null => NullNumber
      case _ => Undefined
  }

  /** `(attributes.supported_color_modes || []).includes(mode)`. A list is
      searched for the mode; a non-empty string is searched for it as a
      substring, as `String.prototype.includes` does. */
  predicate SupportsColorMode(e: Entity, mode: string) {
    "supported_color_modes" in e.attributes &&
    match e.attributes["supported_color_modes"]
    case List(items) => Str(mode) in items
    case Str(s) => Includes(s, mode)
    case _ => false
  }
}
