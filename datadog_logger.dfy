/** The Datadog log shipper: entries are buffered while logging is enabled,
    and the buffer is shipped as one batch when it reaches ten entries, on
    `flush` and on `shutdown`. The HTTP POST becomes a `Post` appended to
    `posts`, with its outcome given by the caller; the clock is a
    `timestamp` argument. */
module DatadogLogger {
  import opened Wrappers

  /** The buffer is shipped once it holds this many entries. */
  const MaxBufferSize: nat := 10

  datatype Level = Info | Error | Warn

  function LevelName(l: Level): string {
    match l
    case Info => "info"
    case Error => "error"
    case Warn => "warn"
  }

  /** A log entry as a JSON object of string fields. */
  type Entry = map<string, string>

  /** One POST of a batch; `delivered` is false when the request failed. */
  datatype Post = Post(batch: seq<Entry>, delivered: bool)

  function DdTags(level: Level): string {
    "env:production,source:ha-cli,level:" + LevelName(level)
  }

  /** The entry `log` builds: the fixed fields, then the metadata spread
      over them, so a metadata key replaces a fixed field of the same name. */
  function MakeEntry(timestamp: string, level: Level, message: string, metadata: map<string, string>): Entry {
    map["timestamp" := timestamp, "level" := LevelName(level), "message" := message,
        "service" := "ha-cli", "ddsource" := "ha-cli", "ddtags" := DdTags(level)]
    + metadata
  }

  /** Every metadata key appears with its metadata value; every fixed field
      the metadata does not name keeps its fixed value, so an entry without
      overriding metadata is tagged with its level and the `ha-cli` service. */
  lemma EntryFields(timestamp: string, level: Level, message: string, metadata: map<string, string>)
    ensures var e := MakeEntry(timestamp, level, message, metadata);
      && e.Keys == metadata.Keys + {"timestamp", "level", "message", "service", "ddsource", "ddtags"}
      && (forall k :: k in metadata ==> e[k] == metadata[k])
      && ("service" !in metadata ==> e["service"] == "ha-cli")
      && ("ddtags" !in metadata ==> e["ddtags"] == DdTags(level))
      && ("level" !in metadata ==> e["level"] == LevelName(level))
  {
  }

  /** The tag list ends with `level:` and the level's name. */
  lemma DdTagsEndWithLevel(level: Level)
    ensures var t, s := DdTags(level), "level:" + LevelName(level);
      |s| <= |t| && t[|t| - |s|..] == s
  {
    var prefix := "env:production,source:ha-cli,";
    assert DdTags(level) == prefix + ("level:" + LevelName(level));
  }

  // ---------------------------------------------------------------------
  // Buffer and posts as values
  // ---------------------------------------------------------------------

  datatype Shipping = Shipping(buffer: seq<Entry>, posts: seq<Post>)

  /** `flush`: when enabled and the buffer is non-empty, post the whole
      buffer as one batch and empty it, whether or not the post succeeds. */
  function FlushStep(enabled: bool, s: Shipping, delivered: bool): Shipping {
    if !enabled || |s.buffer| == 0 then s
    else Shipping([], s.posts + [Post(s.buffer, delivered)])
  }

  /** `log`: when enabled, buffer the entry and flush once the buffer is full. */
  function LogStep(enabled: bool, s: Shipping, entry: Entry, delivered: bool): Shipping {
    if !enabled then s
    else
      var t := Shipping(s.buffer + [entry], s.posts);
      if |t.buffer| >= MaxBufferSize then FlushStep(enabled, t, delivered) else t
  }

  /** The entries of a sequence of posts, in order. */
  function Posted(posts: seq<Post>): seq<Entry> {
    if |posts| == 0 then [] else Posted(posts[..|posts| - 1]) + posts[|posts| - 1].batch
  }

  /** Everything logged so far: what was posted, then what is still buffered. */
  function Logged(s: Shipping): seq<Entry> {
    Posted(s.posts) + s.buffer
  }

  /** When disabled, neither `log` nor `flush` changes anything. */
  lemma DisabledChangesNothing(s: Shipping, entry: Entry, delivered: bool)
    ensures LogStep(false, s, entry, delivered) == s
    ensures FlushStep(false, s, delivered) == s
  {
  }

  /** A flush of an empty buffer posts nothing. */
  lemma FlushEmptyPostsNothing(enabled: bool, posts: seq<Post>, delivered: bool)
    ensures FlushStep(enabled, Shipping([], posts), delivered) == Shipping([], posts)
  {
  }

  /** A flush leaves the buffer empty, posts at most one batch, and that
      batch is the whole buffer in order; a failed post is not retried, its
      entries are dropped. */
  lemma FlushShipsBuffer(enabled: bool, s: Shipping, delivered: bool)
    requires enabled && |s.buffer| > 0
    ensures FlushStep(enabled, s, delivered).buffer == []
    ensures FlushStep(enabled, s, delivered).posts == s.posts + [Post(s.buffer, delivered)]
  {
  }

  /** Flushing never loses or reorders an entry: the posted-then-buffered
      entries are the same before and after. */
  lemma FlushKeepsLogged(enabled: bool, s: Shipping, delivered: bool)
    ensures Logged(FlushStep(enabled, s, delivered)) == Logged(s)
  {
    if enabled && |s.buffer| > 0 {
      var p := s.posts + [Post(s.buffer, delivered)];
      assert p[..|p| - 1] == s.posts;
    }
  }

  /** Logging while enabled adds exactly the new entry at the end of
      everything logged so far; while disabled it adds nothing. */
  lemma LogAppends(enabled: bool, s: Shipping, entry: Entry, delivered: bool)
    ensures enabled ==> Logged(LogStep(enabled, s, entry, delivered)) == Logged(s) + [entry]
    ensures !enabled ==> Logged(LogStep(enabled, s, entry, delivered)) == Logged(s)
  {
    if enabled {
      var t := Shipping(s.buffer + [entry], s.posts);
      FlushKeepsLogged(enabled, t, delivered);
    }
  }

  /** The buffer stays below its capacity: a `log` that fills it flushes it. */
  lemma LogKeepsBufferShort(enabled: bool, s: Shipping, entry: Entry, delivered: bool)
    requires |s.buffer| < MaxBufferSize
    ensures |LogStep(enabled, s, entry, delivered).buffer| < MaxBufferSize
    ensures enabled && |s.buffer| == MaxBufferSize - 1
            ==> LogStep(enabled, s, entry, delivered) == Shipping([], s.posts + [Post(s.buffer + [entry], delivered)])
  {
  }

  // ---------------------------------------------------------------------
  // logAPICall
  // ---------------------------------------------------------------------

  /** The call `logAPICall` makes to `log`. */
  datatype LogRequest = LogRequest(level: Level, message: string, metadata: map<string, string>)

  /** `logAPICall`: `requestData` is the JSON text of the request body when it
      is truthy, `command` is `process.argv[3]`. */
  function ApiCallRequest(verb: string, url: string, requestData: Option<string>, hasResponse: bool,
                          error: Option<string>, command: Option<string>): LogRequest
  {
    var base := map["api_method" := verb, "api_url" := url,
                    "command" := if command.Some? && command.value != "" then command.value else "unknown"];
    var withData := if requestData.Some? then base["request_data" := requestData.value] else base;
    var metadata := if hasResponse then withData["response_status" := "success"] else withData;
    if error.Some? && error.value != "" then
      LogRequest(Error, "API Call Failed: " + verb + " " + url, metadata["error" := error.value])
    else
      LogRequest(Info, "API Call: " + verb + " " + url, metadata)
  }

  /** The level is `error` exactly when a non-empty error is given, and the
      optional fields are present exactly when their inputs are. */
  lemma ApiCallRequestFields(verb: string, url: string, requestData: Option<string>, hasResponse: bool,
                             error: Option<string>, command: Option<string>)
    ensures var r := ApiCallRequest(verb, url, requestData, hasResponse, error, command);
      && (r.level == Error <==> error.Some? && error.value != "")
      && (r.level == Error || r.level == Info)
      && ("request_data" in r.metadata <==> requestData.Some?)
      && (requestData.Some? ==> r.metadata["request_data"] == requestData.value)
      && ("response_status" in r.metadata <==> hasResponse)
      && ("error" in r.metadata <==> r.level == Error)
      && r.metadata["api_method"] == verb && r.metadata["api_url"] == url
      && r.metadata["command"] != ""
  {
  }

  class DatadogLogger {
    /** Logging is on when an API key is configured and not switched off. */
    var enabled: bool
    var buffer: seq<Entry>
    /** Every batch handed to the intake endpoint, with its outcome. */
    var posts: seq<Post>

    predicate Valid()
      reads this
    {
      |buffer| < MaxBufferSize
    }

    function State(): Shipping
      reads this
    {
      Shipping(buffer, posts)
    }

    constructor (apiKey: string, disableLogging: Option<string>)
      ensures Valid()
      ensures enabled == (apiKey != "" && disableLogging != Some("true"))
      ensures buffer == [] && posts == []
    {
      enabled := apiKey != "" && disableLogging != Some("true");
      buffer := [];
      posts := [];
    }

    method Log(level: Level, message: string, metadata: map<string, string>, timestamp: string, delivered: bool)
      requires Valid()
      modifies this`buffer, this`posts
      ensures Valid()
      ensures State() == LogStep(enabled, old(State()), MakeEntry(timestamp, level, message, metadata), delivered)
    {
      LogKeepsBufferShort(enabled, State(), MakeEntry(timestamp, level, message, metadata), delivered);
      if !enabled {
        return;
      }
      buffer := buffer + [MakeEntry(timestamp, level, message, metadata)];
      if |buffer| >= MaxBufferSize {
        Flush(delivered);
      }
    }

    method LogApiCall(verb: string, url: string, requestData: Option<string>, hasResponse: bool,
                      error: Option<string>, command: Option<string>, timestamp: string, delivered: bool)
      requires Valid()
      modifies this`buffer, this`posts
      ensures Valid()
      ensures var r := ApiCallRequest(verb, url, requestData, hasResponse, error, command);
        State() == LogStep(enabled, old(State()), MakeEntry(timestamp, r.level, r.message, r.metadata), delivered)
    {
      var r := ApiCallRequest(verb, url, requestData, hasResponse, error, command);
      Log(r.level, r.message, r.metadata, timestamp, delivered);
    }

    method Flush(delivered: bool)
      modifies this`buffer, this`posts
      ensures State() == FlushStep(enabled, old(State()), delivered)
      ensures |old(buffer)| > 0 && enabled ==> buffer == []
    {
      if !enabled || |buffer| == 0 {
        return;
      }
      var logs := buffer;
      buffer := [];
      posts := posts + [Post(logs, delivered)];
    }

    /** `shutdown`: stop the periodic flush and flush what is left. */
    method Shutdown(delivered: bool)
      modifies this`buffer, this`posts
      ensures State() == FlushStep(enabled, old(State()), delivered)
    {
      Flush(delivered);
    }
  }
}
