/** The recorder of Home Assistant API calls: while enabled it appends every
    call it is given, and it prints a numbered one-line summary per call. */
module ApiLogger {
  import opened Wrappers
  import opened JsBuiltins

  /** A recorded call; `verb` is its HTTP method. The request and response
      bodies are only read by the detailed dump, which is not modelled. */
  datatype ApiCall = ApiCall(timestamp: string, verb: string, url: string, error: Option<string>)

  /** A call failed when it carries a non-empty error text. */
  predicate Failed(c: ApiCall) {
    c.error.Some? && c.error.value != ""
  }

  /** The status word that ends a summary line. */
  function StatusWord(c: ApiCall): string {
    if Failed(c) then "ERROR" else "SUCCESS"
  }

  /** The status: a cross or a tick, then the word. */
  function Status(c: ApiCall): string {
    (if Failed(c) then "\U{274C} " else "\U{2705} ") + StatusWord(c)
  }

  /** The summary line of the call at index `i`. */
  function SummaryLine(i: nat, c: ApiCall): string {
    NatToString(i + 1) + ". [" + c.timestamp + "] " + c.verb + " " + c.url + " - " + Status(c)
  }

  /** The summary lines of `calls`: line `i` for the call at index `i`. */
  function SummaryLines(calls: seq<ApiCall>): seq<string> {
    seq(|calls|, i requires 0 <= i < |calls| => SummaryLine(i, calls[i]))
  }

  /** `summary()`: the lines joined with newlines. */
  function Summary(calls: seq<ApiCall>): string {
    Join(SummaryLines(calls), '\n')
  }

  /** No calls, empty summary. */
  lemma SummaryOfNothing()
    ensures Summary([]) == ""
  {
  }

  /** A call whose texts have no line break. */
  predicate OneLine(c: ApiCall) {
    '\n' !in c.timestamp && '\n' !in c.verb && '\n' !in c.url
  }

  /** Splitting the summary at line breaks gives back one line per call, in
      order, as long as no recorded text has a line break of its own. */
  lemma {:induction false} SummaryHasOneLinePerCall(calls: seq<ApiCall>)
    requires |calls| > 0
    requires forall c :: c in calls ==> OneLine(c)
    ensures Split(Summary(calls), '\n') == SummaryLines(calls)
    ensures |Split(Summary(calls), '\n')| == |calls|
  {
    var lines := SummaryLines(calls);
    forall l | l in lines ensures '\n' !in l {
      var i :| 0 <= i < |lines| && lines[i] == l;
      assert calls[i] in calls;
      SummaryLineHasNoBreak(i, calls[i]);
    }
    SplitOfJoin(lines, '\n');
  }

  lemma SummaryLineHasNoBreak(i: nat, c: ApiCall)
    requires OneLine(c)
    ensures '\n' !in SummaryLine(i, c)
  {
    NatToStringDigits(i + 1);
  }

  /** Line `i` names call `i + 1`, and ends in ERROR exactly for a failed call. */
  lemma SummaryLineShape(i: nat, c: ApiCall)
    ensures StartsWith(SummaryLine(i, c), NatToString(i + 1) + ". [")
    ensures Failed(c) ==> EndsWith(SummaryLine(i, c), "ERROR")
    ensures !Failed(c) ==> EndsWith(SummaryLine(i, c), "SUCCESS")
  {
    var head := NatToString(i + 1) + ". [";
    var line := SummaryLine(i, c);
    var tail := StatusWord(c);
    var mid := c.timestamp + "] " + c.verb + " " + c.url + " - " + (if Failed(c) then "\U{274C} " else "\U{2705} ");
    assert line == head + mid + tail;
    assert line[..|head|] == head;
    assert line[|line| - |tail|..] == tail;
  }

  predicate EndsWith(s: string, suffix: string) {
    |suffix| <= |s| && s[|s| - |suffix|..] == suffix
  }

  class APILogger {
    var calls: seq<ApiCall>
    var enabled: bool

    /** Recording starts off. */
    constructor ()
      ensures calls == [] && !enabled
    {
      calls := [];
      enabled := false;
    }

    method Enable()
      modifies this`enabled
      ensures enabled
    {
      enabled := true;
    }

    method Disable()
      modifies this`enabled
      ensures !enabled
    {
      enabled := false;
    }

    /** Appends `call` when enabled; ignores it otherwise. */
    method Log(call: ApiCall)
      modifies this`calls
      ensures enabled ==> calls == old(calls) + [call]
      ensures !enabled ==> calls == old(calls)
    {
      if enabled {
        calls := calls + [call];
      }
    }

    method GetCalls() returns (r: seq<ApiCall>)
      ensures r == calls
    {
      r := calls;
    }

    method Clear()
      modifies this`calls
      ensures calls == []
    {
      calls := [];
    }

    method GetSummary() returns (s: string)
      ensures s == Summary(calls)
    {
      var lines := [];
      var i := 0;
      while i < |calls|
        invariant 0 <= i <= |calls|
        invariant lines == SummaryLines(calls[..i])
      {
        assert SummaryLines(calls[..i + 1]) == SummaryLines(calls[..i]) + [SummaryLine(i, calls[i])];
        lines := lines + [SummaryLine(i, calls[i])];
        i := i + 1;
      }
      assert calls[..i] == calls;
      s := Join(lines, '\n');
    }
  }
}
