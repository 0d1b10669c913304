/** The `POST /api/correct` handler (app/api/correct/route.ts): it checks
    the submitted text and the API key in a fixed order, calls the
    chat-completion API with streaming on, and re-frames the server-sent
    event stream it gets back into a plain stream of text deltas.

    `JSON.parse` followed by `?.choices?.[0]?.delta?.content` is the
    parameter `parse`: it maps a trimmed payload to the delta's text, or to
    None when the payload does not parse or has no such field. The network
    call is the parameter `fetch`. */
module CorrectRoute {
  import opened Wrappers
  import opened Strings

  /** The longest accepted text, in UTF-16 code units. */
  const MaxChars: nat := 10000

  const EventSeparator: string := "\n\n"
  const LineSeparator: string := "\n"
  const DataPrefix: string := "data: "
  const DoneSentinel: string := "[DONE]"
  /** What the stream carries after the deltas when a read fails. */
  const StreamErrorMarker: string := "\n[Fel vid str\U{F6}mning]"
  const DefaultModel: string := "gpt-4o-mini"
  const SystemPrompt: string :=
    "Du \U{E4}r en professionell svensk korrekturl\U{E4}sare. R\U{E4}tta stavning, grammatik, s\U{E4}rskrivningar och versaler. Bevara stil och betydelse. Svara endast med den korrigerade texten."

  /** A JSON error body `{ error, details? }` with its HTTP status. */
  datatype ErrorResponse = ErrorResponse(status: nat, error: string, details: Option<string>)

  const NoText: ErrorResponse := ErrorResponse(400, "Ingen text angiven.", None)
  const TooLong: ErrorResponse := ErrorResponse(400, "Texten f\U{E5}r vara max 10000 tecken.", None)
  const MissingKey: ErrorResponse := ErrorResponse(500, "Missing OPENAI_API_KEY", None)
  const UpstreamFailedText: string := "OpenAI request failed"
  const ServerErrorText: string := "Serverfel i /api/correct"

  // ---------------------------------------------------------------------
  // Validation

  datatype Checked = Accepted(text: string, apiKey: string) | Rejected(response: ErrorResponse)

  /** The three checks, first failure wins: a missing or blank text, then a
      text longer than MaxChars, then a missing API key. `text` is None when
      the body's `text` field is not a string. */
  function Validate(text: Option<string>, apiKey: Option<string>): (r: Checked)
    ensures r == Rejected(NoText) <==> text.None? || IsBlank(text.value)
    ensures r == Rejected(TooLong) <==>
      text.Some? && !IsBlank(text.value) && Utf16Length(text.value) > MaxChars
    ensures r == Rejected(MissingKey) <==>
      text.Some? && !IsBlank(text.value) && Utf16Length(text.value) <= MaxChars && !IsTruthy(apiKey)
    ensures r.Accepted? <==>
      text.Some? && !IsBlank(text.value) && Utf16Length(text.value) <= MaxChars && IsTruthy(apiKey)
    ensures r.Accepted? ==> r.text == text.value && r.apiKey == apiKey.value
  {
    if text.None? then Rejected(NoText)
    else
      TrimSpec(text.value);
      if Trim(text.value) == "" then Rejected(NoText)
      else if Utf16Length(text.value) > MaxChars then Rejected(TooLong)
      else if apiKey.None? || apiKey.value == "" then Rejected(MissingKey)
      else Accepted(text.value, apiKey.value)
  }

  /** `process.env.OPENAI_MODEL || "gpt-4o-mini"`. */
  function ModelName(env: Option<string>): (m: string)
    ensures m != ""
    ensures IsTruthy(env) ==> m == env.value
    ensures !IsTruthy(env) ==> m == DefaultModel
  {
    if env.Some? && env.value != "" then env.value else DefaultModel
  }

  // ---------------------------------------------------------------------
  // One event of the upstream stream

  datatype Event = Ignored | Terminator | Delta(text: string)

  /** The index of the first line that starts with "data: " (what
      `Array.prototype.find` returns), or None. */
  function FindDataLine(lines: seq<string>): (r: Option<nat>)
    ensures r.None? <==> forall j :: 0 <= j < |lines| ==> !StartsWith(lines[j], DataPrefix)
    ensures r.Some? ==> r.value < |lines| && StartsWith(lines[r.value], DataPrefix)
    ensures r.Some? ==> forall j :: 0 <= j < r.value ==> !StartsWith(lines[j], DataPrefix)
  {
    if lines == [] then None
    else if StartsWith(lines[0], DataPrefix) then Some(0)
    else
      match FindDataLine(lines[1..])
      case None => None
      case Some(k) => Some(k + 1)
  }

  /** The trimmed text after "data: " on the event's first data line. */
  function Payload(part: string): Option<string> {
    var lines := Split(part, LineSeparator);
    match FindDataLine(lines)
    case None => None
    case Some(k) => Some(Trim(lines[k][|DataPrefix|..]))
  }

  /** What one complete event contributes: nothing (no data line, a payload
      that does not parse, a missing or empty delta), the end of the stream
      (payload "[DONE]"), or a non-empty delta. */
  function ExtractEvent(part: string, parse: string -> Option<string>): (e: Event)
    ensures e == Terminator <==> Payload(part) == Some(DoneSentinel)
    ensures e.Delta? <==>
      Payload(part).Some? && Payload(part).value != DoneSentinel && IsTruthy(parse(Payload(part).value))
    ensures e.Delta? ==> e.text != "" && Some(e.text) == parse(Payload(part).value)
  {
    match Payload(part)
    case None => Ignored
    case Some(data) =>
      if data == DoneSentinel then Terminator
      else
        match parse(data)
        case None => Ignored
        case Some(t) => if t != "" then Delta(t) else Ignored
  }

  /** Only the first "data: " line of an event counts: whatever follows it,
      data lines included, does not change the payload. */
  lemma OnlyFirstDataLineUsed(before: seq<string>, line: string, after: seq<string>)
    requires forall k, j :: 0 <= k < |before + [line] + after| && 0 <= j < |(before + [line] + after)[k]| ==>
      (before + [line] + after)[k][j] != '\n'
    requires forall k :: 0 <= k < |before| ==> !StartsWith(before[k], DataPrefix)
    requires StartsWith(line, DataPrefix)
    ensures Payload(Join(before + [line] + after, LineSeparator)) == Some(Trim(line[|DataPrefix|..]))
  {
    var lines := before + [line] + after;
    JoinSplit(lines, LineSeparator);
    assert lines[|before|] == line;
    var found := FindDataLine(lines);
    assert found.Some?;
    assert found.value == |before|;
  }

  // ---------------------------------------------------------------------
  // A sequence of complete events

  /** The deltas forwarded for a run of events, and whether a terminator
      was among them. */
  datatype Outcome = Outcome(deltas: seq<string>, done: bool)

  /** Event `a` followed by event `b`: nothing after a terminator counts. */
  function Then(a: Outcome, b: Outcome): Outcome {
    if a.done then a else Outcome(a.deltas + b.deltas, b.done)
  }

  /** The events of a run of complete parts, in order. */
  function Events(parts: seq<string>, parse: string -> Option<string>): (es: seq<Event>)
    ensures |es| == |parts|
  {
    if parts == [] then [] else [ExtractEvent(parts[0], parse)] + Events(parts[1..], parse)
  }

  lemma {:induction false} EventAt(parts: seq<string>, parse: string -> Option<string>, k: nat)
    requires k < |parts|
    ensures Events(parts, parse)[k] == ExtractEvent(parts[k], parse)
  {
    if k > 0 {
      EventAt(parts[1..], parse, k - 1);
    }
  }

  lemma {:induction false} EventsAppend(a: seq<string>, b: seq<string>, parse: string -> Option<string>)
    ensures Events(a + b, parse) == Events(a, parse) + Events(b, parse)
  {
    if a == [] {
      assert a + b == b;
    } else {
      assert (a + b)[1..] == a[1..] + b;
      EventsAppend(a[1..], b, parse);
    }
  }

  /** The `for (const part of parts)` loop on the parts' events: forward
      each delta in order and stop at the first terminator, which happens
      exactly when there is one. */
  function Process(events: seq<Event>): (r: Outcome)
    ensures |r.deltas| <= |events|
    ensures r.done <==> exists k :: 0 <= k < |events| && events[k].Terminator?
  {
    if events == [] then Outcome([], false)
    else
      var rest := Process(events[1..]);
      assert forall k :: 1 <= k < |events| ==> events[k] == events[1..][k - 1];
      match events[0]
      case Terminator => Outcome([], true)
      case Ignored => rest
      case Delta(t) => Outcome([t] + rest.deltas, rest.done)
  }

  /** Processing is compositional: the events of `a` and then those of `b`. */
  lemma {:induction false} ProcessAppend(a: seq<Event>, b: seq<Event>)
    ensures Process(a + b) == Then(Process(a), Process(b))
  {
    if a != [] {
      assert (a + b)[1..] == a[1..] + b;
      ProcessAppend(a[1..], b);
    } else {
      assert a + b == b;
    }
  }

  /** At the first terminator the stream stops: the output is exactly the
      deltas of the events before it, whatever comes after. */
  lemma StopsAtFirstTerminator(events: seq<Event>, k: nat)
    requires k < |events| && events[k].Terminator?
    requires forall j :: 0 <= j < k ==> !events[j].Terminator?
    ensures !Process(events[..k]).done
    ensures Process(events) == Outcome(Process(events[..k]).deltas, true)
  {
    assert events == events[..k] + events[k..];
    ProcessAppend(events[..k], events[k..]);
    assert events[k..][0] == events[k];
  }

  /** Every forwarded delta is non-empty. */
  lemma {:induction false} DeltasNonEmpty(parts: seq<string>, parse: string -> Option<string>)
    ensures forall k :: 0 <= k < |Process(Events(parts, parse)).deltas| ==>
      Process(Events(parts, parse)).deltas[k] != ""
  {
    if parts != [] {
      DeltasNonEmpty(parts[1..], parse);
    }
  }

  // ---------------------------------------------------------------------
  // Framing of the whole text received so far

  /** The complete events of `s`: every piece of `s.split("\n\n")` but the
      last. */
  function Complete(s: string): seq<string> {
    var ps := Split(s, EventSeparator);
    ps[..|ps| - 1]
  }

  /** The unterminated remainder of `s`: the last piece of the split. It
      never contains the separator. */
  function Rest(s: string): (r: string)
    ensures IndexOf(r, EventSeparator).None?
  {
    var ps := Split(s, EventSeparator);
    SplitPiecesFree(s, EventSeparator, |ps| - 1);
    ps[|ps| - 1]
  }

  /** What the stream forwards when it has received the text `s`, of the
      reference "read it all at once" kind. */
  function Forwarded(s: string, parse: string -> Option<string>): Outcome {
    Process(Events(Complete(s), parse))
  }

  /** The text is its complete events, each closed by the separator, and
      then the remainder. */
  lemma Framing(s: string)
    ensures s == if Complete(s) == [] then Rest(s)
                 else Join(Complete(s), EventSeparator) + EventSeparator + Rest(s)
  {
    var ps := Split(s, EventSeparator);
    SplitJoin(s, EventSeparator);
    assert ps == Complete(s) + [Rest(s)];
    if Complete(s) != [] {
      JoinSnoc(Complete(s), Rest(s), EventSeparator);
    }
  }

  /** Appending text never changes the complete events already there: the
      new text only extends the remainder, which may then split further. */
  lemma SplitIncremental(s: string, c: string)
    ensures Complete(s + c) == Complete(s) + Complete(Rest(s) + c)
    ensures Rest(s + c) == Rest(Rest(s) + c)
  {
    SplitAppend(s, c, EventSeparator);
    var ps := Split(s, EventSeparator);
    var qs := Split(Rest(s) + c, EventSeparator);
    assert Split(s + c, EventSeparator) == ps[..|ps| - 1] + qs;
  }

  /** What the stream forwards for `s + c` is what it forwards for `s`
      followed by the events that `c` completes in the remainder of `s`. */
  lemma ForwardedAppend(s: string, c: string, parse: string -> Option<string>)
    ensures Forwarded(s + c, parse) ==
      Then(Forwarded(s, parse), Process(Events(Complete(Rest(s) + c), parse)))
  {
    SplitIncremental(s, c);
    EventsAppend(Complete(s), Complete(Rest(s) + c), parse);
    ProcessAppend(Events(Complete(s), parse), Events(Complete(Rest(s) + c), parse));
  }

  /** Once a terminator has been received, further text forwards nothing. */
  lemma NothingAfterTerminator(s: string, c: string, parse: string -> Option<string>)
    requires Forwarded(s, parse).done
    ensures Forwarded(s + c, parse) == Forwarded(s, parse)
  {
    ForwardedAppend(s, c, parse);
  }

  /** Text that completes no event is never forwarded. */
  lemma UnterminatedTailIgnored(s: string, tail: string, parse: string -> Option<string>)
    requires IndexOf(Rest(s) + tail, EventSeparator).None?
    ensures Forwarded(s + tail, parse) == Forwarded(s, parse)
  {
    ForwardedAppend(s, tail, parse);
    assert Complete(Rest(s) + tail) == [];
  }

  /** The `for (const part of parts)` loop of one read: enqueue every
      delta in order, and stop (`controller.close(); return`) at the first
      terminator. */
  method ForwardParts(complete: seq<string>, parse: string -> Option<string>)
    returns (out: seq<string>, stop: bool)
    ensures Outcome(out, stop) == Process(Events(complete, parse))
  {
    ghost var events := Events(complete, parse);
    out := [];
    for i := 0 to |complete|
      invariant Process(events[..i]) == Outcome(out, false)
    {
      assert events[..i + 1] == events[..i] + [events[i]];
      ProcessAppend(events[..i], [events[i]]);
      var event := ExtractEvent(complete[i], parse);
      EventAt(complete, parse, i);
      if event.Terminator? {
        assert events == events[..i + 1] + events[i + 1..];
        ProcessAppend(events[..i + 1], events[i + 1..]);
        return out, true;
      }
      if event.Delta? {
        out := out + [event.text];
      }
    }
    assert events[..|complete|] == events;
    stop := false;
  }

  // ---------------------------------------------------------------------
  // The incremental framer of `ReadableStream.start`

  /** The state the stream's `start` callback keeps between reads: the
      carry-over `buffer` and whether the controller has been closed. The
      ghost `received` is everything read while the stream was open. */
  class Framer {
    const parse: string -> Option<string>
    var buffer: string
    var closed: bool
    ghost var received: string

    /** The buffer is the remainder of what was received, and the stream is
        closed once a terminator has been received. */
    ghost predicate Valid()
      reads this
    {
      buffer == Rest(received) && (Forwarded(received, parse).done ==> closed)
    }

    constructor (parse: string -> Option<string>)
      ensures Valid() && this.parse == parse
      ensures buffer == "" && !closed && received == ""
    {
      this.parse := parse;
      buffer := "";
      closed := false;
      received := "";
      assert !OccursAt("", EventSeparator, 0);
      assert Split("", EventSeparator) == [""];
    }

    /** One successful read: append the chunk, split off the complete
        events, keep the remainder, forward the events' deltas and close at
        a terminator. A closed stream reads nothing. */
    method Feed(chunk: string) returns (out: seq<string>)
      requires Valid()
      modifies this
      ensures Valid()
      ensures IndexOf(buffer, EventSeparator).None?
      ensures old(closed) ==>
        out == [] && closed && buffer == old(buffer) && received == old(received)
      ensures !old(closed) ==> received == old(received) + chunk
      ensures !old(closed) ==>
        Outcome(out, closed) == Process(Events(Complete(old(buffer) + chunk), parse))
      ensures !old(closed) ==> buffer == Rest(old(buffer) + chunk)
      ensures !old(closed) ==> (old(buffer) + chunk ==
        if Complete(old(buffer) + chunk) == [] then buffer
        else Join(Complete(old(buffer) + chunk), EventSeparator) + EventSeparator + buffer)
    {
      if closed {
        return [];
      }
      ghost var before := received;
      SplitIncremental(before, chunk);
      ForwardedAppend(before, chunk, parse);
      buffer := buffer + chunk;
      ghost var whole := buffer;
      Framing(whole);
      var parts := Split(buffer, EventSeparator);
      buffer := parts[|parts| - 1];
      received := received + chunk;
      var complete := parts[..|parts| - 1];
      assert complete == Complete(whole);
      var stop;
      out, stop := ForwardParts(complete, parse);
      if stop {
        closed := true;
      }
    }

    /** A read that fails: `catch` enqueues the error marker, and the
        stream is closed. */
    method ReadFailed() returns (out: seq<string>)
      requires Valid()
      modifies this
      ensures Valid() && closed
      ensures buffer == old(buffer) && received == old(received)
      ensures out == if old(closed) then [] else [StreamErrorMarker]
    {
      out := if closed then [] else [StreamErrorMarker];
      closed := true;
    }

    /** `finally`: close the stream; closing twice is the same as once. */
    method Close()
      requires Valid()
      modifies this
      ensures Valid() && closed
      ensures buffer == old(buffer) && received == old(received)
    {
      closed := true;
    }
  }

  // ---------------------------------------------------------------------
  // The whole stream

  /** The upstream body as the reader sees it: the decoded chunks of the
      successful reads, then either the end of the stream or (`fails`) a
      read that throws. */
  datatype Source = Source(chunks: seq<string>, fails: bool)

  /** What the response stream carries: the deltas forwarded for the whole
      text, and the error marker when a read fails before a terminator. */
  function StreamBody(source: Source, parse: string -> Option<string>): seq<string> {
    var f := Forwarded(Concat(source.chunks), parse);
    if !f.done && source.fails then f.deltas + [StreamErrorMarker] else f.deltas
  }

  /** One more successful read extends what has been forwarded by what the
      framer forwards for it. */
  lemma ReadExtends(chunks: seq<string>, i: nat, out: seq<string>, stop: bool, body: seq<string>,
                    parse: string -> Option<string>)
    requires i < |chunks|
    requires Forwarded(Concat(chunks[..i]), parse) == Outcome(body, false)
    requires Outcome(out, stop) == Process(Events(Complete(Rest(Concat(chunks[..i])) + chunks[i]), parse))
    ensures Concat(chunks[..i + 1]) == Concat(chunks[..i]) + chunks[i]
    ensures Forwarded(Concat(chunks[..i + 1]), parse) == Outcome(body + out, stop)
  {
    assert chunks[..i + 1][..i] == chunks[..i];
    ForwardedAppend(Concat(chunks[..i]), chunks[i], parse);
  }

  /** Once what was read so far holds a terminator, later reads change
      nothing that is forwarded. */
  lemma ReadsAfterTerminator(chunks: seq<string>, i: nat, parse: string -> Option<string>)
    requires i <= |chunks| && Forwarded(Concat(chunks[..i]), parse).done
    ensures Forwarded(Concat(chunks), parse) == Forwarded(Concat(chunks[..i]), parse)
  {
    ConcatSplit(chunks, i);
    NothingAfterTerminator(Concat(chunks[..i]), Concat(chunks[i..]), parse);
  }

  /** The `start` callback: read chunk by chunk until the upstream ends, a
      terminator closes the stream, or a read fails. However the text is cut
      into reads, the result is what the whole text forwards at once. */
  method Relay(source: Source, parse: string -> Option<string>) returns (body: seq<string>)
    ensures body == StreamBody(source, parse)
  {
    var framer := new Framer(parse);
    body := [];
    var i := 0;
    while i < |source.chunks| && !framer.closed
      invariant 0 <= i <= |source.chunks|
      invariant framer.Valid() && framer.parse == parse
      invariant framer.received == Concat(source.chunks[..i])
      invariant Forwarded(framer.received, parse) == Outcome(body, framer.closed)
    {
      var out := framer.Feed(source.chunks[i]);
      ReadExtends(source.chunks, i, out, framer.closed, body, parse);
      body := body + out;
      i := i + 1;
    }
    if framer.closed {
      ReadsAfterTerminator(source.chunks, i, parse);
    } else {
      assert source.chunks[..i] == source.chunks;
      if source.fails {
        var marker := framer.ReadFailed();
        body := body + marker;
      }
    }
    framer.Close();
  }

  // ---------------------------------------------------------------------
  // The handler

  /** The request body: parsed JSON with its `text` field (None when it is
      not a string), or a body that `req.json()` rejects. */
  datatype RequestBody = Json(text: Option<string>) | Malformed(message: string)

  /** The one upstream call the handler makes. */
  datatype UpstreamRequest = UpstreamRequest(model: string, apiKey: string, system: string, user: string, stream: bool)

  /** The upstream reply: `ok`, the body if there is one, and the text of the
      reply (`upstream.text()`, or "" when that fails). */
  datatype Upstream = Upstream(ok: bool, body: Option<Source>, errorText: string)

  datatype Response = Failed(error: ErrorResponse) | Streamed(body: seq<string>)

  /** `POST`. A status of 400 is given exactly for a missing, blank or too
      long text; every other failure is a 500. A rejected request gets its
      validation error, a body that is not JSON the server error with the
      parser's message. An accepted request makes one upstream call and is
      streamed exactly when the reply is ok and has a body; otherwise the
      500 carries the reply's text as its details. */
  function Post(request: RequestBody, apiKey: Option<string>, envModel: Option<string>,
                parse: string -> Option<string>, fetch: UpstreamRequest -> Upstream): (r: Response)
    ensures r.Failed? ==> r.error.status == 400 || r.error.status == 500
    ensures (r.Failed? && r.error.status == 400) <==>
      request.Json? && (request.text.None? || IsBlank(request.text.value)
                        || Utf16Length(request.text.value) > MaxChars)
    ensures r.Streamed? ==>
      request.Json? && Validate(request.text, apiKey).Accepted?
      && var up := fetch(UpstreamRequest(ModelName(envModel), apiKey.value, SystemPrompt, request.text.value, true));
         up.ok && up.body.Some? && r.body == StreamBody(up.body.value, parse)
    ensures request.Malformed? ==> r == Failed(ErrorResponse(500, ServerErrorText, Some(request.message)))
    ensures request.Json? && Validate(request.text, apiKey).Rejected? ==>
      r == Failed(Validate(request.text, apiKey).response)
    ensures request.Json? && Validate(request.text, apiKey).Accepted? ==>
      var up := fetch(UpstreamRequest(ModelName(envModel), apiKey.value, SystemPrompt, request.text.value, true));
      r == if up.ok && up.body.Some? then Streamed(StreamBody(up.body.value, parse))
           else Failed(ErrorResponse(500, UpstreamFailedText, Some(up.errorText)))
  {
    match request
    case Malformed(message) => Failed(ErrorResponse(500, ServerErrorText, Some(message)))
    case Json(text) =>
      match Validate(text, apiKey)
      case Rejected(e) => Failed(e)
      case Accepted(t, key) =>
        var up := fetch(UpstreamRequest(ModelName(envModel), key, SystemPrompt, t, true));
        if !up.ok || up.body.None? then Failed(ErrorResponse(500, UpstreamFailedText, Some(up.errorText)))
        else Streamed(StreamBody(up.body.value, parse))
  }

  /** A rejected request never reaches the upstream: its response is the
      same whatever the upstream would have answered. */
  lemma RejectedNeverFetches(request: RequestBody, apiKey: Option<string>, envModel: Option<string>,
                             parse: string -> Option<string>, fetch: UpstreamRequest -> Upstream,
                             other: UpstreamRequest -> Upstream)
    requires request.Malformed? || Validate(request.text, apiKey).Rejected?
    ensures Post(request, apiKey, envModel, parse, fetch) == Post(request, apiKey, envModel, parse, other)
    ensures Post(request, apiKey, envModel, parse, fetch).Failed?
  {
  }
}
