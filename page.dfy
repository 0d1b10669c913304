/** The client page of app/page.tsx: the typewriter that paces the streamed
    reply into the output box, and the state changes of the "Rätta"
    (correct) and "Rensa" (clear) buttons. Time is a sequence of discrete
    interval ticks; React's state updates take effect at once. The output
    and the queue are JavaScript strings, that is sequences of UTF-16 code
    units: the typewriter counts and cuts code units, so it may move half
    of a surrogate pair in one tick and the other half in the next. */
module Page {
  import opened Wrappers
  import opened Strings

  /** At most this many code units move from the queue to the output per tick. */
  const MaxPerTick := 3

  const GenericError := "Ett fel intr\U{E4}ffade."
  const NoBodyError := "Ingen respons-body fr\U{E5}n servern."
  const FallbackError := "N\U{E5}got gick fel."
  const AbortErrorName := "AbortError"

  function Min(a: int, b: int): int {
    if a < b then a else b
  }

  // ---------------------------------------------------------------------
  // The typewriter tick on values

  /** What the user sees and what is still waiting to be typed. */
  datatype Screen = Screen(output: seq<CodeUnit>, queue: seq<CodeUnit>)

  /** One interval tick with text waiting: the first up to three code
      units of the queue move to the end of the output. */
  function Step(s: Screen): (r: Screen)
    ensures r.output + r.queue == s.output + s.queue
    ensures |r.queue| == |s.queue| - Min(MaxPerTick, |s.queue|)
  {
    var n := Min(MaxPerTick, |s.queue|);
    assert s.queue == s.queue[..n] + s.queue[n..];
    Screen(s.output + s.queue[..n], s.queue[n..])
  }

  /** The screen after `ticks` ticks with no new chunk arriving. Nothing is
      lost or reordered, and each tick shortens the queue by three until it
      is empty. */
  function Paced(s: Screen, ticks: nat): (r: Screen)
    ensures r.output + r.queue == s.output + s.queue
    ensures |r.queue| == if |s.queue| <= MaxPerTick * ticks then 0 else |s.queue| - MaxPerTick * ticks
    decreases ticks
  {
    if ticks == 0 then s else Paced(Step(s), ticks - 1)
  }

  /** The number of ticks the typewriter needs for `n` waiting code units,
      that is n/3 rounded up. */
  function TicksFor(n: nat): nat {
    (n + MaxPerTick - 1) / MaxPerTick
  }

  /** Pacing is cosmetic: once the queue has been typed out, the output is
      exactly the text that had been shown plus the text that was waiting. */
  lemma PacingIsCosmetic(s: Screen)
    ensures Paced(s, TicksFor(|s.queue|)) == Screen(s.output + s.queue, [])
  {
    var r := Paced(s, TicksFor(|s.queue|));
    assert |r.queue| == 0;
  }

  /** Fewer ticks than that leave text waiting. */
  lemma PacingNeedsAllTicks(s: Screen, ticks: nat)
    requires ticks < TicksFor(|s.queue|)
    ensures Paced(s, ticks).queue != []
  {
    assert |Paced(s, ticks).queue| > 0;
  }

  /** Ticks compose: typing for `a` ticks and then for `b` more is typing
      for `a + b` ticks. */
  lemma {:induction false} PacedCompose(s: Screen, a: nat, b: nat)
    ensures Paced(Paced(s, a), b) == Paced(s, a + b)
    decreases a
  {
    if a > 0 {
      PacedCompose(Step(s), a - 1, b);
    }
  }

  // ---------------------------------------------------------------------
  // How a request ends

  /** How `handleCorrect`'s request settled: the body was read to its end,
      the response was not ok (with the `error` field of its JSON body, if
      any), it had no body, or something threw (with the exception's `name`
      and `message`, if any). */
  datatype Settlement =
    | Completed
    | NotOk(serverError: Option<string>)
    | NoBody
    | Threw(name: Option<string>, message: Option<string>)

  /** The error message the page shows after the request settles, or None
      when the error is left as it was. A shown error is never empty. */
  function ErrorMessage(s: Settlement): (r: Option<string>)
    ensures r.None? <==> s.Completed? || (s.Threw? && s.name == Some(AbortErrorName))
    ensures r.Some? ==> r.value != ""
    ensures s.NotOk? ==> r == (if IsTruthy(s.serverError) then s.serverError else Some(GenericError))
    ensures s.NoBody? ==> r == Some(NoBodyError)
    ensures s.Threw? && s.name != Some(AbortErrorName) ==>
      r == (if IsTruthy(s.message) then s.message else Some(FallbackError))
  {
    match s
    case Completed => None
    case NotOk(e) => Some(if IsTruthy(e) then e.value else GenericError)
    case NoBody => Some(NoBodyError)
    case Threw(name, message) =>
      if name == Some(AbortErrorName) then None
      else Some(if IsTruthy(message) then message.value else FallbackError)
  }

  // ---------------------------------------------------------------------
  // The page's state

  /** Every field of the page's state, for stating what a method leaves
      unchanged. */
  datatype View = View(input: string, output: seq<CodeUnit>, error: string, isLoading: bool,
                       queue: seq<CodeUnit>, timerRunning: bool, streamDone: bool, requestLive: bool)

  /** The page component's state: the React state `input`, `output`,
      `error` and `isLoading`, and the refs `queueRef`, `typingTimerRef`
      (here: whether an interval is running), `streamDoneRef` and
      `abortRef` (here: whether the current request's controller exists
      and has not been aborted). The ghost `received` is the UTF-16 text
      of every chunk received since the last reset. */
  class Client {
    var input: string
    var output: seq<CodeUnit>
    var error: string
    var isLoading: bool
    var queue: seq<CodeUnit>
    var timerRunning: bool
    var streamDone: bool
    var requestLive: bool
    ghost var received: seq<CodeUnit>

    function State(): View
      reads this
    {
      View(input, output, error, isLoading, queue, timerRunning, streamDone, requestLive)
    }

    function Shown(): Screen
      reads this
    {
      Screen(output, queue)
    }

    /** Conservation: what is shown followed by what is waiting is
        everything received. */
    ghost predicate Valid()
      reads this
    {
      output + queue == received
    }

    /** The typewriter keeps running while there is text to type, and
        while a live request is loading it neither stops nor counts the
        stream as done. */
    ghost predicate Draining()
      reads this
    {
      (queue != [] ==> timerRunning) &&
      (isLoading && requestLive ==> timerRunning && !streamDone)
    }

    constructor ()
      ensures Valid() && Draining()
      ensures State() == View("", [], "", false, [], false, false, false)
      ensures received == []
    {
      input := "";
      output := [];
      error := "";
      isLoading := false;
      queue := [];
      timerRunning := false;
      streamDone := false;
      requestLive := false;
      received := [];
    }

    /** `startTypewriter`: start the interval unless one is running; a
        running interval is left alone. */
    method Start()
      modifies this
      ensures State() == old(State()).(timerRunning := true)
      ensures received == old(received)
    {
      if timerRunning {
        return;
      }
      timerRunning := true;
    }

    /** `stopTypewriter`: afterwards no interval runs, whether one ran
        before or not. */
    method Stop()
      modifies this
      ensures State() == old(State()).(timerRunning := false)
      ensures received == old(received)
    {
      if timerRunning {
        timerRunning := false;
      }
    }

    /** One tick of the interval. With text waiting it types up to three
        code units of it; with none waiting it stops the interval once the
        stream is done. Without an interval there is no tick. */
    method Tick()
      requires Valid()
      modifies this
      ensures Valid() && received == old(received)
      ensures old(Draining()) ==> Draining()
      ensures !old(timerRunning) ==> State() == old(State())
      ensures old(timerRunning) && old(queue) != [] ==>
        Shown() == Step(old(Shown())) &&
        State() == old(State()).(output := output, queue := queue)
      ensures old(timerRunning) && old(queue) == [] ==>
        State() == old(State()).(timerRunning := !old(streamDone))
    {
      if !timerRunning {
        return;
      }
      var q := queue;
      if |q| > 0 {
        var n := Min(MaxPerTick, |q|);
        var chunk := q[..n];
        queue := q[n..];
        output := output + chunk;
        assert q == chunk + queue;
        return;
      }
      if streamDone {
        Stop();
      }
    }

    /** One decoded chunk of the response body arrives: a non-empty chunk
        is appended, as the JavaScript string that holds it, to the back of
        the queue. Only a live, loading request delivers chunks; an aborted
        one does not read any more. */
    method Receive(chunk: string)
      requires Valid()
      modifies this
      ensures Valid() && (old(Draining()) ==> Draining())
      ensures if old(isLoading) && old(requestLive) && chunk != "" then
          State() == old(State()).(queue := old(queue) + Utf16(chunk))
          && received == old(received) + Utf16(chunk)
        else
          State() == old(State()) && received == old(received)
    {
      if isLoading && requestLive && chunk != "" {
        queue := queue + Utf16(chunk);
        received := received + Utf16(chunk);
      }
    }

    /** The start of `handleCorrect`: clear the error, the output and the
        queue, mark the stream as not done, replace the request controller,
        set loading and make sure the typewriter runs. The text sent is the
        current input. The button is disabled while loading, so a request
        is only started when none is loading. */
    method BeginCorrect() returns (text: string)
      requires !isLoading
      modifies this
      ensures Valid() && Draining() && received == []
      ensures text == old(input)
      ensures State() == old(State()).(error := "", output := [], queue := [], streamDone := false,
                                       requestLive := true, isLoading := true, timerRunning := true)
    {
      error := "";
      output := [];
      queue := [];
      received := [];
      streamDone := false;
      requestLive := true;
      isLoading := true;
      Start();
      text := input;
    }

    /** The end of `handleCorrect`, on every path: set the error the
        settlement calls for (none for a completed read or an abort), then
        `finally` marks the stream done and clears loading. The queue is
        left to the typewriter. */
    method FinishCorrect(s: Settlement)
      requires Valid() && isLoading
      modifies this
      ensures Valid() && received == old(received)
      ensures old(Draining()) ==> Draining()
      ensures State() == old(State()).(error := ErrorMessage(s).GetOr(old(error)),
                                       streamDone := true, isLoading := false)
    {
      match s {
        case Completed =>
        case NotOk(e) =>
          error := if IsTruthy(e) then e.value else GenericError;
          streamDone := true;
        case NoBody =>
          error := NoBodyError;
          streamDone := true;
        case Threw(name, message) =>
          if name != Some(AbortErrorName) {
            error := if IsTruthy(message) then message.value else FallbackError;
          }
      }
      streamDone := true;
      isLoading := false;
    }

    /** `handleClear`: abort the request, empty the input, the output, the
        error and the queue, mark the stream done and stop the typewriter,
        whatever the state was. Loading ends when the aborted request
        settles. */
    method Clear()
      modifies this
      ensures Valid() && Draining() && received == []
      ensures State() == old(State()).(input := "", output := [], error := "", queue := [],
                                       streamDone := true, timerRunning := false, requestLive := false)
    {
      requestLive := false;
      input := "";
      output := [];
      error := "";
      queue := [];
      received := [];
      streamDone := true;
      Stop();
    }

    /** The textarea's `onChange`: the input becomes the typed text. */
    method Edit(text: string)
      modifies this
      ensures Valid() == old(Valid()) && Draining() == old(Draining())
      ensures State() == old(State()).(input := text) && received == old(received)
    {
      input := text;
    }

    /** The unmount effect: abort the request and stop the typewriter. */
    method Dispose()
      modifies this
      ensures Valid() == old(Valid()) && received == old(received)
      ensures State() == old(State()).(timerRunning := false, requestLive := false)
    {
      requestLive := false;
      Stop();
    }
  }
}
