# Grammar-correction relay: a Dafny model

The application forwards Swedish text from a browser form to a chat-completion
API and shows the corrected text while it streams back. This project models
and proves the two pieces of logic in that path:

- **The `POST /api/correct` handler** (`app/api/correct/route.ts`), in
  `correct_route.dfy`.
  - The three input checks, in their fixed order.
  - The incremental re-framer that turns the upstream server-sent-event stream
    into a plain stream of text deltas. The handler reads its own subset of
    the event-stream format of the WHATWG HTML Living Standard, section 9.2
    "Server-sent events", and the model follows the handler, not the
    standard:
    - events are split on "\n\n" and lines on "\n" only, where the standard
      also ends lines at CR and CRLF;
    - only the first line starting with `data: ` counts, where the standard
      joins all data lines with a line feed;
    - the space after `data:` is required;
    - the payload is trimmed before it is compared with `[DONE]` or parsed.
  - `Framer` is a class. Its fields are the carry-over `buffer` and the
    `closed` flag of the stream controller.
  - `Feed` is one read. `Relay` is the whole `ReadableStream.start` loop.
  - Both are proved against the reference function `Forwarded`, which says
    what the stream forwards for the whole received text read at once. The
    lemmas about `Forwarded` give the promised properties:
    - read boundaries do not matter;
    - only the first `data: ` line of an event counts;
    - nothing is forwarded after `[DONE]`;
    - an unterminated remainder is never forwarded;
    - a failed read appends exactly the error marker.
- **The client page** (`app/page.tsx`), in `page.dfy`.
  - The typewriter moves at most three UTF-16 code units per interval tick
    from a queue to the output. The output and the queue are modelled as
    sequences of code units, as JavaScript strings are, so a character
    outside the Basic Multilingual Plane takes two units and its surrogate
    pair can be split across two ticks, as in the source.
  - The state changes of "Rätta" (`handleCorrect`), "Rensa" (`handleClear`),
    the textarea and the unmount effect.
  - `Client` is a class with the page's state and refs.
  - Its ghost `received` and `Valid()` state conservation: `output + queue` is
    the UTF-16 text of every chunk received since the last reset.
  - `Draining()` states that the typewriter never stops while text is waiting.
  - The pure `Step` and `Paced` state on values that pacing is cosmetic.

`strings.dfy` holds the JavaScript string operations the source relies on,
with their properties proved:
- `trim`, with ECMAScript's white-space and line-terminator set;
- `length` in UTF-16 code units, and the UTF-16 encoding itself;
- `indexOf`, `split` with a string separator, `join` and `startsWith`;
- the truthiness of an optional string.

`wrappers.dfy` holds the `Option` type.

Several outside calls are parameters of the model:
- `JSON.parse(data)?.choices?.[0]?.delta?.content` is the function parameter
  `parse`;
- the upstream `fetch` is the function parameter `fetch`;
- `process.env.OPENAI_API_KEY` and `OPENAI_MODEL` are optional-string
  parameters.

The upstream body is `Source`: its decoded chunks, and whether a read fails
after them. Time on the client is a sequence of discrete ticks.

Three facts about the code that the model keeps:
- The submit button is disabled only while loading (app/page.tsx:148); blank
  input can be submitted, and the server rejects it.
- The client's fallback message for a failed response is "Ett fel inträffade."
  (app/page.tsx:80).
- The handler always asks the upstream for a stream (app/api/correct/route.ts:42)
  and always relays one.

## Model

| member | source | states |
|---|---|---|
| `Strings.TrimSpec` | app/api/correct/route.ts:12 | `text.trim()` removes a white-space run from each end and nothing else. It is empty exactly when every character is white space, and a non-empty result neither starts nor ends with white space |
| `Strings.TrimRemovesEnds` | app/api/correct/route.ts:83 | the trimmed payload is the text between a leading and a trailing white-space run |
| `Strings.Utf16Length` | app/api/correct/route.ts:16 | `text.length` counts UTF-16 code units: between the number of characters and twice that, and equal to it for text inside the Basic Multilingual Plane |
| `Strings.Utf16` | app/page.tsx:98 | the JavaScript string holding a text has `length` code units, one or two per character |
| `Strings.Utf16Append` | app/page.tsx:98 | the code units of texts received one after another are those of the whole text |
| `Strings.IndexOfSpec` | app/api/correct/route.ts:76 | the separator search finds an occurrence exactly when there is one, and the one it finds is the first |
| `Strings.IndexOfAppend` | app/api/correct/route.ts:73-76 | appending text to the buffer does not move an occurrence already found |
| `Strings.Split` | app/api/correct/route.ts:76 | `split` always yields at least one piece |
| `Strings.SplitPiecesFree` | app/api/correct/route.ts:76-77 | no piece of a split contains the separator, so neither does the kept remainder |
| `Strings.SplitJoin` | app/api/correct/route.ts:76 | joining the pieces with the separator gives back the split text |
| `Strings.SplitAppend` | app/api/correct/route.ts:73-77 | appending text re-splits only the last piece; the earlier pieces stay as they were |
| `Strings.JoinSplit` | app/api/correct/route.ts:80 | splitting lines joined by a newline that none of them contains gives the lines back |
| `CorrectRoute.Validate` | app/api/correct/route.ts:12-26 | first failure wins. A missing or blank text gives 400 "Ingen text angiven.". A non-blank text over 10000 UTF-16 units gives 400 "Texten får vara max 10000 tecken.". Only then does a missing or empty key give 500. Each outcome is stated in both directions, and an accepted request carries the text and key unchanged |
| `CorrectRoute.ModelName` | app/api/correct/route.ts:28 | the model is the configured one when set and non-empty, and "gpt-4o-mini" otherwise |
| `CorrectRoute.FindDataLine` | app/api/correct/route.ts:80-81 | `find` gives None exactly when no line starts with "data: "; otherwise it gives the first such line |
| `CorrectRoute.ExtractEvent` | app/api/correct/route.ts:80-95 | an event is the terminator exactly when its trimmed payload is "[DONE]". It is a delta exactly when the payload parses to a truthy delta, and that delta is forwarded unchanged. Anything else, including a broken payload, forwards nothing |
| `CorrectRoute.OnlyFirstDataLineUsed` | app/api/correct/route.ts:80-83 | only the first "data: " line of an event gives the payload, whatever lines follow it |
| `CorrectRoute.Events` | app/api/correct/route.ts:79 | one event per complete part, in order |
| `CorrectRoute.Process` | app/api/correct/route.ts:79-96 | the loop over parts stops exactly when a terminator is among them, and forwards at most one delta per part |
| `CorrectRoute.ProcessAppend` | app/api/correct/route.ts:79-96 | processing two runs of events is processing the first, then the second only if no terminator came first |
| `CorrectRoute.StopsAtFirstTerminator` | app/api/correct/route.ts:83-87 | at the first terminator, the output is exactly the deltas of the events before it, whatever follows |
| `CorrectRoute.DeltasNonEmpty` | app/api/correct/route.ts:92 | every forwarded delta is non-empty |
| `CorrectRoute.Rest` | app/api/correct/route.ts:77 | the remainder kept in `buffer` never contains "\n\n" |
| `CorrectRoute.Framing` | app/api/correct/route.ts:76-77 | the text is its complete events each closed by "\n\n", then the remainder; with no complete event it is the remainder alone |
| `CorrectRoute.SplitIncremental` | app/api/correct/route.ts:73-77 | appending a chunk keeps the complete events already there and only re-frames the remainder with the chunk |
| `CorrectRoute.ForwardedAppend` | app/api/correct/route.ts:69-97 | what is forwarded for `s + c`: what `s` forwards, then the events that `c` completes in `s`'s remainder, unless `s` already held a terminator |
| `CorrectRoute.NothingAfterTerminator` | app/api/correct/route.ts:83-87 | once a terminator has been received, no later text forwards anything |
| `CorrectRoute.UnterminatedTailIgnored` | app/api/correct/route.ts:70-71 | text that completes no event is never forwarded |
| `CorrectRoute.ForwardParts` | app/api/correct/route.ts:79-96 | the `for` loop of one read enqueues exactly the deltas `Process` gives and stops exactly at a terminator |
| `CorrectRoute.Framer.constructor` | app/api/correct/route.ts:62 | the buffer starts empty and the stream open |
| `CorrectRoute.Framer.Feed` | app/api/correct/route.ts:70-97 | one read keeps the framer invariant. The new buffer never holds "\n\n". Old buffer plus chunk equals the joined complete parts, then "\n\n", then the new buffer. The deltas enqueued and the close are those the complete parts give. A closed stream reads nothing |
| `CorrectRoute.Framer.ReadFailed` | app/api/correct/route.ts:98-99 | a failed read enqueues exactly "\n[Fel vid strömning]" and closes the stream |
| `CorrectRoute.Framer.Close` | app/api/correct/route.ts:100-102 | `finally` leaves the stream closed, whether it was open or not |
| `CorrectRoute.ReadExtends` | app/api/correct/route.ts:69-97 | one more read extends what was forwarded for the text so far by what the framer forwards for that read |
| `CorrectRoute.ReadsAfterTerminator` | app/api/correct/route.ts:83-87 | reads after the terminator change nothing that is forwarded |
| `CorrectRoute.Relay` | app/api/correct/route.ts:64-102 | the response body is what the whole upstream text forwards at once, however it is cut into reads. The error marker follows when a read fails before a terminator |
| `CorrectRoute.Post` | app/api/correct/route.ts:7-118 | status 400 is given exactly for a missing, blank or too long text, and every other failure is a 500. A rejected request gets its validation error. A body that is not JSON gets "Serverfel i /api/correct" with the parser's message. An accepted request makes one upstream call with the chosen model, the key, the system prompt, the text and streaming on. It is streamed, with the relayed body, exactly when the reply is ok and has a body. Otherwise it gets 500 "OpenAI request failed" with the reply's text as details |
| `CorrectRoute.RejectedNeverFetches` | app/api/correct/route.ts:12-34 | a rejected or malformed request fails, and its response does not depend on the upstream at all |
| `Page.Step` | app/page.tsx:25-31 | a tick moves the first min(3, `q.length`) UTF-16 code units: output followed by queue is unchanged, and the queue shrinks by exactly that many |
| `Page.Paced` | app/page.tsx:22-38 | after k ticks with no new chunk nothing is lost or reordered, and the queue is 3·k code units shorter or empty |
| `Page.PacingIsCosmetic` | app/page.tsx:25-31 | after ⌈`q.length` / 3⌉ ticks the queue is empty and the output is the old output followed by the old queue |
| `Page.PacingNeedsAllTicks` | app/page.tsx:27 | with fewer ticks than that, code units are still waiting |
| `Page.PacedCompose` | app/page.tsx:22-38 | a ticks and then b ticks are a + b ticks |
| `Page.ErrorMessage` | app/page.tsx:78-103 | after a read that completes or an `AbortError`, the error is left as it was. A non-ok response shows the server's error, or "Ett fel inträffade." when it is missing or empty. A missing body shows "Ingen respons-body från servern.". Any other exception shows its message, or "Något gick fel.". A shown error is never empty |
| `Page.Client.constructor` | app/page.tsx:6-17 | the initial state: empty texts, not loading, no timer, no request |
| `Page.Client.Start` | app/page.tsx:19-39 | afterwards an interval runs; a running one is left alone and nothing else changes |
| `Page.Client.Stop` | app/page.tsx:41-46 | afterwards no interval runs, whatever ran before; nothing else changes |
| `Page.Client.Tick` | app/page.tsx:22-38 | with code units waiting the screen takes one `Step`. With none waiting the timer stops exactly when the stream is done. Conservation holds, and the timer never stops while text waits |
| `Page.Client.Receive` | app/page.tsx:94-99 | the UTF-16 text of a non-empty chunk of a live request is appended to the back of the queue and to what was received; nothing else changes |
| `Page.Client.BeginCorrect` | app/page.tsx:56-68 | error, output and queue are cleared and the stream is not done. A fresh request is live, loading is on and a timer runs. The text sent is the input |
| `Page.Client.FinishCorrect` | app/page.tsx:78-107 | every exit path sets the error that `ErrorMessage` gives and leaves the stream done and loading off; the queue is left to the typewriter |
| `Page.Client.Clear` | app/page.tsx:110-118 | the request is aborted; input, output, error and queue are empty, the stream is done and no timer runs, whatever the prior state |
| `Page.Client.Edit` | app/page.tsx:132 | typing changes only the input |
| `Page.Client.Dispose` | app/page.tsx:48-54 | unmounting aborts the request and stops the timer |

## Left out

- Network I/O is out. This covers the call to the chat-completion API (`fetch` is a parameter), the browser's `fetch` of `/api/correct`, and the construction of `NextResponse`/`Response` with its headers. Only the status and error outcome is modelled.
- `TextEncoder`/`TextDecoder` are out: chunks are already-decoded, well-formed strings, which the page appends as their UTF-16 code units. Read-boundary independence is therefore proved for strings, not for UTF-8 byte boundaries.
- `JSON.parse` and optional-chaining field access are out. They are the parameter `parse`, which yields an optional string. A truthy non-string `content` is not modelled.
- CorrectRoute.Framer.Close: after `[DONE]` the source closes the controller and then closes it again in `finally`, which throws in a real `ReadableStream`. Closing is modelled as idempotent instead.
- CorrectRoute.Framer.Feed: on a closed framer it returns nothing and changes nothing. The source never reads again after closing, so this case does not arise there.
- CorrectRoute.Post: the outer catch of the handler is one error variant, `Malformed`, for a body that `req.json()` rejects. Other exceptions there are not modelled.
- `AbortController` is only modelled as `requestLive`, whether the current request's controller is live. Races between a superseded request's `finally` and a new request are not modelled. Neither are the real-time 10 ms cadence of `setInterval` and React's asynchronous state updates; all of these are discrete sequential methods.
- Page.Client.BeginCorrect: requires that no request is loading, as the button is disabled while loading (app/page.tsx:148). So the abort of an in-flight request by a second submission is not modelled.
- Page.Client.FinishCorrect: the `error` field of a non-ok response is an optional string. A truthy non-string value is not modelled.
- All JSX and styling of app/page.tsx and all of app/layout.tsx are out: they are static markup.
