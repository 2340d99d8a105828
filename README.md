# Chat page core, modelled in Dafny

The project models the two parts of the chat page (`app/page.tsx`) whose
behaviour can be stated exactly. The page relays a conversation to a hosted
assistant and shows the reply.

- **Citation scrub** (`sources.dfy`, module `Sources`). Before a transcript
  entry is rendered, `removeSources` deletes every match of the global regular
  expression `【[^】]*】`. The model is a recursive function over `seq<char>`.
  At a `【` that has a `】` somewhere after it, the function drops everything
  through the first such `】` and continues; any other character is kept. The
  lemmas show that the result is a subsequence of the input. No `【` in the
  result is followed by a `】`. The strings left unchanged are exactly those
  with no such pair. The scrub is idempotent. A marker is removed whole, inner
  `【` characters included, and the text around it is kept.
- **Draft guard** (`whitespace.dfy`, module `Whitespace`). `handleSubmit`
  returns early when `input.trim()` is empty. `Trim` strips the ECMAScript
  WhiteSpace and LineTerminator characters from both ends. It is proved empty
  exactly when every character of the draft is whitespace.
- **Submit/busy state machine** (`chat.dfy`, module `Chat`). The class
  `ChatSurface` holds the component's three state variables: `messages`,
  `input` and `isStreaming`. Its methods follow the handlers step by step.
  `BeginSubmit` is the synchronous part up to the relay call. `FinishSubmit`
  is the `for await` accumulation and the appended reply. `FailSubmit` is the
  `catch`/`finally` path. `HandleSubmit` is the whole handler and `KeyDown` is
  `handleKeyDown`. The relay's stream is a parameter: a `RelayOutcome` that is
  either `Completed(chunks)`, the fragments delivered in order, or `Failed`.
  Setter calls take effect at once, in program order. The transcript sent to
  the relay is the one the handler saw when it started, plus the new turn. The
  object invariant `Valid` states two things. Every assistant entry directly
  follows a user entry. While busy, the newest entry is the pending user turn.

A remote run that fails does not reach the page as `Failed`. The relay breaks
out of its polling loop without pushing any text and still marks the stream
finished (`actions/stream-message.ts:36-38` and `:44`). The page's loop then
ends normally and appends an assistant entry with empty content
(`app/page.tsx:54`). In the model that is `Completed([])`, so a failed run does
leave an empty reply in the transcript. `Failed` stands only for an exception
thrown while the stream is read.

A rejected submit returns before the `try`. Its `finally` therefore does not
run, and a submit refused because a request is in flight leaves `isStreaming`
true. "Busy is false afterwards" holds only for accepted submits, and the model
states it that way.

## Model

| member | source | states |
|---|---|---|
| `Sources.FirstIndex` | app/page.tsx:14 | the index returned holds the closing bracket and no earlier position does: `[^】]*` stops at the first `】` |
| `Sources.RemoveSources` | app/page.tsx:13-15 | the scrubbed string is never longer than its input |
| `Sources.RemoveSourcesIsSubsequence` | app/page.tsx:14 | the result is obtained from the input by deleting characters only |
| `Sources.RemoveSourcesKeepsInputChars` | app/page.tsx:14 | every character of the result occurs in the input |
| `Sources.RemoveSourcesLeavesNoMarker` | app/page.tsx:14 | in the result no `【` is followed anywhere later by `】`, so every matchable marker is gone |
| `Sources.RemoveSourcesFixedPoint` | app/page.tsx:14 | the scrub returns its input unchanged if and only if the input holds no `【` followed later by `】` |
| `Sources.RemoveSourcesWithoutOpen` | app/page.tsx:14 | a string containing no `【` is returned unchanged |
| `Sources.RemoveSourcesIdempotent` | app/page.tsx:14 | scrubbing twice gives the same string as scrubbing once |
| `Sources.RemoveSourcesPrefix` | app/page.tsx:14 | text before the first `【` is kept verbatim and the rest is scrubbed on its own |
| `Sources.RemoveSourcesSpan` | app/page.tsx:14 | `【m】` with no `】` inside `m` is removed whole (inner `【` included) and scanning resumes after it |
| `Sources.RemoveSourcesExample` | app/page.tsx:93 | the rendered form of `Answer【cite1】 more` is `Answer more` |
| `Whitespace.IsWhitespace` | app/page.tsx:39 | the characters `trim` removes: the ECMAScript WhiteSpace and LineTerminator set, each of which is a single UTF-16 code unit |
| `Whitespace.Trim` | app/page.tsx:39 | `input.trim()` is the contiguous piece of the draft left after cutting a whitespace-only prefix and suffix, and it neither starts nor ends with whitespace |
| `Whitespace.TrimStart` | app/page.tsx:39 | the result is the suffix of the input after its maximal all-whitespace prefix |
| `Whitespace.TrimEnd` | app/page.tsx:39 | the result is the prefix of the input before its maximal all-whitespace suffix |
| `Whitespace.TrimEmptyIff` | app/page.tsx:39 | the trimmed draft is empty if and only if every character of the draft is whitespace |
| `Chat.AcceptsSubmit` | app/page.tsx:39 | a submit proceeds if and only if the draft is not all whitespace and no request is in flight |
| `Chat.AccumulateChunks` | app/page.tsx:50-53 | the accumulated content is the in-order concatenation of all fragments, empty when there are none |
| `Chat.ConcatAppend` | app/page.tsx:50-53 | joining the fragments of two consecutive parts of a stream is joining each part and concatenating |
| `Chat.ConcatAt` | app/page.tsx:50-53 | each fragment appears whole in the reply, after all earlier fragments and before all later ones |
| `Chat.ConcatLength` | app/page.tsx:50-53 | the reply's length is the sum of the fragments' lengths |
| `Chat.RepliesNeverOutnumberTurns` | app/page.tsx:42-54 | in a transcript where each reply follows a user turn, there are no more assistant entries than user entries |
| `Chat.ChatSurface.constructor` | app/page.tsx:18-20 | the page starts with an empty transcript, an empty draft and not busy |
| `Chat.ChatSurface.Edit` | app/page.tsx:112 | typing replaces the draft and changes nothing else; it is possible only while not busy |
| `Chat.ChatSurface.BeginSubmit` | app/page.tsx:37-47 | the submit is accepted if and only if the draft is not blank and not busy. If accepted, exactly one user entry with the untrimmed draft is appended, the draft is cleared, busy is set and the relay receives the prior transcript plus that entry. If refused, nothing changes and nothing is sent |
| `Chat.ChatSurface.FinishSubmit` | app/page.tsx:50-58 | exactly one assistant entry is appended, holding the in-order concatenation of the fragments; busy is cleared; the invariant is kept |
| `Chat.ChatSurface.FailSubmit` | app/page.tsx:55-58 | on a stream error the transcript (with the user turn) is kept as is, no reply is appended and busy is cleared |
| `Chat.ChatSurface.HandleSubmit` | app/page.tsx:37-60 | the whole handler: a refused submit changes nothing; an accepted one ends not busy, with an empty draft, the user turn appended and the reply appended only if the stream completed |
| `Chat.ChatSurface.KeyDown` | app/page.tsx:62-67 | Enter without Shift suppresses the default action and has exactly the effect of a submit; any other key or Shift+Enter changes nothing and sends nothing |
| `Chat.ExampleExchange` | app/page.tsx:37-60 | typing "Hi" and receiving the fragments "Hello" and " world" sends `[user "Hi"]` and leaves the transcript `[user "Hi", assistant "Hello world"]` |

## Left out

- The relay in `actions/stream-message.ts` (thread and run creation, the one-second polling loop without a timeout, the role mapping, the newest-message check). It is network I/O against a hosted service; its result is the `RelayOutcome` parameter.
- Asynchronous interleaving, `createStreamableValue` and `readStreamableValue`: the stream is a finite sequence of fragments delivered in order, and React state updates are applied immediately and sequentially.
- `FailSubmit`: a stream that throws after delivering some fragments is modelled only as `Failed`. The fragments it delivered are discarded by the source too, so no information is lost.
- A stream that never ends: an exception inside the relay's detached async block (for example thread creation failing) skips `stream.done()`, and a run that never reaches `completed` or `failed` keeps the untimed polling loop going. In both cases the `for await` at line 51 never finishes and `isStreaming` stays true. `HandleSubmit` assumes the stream ends; the stuck state is the one `BeginSubmit` leaves behind.
- Strings are sequences of Unicode scalar values, while JavaScript strings are sequences of UTF-16 code units, so lone surrogates cannot be represented. Neither operation depends on this: `【`, `】` and every character `trim` removes are single code units in the Basic Multilingual Plane.
- Logging with `console.error` (line 56) and the form event's `preventDefault` (line 38): neither touches the modelled state.
- The effects at lines 24-35 (text area auto-height, scroll to bottom): DOM manipulation.
- Rendering at lines 69-132 (markdown, labels, the typing indicator, CSS): it only displays state captured by the model. The `disabled` props appear only as `Edit`'s requirement that the page is not busy.
- Whether the text area inserts a newline on Shift+Enter is browser behaviour; the model states only that the handler does not suppress it.
