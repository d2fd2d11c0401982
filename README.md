# Typing-speed test: the session state machine

The typing-speed test shows a quote and starts a 60-second countdown at the
first keystroke. When the countdown reaches 0 it stops the session and scores
the typed text at one point per five characters. It keeps the best score as a
high score, and a restart button loads a new quote. All of this logic is in
the React component `src/App.js`. This project models that component's state
machine in Dafny:

- `typing_session.dfy`, module `TypingSession`: the six pieces of component
  state as a `State` value, with one function per event. `Tick` is the
  one-second callback, `InputChange` the text area, `Restart` the restart
  button, and `QuoteLoaded` and `FallbackQuote` the two outcomes of the
  quote fetch. `Settle` adds the re-runs of the timer effect that an event
  causes. `Run` replays a sequence of `Event`s. The lemmas state what holds
  along every event sequence.
- `app.dfy`, module `App`: class `TypingTest`. Its fields are the component
  state, and its methods are the handlers, updating the fields in place.
  Each method is proved to move the object exactly as the matching
  `TypingSession` function moves a `State`. Each also keeps the invariant
  `TypingSession.Inv`: the timer stays in [0, 60], a running session has
  time left, a stopped timer is at 0 or 60, and the score never exceeds the
  high score.

Behaviour fixed by the code:

- Typing starts the clock. The first change of the text area in a stopped
  session starts it and sets the timer to 60.
- The timer effect (src/App.js:43-56) re-runs only after a render in which
  `isRunning` or `timer` changed. A one-second callback is therefore pending
  only while the session runs with time left. The effect run that follows
  the render bringing the timer to 0 scores the session. Scoring drops
  `isRunning`, which re-runs the effect one more time, and that run changes
  nothing (`FinalizeIdempotent`). The model takes an event together with
  these re-runs as one step (`Settle`).
- Typing into a finished session, or a fetch result that arrives after the
  session ended, changes neither `isRunning` nor `timer`. The effect does
  not run again, so the score stays as it was.
- The quote fetch is asynchronous. A successful or failed fetch is its own
  event and may arrive at any point. If it arrives after typing has begun, it
  clears the input of the running session (`LateQuoteWipesRunningInput`).
- The score is `floor(|input| / 5)`. It does not depend on accuracy or on
  elapsed time.

`src/App.js` has no difficulty levels, live words-per-minute, accuracy or
error counts, length-bounded quote retries, history of past sessions, or early
completion when the input equals the quote, so none of these are modelled.
Its fallback picks a random quote from a fixed list of five, and it replaces
the high score only with a strictly greater score.

## Model

| member | source | states |
|---|---|---|
| TypingSession.Initial | src/App.js:6-13 | The state at mount has an empty quote and input, timer 60, stopped, score 0, and the stored high score. It satisfies the invariant and its text area is enabled. |
| TypingSession.InputEnabled | src/App.js:84 | In every state satisfying the invariant, the text area is enabled exactly while a session runs or after a reset to a full timer, and disabled once a session has ended. |
| TypingSession.FinalScore | src/App.js:48 | The score is the number of whole groups of five characters: `5r <= len < 5(r+1)`. |
| TypingSession.Finalize | src/App.js:46-53 | The zero-timer branch stops the session and sets the score to the score of the current input. The high score never decreases. It changes exactly when the new score is strictly greater, and then equals that score. No other field changes. |
| TypingSession.EffectRun | src/App.js:44-54 | One run of the effect body changes nothing while the timer is not 0. At 0 it finishes the session and scores it. |
| TypingSession.Settle | src/App.js:43-56 | The effect re-runs only when `isRunning` or `timer` changed (its dependency list at line 56, `SameDeps`). The re-runs an event causes finalise the session exactly once when they wake up with the timer at 0, and change nothing otherwise. |
| TypingSession.Tick | src/App.js:43-56 | The callback takes one second off a running timer and changes nothing else. On reaching 0 the session is finished and scored in the same step. With no session running there is no pending callback and nothing changes. |
| TypingSession.InputChange | src/App.js:58-64 | A finished session ignores typing. Otherwise the input becomes the new text and the session runs. A running timer is kept, and a stopped one is set to 60. Quote, score and high score are unchanged. |
| TypingSession.Restart | src/App.js:66-72 | The input is emptied, the timer is 60, the session is stopped and the score is 0. Quote and high score are unchanged, and the effect run this causes adds nothing. |
| TypingSession.QuoteLoaded | src/App.js:22-23 | The quote becomes the fetched text and the input is emptied. Timer, running flag, score and high score are unchanged, so the timer effect does not re-run. |
| TypingSession.LocalQuote | src/App.js:26-34 | Fallback quote i is entry i of the five local quotes and is never empty. |
| TypingSession.FallbackQuote | src/App.js:24-35 | The quote becomes local quote i, which is non-empty, and the input is emptied. Timer, running flag, score and high score are unchanged. |
| TypingSession.Step | src/App.js:43-72 | Every event, with the effect re-runs it causes, keeps the invariant and never lowers the high score. |
| TypingSession.Run | src/App.js:43-72 | Along any event sequence the invariant holds and the high score never decreases. So the timer stays in [0, 60] and the score never exceeds the high score. |
| TypingSession.FinalizeIdempotent | src/App.js:46-56 | When the timer is 0, one run of the effect finishes the session. Running it again, as happens after `isRunning` drops, yields the same state, including the same score and high score. |
| TypingSession.FinishedIgnoresInput | src/App.js:84 | Typing into a finished session changes nothing, because its text area is disabled. |
| TypingSession.RestartThenQuote | src/App.js:66-72 | A restart followed by a successful fetch gives a fresh session on the new quote: empty input, timer 60, stopped, score 0, same high score. |
| TypingSession.LateQuoteWipesRunningInput | src/App.js:17-23 | A fetch that resolves after typing has restarted the clock replaces the quote and empties the input while the countdown keeps running. |
| TypingSession.ReachableFromMount | src/App.js:6-13 | Every state reachable from mount satisfies the invariant and keeps at least the stored high score. |
| TypingSession.FinishedIsFrozen | src/App.js:56-64 | Without a restart, a finished session stays finished with its score and high score, even if fetch results arrive. Typing and timer events alone change nothing at all. |
| TypingSession.CountdownExpires | src/App.js:43-53 | A running countdown with t seconds left loses one second per callback and nothing else changes. The t-th callback finishes the session and scores the input as it was. |
| TypingSession.SessionScoresTypedText | src/App.js:43-64 | Typing v into a fresh session, then 60 callbacks, ends the session with the score of v (its length divided by 5, rounded down). The high score becomes the larger of the old high score and that score. |
| App.TypingTest.constructor | src/App.js:6-13 | The new object matches the state at mount and satisfies the invariant. |
| App.TypingTest.Tick | src/App.js:43-56 | While running with more than one second left, the timer drops by exactly 1 and nothing else changes. When it reaches 0 the session stops, the score is the input's score, and the high score is raised only by a strictly greater score. A stopped session does not change. The high score never decreases, and the invariant is kept. |
| App.TypingTest.InputChange | src/App.js:58-64 | The input is accepted exactly when the session is not finished. A stopped session starts and its timer is set to 60. In a running session only the input changes. Quote, score and high score never change. |
| App.TypingTest.Restart | src/App.js:66-72 | The input is emptied, the timer is 60, the session is stopped and the score is 0. Quote and high score are unchanged. |
| App.TypingTest.QuoteLoaded | src/App.js:22-23 | The quote becomes the fetched text and the input is emptied. Nothing else changes. |
| App.TypingTest.FallbackQuote | src/App.js:24-35 | The quote becomes local quote i, which is non-empty, and the input is emptied. Nothing else changes. |

## Left out

- The network request and JSON decoding (src/App.js:19-21) are I/O. The fetch is modelled only by its two outcomes: `QuoteLoaded` with an arbitrary text, or `FallbackQuote`.
- `Math.random` (src/App.js:33) becomes the index parameter `i` of `FallbackQuote`, restricted to [0, 5) as `Math.floor(Math.random() * 5)` is.
- Local storage (src/App.js:12, 52) is persistence. The high score is a plain `nat` field whose initial value is a constructor parameter. The string-to-number coercion of the stored value is not modelled.
- `setTimeout`, `clearTimeout`, `useRef` and effect clean-up (src/App.js:15, 45, 55) are scheduling. The one-second cadence is an explicit `Tick` call. A cancelled callback is a `Tick` that never happens, and a `Tick` with no callback pending changes nothing.
- Fetch results are not tied to a pending request. An event sequence may deliver a fetch outcome that no restart or mount asked for, or several for one request. The lemmas therefore cover more runs than the program can produce.
- The dark-mode toggle, `console.error` and rendering (src/App.js:14, 25, 74-97) are presentation. Only the disabled guard of the text area (line 84) is modelled.
- String lengths: the model counts lengths in Dafny characters, while JavaScript's `length` counts UTF-16 code units. The two differ only for characters outside the Basic Multilingual Plane.
- TypingSession.Settle: an event and the effect re-runs it causes are one atomic step. The renders in between are not model states. In particular the render with the session still running and 0 seconds left, whose text area is still enabled, is not one. A change of the text area that arrives after that render but before the effect's zero branch runs is not modelled. In the program, line 59 stores such a change, and the score uses the input of the earlier render. A stale callback that fires after a restart has rendered, but before the clean-up at line 55 runs, is not modelled either.
