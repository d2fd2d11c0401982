/** The typing-session state machine of the typing-speed test, as values.

    One `State` holds the six pieces of React state of the component; each
    event the component reacts to (the one-second timer effect, a change of
    the text area, the restart button, the two outcomes of the quote fetch)
    is a function from the state before to the state after. `Run` replays a
    whole sequence of such events, and the lemmas at the end state what holds
    along every such sequence.
 */
module TypingSession {

  /** Length of a session, in seconds (the initial and the reset timer value). */
  const SessionSeconds: nat := 60

  /** Characters that count as one word for the score. */
  const CharsPerWord: nat := 5

  /** The quotes shown when the remote quote service cannot be reached. */
  const LocalQuotes: seq<string> := [
    "Practice makes perfect.",
    "Stay focused and keep typing.",
    "You can do it!",
    "Fast fingers, sharp mind.",
    "One keystroke at a time."
  ]

  /** An index into LocalQuotes: what `Math.floor(Math.random() * 5)` yields. */
  type QuoteIndex = i: int | 0 <= i < 5

  datatype State = State(
    quote: string,       // the passage to type
    userInput: string,   // the text typed so far
    timer: nat,          // seconds left
    isRunning: bool,     // whether the countdown is on
    score: nat,          // the score of the last finished session (0 after a restart)
    highScore: nat       // the best score ever, as kept in local storage
  )

  /** The state at mount, with whatever high score local storage held. */
  function Initial(storedHighScore: nat): (s: State)
    ensures s.quote == "" && s.userInput == "" && s.timer == SessionSeconds
    ensures !s.isRunning && s.score == 0 && s.highScore == storedHighScore
    ensures Inv(s) && InputEnabled(s)
  {
    State("", "", SessionSeconds, false, 0, storedHighScore)
  }

  /** The score of a session: whole groups of five typed characters. */
  function FinalScore(len: nat): (r: nat)
    ensures r * CharsPerWord <= len < (r + 1) * CharsPerWord
  {
    len / CharsPerWord
  }

  /** A session is over: the timer ran out and the countdown is stopped. */
  predicate Finished(s: State) {
    !s.isRunning && s.timer == 0
  }

  /** The text area is enabled unless the session is over. In every
      reachable state that means: while a session runs, or after a reset to
      a full timer that typing has not yet started. */
  predicate InputEnabled(s: State)
    ensures Inv(s) ==> (InputEnabled(s) <==> s.isRunning || s.timer == SessionSeconds)
  {
    !Finished(s)
  }

  /** What every reachable state satisfies: the timer lies in [0, 60], a
      running countdown has time left (the effect run that follows the render
      bringing the timer to 0 ends the session, and Settle folds that run
      into the same step), a stopped countdown sits at one of
      its two ends, and the displayed score never exceeds the high score. */
  predicate Inv(s: State) {
    && s.timer <= SessionSeconds
    && (s.isRunning ==> s.timer > 0)
    && (!s.isRunning ==> s.timer == 0 || s.timer == SessionSeconds)
    && s.score <= s.highScore
  }

  /** The zero-timer branch of the timer effect: stop, score the input, and
      raise the high score only when the new score is strictly greater. */
  function Finalize(s: State): (r: State)
    ensures !r.isRunning
    ensures r.score == FinalScore(|s.userInput|)
    ensures r.highScore >= s.highScore && r.highScore >= r.score
    ensures r.highScore == s.highScore || r.highScore == r.score
    ensures r.highScore != s.highScore <==> r.score > s.highScore
    ensures r.(isRunning := s.isRunning, score := s.score, highScore := s.highScore) == s
  {
    var finalScore := FinalScore(|s.userInput|);
    s.(isRunning := false,
       score := finalScore,
       highScore := if finalScore > s.highScore then finalScore else s.highScore)
  }

  /** The two values the timer effect depends on are the same in `a` and `b`. */
  predicate SameDeps(a: State, b: State) {
    a.isRunning == b.isRunning && a.timer == b.timer
  }

  /** What one run of the timer effect changes at once. Its first branch only
      schedules the one-second callback (see Tick); its second branch, taken
      when the timer is 0, finalises the session. */
  function EffectRun(s: State): (r: State)
    ensures s.timer != 0 ==> r == s
    ensures s.timer == 0 ==> Finished(r) && r == Finalize(s)
  {
    if s.isRunning && s.timer > 0 then s
    else if s.timer == 0 then Finalize(s)
    else s
  }

  /** React re-runs the effect after every render in which `isRunning` or
      `timer` changed, until a run leaves both alone. Going from `prev` to
      `s` therefore ends in `s` itself, unless the timer effect was woken up
      with the timer at 0: then the session is finalised exactly once (the
      re-run that the drop of `isRunning` causes changes nothing more). */
  function Settle(prev: State, s: State): (r: State)
    ensures r == if !SameDeps(prev, s) && s.timer == 0 then Finalize(s) else s
    decreases (if SameDeps(prev, s) then 0 else 1) + (if s.isRunning then 2 else 0)
  {
    if SameDeps(prev, s) then s else Settle(s, EffectRun(s))
  }

  /** The one-second callback fires. One is pending exactly while the
      session runs with time left: the effect run that saw that state
      scheduled it, and any change of `isRunning` or `timer` since would
      have cleared it and scheduled a new one. Its decrement re-runs the
      effect, which finalises the session when the timer has reached 0. */
  function Tick(s: State): (r: State)
    ensures s.isRunning && s.timer > 1 ==> r == s.(timer := s.timer - 1)
    ensures s.isRunning && s.timer == 1 ==> r == Finalize(s.(timer := 0)) && Finished(r)
    ensures !(s.isRunning && s.timer > 0) ==> r == s
  {
    if s.isRunning && s.timer > 0 then Settle(s, s.(timer := s.timer - 1)) else s
  }

  /** A change of the text area. It only happens while the text area is
      enabled; the first change of a stopped session starts the countdown. */
  function InputChange(s: State, value: string): (r: State)
    ensures !InputEnabled(s) ==> r == s
    ensures InputEnabled(s) ==>
      && r.userInput == value && r.isRunning
      && r.timer == (if s.isRunning then s.timer else SessionSeconds)
    ensures r.quote == s.quote && r.score == s.score && r.highScore == s.highScore
  {
    if !InputEnabled(s) then s
    else if s.isRunning then Settle(s, s.(userInput := value))
    else Settle(s, s.(userInput := value, isRunning := true, timer := SessionSeconds))
  }

  /** The restart button, before the quote it requests has arrived. The
      timer effect it wakes up finds a full timer and changes nothing. */
  function Restart(s: State): (r: State)
    ensures r.userInput == "" && r.timer == SessionSeconds && !r.isRunning && r.score == 0
    ensures r.quote == s.quote && r.highScore == s.highScore
  {
    Settle(s, s.(userInput := "", timer := SessionSeconds, isRunning := false, score := 0))
  }

  /** The quote fetch succeeded with `content`. Neither `isRunning` nor
      `timer` changes, so the timer effect does not run again. */
  function QuoteLoaded(s: State, content: string): (r: State)
    ensures r.quote == content && r.userInput == ""
    ensures SameDeps(s, r) && r.score == s.score && r.highScore == s.highScore
  {
    s.(quote := content, userInput := "")
  }

  /** The local quote picked by a failed fetch. */
  function LocalQuote(i: QuoteIndex): (q: string)
    ensures q == LocalQuotes[i] && |q| > 0
  {
    assert forall k | 0 <= k < |LocalQuotes| :: |LocalQuotes[k]| > 0;
    LocalQuotes[i]
  }

  /** The quote fetch failed: show local quote number `i`. As for a
      successful fetch, the timer effect does not run again. */
  function FallbackQuote(s: State, i: QuoteIndex): (r: State)
    ensures r.quote == LocalQuote(i) && |r.quote| > 0 && r.userInput == ""
    ensures SameDeps(s, r) && r.score == s.score && r.highScore == s.highScore
  {
    s.(quote := LocalQuote(i), userInput := "")
  }

  /** The events the component reacts to. */
  datatype Event =
    | TimerFired
    | Typed(value: string)
    | RestartClicked
    | FetchSucceeded(content: string)
    | FetchFailed(index: QuoteIndex)

  /** One event, with every re-run of the timer effect it causes. Each keeps
      the invariant and none lowers the high score. */
  function Step(s: State, e: Event): (r: State)
    ensures Inv(s) ==> Inv(r)
    ensures r.highScore >= s.highScore
  {
    match e
    case TimerFired => Tick(s)
    case Typed(value) => InputChange(s, value)
    case RestartClicked => Restart(s)
    case FetchSucceeded(content) => QuoteLoaded(s, content)
    case FetchFailed(i) => FallbackQuote(s, i)
  }

  /** The state after the events `es`, in order. Along every sequence the
      invariant holds and the high score never decreases. */
  function Run(s: State, es: seq<Event>): (r: State)
    ensures Inv(s) ==> Inv(r)
    ensures r.highScore >= s.highScore
    decreases |es|
  {
    if es == [] then s else Run(Step(s, es[0]), es[1..])
  }

  /** `n` timer callbacks in a row. */
  function Ticks(n: nat): seq<Event> {
    seq(n, _ => TimerFired)
  }

  // ---------------------------------------------------------------------
  // One event at a time

  /** Running the zero-timer branch again changes nothing: the effect
      re-runs after `isRunning` drops while the timer is still 0. */
  lemma FinalizeIdempotent(s: State)
    requires s.timer == 0
    ensures Finished(EffectRun(s))
    ensures EffectRun(EffectRun(s)) == EffectRun(s)
  {
  }

  /** A finished session ignores typing: the text area is disabled. */
  lemma FinishedIgnoresInput(s: State, value: string)
    requires Finished(s)
    ensures InputChange(s, value) == s
  {
  }

  /** A restart followed by a successful fetch of `q` is a fresh session on
      `q` that keeps the high score. */
  lemma RestartThenQuote(s: State, q: string)
    ensures var r := Run(s, [RestartClicked, FetchSucceeded(q)]);
      && r == State(q, "", SessionSeconds, false, 0, s.highScore)
      && Inv(r) && InputEnabled(r)
  {
    var es := [RestartClicked, FetchSucceeded(q)];
    assert es[1..] == [FetchSucceeded(q)] && es[1..][1..] == [];
    assert Run(s, es) == Run(Restart(s), [FetchSucceeded(q)]) == QuoteLoaded(Restart(s), q);
  }

  /** The fetch a restart starts is not tied to the session it was started
      for: if it resolves after the user has begun typing, it replaces the
      quote and wipes the input while the countdown goes on. */
  lemma LateQuoteWipesRunningInput(s: State, typed: string, q: string)
    ensures var r := Run(s, [RestartClicked, Typed(typed), FetchSucceeded(q)]);
      && r.isRunning && r.timer == SessionSeconds
      && r.quote == q && r.userInput == ""
  {
    var es := [RestartClicked, Typed(typed), FetchSucceeded(q)];
    assert es[1..] == [Typed(typed), FetchSucceeded(q)];
    assert es[1..][1..] == [FetchSucceeded(q)] && es[1..][1..][1..] == [];
    var started := InputChange(Restart(s), typed);
    assert started.isRunning && started.timer == SessionSeconds;
    assert Run(s, es) == Run(started, [FetchSucceeded(q)]) == QuoteLoaded(started, q);
  }

  // ---------------------------------------------------------------------
  // Whole sequences of events

  /** Any state reached from mount satisfies Inv and keeps at least the
      stored high score. */
  lemma ReachableFromMount(storedHighScore: nat, es: seq<Event>)
    ensures Inv(Run(Initial(storedHighScore), es))
    ensures Run(Initial(storedHighScore), es).highScore >= storedHighScore
  {
  }

  /** Only a restart brings a finished session back. Typing, the timer and
      late fetch results leave it finished with its score and high score;
      typing and the timer alone change nothing at all. */
  lemma {:induction false} FinishedIsFrozen(s: State, es: seq<Event>)
    requires Finished(s)
    requires forall k | 0 <= k < |es| :: !es[k].RestartClicked?
    ensures Finished(Run(s, es))
    ensures Run(s, es).score == s.score && Run(s, es).highScore == s.highScore
    ensures (forall k | 0 <= k < |es| :: es[k].TimerFired? || es[k].Typed?) ==> Run(s, es) == s
    decreases |es|
  {
    if es != [] {
      var t := Step(s, es[0]);
      assert Finished(t) && t.score == s.score && t.highScore == s.highScore;
      assert es[0].TimerFired? || es[0].Typed? ==> t == s;
      FinishedIsFrozen(t, es[1..]);
      assert forall k | 0 <= k < |es[1..]| :: es[1..][k] == es[k + 1];
    }
  }

  /** A running countdown with `t` seconds left counts down one second per
      callback, touching nothing else, and the `t`-th callback ends the
      session and scores the input as it was. */
  lemma {:induction false} CountdownExpires(s: State)
    requires s.isRunning && s.timer > 0
    ensures forall k | 0 <= k < s.timer :: Run(s, Ticks(k)) == s.(timer := s.timer - k)
    ensures Run(s, Ticks(s.timer)) == Finalize(s.(timer := 0))
    decreases s.timer
  {
    if s.timer == 1 {
      assert Ticks(1)[1..] == [];
      assert Run(s, Ticks(0)) == s;
    } else {
      var t := s.(timer := s.timer - 1);
      assert Tick(s) == t;
      CountdownExpires(t);
      assert Ticks(s.timer)[1..] == Ticks(t.timer);
      assert t.(timer := 0) == s.(timer := 0);
      forall k | 0 <= k < s.timer
        ensures Run(s, Ticks(k)) == s.(timer := s.timer - k)
      {
        if k > 0 {
          assert Ticks(k)[0] == TimerFired && Ticks(k)[1..] == Ticks(k - 1);
        }
      }
    }
  }

  /** A session started by typing `value` in a fresh state, with no further
      typing, ends after 60 timer callbacks with the score of `value`, and
      the high score becomes the larger of the old one and that score. */
  lemma SessionScoresTypedText(s: State, value: string)
    requires Inv(s) && !s.isRunning && s.timer == SessionSeconds
    ensures var r := Run(s, [Typed(value)] + Ticks(SessionSeconds));
      && Finished(r) && r.userInput == value
      && r.score == FinalScore(|value|)
      && r.highScore == (if r.score > s.highScore then r.score else s.highScore)
  {
    var es := [Typed(value)] + Ticks(SessionSeconds);
    var started := InputChange(s, value);
    assert started == s.(userInput := value, isRunning := true);
    assert es[0] == Typed(value) && es[1..] == Ticks(started.timer);
    CountdownExpires(started);
  }
}
