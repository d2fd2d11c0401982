/** The typing-speed test component as an object: its six pieces of React
    state are fields, and each handler updates them in place. Every method is
    proved to move the object exactly as the matching function of
    TypingSession moves a State, and to keep TypingSession.Inv.
 */
module App {
  import S = TypingSession

  class TypingTest {
    var quote: string
    var userInput: string
    var timer: nat
    var isRunning: bool
    var score: nat
    var highScore: nat

    /** The fields, as a TypingSession.State value. */
    function Snapshot(): S.State
      reads this
    {
      S.State(quote, userInput, timer, isRunning, score, highScore)
    }

    ghost predicate Valid()
      reads this
    {
      S.Inv(Snapshot())
    }

    /** Mount: empty quote and input, a full timer, stopped, score 0, and
        the high score read back from local storage. */
    constructor (storedHighScore: nat)
      ensures Valid() && Snapshot() == S.Initial(storedHighScore)
    {
      quote := "";
      userInput := "";
      timer := S.SessionSeconds;
      isRunning := false;
      score := 0;
      highScore := storedHighScore;
    }

    /** The one-second callback, with the re-runs of the timer effect that
        its change of `timer` causes. A callback is pending only while the
        session runs with time left. */
    method Tick()
      requires Valid()
      modifies this
      ensures Valid() && Snapshot() == S.Tick(old(Snapshot()))
      ensures old(isRunning) && old(timer) > 1 ==>
        timer == old(timer) - 1 && old(Snapshot()) == Snapshot().(timer := old(timer))
      ensures old(isRunning) && old(timer) == 1 ==>
        && !isRunning && timer == 0
        && score == S.FinalScore(|old(userInput)|)
        && highScore == (if score > old(highScore) then score else old(highScore))
        && quote == old(quote) && userInput == old(userInput)
      ensures !old(isRunning) ==> Snapshot() == old(Snapshot())
      ensures highScore >= old(highScore)
    {
      if isRunning && timer > 0 {
        timer := timer - 1;
        // The change of timer re-runs the effect; at 0 it takes its zero
        // branch. That branch drops isRunning, which re-runs the effect once
        // more, and the second run changes nothing (S.FinalizeIdempotent).
        if timer == 0 {
          isRunning := false;
          var finalScore := S.FinalScore(|userInput|);
          score := finalScore;
          if finalScore > highScore {
            highScore := finalScore;
          }
        }
      }
    }

    /** A change of the text area to `value`. A finished session has its
        text area disabled, so the change never reaches the handler. */
    method InputChange(value: string) returns (accepted: bool)
      requires Valid()
      modifies this
      ensures Valid() && Snapshot() == S.InputChange(old(Snapshot()), value)
      ensures accepted <==> old(isRunning || timer != 0)
      ensures !accepted ==> Snapshot() == old(Snapshot())
      ensures accepted ==> userInput == value && isRunning
      ensures accepted && old(isRunning) ==> timer == old(timer)
      ensures accepted && !old(isRunning) ==> timer == S.SessionSeconds
      ensures quote == old(quote) && score == old(score) && highScore == old(highScore)
    {
      accepted := isRunning || timer != 0;
      if accepted {
        userInput := value;
        if !isRunning {
          isRunning := true;
          timer := S.SessionSeconds;
        }
      }
    }

    /** The restart button. The quote it asks for arrives later, through
        QuoteLoaded or FallbackQuote. */
    method Restart()
      requires Valid()
      modifies this
      ensures Valid() && Snapshot() == S.Restart(old(Snapshot()))
      ensures userInput == "" && timer == S.SessionSeconds && !isRunning && score == 0
      ensures quote == old(quote) && highScore == old(highScore)
    {
      userInput := "";
      timer := S.SessionSeconds;
      isRunning := false;
      score := 0;
    }

    /** The quote fetch succeeded with `content`. */
    method QuoteLoaded(content: string)
      requires Valid()
      modifies this
      ensures Valid() && Snapshot() == S.QuoteLoaded(old(Snapshot()), content)
      ensures quote == content && userInput == ""
      ensures timer == old(timer) && isRunning == old(isRunning)
      ensures score == old(score) && highScore == old(highScore)
    {
      quote := content;
      userInput := "";
    }

    /** The quote fetch failed; `i` stands for the random index. */
    method FallbackQuote(i: S.QuoteIndex)
      requires Valid()
      modifies this
      ensures Valid() && Snapshot() == S.FallbackQuote(old(Snapshot()), i)
      ensures quote == S.LocalQuotes[i] && |quote| > 0 && userInput == ""
      ensures timer == old(timer) && isRunning == old(isRunning)
      ensures score == old(score) && highScore == old(highScore)
    {
      quote := S.LocalQuote(i);
      userInput := "";
    }
  }
}
