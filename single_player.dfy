/** The single-player page (`TypingTest` in static/script.js): the state the
    object keeps between events and what each event handler does with it.
    Clock readings (`Date.now()`), the paragraph fetched from the server and
    the text in the input box are parameters. */
module SinglePlayer {
  import opened Options
  import Scoring

  /** The body `completeTest` posts to `/calculate_results`. */
  datatype ResultsRequest = ResultsRequest(originalText: string, typedText: string, timeTaken: real)

  class TypingTest {
    var currentParagraph: string
    var isTestActive: bool
    var startTime: int

    constructor ()
      ensures currentParagraph == "" && !isTestActive
    {
      currentParagraph := "";
      isTestActive := false;
      startTime := 0;
    }

    /** `startTest` once the paragraph arrived (static/script.js:43-54). */
    method StartTest(paragraph: string, now: int)
      modifies this
      ensures currentParagraph == paragraph && isTestActive && startTime == now
    {
      currentParagraph := paragraph;
      isTestActive := true;
      startTime := now;
    }

    /** The live figures the timer shows every 100 ms: words per minute over
        the elapsed minutes and the live accuracy (static/script.js:82-94). */
    method RealTimeStats(typed: string, elapsedMs: int) returns (wpm: real, accuracy: real)
      ensures wpm == Scoring.Wpm(|typed|, elapsedMs as real / 60000.0)
      ensures accuracy == Scoring.ClientAccuracy(currentParagraph, typed)
      ensures 0.0 <= accuracy <= 100.0 && wpm >= 0.0
    {
      var timeInMinutes := elapsedMs as real / 60000.0;
      var wordsTyped := |typed| as real / 5.0;
      wpm := if timeInMinutes > 0.0 then wordsTyped / timeInMinutes else 0.0;
      accuracy := Scoring.ClientAccuracy(currentParagraph, typed);
    }

    /** `handleTyping` (static/script.js:107-116): while the test runs, an
        input as long as the paragraph ends it (`completeTest`,
        static/script.js:129-148), which stops the test and posts the texts
        and the seconds taken. */
    method HandleTyping(typed: string, now: int) returns (request: Option<ResultsRequest>)
      modifies this
      ensures request.Some? <==> old(isTestActive) && Scoring.IsComplete(typed, currentParagraph)
      ensures request.Some? ==>
                && !isTestActive
                && request.value == ResultsRequest(currentParagraph, typed, (now - startTime) as real / 1000.0)
      ensures request.None? ==> isTestActive == old(isTestActive)
      ensures currentParagraph == old(currentParagraph) && startTime == old(startTime)
    {
      if !isTestActive {
        return None;
      }
      if |typed| >= |currentParagraph| {
        isTestActive := false;
        var timeTaken := (now - startTime) as real / 1000.0;
        return Some(ResultsRequest(currentParagraph, typed, timeTaken));
      }
      return None;
    }

    /** `handleKeydown` (static/script.js:118-127): whether the key press is
        suppressed. */
    method HandleKeydown(typed: string, key: string) returns (prevent: bool)
      ensures prevent <==> Scoring.SuppressesKey(isTestActive, typed, currentParagraph, key)
    {
      prevent := false;
      if !isTestActive {
        return;
      }
      if |typed| >= |currentParagraph| {
        if key == "Backspace" || key == "Delete" {
          prevent := true;
        }
      }
    }

    /** `resetTest` (static/script.js:173-188). */
    method ResetTest()
      modifies this
      ensures !isTestActive && currentParagraph == old(currentParagraph) && startTime == old(startTime)
    {
      isTestActive := false;
    }
  }

  /** Once an input completes the test, the test is no longer running, so the
      Backspace and Delete guard of `handleKeydown` can no longer fire for it:
      only a test whose run is still going suppresses keys. */
  method CompletedTestIgnoresKeys(paragraph: string, typed: string, now: int, later: int)
    requires Scoring.IsComplete(typed, paragraph)
  {
    var test := new TypingTest();
    test.StartTest(paragraph, now);
    var request := test.HandleTyping(typed, later);
    assert request.Some? && request.value.originalText == paragraph;
    var prevent := test.HandleKeydown(typed, "Backspace");
    assert !prevent;
  }
}
