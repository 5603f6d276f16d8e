/** The scoring rules of the typing test: the server's `calculate_results`
    route (single-player results) and the browser's live accuracy, live words
    per minute and end-of-battle metrics. Counts are natural numbers and the
    ratios are exact reals; display rounding is not part of the model. */
module Scoring {
  import opened Options

  /** The positions where two strings agree, below the length of both. */
  ghost function MatchSet(a: string, b: string): set<int>
  {
    set i | 0 <= i < |a| && i < |b| && a[i] == b[i]
  }

  /** How many of the first `n` characters of `a` equal the character of `b`
      at the same position; a position past the end of `b` never matches.
      This is the generator sum over `enumerate(a)` with the guard
      `i < len(b) and char == b[i]`. */
  function MatchesUpTo(a: string, b: string, n: nat): (r: nat)
    requires n <= |a|
    ensures r <= n
  {
    if n == 0 then 0
    else MatchesUpTo(a, b, n - 1) + (if n - 1 < |b| && a[n - 1] == b[n - 1] then 1 else 0)
  }

  /** The first count of `calculate_results`: enumerate the typed text. */
  function CorrectChars(typed: string, original: string): nat
  {
    MatchesUpTo(typed, original, |typed|)
  }

  /** The recount used when the typed text is longer than the original:
      enumerate the original instead. */
  function Recount(typed: string, original: string): nat
  {
    MatchesUpTo(original, typed, |original|)
  }

  /** `correct_chars` as `calculate_results` leaves it. */
  function CorrectCount(typed: string, original: string): (r: nat)
    ensures r <= |typed| && r <= |original|
  {
    if |typed| > |original| then Recount(typed, original) else CorrectChars(typed, original)
  }

  /** The positions below `n` where two strings agree. */
  ghost function MatchesBelow(a: string, b: string, n: nat): set<int>
  {
    set i | 0 <= i < n && i < |a| && i < |b| && a[i] == b[i]
  }

  /** Extending the bound by one adds position `n - 1` exactly when it matches. */
  lemma MatchesBelowStep(a: string, b: string, n: nat)
    requires 0 < n <= |a|
    ensures MatchesBelow(a, b, n) ==
            if n - 1 < |b| && a[n - 1] == b[n - 1] then MatchesBelow(a, b, n - 1) + {n - 1}
            else MatchesBelow(a, b, n - 1)
  {
    forall i | i in MatchesBelow(a, b, n)
      ensures i in MatchesBelow(a, b, n - 1) || i == n - 1
    {
    }
  }

  lemma {:induction false} MatchesUpToCounts(a: string, b: string, n: nat)
    requires n <= |a|
    ensures MatchesUpTo(a, b, n) == |MatchesBelow(a, b, n)|
  {
    if n > 0 {
      MatchesUpToCounts(a, b, n - 1);
      MatchesBelowStep(a, b, n);
      var before := MatchesBelow(a, b, n - 1);
      if n - 1 < |b| && a[n - 1] == b[n - 1] {
        assert n - 1 !in before;
        assert |before + {n - 1}| == |before| + 1;
      }
    }
  }

  /** Positions of `a` at or past the end of `b` add nothing to the count. */
  lemma {:induction false} MatchesUpToClips(a: string, b: string, n: nat)
    requires n <= |a|
    ensures MatchesUpTo(a, b, n) == MatchesUpTo(a, b, if n < |b| then n else |b|)
  {
    if n > |b| {
      MatchesUpToClips(a, b, n - 1);
    }
  }

  /** The count only looks at the first `n` characters of `a`. */
  lemma {:induction false} MatchesUpToPrefix(a: string, a': string, b: string, n: nat)
    requires n <= |a| && n <= |a'| && a[..n] == a'[..n]
    ensures MatchesUpTo(a, b, n) == MatchesUpTo(a', b, n)
  {
    if n > 0 {
      assert a[n - 1] == a[..n][n - 1] == a'[..n][n - 1] == a'[n - 1];
      assert a[..n - 1] == a[..n][..n - 1] == a'[..n][..n - 1] == a'[..n - 1];
      MatchesUpToPrefix(a, a', b, n - 1);
    }
  }

  /** The count reaches `n` exactly when all of the first `n` positions agree. */
  lemma {:induction false} MatchesUpToFull(a: string, b: string, n: nat)
    requires n <= |a|
    ensures MatchesUpTo(a, b, n) == n <==> n <= |b| && a[..n] == b[..n]
  {
    if n > 0 {
      MatchesUpToFull(a, b, n - 1);
      if n <= |b| && a[..n] == b[..n] {
        assert a[..n - 1] == a[..n][..n - 1] == b[..n][..n - 1] == b[..n - 1];
        assert a[n - 1] == a[..n][n - 1] == b[..n][n - 1] == b[n - 1];
      }
    }
  }

  /** `correct_chars` counts exactly the positions, below both lengths, where
      the typed and the original character agree; the recount taken when the
      typed text is longer gives the same number (app.py:49-56). */
  lemma CorrectCountIsMatchSet(typed: string, original: string)
    ensures CorrectChars(typed, original) == |MatchSet(typed, original)|
    ensures Recount(typed, original) == CorrectChars(typed, original)
    ensures CorrectCount(typed, original) == CorrectChars(typed, original)
    ensures CorrectChars(typed, original) <= |typed| && CorrectChars(typed, original) <= |original|
  {
    MatchesUpToCounts(typed, original, |typed|);
    MatchesUpToCounts(original, typed, |original|);
    assert MatchesBelow(typed, original, |typed|) == MatchSet(typed, original);
    assert MatchesBelow(original, typed, |original|) == MatchSet(typed, original);
    MatchesUpToClips(typed, original, |typed|);
  }

  /** `accuracy` of `calculate_results`: the share of the original's characters
      that were typed correctly, as a percentage; 0 for an empty original. */
  function Accuracy(original: string, typed: string): (r: real)
    ensures 0.0 <= r <= 100.0
    ensures r == 100.0 <==> 0 < |original| && CorrectCount(typed, original) == |original|
  {
    if |original| > 0 then
      PercentageBounds(CorrectCount(typed, original), |original|);
      CorrectCount(typed, original) as real / |original| as real * 100.0
    else 0.0
  }

  /** A count of at most `total` characters, out of `total`, as a percentage. */
  lemma PercentageBounds(count: nat, total: nat)
    requires 0 < total && count <= total
    ensures 0.0 <= count as real / total as real * 100.0 <= 100.0
    ensures count as real / total as real * 100.0 == 100.0 <==> count == total
  {
    var q := count as real / total as real;
    assert q * total as real == count as real;
    assert q <= 1.0;
    if q == 1.0 {
      assert count as real == total as real;
    }
  }

  /** Accuracy is a percentage; it is 100 exactly when the original is
      nonempty and the typed text starts with the whole original, and 0 when
      the original is empty (app.py:58). */
  lemma AccuracyRange(original: string, typed: string)
    ensures 0.0 <= Accuracy(original, typed) <= 100.0
    ensures Accuracy(original, typed) == 100.0 <==>
              0 < |original| <= |typed| && typed[..|original|] == original
    ensures |original| == 0 ==> Accuracy(original, typed) == 0.0
  {
    CorrectCountIsMatchSet(typed, original);
    if |original| > 0 {
      PercentageBounds(CorrectChars(typed, original), |original|);
      if |typed| >= |original| {
        MatchesUpToClips(typed, original, |typed|);
        MatchesUpToFull(typed, original, |original|);
        assert original[..|original|] == original;
      } else {
        assert CorrectChars(typed, original) <= |typed| < |original|;
      }
    }
  }

  /** Typing the original exactly scores 100 when there is anything to type. */
  lemma PerfectAccuracy(original: string)
    requires |original| > 0
    ensures Accuracy(original, original) == 100.0
  {
    AccuracyRange(original, original);
    assert original[..|original|] == original;
  }

  /** `errors = max(0, total_chars - correct_chars)` (app.py:66). */
  function Errors(original: string, typed: string): (r: int)
    ensures r == |original| - CorrectCount(typed, original)
    ensures 0 <= r <= |original|
  {
    var d := |original| - CorrectCount(typed, original);
    if d > 0 then d else 0
  }

  /** The clamp at 0 never applies: the errors are exactly the characters of
      the original that were not typed correctly, so they never exceed the
      original's length, and characters typed past its end add nothing
      (app.py:58, app.py:66). */
  lemma ErrorsCountMisses(original: string, typed: string, extra: string)
    ensures Errors(original, typed) == |original| - |MatchSet(typed, original)|
    ensures 0 <= Errors(original, typed) <= |original|
    ensures |typed| >= |original| ==> Errors(original, typed + extra) == Errors(original, typed)
  {
    CorrectCountIsMatchSet(typed, original);
    if |typed| >= |original| {
      var longer := typed + extra;
      CorrectCountIsMatchSet(longer, original);
      MatchesUpToClips(typed, original, |typed|);
      MatchesUpToClips(longer, original, |longer|);
      assert typed[..|original|] == longer[..|original|];
      MatchesUpToPrefix(typed, longer, original, |original|);
    }
  }

  /** Words per minute for `chars` typed characters in `minutes` minutes, a
      word being five characters; 0 unless the time is positive. The server
      (app.py:61-63), the live statistics (static/script.js:84-88) and the end
      of a battle (static/script.js:627-629) all use this rule. */
  function Wpm(chars: nat, minutes: real): (r: real)
    ensures r >= 0.0
    ensures minutes > 0.0 ==> r * minutes * 5.0 == chars as real
    ensures minutes <= 0.0 || chars == 0 ==> r == 0.0
  {
    if minutes > 0.0 then (chars as real / 5.0) / minutes else 0.0
  }

  /** More characters in the same time never lower the rate. */
  lemma WpmMonotonic(c1: nat, c2: nat, minutes: real)
    requires c1 <= c2
    ensures Wpm(c1, minutes) <= Wpm(c2, minutes)
  {
    if minutes > 0.0 {
      var w1, w2 := Wpm(c1, minutes), Wpm(c2, minutes);
      assert w1 * minutes * 5.0 <= w2 * minutes * 5.0;
    }
  }

  /** The body of the `calculate_results` response, without rounding. */
  datatype TestResults = TestResults(wpm: real, accuracy: real, errors: int, timeTaken: real,
                                     totalChars: nat, correctChars: nat)

  /** Over a time given in seconds, the rate times the seconds is twelve
      characters per typed character: 60 seconds a minute, 5 characters a
      word. */
  lemma WpmFromSeconds(chars: nat, seconds: real)
    requires seconds > 0.0
    ensures Wpm(chars, seconds / 60.0) * seconds == 12.0 * chars as real
  {
    var w := Wpm(chars, seconds / 60.0);
    assert w * (seconds / 60.0) * 5.0 == chars as real;
    assert w * seconds == w * (seconds / 60.0) * 60.0;
    assert w * (seconds / 60.0) * 60.0 == (w * (seconds / 60.0) * 5.0) * 12.0;
  }

  /** `calculate_results(original_text, typed_text, time_taken)` (app.py:39-75). */
  function CalculateResults(original: string, typed: string, timeTaken: real): (r: TestResults)
    ensures r.totalChars == |original| && r.correctChars == |MatchSet(typed, original)|
    ensures r.errors == r.totalChars - r.correctChars
    ensures r.accuracy == Accuracy(original, typed) && 0.0 <= r.accuracy <= 100.0
    ensures timeTaken > 0.0 ==> r.wpm * timeTaken == 12.0 * |typed| as real
    ensures timeTaken <= 0.0 ==> r.wpm == 0.0
    ensures r.timeTaken == timeTaken
  {
    CorrectCountIsMatchSet(typed, original);
    ErrorsCountMisses(original, typed, "");
    AccuracyRange(original, typed);
    var r := TestResults(Wpm(|typed|, timeTaken / 60.0), Accuracy(original, typed), Errors(original, typed),
                         timeTaken, |original|, CorrectCount(typed, original));
    if timeTaken > 0.0 then WpmFromSeconds(|typed|, timeTaken); r else r
  }

  /** `TypingTest.calculateAccuracy`: 0 for an empty paragraph or an empty
      typed text, otherwise the matching positions over the paragraph length,
      as a percentage (static/script.js:96-105). */
  function ClientAccuracy(paragraph: string, typed: string): (r: real)
    ensures 0.0 <= r <= 100.0
    ensures r == Accuracy(paragraph, typed)
  {
    AccuracyRange(paragraph, typed);
    CorrectCountIsMatchSet(typed, paragraph);
    if |paragraph| == 0 || |typed| == 0 then 0.0
    else CorrectChars(typed, paragraph) as real / |paragraph| as real * 100.0
  }

  /** The accuracy computed by `BattleMode.completeBattle`; `None` stands for
      the `NaN` that `0 / 0` gives for an empty paragraph
      (static/script.js:621-626). */
  function BattleAccuracy(paragraph: string, typed: string): (r: Option<real>)
    ensures r.None? <==> |paragraph| == 0
    ensures r.Some? ==> r.value == ClientAccuracy(paragraph, typed)
  {
    CorrectCountIsMatchSet(typed, paragraph);
    if |paragraph| == 0 then None
    else Some(CorrectChars(typed, paragraph) as real / |paragraph| as real * 100.0)
  }

  /** A test or a battle is over once the typed text is as long as the text
      to type (static/script.js:113, static/script.js:595). */
  predicate IsComplete(typed: string, paragraph: string)
  {
    |typed| >= |paragraph|
  }

  /** The completion rule looks at the length only: a perfect score implies
      completion, but a complete text of wrong characters completes too. */
  lemma CompletionIsByLength(original: string, typed: string)
    ensures Accuracy(original, typed) == 100.0 ==> IsComplete(typed, original)
    ensures IsComplete("xy", "ab") && Accuracy("ab", "xy") == 0.0
  {
    assert CorrectCount("xy", "ab") == 0 by {
      assert MatchesUpTo("xy", "ab", 0) == 0;
      assert MatchesUpTo("xy", "ab", 1) == 0;
      assert MatchesUpTo("xy", "ab", 2) == 0;
    }
  }

  /** Whether a key press is suppressed: Backspace and Delete, only while the
      test is running and only once the text is complete
      (static/script.js:118-126, static/script.js:600-608). */
  function SuppressesKey(active: bool, typed: string, paragraph: string, key: string): (r: bool)
    ensures r ==> active && IsComplete(typed, paragraph)
    ensures r <==> active && IsComplete(typed, paragraph) && key in {"Backspace", "Delete"}
  {
    if !active then false
    else if |typed| >= |paragraph| then key == "Backspace" || key == "Delete"
    else false
  }
}
