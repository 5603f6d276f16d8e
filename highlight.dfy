/** The typing feedback of the single-player page: on every input event the
    paragraph is rebuilt character by character, each character marked as
    typed correctly, typed wrongly, the current position, or not reached yet
    (static/script.js:935-957). The HTML markup itself is not modelled; a
    segment is the class a character gets and the character. */
module Highlight {
  import opened Options
  import Scoring

  datatype Kind = Correct | Error | Current | Plain

  datatype Segment = Segment(kind: Kind, ch: char)

  /** The text the paragraph shows before a test starts; no feedback is drawn
      over it. */
  const Placeholder: string := "Click \"Start Test\" to begin your typing test..."

  /** The class of the character at position `i` of the original text. */
  function KindAt(original: string, typed: string, i: nat): Kind
    requires i < |original|
  {
    if i < |typed| then (if typed[i] == original[i] then Correct else Error)
    else if i == |typed| then Current
    else Plain
  }

  /** The segments drawn for `original` when `typed` has been typed. */
  ghost predicate Renders(segments: seq<Segment>, original: string, typed: string)
  {
    |segments| == |original| &&
    forall i :: 0 <= i < |original| ==> segments[i] == Segment(KindAt(original, typed, i), original[i])
  }

  /** The input handler: nothing is drawn for an empty input or over the
      placeholder; otherwise one segment per original character, in order. */
  method Highlight(original: string, typed: string) returns (r: Option<seq<Segment>>)
    ensures r.None? <==> |typed| == 0 || original == Placeholder
    ensures r.Some? ==> Renders(r.value, original, typed)
  {
    if |typed| == 0 || original == Placeholder {
      return None;
    }
    var highlighted: seq<Segment> := [];
    for i := 0 to |original|
      invariant |highlighted| == i
      invariant forall j :: 0 <= j < i ==> highlighted[j] == Segment(KindAt(original, typed, j), original[j])
    {
      if i < |typed| {
        if typed[i] == original[i] {
          highlighted := highlighted + [Segment(Correct, original[i])];
        } else {
          highlighted := highlighted + [Segment(Error, original[i])];
        }
      } else if i == |typed| {
        highlighted := highlighted + [Segment(Current, original[i])];
      } else {
        highlighted := highlighted + [Segment(Plain, original[i])];
      }
    }
    r := Some(highlighted);
  }

  /** How many segments have class `k`. */
  function CountKind(segments: seq<Segment>, k: Kind): (n: nat)
    ensures n <= |segments|
  {
    if segments == [] then 0
    else CountKind(segments[..|segments| - 1], k) + (if segments[|segments| - 1].kind == k then 1 else 0)
  }

  /** The characters of the segments, markup removed. */
  function Text(segments: seq<Segment>): (s: string)
    ensures |s| == |segments|
    ensures forall i :: 0 <= i < |s| ==> s[i] == segments[i].ch
  {
    if segments == [] then [] else Text(segments[..|segments| - 1]) + [segments[|segments| - 1].ch]
  }

  lemma {:induction false} CorrectPrefixCount(segments: seq<Segment>, original: string, typed: string, n: nat)
    requires Renders(segments, original, typed) && n <= |original|
    ensures CountKind(segments[..n], Correct) == Scoring.MatchesUpTo(original, typed, n)
  {
    if n > 0 {
      assert segments[..n][..n - 1] == segments[..n - 1];
      CorrectPrefixCount(segments, original, typed, n - 1);
    }
  }

  lemma {:induction false} CurrentPrefixCount(segments: seq<Segment>, original: string, typed: string, n: nat)
    requires Renders(segments, original, typed) && n <= |original|
    ensures CountKind(segments[..n], Current) == if |typed| < n then 1 else 0
  {
    if n > 0 {
      assert segments[..n][..n - 1] == segments[..n - 1];
      CurrentPrefixCount(segments, original, typed, n - 1);
    }
  }

  /** The feedback agrees with the score: the characters marked correct are
      exactly the ones `calculate_results` and `calculateAccuracy` count, and
      the drawn text is the original unchanged (static/script.js:942-954). */
  lemma CorrectSegmentsAreScored(segments: seq<Segment>, original: string, typed: string)
    requires Renders(segments, original, typed)
    ensures CountKind(segments, Correct) == Scoring.CorrectChars(typed, original)
    ensures Text(segments) == original
  {
    CorrectPrefixCount(segments, original, typed, |original|);
    assert segments[..|original|] == segments;
    Scoring.CorrectCountIsMatchSet(typed, original);
  }

  /** The current-position marker is drawn exactly once while the text is not
      complete, and not at all once it is (static/script.js:949-950). */
  lemma CurrentMarkerOnce(segments: seq<Segment>, original: string, typed: string)
    requires Renders(segments, original, typed)
    ensures CountKind(segments, Current) == if Scoring.IsComplete(typed, original) then 0 else 1
  {
    CurrentPrefixCount(segments, original, typed, |original|);
    assert segments[..|original|] == segments;
  }
}
