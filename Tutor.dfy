/**
 * The pure pieces of `services/geminiService.ts`: the system instruction a live
 * session is opened with, the transcript handed to the analyzer, and the feedback
 * returned when the analysis fails.
 */
module Tutor {
  import opened Types
  import opened Text

  const EnglishOnly := "\n\nIMPORTANT: You must only speak, understand, and respond in English. Do not attempt to use or translate other languages."

  const PacingHead := "\n\nThe user has a specific goal to speak at a pace of around "
  const PacingTail := " words per minute (WPM). While your primary role is defined by the scenario, please subtly encourage this pace. You don't need to mention the WPM target directly, but you can model a similar pace in your own speech. This is a secondary objective to the main role-play."

  /** `if (targetWpm)`: an absent target and a target of 0 are both falsy. */
  predicate HasPace(targetWpm: Option<int>)
  {
    targetWpm.Some? && targetWpm.value != 0
  }

  function Pacing(wpm: int): string
  {
    PacingHead + IntToString(wpm) + PacingTail
  }

  /**
   * `finalSystemInstruction`: the scenario's instruction and the English-only
   * paragraph, then the pacing paragraph exactly when a target pace is set, naming
   * the target in decimal.
   */
  function FinalSystemInstruction(instruction: string, targetWpm: Option<int>): (r: string)
    ensures |r| >= |instruction + EnglishOnly| && r[..|instruction + EnglishOnly|] == instruction + EnglishOnly
    ensures |r| > |instruction + EnglishOnly| <==> HasPace(targetWpm)
    ensures HasPace(targetWpm) ==>
      var wpm := IntToString(targetWpm.value);
      var at := |instruction + EnglishOnly + PacingHead|;
      at + |wpm| <= |r| && r[at..at + |wpm|] == wpm
  {
    var base := instruction + EnglishOnly;
    if HasPace(targetWpm) then
      var wpm := IntToString(targetWpm.value);
      PrefixAndInfix(base, PacingHead, wpm, PacingTail);
      base + Pacing(targetWpm.value)
    else
      assert base[..|base|] == base;
      base
  }

  /** In `a + b + c + d`, `a` is the prefix and `c` sits right after `a + b`. */
  lemma PrefixAndInfix(a: string, b: string, c: string, d: string)
    ensures var s := a + (b + c + d);
            && s == a + b + c + d
            && |s| == |a| + |b| + |c| + |d|
            && s[..|a|] == a
            && s[|a + b|..|a + b| + |c|] == c
  {
    var s := a + (b + c + d);
    assert s == a + b + c + d;
    assert s[..|a|] == a;
    assert s[|a + b|..|a + b| + |c|] == c;
  }

  /** The speaker label of a transcript line. */
  function Label(speaker: Speaker): string
  {
    match speaker
    case User => "Learner"
    case Ai => "Tutor"
  }

  function Line(turn: Turn): string
  {
    Label(turn.speaker) + ": " + turn.text
  }

  function Lines(turns: seq<Turn>): (r: seq<string>)
    ensures |r| == |turns|
    ensures forall k :: 0 <= k < |turns| ==> r[k] == Line(turns[k])
  {
    seq(|turns|, k requires 0 <= k < |turns| => Line(turns[k]))
  }

  /** `formattedHistory`: one `Learner: …` or `Tutor: …` line per turn, in order. */
  function FormatHistory(turns: seq<Turn>): string
  {
    Join(Lines(turns), '\n')
  }

  /** Reads one transcript line back into a turn. */
  function ParseLine(line: string): (r: Option<Turn>)
    ensures r.Some? ==> Line(r.value) == line
  {
    var learner, tutor := "Learner: ", "Tutor: ";
    if |line| >= |learner| && line[..|learner|] == learner then
      assert line == learner + line[|learner|..];
      Some(Turn(User, line[|learner|..]))
    else if |line| >= |tutor| && line[..|tutor|] == tutor then
      assert line == tutor + line[|tutor|..];
      Some(Turn(Ai, line[|tutor|..]))
    else None
  }

  function ParseLines(lines: seq<string>): (r: Option<seq<Turn>>)
    ensures r.Some? ==> |r.value| == |lines|
    decreases |lines|
  {
    if lines == [] then Some([])
    else match (ParseLine(lines[0]), ParseLines(lines[1..]))
      case (Some(t), Some(ts)) => Some([t] + ts)
      case _ => None
  }

  /** Reads a formatted transcript back into its turns. */
  function ParseTranscript(s: string): Option<seq<Turn>>
  {
    ParseLines(Split(s, '\n'))
  }

  lemma ParseLineOfLine(turn: Turn)
    ensures ParseLine(Line(turn)) == Some(turn)
  {
    var line := Line(turn);
    if turn.speaker == User {
      assert line[..|"Learner: "|] == "Learner: ";
      assert line[|"Learner: "|..] == turn.text;
    } else {
      assert line[..|"Tutor: "|] == "Tutor: ";
      assert line[|"Tutor: "|..] == turn.text;
      assert line[0] == 'T';
    }
  }

  lemma {:induction false} ParseLinesOfLines(turns: seq<Turn>)
    ensures ParseLines(Lines(turns)) == Some(turns)
    decreases |turns|
  {
    if turns != [] {
      var lines := Lines(turns);
      LinesTail(turns);
      ParseLineOfLine(turns[0]);
      ParseLinesOfLines(turns[1..]);
      assert ParseLines(lines) == Some([turns[0]] + turns[1..]);
      assert [turns[0]] + turns[1..] == turns;
    }
  }

  /** The first line is the first turn's, the rest are the other turns'. */
  lemma LinesTail(turns: seq<Turn>)
    requires turns != []
    ensures Lines(turns)[0] == Line(turns[0]) && Lines(turns)[1..] == Lines(turns[1..])
  {
    var lines := Lines(turns);
    assert lines[1..] == Lines(turns[1..]);
  }

  /**
   * The formatted transcript loses nothing: when no turn's text holds a line break,
   * reading it back gives the speakers and texts of every turn, in order.
   */
  lemma TranscriptRoundTrip(turns: seq<Turn>)
    requires turns != []
    requires forall k :: 0 <= k < |turns| ==> '\n' !in turns[k].text
    ensures ParseTranscript(FormatHistory(turns)) == Some(turns)
  {
    var lines := Lines(turns);
    forall k | 0 <= k < |lines| ensures '\n' !in lines[k] {
      assert lines[k] == Label(turns[k].speaker) + ": " + turns[k].text;
      assert '\n' !in Label(turns[k].speaker) + ": ";
    }
    SplitJoin(lines, '\n');
    ParseLinesOfLines(turns);
  }

  /** The feedback `getConversationFeedback` returns when anything fails. */
  const FallbackFeedback := Feedback(
    "Sorry, I couldn't analyze the intonation for this conversation.",
    "Sorry, I couldn't analyze the grammar for this conversation.",
    "Failed to generate feedback due to an error. Please try another session.",
    [],
    SpeakingRate(0, "Sorry, I couldn't analyze the speaking rate for this conversation."),
    [])

  /**
   * `getConversationFeedback`: the analyzer is given the formatted transcript; its
   * answer is the feedback, and a failure (the request, the reply or its parsing)
   * gives the fixed fallback, which has no pronunciation items, no vocabulary and a
   * rate of 0 words per minute.
   */
  function GetConversationFeedback(turns: seq<Turn>, analyze: string -> Option<Feedback>): (r: Feedback)
    ensures analyze(FormatHistory(turns)).Some? ==> r == analyze(FormatHistory(turns)).value
    ensures analyze(FormatHistory(turns)).None? ==>
      r == FallbackFeedback && r.pronunciation == [] && r.vocabulary == [] && r.speakingRate.wpm == 0
  {
    match analyze(FormatHistory(turns))
    case Some(feedback) => feedback
    case None => FallbackFeedback
  }
}
