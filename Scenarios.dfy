/**
 * `applyInstructionTemplate` of `services/scenarios.ts`: how a catalog entry becomes a
 * published scenario. The prose of the fifty catalog entries is content and is not
 * part of this model; the template the goals are spliced into is.
 */
module Scenarios {
  import opened Types
  import opened Text

  /** A catalog entry before the template is applied. */
  datatype ScenarioData = ScenarioData(
    title: string,
    description: string,
    difficulty: Difficulty,
    goals: seq<string>,
    targetWpm: Option<int>,
    baseInstruction: string,
    imageKeywords: string)

  const Goal1Placeholder := "{{GOAL_1}}"
  const Goal2Placeholder := "{{GOAL_2}}"
  const Goal3Placeholder := "{{GOAL_3}}"

  // The text of GOAL_TRACKING_INSTRUCTION in front of the first placeholder, in pieces
  // short enough for the verifier to inspect character by character.
  const Head1 := "\nYour primary task is to role-play "
  const Head2 := "according to the scenario. While doing "
  const Head3 := "so, you MUST listen for when the user "
  const Head4 := "successfully completes one of their "
  const Head5 := "goals.\nThe user's goals for this "
  const Head6 := "conversation are:\n- Goal 1: "
  const TemplateHead := Head1 + Head2 + Head3 + Head4 + Head5 + Head6 + Quote

  const Quote := "\""
  const Goal2Label := "\n- Goal 2: "
  const Goal3Label := "\n- Goal 3: "
  const TemplateMid1 := Quote + Goal2Label + Quote
  const TemplateMid2 := Quote + Goal3Label + Quote
  const TemplateTail := Quote + TailText
  // The rest of the template after the last placeholder, in pieces of forty characters.
  const Tail1 := "\n\nWhen a user's utterance clearly and su"
  const Tail2 := "ccessfully completes a goal, you MUST in"
  const Tail3 := "clude a special tag in your transcribed "
  const Tail4 := "response: [GOAL_COMPLETE: \"The exact tex"
  const Tail5 := "t of the goal that was completed\"].\nFor "
  const Tail6 := "example, if a goal is \"Ask for the price"
  const Tail7 := "\" and the user says \"How much is this?\","
  const Tail8 := " you must include [GOAL_COMPLETE: \"Ask f"
  const Tail9 := "or the price\"] in your transcription.\nDO"
  const Tail10 := " NOT say the tag out loud. It is for the"
  const Tail11 := " system only. Include it seamlessly with"
  const Tail12 := "in your natural response's transcription"
  const Tail13 := ".\nOnly mark a goal as complete once.\n"
  const TailText :=
    Tail1 + Tail2 + Tail3 + Tail4 + Tail5 + Tail6
    + Tail7 + Tail8 + Tail9 + Tail10 + Tail11 + Tail12
    + Tail13

  /** `GOAL_TRACKING_INSTRUCTION`. */
  const GoalTrackingInstruction := TemplateHead + Goal1Placeholder + TemplateMid1 + Goal2Placeholder
                                   + TemplateMid2 + Goal3Placeholder + TemplateTail

  // One lemma per piece: each is a character-by-character inspection of a short literal.
  lemma Head1NoBrace() ensures '{' !in Head1 { }
  lemma Head2NoBrace() ensures '{' !in Head2 { }
  lemma Head3NoBrace() ensures '{' !in Head3 { }
  lemma Head4NoBrace() ensures '{' !in Head4 { }
  lemma Head5NoBrace() ensures '{' !in Head5 { }
  lemma Head6NoBrace() ensures '{' !in Head6 { }

  /** No placeholder can start before the first one: the template's opening has no `{`. */
  lemma HeadHasNoBrace()
    ensures '{' !in TemplateHead && '{' !in TemplateMid1 && '{' !in TemplateMid2
  {
    Head1NoBrace(); Head2NoBrace(); Head3NoBrace();
    Head4NoBrace(); Head5NoBrace(); Head6NoBrace();
  }

  /** `scenario.goals[i]`; a missing goal is `undefined`, which `replace` writes as text. */
  function GoalAt(goals: seq<string>, i: nat): string
  {
    if i < |goals| then goals[i] else "undefined"
  }

  /** The three chained `replace` calls on the template. */
  function GoalInstruction(goals: seq<string>): string
  {
    ReplaceFirst(
      ReplaceFirst(
        ReplaceFirst(GoalTrackingInstruction, Goal1Placeholder, GoalAt(goals, 0)),
        Goal2Placeholder, GoalAt(goals, 1)),
      Goal3Placeholder, GoalAt(goals, 2))
  }

  /**
   * Two chained first-occurrence replacements on `pre + p + mid + q + tail` put each
   * replacement where its pattern was, provided nothing in front of a pattern (the text
   * before it and the replacement made so far) contains its first character.
   */
  lemma {:induction false} ReplaceTwo(pre: string, p: string, mid: string, q: string, tail: string,
                                      g: string, h: string)
    requires p != [] && q != []
    requires p[0] !in pre && q[0] !in pre + g + mid
    ensures ReplaceFirst(ReplaceFirst(pre + p + mid + q + tail, p, g), q, h) == pre + g + mid + h + tail
  {
    var rest := mid + q + tail;
    var s := pre + p + mid + q + tail;
    var r1 := pre + g + rest;
    assert ReplaceFirst(s, p, g) == r1 by {
      assert s == pre + p + rest;
      ReplaceFirstAfter(pre, p, g, rest);
    }
    var front := pre + g + mid;
    assert ReplaceFirst(r1, q, h) == front + h + tail by {
      assert r1 == front + q + tail;
      ReplaceFirstAfter(front, q, h, tail);
    }
    assert front + h + tail == pre + g + mid + h + tail;
  }

  /** The same for three patterns, as the template has. */
  lemma {:induction false} ReplaceThree(head: string, p1: string, mid1: string, p2: string, mid2: string,
                                        p3: string, tail: string, g1: string, g2: string, g3: string)
    requires p1 != [] && p2 != [] && p3 != []
    requires p1[0] !in head && p2[0] !in head + g1 + mid1 && p3[0] !in head + g1 + mid1 + g2 + mid2
    ensures ReplaceFirst(ReplaceFirst(ReplaceFirst(head + p1 + mid1 + p2 + mid2 + p3 + tail, p1, g1), p2, g2), p3, g3)
            == head + g1 + mid1 + g2 + mid2 + g3 + tail
  {
    var s := head + p1 + mid1 + p2 + mid2 + p3 + tail;
    var rest := mid1 + p2 + mid2 + p3 + tail;
    var front := head + g1 + mid1;
    var r1 := head + g1 + rest;
    assert ReplaceFirst(s, p1, g1) == r1 by {
      assert s == head + p1 + rest;
      ReplaceFirstAfter(head, p1, g1, rest);
    }
    assert ReplaceFirst(ReplaceFirst(r1, p2, g2), p3, g3) == front + g2 + mid2 + g3 + tail by {
      assert r1 == front + p2 + mid2 + p3 + tail;
      ReplaceTwo(front, p2, mid2, p3, tail, g2, g3);
    }
    assert front + g2 + mid2 + g3 + tail == head + g1 + mid1 + g2 + mid2 + g3 + tail;
  }

  /**
   * Each placeholder occurs once, so each goal lands where its placeholder was. This
   * needs the first two goals to contain no `{`: otherwise a later placeholder spelled
   * inside an earlier goal would be replaced instead.
   */
  lemma GoalInstructionSplicesGoals(goals: seq<string>)
    requires '{' !in GoalAt(goals, 0) && '{' !in GoalAt(goals, 1)
    ensures GoalInstruction(goals) ==
      TemplateHead + GoalAt(goals, 0) + TemplateMid1 + GoalAt(goals, 1)
      + TemplateMid2 + GoalAt(goals, 2) + TemplateTail
  {
    HeadHasNoBrace();
    ReplaceThree(TemplateHead, Goal1Placeholder, TemplateMid1, Goal2Placeholder, TemplateMid2,
                 Goal3Placeholder, TemplateTail, GoalAt(goals, 0), GoalAt(goals, 1), GoalAt(goals, 2));
  }

  /** `title.toLowerCase().replace(/ /g, '-')`. */
  function ScenarioId(title: string): (id: string)
    ensures |id| == |title|
    ensures ' ' !in id
    ensures forall i :: 0 <= i < |title| ==> id[i] == (if title[i] == ' ' then '-' else LowerChar(title[i]))
  {
    ReplaceChar(Lower(title), ' ', '-')
  }

  function ImageUrl(id: string): string
  {
    "https://picsum.photos/seed/" + id + "/400/200"
  }

  /**
   * `applyInstructionTemplate`: the entry's own fields are copied, the id is the slug
   * of the title, the system instruction is the base instruction, a blank line and
   * the goal-tracking text, and the image URL is built from the id.
   */
  function ApplyInstructionTemplate(data: ScenarioData): (s: Scenario)
    ensures s.title == data.title && s.description == data.description && s.difficulty == data.difficulty
    ensures s.goals == data.goals && s.targetWpm == data.targetWpm
    ensures s.id == ScenarioId(data.title)
    ensures s.systemInstruction == data.baseInstruction + "\n\n" + GoalInstruction(data.goals)
    ensures s.imageUrl == "https://picsum.photos/seed/" + s.id + "/400/200"
  {
    var id := ScenarioId(data.title);
    Scenario(id, data.title, data.description, data.difficulty,
             data.baseInstruction + "\n\n" + GoalInstruction(data.goals), data.goals, ImageUrl(id), data.targetWpm)
  }

  /** `m` occurs in `s` at index `i`. */
  ghost predicate InfixAt(s: string, m: string, i: nat)
  {
    i + |m| <= |s| && s[i..i + |m|] == m
  }

  /** A goal between text ending in a quote and text starting with one is quoted. */
  lemma QuoteAround(a: string, g: string, b: string)
    requires a != [] && a[|a| - 1] == '"' && b != [] && b[0] == '"'
    ensures InfixAt(a + g + b, Quote + g + Quote, |a| - 1)
  {
    var s := a + g + b;
    var m := Quote + g + Quote;
    assert |m| == |g| + 2;
    forall k | 0 <= k < |m| ensures s[|a| - 1 + k] == m[k] {
      if k == 0 {
      } else if k <= |g| {
        assert s[|a| - 1 + k] == g[k - 1];
      } else {
        assert s[|a| - 1 + k] == b[0];
      }
    }
  }

  lemma InfixAtAppend(s: string, m: string, i: nat, t: string)
    requires InfixAt(s, m, i)
    ensures InfixAt(s + t, m, i)
  {
    assert (s + t)[i..i + |m|] == s[i..i + |m|];
  }

  lemma InfixAtPrepend(p: string, s: string, m: string, i: nat)
    requires InfixAt(s, m, i)
    ensures InfixAt(p + s, m, |p| + i)
  {
    assert (p + s)[|p| + i..|p| + i + |m|] == s[i..i + |m|];
  }

  /** The pieces around the goals end and start with quotes. */
  ghost predicate QuoteFramed(th: string, m1: string, m2: string, tt: string)
  {
    && th != [] && th[|th| - 1] == '"'
    && m1 != [] && m1[0] == '"' && m1[|m1| - 1] == '"'
    && m2 != [] && m2[0] == '"' && m2[|m2| - 1] == '"'
    && tt != [] && tt[0] == '"'
  }

  /** The template's opening ends in a quote, and its middle pieces start and end with one. */
  lemma TemplateQuotes()
    ensures QuoteFramed(TemplateHead, TemplateMid1, TemplateMid2, TemplateTail)
  {
    var h := Head1 + Head2 + Head3 + Head4 + Head5 + Head6;
    assert TemplateHead[|TemplateHead| - 1] == Quote[0];
    assert TemplateMid1[|TemplateMid1| - 1] == Quote[0];
    assert TemplateMid2[|TemplateMid2| - 1] == Quote[0];
  }

  /**
   * In `th + g1 + m1 + g2 + m2 + g3 + tt`, where the pieces around the goals end and
   * start with quotes, each goal sits between two quotes.
   */
  lemma QuotedInSplice(th: string, m1: string, m2: string, tt: string,
                       g1: string, g2: string, g3: string, g: string) returns (at: nat)
    requires g == g1 || g == g2 || g == g3
    requires QuoteFramed(th, m1, m2, tt)
    ensures InfixAt(th + g1 + m1 + g2 + m2 + g3 + tt, Quote + g + Quote, at)
  {
    var x := th + g1 + m1;
    var y := x + g2 + m2;
    var m := Quote + g + Quote;
    if g == g1 {
      QuoteAround(th, g1, m1);
      at := |th| - 1;
      InfixAtAppend(x, m, at, g2);
      InfixAtAppend(x + g2, m, at, m2);
      InfixAtAppend(y, m, at, g3);
      InfixAtAppend(y + g3, m, at, tt);
    } else if g == g2 {
      assert x[|x| - 1] == m1[|m1| - 1];
      QuoteAround(x, g2, m2);
      at := |x| - 1;
      InfixAtAppend(y, m, at, g3);
      InfixAtAppend(y + g3, m, at, tt);
    } else {
      assert y[|y| - 1] == m2[|m2| - 1];
      QuoteAround(y, g3, tt);
      at := |y| - 1;
    }
  }

  /** With the first two goals free of `{`, each of the first three goals is quoted in the goal text. */
  lemma GoalQuotedInGoalInstruction(goals: seq<string>, k: nat) returns (at: nat)
    requires k < 3 && k < |goals|
    requires '{' !in GoalAt(goals, 0) && '{' !in GoalAt(goals, 1)
    ensures InfixAt(GoalInstruction(goals), Quote + goals[k] + Quote, at)
  {
    var g1, g2, g3 := GoalAt(goals, 0), GoalAt(goals, 1), GoalAt(goals, 2);
    assert goals[k] == g1 || goals[k] == g2 || goals[k] == g3 by {
      if k == 0 { assert goals[k] == g1; }
      else if k == 1 { assert goals[k] == g2; }
      else { assert goals[k] == g3; }
    }
    GoalInstructionSplicesGoals(goals);
    TemplateQuotes();
    at := QuotedInSplice(TemplateHead, TemplateMid1, TemplateMid2, TemplateTail, g1, g2, g3, goals[k]);
  }

  /**
   * With goals free of `{`, each of the first three goals of a published scenario
   * appears, in double quotes, in its system instruction.
   */
  lemma GoalsQuotedInInstruction(data: ScenarioData, k: nat)
    requires k < 3 && k < |data.goals|
    requires '{' !in GoalAt(data.goals, 0) && '{' !in GoalAt(data.goals, 1)
    ensures var text := ApplyInstructionTemplate(data).systemInstruction;
            exists i, j :: 0 <= i <= j <= |text| && text[i..j] == Quote + data.goals[k] + Quote
  {
    var m := Quote + data.goals[k] + Quote;
    var at := GoalQuotedInGoalInstruction(data.goals, k);
    var pre := data.baseInstruction + "\n\n";
    InfixAtPrepend(pre, GoalInstruction(data.goals), m, at);
    var text := ApplyInstructionTemplate(data).systemInstruction;
    assert text == pre + GoalInstruction(data.goals);
    assert text[|pre| + at..|pre| + at + |m|] == m;
  }

  /** `scenariosData.map(applyInstructionTemplate)`. */
  function PublishAll(data: seq<ScenarioData>): (r: seq<Scenario>)
    ensures |r| == |data|
    ensures forall i :: 0 <= i < |data| ==> r[i] == ApplyInstructionTemplate(data[i])
  {
    seq(|data|, i requires 0 <= i < |data| => ApplyInstructionTemplate(data[i]))
  }
}
