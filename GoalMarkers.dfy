/**
 * The goal marker of `services/geminiService.ts`: the pattern
 * `[GOAL_COMPLETE: "<goal>"]`, where the goal is one or more characters other than a
 * double quote. A global regular expression finds its matches left to right without
 * overlap; `exec` in a loop reports each captured goal and `replace(..., '')` deletes
 * every match. Both are modelled on suffixes: a match can start at the front of a
 * string, and the leftmost match is the first suffix where one starts.
 */
module GoalMarkers {
  import opened Types

  /** The fixed text in front of the captured goal. */
  const Open := "[GOAL_COMPLETE: \""

  /** The marker a tutor reply carries for goal `g`. */
  function Marker(g: string): string
  {
    Open + g + "\"]"
  }

  /** A match found at the front of a string: the captured goal and the match length. */
  datatype Match = Match(goal: string, length: nat)

  /** The index of the first double quote in `s`, or `|s|` when there is none. */
  function FirstQuote(s: string): (i: nat)
    ensures i <= |s|
    ensures i < |s| ==> s[i] == '"'
    ensures forall k :: 0 <= k < i ==> s[k] != '"'
    decreases |s|
  {
    if s == [] || s[0] == '"' then 0 else 1 + FirstQuote(s[1..])
  }

  /**
   * The match of the pattern at the front of `s`, if any. The capture `[^"]+` cannot
   * run past a double quote, so it ends at the first one, which must follow at least
   * one character and be followed by `]`.
   */
  function MatchAt(s: string): (m: Option<Match>)
    ensures m.Some? ==>
      && m.value.goal != [] && '"' !in m.value.goal
      && m.value.length == |Marker(m.value.goal)| <= |s|
      && s[..m.value.length] == Marker(m.value.goal)
  {
    if |s| < |Open| || s[..|Open|] != Open then None
    else
      var t := s[|Open|..];
      var q := FirstQuote(t);
      if 0 < q && q + 1 < |t| && t[q + 1] == ']' then
        var g := t[..q];
        assert t[..q + 2] == g + "\"]";
        assert s[..|Open| + q + 2] == Open + t[..q + 2];
        Some(Match(g, |Open| + q + 2))
      else None
  }

  /** The leftmost match: its start and the match there. */
  function FindMatch(s: string): (r: Option<(nat, Match)>)
    ensures r.Some? ==> r.value.0 + r.value.1.length <= |s| && MatchAt(s[r.value.0..]) == Some(r.value.1)
    decreases |s|
  {
    if s == [] then None
    else match MatchAt(s)
      case Some(m) => Some((0, m))
      case None =>
        match FindMatch(s[1..])
        case None => None
        case Some((p, m)) =>
          assert s[p + 1..] == s[1..][p..];
          Some((p + 1, m))
  }

  /** No match starts before the one found, and none at all when nothing is found. */
  lemma {:induction false} FindMatchLeftmost(s: string)
    ensures var r := FindMatch(s);
            && (r.Some? ==> forall k :: 0 <= k < r.value.0 ==> MatchAt(s[k..]).None?)
            && (r.None? ==> forall k :: 0 <= k <= |s| ==> MatchAt(s[k..]).None?)
    decreases |s|
  {
    if s != [] && MatchAt(s).None? {
      FindMatchLeftmost(s[1..]);
      forall k | 1 <= k <= |s| ensures s[k..] == s[1..][k - 1..] { }
    }
  }

  /** The goals `exec` reports, in order. */
  function Goals(s: string): (r: seq<string>)
    ensures forall k :: 0 <= k < |r| ==> r[k] != [] && '"' !in r[k]
    decreases |s|
  {
    match FindMatch(s)
    case None => []
    case Some((p, m)) => [m.goal] + Goals(s[p + m.length..])
  }

  /** One step of the scan: the leftmost match's goal, then the goals after it. */
  lemma GoalsStep(s: string)
    requires FindMatch(s).Some?
    ensures var (p, m) := FindMatch(s).value;
            && 0 < p + m.length <= |s|
            && Goals(s) == [m.goal] + Goals(s[p + m.length..])
  {
  }

  /** `s.replace(goalRegex, '')`: every match deleted. */
  function Strip(s: string): (r: string)
    ensures |r| <= |s|
    decreases |s|
  {
    match FindMatch(s)
    case None => s
    case Some((p, m)) => s[..p] + Strip(s[p + m.length..])
  }

  /** A match starts with `[`. */
  lemma NoMatchWithoutBracket(s: string)
    requires s == [] || s[0] != '['
    ensures MatchAt(s).None?
  {
    if |s| >= |Open| {
      assert s[..|Open|][0] == s[0];
    }
  }

  /** A string without `[` holds no marker: nothing is reported and nothing is deleted. */
  lemma NoBracketNoMarker(s: string)
    requires '[' !in s
    ensures Goals(s) == [] && Strip(s) == s
  {
    forall k | 0 <= k <= |s| ensures MatchAt(s[k..]).None? {
      if k < |s| {
        assert s[k..][0] == s[k];
      }
      NoMatchWithoutBracket(s[k..]);
    }
  }

  /** The marker of a goal without quotes matches at its own front and captures the goal. */
  lemma MarkerMatches(g: string, post: string)
    requires g != [] && '"' !in g
    ensures MatchAt(Marker(g) + post) == Some(Match(g, |Marker(g)|))
  {
    var s := Marker(g) + post;
    assert s == Open + (g + ("\"]" + post));
    assert s[..|Open|] == Open;
    var t := s[|Open|..];
    assert t == g + ("\"]" + post);
    FirstQuoteAfter(g, "\"]" + post);
    assert t[|g| + 1] == ']' && t[..|g|] == g;
  }

  lemma {:induction false} FirstQuoteAfter(g: string, rest: string)
    requires '"' !in g && rest != [] && rest[0] == '"'
    ensures FirstQuote(g + rest) == |g|
    decreases |g|
  {
    if g != [] {
      assert (g + rest)[1..] == g[1..] + rest;
      FirstQuoteAfter(g[1..], rest);
    }
  }

  /** A match behind text without `[` is the leftmost match. */
  lemma FoundBehindPlainText(pre: string, rest: string)
    requires '[' !in pre && MatchAt(rest).Some?
    ensures FindMatch(pre + rest) == Some((|pre|, MatchAt(rest).value))
  {
    var s := pre + rest;
    forall k | 0 <= k < |pre| ensures MatchAt(s[k..]).None? {
      assert s[k..][0] == pre[k];
      NoMatchWithoutBracket(s[k..]);
    }
    assert s[|pre|..] == rest;
    FindMatchLeftmost(s);
  }

  /** A marker behind text without `[` is the leftmost match. */
  lemma MarkerFoundFirst(pre: string, g: string, post: string)
    requires '[' !in pre && g != [] && '"' !in g
    ensures FindMatch(pre + Marker(g) + post) == Some((|pre|, Match(g, |Marker(g)|)))
  {
    MarkerMatches(g, post);
    assert pre + Marker(g) + post == pre + (Marker(g) + post);
    FoundBehindPlainText(pre, Marker(g) + post);
  }

  /**
   * A marker behind text without `[` is the first match: its goal is reported first
   * and it is deleted, the text in front of it kept.
   */
  lemma MarkerReported(pre: string, g: string, post: string)
    requires '[' !in pre && g != [] && '"' !in g
    ensures Goals(pre + Marker(g) + post) == [g] + Goals(post)
    ensures Strip(pre + Marker(g) + post) == pre + Strip(post)
  {
    MarkerGoalReported(pre, g, post);
    MarkerDeleted(pre, g, post);
  }

  lemma MarkerGoalReported(pre: string, g: string, post: string)
    requires '[' !in pre && g != [] && '"' !in g
    ensures Goals(pre + Marker(g) + post) == [g] + Goals(post)
  {
    var s := pre + Marker(g) + post;
    MarkerFoundFirst(pre, g, post);
    assert s[|pre| + |Marker(g)|..] == post;
  }

  lemma MarkerDeleted(pre: string, g: string, post: string)
    requires '[' !in pre && g != [] && '"' !in g
    ensures Strip(pre + Marker(g) + post) == pre + Strip(post)
  {
    var s := pre + Marker(g) + post;
    var n := |pre| + |Marker(g)|;
    MarkerFoundFirst(pre, g, post);
    assert Strip(s) == s[..|pre|] + Strip(s[n..]);
    assert s[n..] == post && s[..|pre|] == pre;
  }

  /** Only the first character of the opening text is a `[`. */
  lemma OpenBracketOnlyFirst()
    ensures forall k :: 1 <= k < |Open| ==> Open[k] != '['
  {
  }

  /** The opening text and a goal, without the closing `"]`, is no match anywhere. */
  lemma UnclosedMarker(g: string)
    requires '"' !in g && '[' !in g
    ensures Goals(Open + g) == [] && Strip(Open + g) == Open + g
  {
    var a := Open + g;
    OpenBracketOnlyFirst();
    forall k | 0 <= k <= |a| ensures MatchAt(a[k..]).None? {
      if k == 0 {
        assert a[..|Open|] == Open && a[|Open|..] == g;
        FirstQuoteNone(g);
      } else {
        if k < |a| {
          assert a[k..][0] == a[k];
          if k >= |Open| {
            assert a[k] == g[k - |Open|];
          }
        }
        NoMatchWithoutBracket(a[k..]);
      }
    }
  }

  /**
   * Only the new fragment is scanned for goals, while the whole transcript is
   * stripped: a marker that arrives split over two fragments is deleted from the
   * shown text but its goal is never reported.
   */
  lemma SplitMarkerNeverReported(g: string)
    requires g != [] && '"' !in g && '[' !in g
    ensures Goals(Open + g) == [] && Goals("\"]") == []
    ensures Goals(Marker(g)) == [g] && Strip(Marker(g)) == []
  {
    UnclosedMarker(g);
    NoBracketNoMarker("\"]");
    MarkerAlone(g);
  }

  /** A marker on its own is reported and deleted entirely. */
  lemma MarkerAlone(g: string)
    requires g != [] && '"' !in g
    ensures Goals(Marker(g)) == [g] && Strip(Marker(g)) == []
  {
    MarkerReported("", g, "");
    assert "" + Marker(g) + "" == Marker(g);
  }

  lemma {:induction false} FirstQuoteNone(s: string)
    requires '"' !in s
    ensures FirstQuote(s) == |s|
    decreases |s|
  {
    if s != [] {
      FirstQuoteNone(s[1..]);
    }
  }
}
