/**
 * The catalog screen of `components/ScenarioSelectionView.tsx`: the scenarios are
 * grouped by difficulty into a dictionary by a fold that appends to each group, and
 * the groups that exist are shown as sections in the order Easy, Medium, Hard.
 */
module Grouping {
  import opened Types

  /** The scenarios of difficulty `d`, in catalog order. */
  function OfDifficulty(scenarios: seq<Scenario>, d: Difficulty): (r: seq<Scenario>)
    ensures |r| <= |scenarios|
    decreases |scenarios|
  {
    if scenarios == [] then []
    else
      var last := scenarios[|scenarios| - 1];
      OfDifficulty(scenarios[..|scenarios| - 1], d) + (if last.difficulty == d then [last] else [])
  }

  /** Appending one scenario appends it to its own difficulty's list only. */
  lemma OfDifficultySnoc(scenarios: seq<Scenario>, x: Scenario, d: Difficulty)
    ensures OfDifficulty(scenarios + [x], d) == OfDifficulty(scenarios, d) + (if x.difficulty == d then [x] else [])
  {
    assert (scenarios + [x])[..|scenarios|] == scenarios;
  }

  /** A difficulty's list holds exactly the scenarios of that difficulty. */
  lemma {:induction false} OfDifficultyMembers(scenarios: seq<Scenario>, d: Difficulty, x: Scenario)
    ensures x in OfDifficulty(scenarios, d) <==> x in scenarios && x.difficulty == d
    decreases |scenarios|
  {
    if scenarios != [] {
      var front, last := scenarios[..|scenarios| - 1], scenarios[|scenarios| - 1];
      assert scenarios == front + [last];
      OfDifficultyMembers(front, d, x);
    }
  }

  /** The dictionary the fold produces: a key only for a difficulty that occurs. */
  function Grouped(scenarios: seq<Scenario>): map<Difficulty, seq<Scenario>>
  {
    map d: Difficulty | OfDifficulty(scenarios, d) != [] :: OfDifficulty(scenarios, d)
  }

  /** A difficulty has a group exactly when some scenario has that difficulty. */
  lemma GroupedKeys(scenarios: seq<Scenario>, d: Difficulty)
    ensures d in Grouped(scenarios) <==> exists i :: 0 <= i < |scenarios| && scenarios[i].difficulty == d
  {
    var r := OfDifficulty(scenarios, d);
    if r != [] {
      OfDifficultyMembers(scenarios, d, r[0]);
      var i :| 0 <= i < |scenarios| && scenarios[i] == r[0];
    }
    if exists i :: 0 <= i < |scenarios| && scenarios[i].difficulty == d {
      var i :| 0 <= i < |scenarios| && scenarios[i].difficulty == d;
      OfDifficultyMembers(scenarios, d, scenarios[i]);
    }
  }

  /** Folding one more scenario in creates or extends its difficulty's group. */
  lemma GroupedSnoc(scenarios: seq<Scenario>, x: Scenario)
    ensures var g := Grouped(scenarios);
            Grouped(scenarios + [x]) == g[x.difficulty := (if x.difficulty in g then g[x.difficulty] else []) + [x]]
  {
    var g := Grouped(scenarios);
    var g' := g[x.difficulty := (if x.difficulty in g then g[x.difficulty] else []) + [x]];
    var n := Grouped(scenarios + [x]);
    forall d ensures d in n <==> d in g'
      ensures d in n ==> n[d] == g'[d]
    {
      OfDifficultySnoc(scenarios, x, d);
    }
  }

  /**
   * `scenarios.reduce(...)`: one pass that creates a difficulty's group the first time
   * it is met and appends to it after that.
   */
  method GroupByDifficulty(scenarios: seq<Scenario>) returns (groups: map<Difficulty, seq<Scenario>>)
    ensures groups == Grouped(scenarios)
  {
    groups := map[];
    for i := 0 to |scenarios|
      invariant groups == Grouped(scenarios[..i])
    {
      var s := scenarios[i];
      assert scenarios[..i + 1] == scenarios[..i] + [s];
      GroupedSnoc(scenarios[..i], s);
      if s.difficulty in groups {
        groups := groups[s.difficulty := groups[s.difficulty] + [s]];
      } else {
        assert [] + [s] == [s];
        groups := groups[s.difficulty := [s]];
      }
    }
    assert scenarios[..|scenarios|] == scenarios;
  }

  /** `difficultyOrder`. */
  const DifficultyOrder: seq<Difficulty> := [Easy, Medium, Hard]

  function Rank(d: Difficulty): nat
  {
    match d
    case Easy => 0
    case Medium => 1
    case Hard => 2
  }

  datatype Section = Section(difficulty: Difficulty, scenarios: seq<Scenario>)

  /** The sections rendered: one per difficulty in order, skipping absent groups. */
  function SectionsFrom(order: seq<Difficulty>, groups: map<Difficulty, seq<Scenario>>): seq<Section>
  {
    if order == [] then []
    else
      (if order[0] in groups then [Section(order[0], groups[order[0]])] else [])
      + SectionsFrom(order[1..], groups)
  }

  function Sections(groups: map<Difficulty, seq<Scenario>>): seq<Section>
  {
    SectionsFrom(DifficultyOrder, groups)
  }

  function Flatten(sections: seq<Section>): seq<Scenario>
  {
    if sections == [] then [] else sections[0].scenarios + Flatten(sections[1..])
  }

  lemma {:induction false} OfDifficultyCount(scenarios: seq<Scenario>)
    ensures multiset(OfDifficulty(scenarios, Easy)) + multiset(OfDifficulty(scenarios, Medium))
            + multiset(OfDifficulty(scenarios, Hard)) == multiset(scenarios)
    decreases |scenarios|
  {
    if scenarios != [] {
      var front, x := scenarios[..|scenarios| - 1], scenarios[|scenarios| - 1];
      assert scenarios == front + [x];
      OfDifficultyCount(front);
      OfDifficultySnoc(front, x, Easy);
      OfDifficultySnoc(front, x, Medium);
      OfDifficultySnoc(front, x, Hard);
    }
  }

  /** The sections of any dictionary: Easy, Medium and Hard, each only if present. */
  lemma SectionsShape(groups: map<Difficulty, seq<Scenario>>)
    ensures Sections(groups) == Present(Easy, groups) + Present(Medium, groups) + Present(Hard, groups)
  {
    assert DifficultyOrder[1..] == [Medium, Hard] && [Medium, Hard][1..] == [Hard] && [Hard][1..] == [];
    assert SectionsFrom([Hard], groups) == Present(Hard, groups);
    assert SectionsFrom([Medium, Hard], groups) == Present(Medium, groups) + Present(Hard, groups);
  }

  function Present(d: Difficulty, groups: map<Difficulty, seq<Scenario>>): seq<Section>
  {
    if d in groups then [Section(d, groups[d])] else []
  }

  lemma {:induction false} FlattenAppend(a: seq<Section>, b: seq<Section>)
    ensures Flatten(a + b) == Flatten(a) + Flatten(b)
  {
    if a == [] {
      assert a + b == b;
    } else {
      assert (a + b)[0] == a[0] && (a + b)[1..] == a[1..] + b;
      FlattenAppend(a[1..], b);
    }
  }

  /** Whatever the dictionary, the sections follow the difficulty order, each at most once. */
  lemma SectionsOrdered(groups: map<Difficulty, seq<Scenario>>)
    ensures var sections := Sections(groups);
            forall k, l :: 0 <= k < l < |sections| ==> Rank(sections[k].difficulty) < Rank(sections[l].difficulty)
  {
    var se, sm, sh := Present(Easy, groups), Present(Medium, groups), Present(Hard, groups);
    SectionsShape(groups);
    var sections := se + sm + sh;
    forall k | 0 <= k < |sections|
      ensures Rank(sections[k].difficulty) == if k < |se| then 0 else if k < |se| + |sm| then 1 else 2
    {
      if k < |se| { assert sections[k] == se[k]; }
      else if k < |se| + |sm| { assert sections[k] == sm[k - |se|]; }
      else { assert sections[k] == sh[k - |se| - |sm|]; }
    }
  }

  /** The screen shows every scenario of the catalog exactly once. */
  lemma SectionsShowEachOnce(scenarios: seq<Scenario>)
    ensures multiset(Flatten(Sections(Grouped(scenarios)))) == multiset(scenarios)
  {
    var groups := Grouped(scenarios);
    var se, sm, sh := Present(Easy, groups), Present(Medium, groups), Present(Hard, groups);
    SectionsShape(groups);
    FlattenAppend(se, sm);
    FlattenAppend(se + sm, sh);
    assert Flatten(se) == OfDifficulty(scenarios, Easy) by {
      if Easy in groups { assert Flatten(se) == se[0].scenarios + Flatten([]); }
    }
    assert Flatten(sm) == OfDifficulty(scenarios, Medium) by {
      if Medium in groups { assert Flatten(sm) == sm[0].scenarios + Flatten([]); }
    }
    assert Flatten(sh) == OfDifficulty(scenarios, Hard) by {
      if Hard in groups { assert Flatten(sh) == sh[0].scenarios + Flatten([]); }
    }
    OfDifficultyCount(scenarios);
  }

  /**
   * Each section is non-empty and holds the scenarios of its own difficulty, in
   * catalog order.
   */
  lemma SectionsAreGroups(scenarios: seq<Scenario>)
    ensures forall sec :: sec in Sections(Grouped(scenarios)) ==>
              sec.scenarios != [] && sec.scenarios == OfDifficulty(scenarios, sec.difficulty)
  {
    SectionsShape(Grouped(scenarios));
  }
}
