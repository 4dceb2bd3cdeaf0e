/**
 * The Leitner vocabulary scheduler of `services/vocabularyService.ts`.
 *
 * Every stored word sits in a box from 0 to 5 and carries the time it was last
 * reviewed. Each operation loads the whole list from its storage key, works on it
 * and, when it changes something, writes the whole list back. The storage key is
 * passed in and returned as a `Storage.Slot`; the clock is an integer number of
 * milliseconds and a day is `MsPerDay` of them.
 */
module Vocabulary {
  import opened Types
  import opened Text
  import Storage
  import Sorting

  const MaxBox := 5
  const MsPerDay := 86_400_000

  /** `reviewIntervals`: how many days a word in each box waits before it is due again. */
  const ReviewIntervals: map<int, int> := map[0 := 0, 1 := 1, 2 := 3, 3 := 7, 4 := 14, 5 := 30]

  /** `LeitnerWord`: a vocabulary item with its box and its last review time. */
  datatype LeitnerWord = LeitnerWord(word: string, definition: string, example: string, box: int, lastReviewed: int)

  datatype VocabularyStats = VocabularyStats(totalWords: nat, wordsToReview: nat, wordsMastered: nat)

  type Store = Storage.Slot<LeitnerWord>

  /** The sort key of a practice session. */
  function Box(w: LeitnerWord): int { w.box }

  /** The filter of `getPracticeSession`, one branch per guard of the source. */
  predicate IsDue(w: LeitnerWord, now: int)
  {
    if w.box == 0 then true
    else if w.box >= MaxBox then false
    else if w.box !in ReviewIntervals then false
    else now >= w.lastReviewed + ReviewIntervals[w.box] * MsPerDay
  }

  /**
   * The schedule in plain numbers: box 0 is always due, boxes 1 to 4 are due 1, 3, 7
   * and 14 days after the last review, and nothing else is ever due. In particular a
   * mastered word (box 5 or more) never comes back, so the 30-day entry of the table
   * is never used.
   */
  lemma DueSchedule(w: LeitnerWord, now: int)
    ensures IsDue(w, now) <==>
      || w.box == 0
      || (w.box == 1 && now >= w.lastReviewed + 1 * MsPerDay)
      || (w.box == 2 && now >= w.lastReviewed + 3 * MsPerDay)
      || (w.box == 3 && now >= w.lastReviewed + 7 * MsPerDay)
      || (w.box == 4 && now >= w.lastReviewed + 14 * MsPerDay)
    ensures w.box >= MaxBox ==> !IsDue(w, now)
  {
  }

  /** The words of `words` that are due at `now`, in their stored order. */
  function DueWords(words: seq<LeitnerWord>, now: int): (r: seq<LeitnerWord>)
    decreases |words|
  {
    if words == [] then []
    else (if IsDue(words[0], now) then [words[0]] else []) + DueWords(words[1..], now)
  }

  /** The due words are exactly the stored words that are due, each at most as often as stored. */
  lemma {:induction false} DueWordsSpec(words: seq<LeitnerWord>, now: int)
    ensures var r := DueWords(words, now);
            && (forall w :: w in r ==> IsDue(w, now))
            && (forall i :: 0 <= i < |words| && IsDue(words[i], now) ==> words[i] in r)
            && multiset(r) <= multiset(words)
    decreases |words|
  {
    if words != [] {
      DueWordsSpec(words[1..], now);
      assert words == [words[0]] + words[1..];
      var r := DueWords(words, now);
      forall i | 0 <= i < |words| && IsDue(words[i], now) ensures words[i] in r {
        if 0 < i {
          assert words[i] == words[1..][i - 1];
        }
      }
    }
  }

  /** The filter keeps every copy of a due record and no copy of any other. */
  lemma {:induction false} DueWordsCounts(words: seq<LeitnerWord>, now: int)
    ensures forall w :: multiset(DueWords(words, now))[w] == if IsDue(w, now) then multiset(words)[w] else 0
    decreases |words|
  {
    if words != [] {
      DueWordsCounts(words[1..], now);
      assert words == [words[0]] + words[1..];
      var h := if IsDue(words[0], now) then [words[0]] else [];
      assert multiset(words) == multiset{words[0]} + multiset(words[1..]);
      assert multiset(DueWords(words, now)) == multiset(h) + multiset(DueWords(words[1..], now));
    }
  }

  /** `getPracticeSession`: the due words, lowest box first. */
  function GetPracticeSession(store: Store, now: int): (r: seq<LeitnerWord>)
  {
    Sorting.SortBy(DueWords(Storage.Read(store), now), Box)
  }

  /**
   * The practice session is a sub-collection of the store holding every due word,
   * sorted by box; the sort being stable, words in the same box keep their stored
   * order.
   */
  lemma PracticeSessionSpec(store: Store, now: int)
    ensures var r := GetPracticeSession(store, now);
            && Sorting.SortedBy(r, Box)
            && (forall w :: w in r ==> IsDue(w, now) && w in Storage.Read(store))
            && (forall w :: w in Storage.Read(store) && IsDue(w, now) ==> w in r)
            && multiset(r) == multiset(DueWords(Storage.Read(store), now))
            && multiset(r) <= multiset(Storage.Read(store))
            && (forall b :: Sorting.WithKey(r, Box, b) == Sorting.WithKey(DueWords(Storage.Read(store), now), Box, b))
  {
    var all := Storage.Read(store);
    var due := DueWords(all, now);
    var r := GetPracticeSession(store, now);
    DueWordsSpec(all, now);
    Sorting.SortBySpec(due, Box);
    forall w | w in r ensures w in due && w in all {
      assert w in multiset(r);
      assert w in multiset(due);
      assert w in multiset(all);
    }
    forall w | w in all && IsDue(w, now) ensures w in r {
      var i :| 0 <= i < |all| && all[i] == w;
      assert w in multiset(due);
    }
    forall b ensures Sorting.WithKey(r, Box, b) == Sorting.WithKey(due, Box, b) {
      Sorting.SortStable(due, Box, b);
    }
  }

  /** A word still in box 0 is always offered for practice. */
  lemma NewWordsAlwaysPractised(store: Store, w: LeitnerWord, now: int)
    requires w in Storage.Read(store) && w.box == 0
    ensures w in GetPracticeSession(store, now)
  {
    PracticeSessionSpec(store, now);
  }

  // ---------------------------------------------------------------- addWords

  /** The lower-cased words already stored: the `existingWords` set. */
  function StoredKeys(words: seq<LeitnerWord>): (keys: set<string>)
    ensures forall i :: 0 <= i < |words| ==> Lower(words[i].word) in keys
    ensures forall k :: k in keys ==> exists i :: 0 <= i < |words| && Lower(words[i].word) == k
  {
    set i | 0 <= i < |words| :: Lower(words[i].word)
  }

  /** A vocabulary item entering the system: box 0, reviewed now. */
  function NewEntry(item: VocabularyItem, now: int): (w: LeitnerWord)
    ensures w.box == 0 && w.lastReviewed == now
    ensures w.word == item.word && w.definition == item.definition && w.example == item.example
  {
    LeitnerWord(item.word, item.definition, item.example, 0, now)
  }

  /** `wordsToAdd`: the items whose lower-cased word is not in `keys`, turned into new entries. */
  function WordsToAdd(items: seq<VocabularyItem>, keys: set<string>, now: int): (r: seq<LeitnerWord>)
    ensures |r| <= |items|
    ensures forall k :: 0 <= k < |r| ==> r[k].box == 0 && r[k].lastReviewed == now && Lower(r[k].word) !in keys
    ensures forall i :: 0 <= i < |items| && Lower(items[i].word) !in keys ==> NewEntry(items[i], now) in r
    ensures (forall i :: 0 <= i < |items| ==> Lower(items[i].word) in keys) ==> r == []
    decreases |items|
  {
    if items == [] then []
    else
      var rest := WordsToAdd(items[1..], keys, now);
      assert forall i :: 1 <= i < |items| ==> items[i] == items[1..][i - 1];
      (if Lower(items[0].word) in keys then [] else [NewEntry(items[0], now)]) + rest
  }

  /**
   * The items are filtered one by one against the stored keys only, so the result for
   * a batch is the concatenation of the results for its parts, in order.
   */
  lemma {:induction false} WordsToAddConcat(a: seq<VocabularyItem>, b: seq<VocabularyItem>, keys: set<string>, now: int)
    ensures WordsToAdd(a + b, keys, now) == WordsToAdd(a, keys, now) + WordsToAdd(b, keys, now)
    decreases |a|
  {
    if a == [] {
      assert a + b == b;
    } else {
      assert (a + b)[0] == a[0] && (a + b)[1..] == a[1..] + b;
      WordsToAddConcat(a[1..], b, keys, now);
    }
  }

  /**
   * De-duplication is only against what is stored: two items of one batch whose words
   * differ only in case (or not at all) are both added.
   */
  lemma BatchNotDeduplicated(a: VocabularyItem, b: VocabularyItem, keys: set<string>, now: int)
    requires Lower(a.word) !in keys && Lower(b.word) !in keys
    ensures WordsToAdd([a, b], keys, now) == [NewEntry(a, now), NewEntry(b, now)]
  {
    assert [a, b][1..] == [b];
  }

  ghost predicate BoxesInRange(words: seq<LeitnerWord>)
  {
    forall i :: 0 <= i < |words| ==> 0 <= words[i].box <= MaxBox
  }

  /**
   * `addWords`: the stored records stay first, in their order; after them come the new
   * entries of the items not yet stored (compared lower-cased); when no item qualifies
   * nothing is written. Afterwards every item's word is stored, and boxes stay in range.
   */
  function AddWords(store: Store, items: seq<VocabularyItem>, now: int, ok: bool): (r: Store)
    ensures var stored := Storage.Read(store);
            r == store || (ok && Storage.Read(r) == stored + WordsToAdd(items, StoredKeys(stored), now))
    ensures WordsToAdd(items, StoredKeys(Storage.Read(store)), now) == [] ==> r == store
    ensures !ok ==> r == store
    ensures ok && WordsToAdd(items, StoredKeys(Storage.Read(store)), now) != [] ==>
              Storage.Read(r) == Storage.Read(store) + WordsToAdd(items, StoredKeys(Storage.Read(store)), now)
    ensures ok ==> forall i :: 0 <= i < |items| ==> Lower(items[i].word) in StoredKeys(Storage.Read(r))
    ensures BoxesInRange(Storage.Read(store)) ==> BoxesInRange(Storage.Read(r))
  {
    var existing := Storage.Read(store);
    var keys := StoredKeys(existing);
    var toAdd := WordsToAdd(items, keys, now);
    if |toAdd| > 0 then
      var r := Storage.Write(store, existing + toAdd, ok);
      AddedWordsCover(existing, items, now);
      r
    else
      assert ok ==> forall i :: 0 <= i < |items| ==> Lower(items[i].word) in keys;
      store
  }

  /** After the additions every item's lower-cased word is a stored key. */
  lemma AddedWordsCover(existing: seq<LeitnerWord>, items: seq<VocabularyItem>, now: int)
    ensures var all := existing + WordsToAdd(items, StoredKeys(existing), now);
            forall i :: 0 <= i < |items| ==> Lower(items[i].word) in StoredKeys(all)
  {
    var keys := StoredKeys(existing);
    var toAdd := WordsToAdd(items, keys, now);
    var all := existing + toAdd;
    forall i | 0 <= i < |items| ensures Lower(items[i].word) in StoredKeys(all) {
      if Lower(items[i].word) !in keys {
        var e := NewEntry(items[i], now);
        var k :| 0 <= k < |toAdd| && toAdd[k] == e;
        assert all[|existing| + k] == e;
      } else {
        var j :| 0 <= j < |existing| && Lower(existing[j].word) == Lower(items[i].word);
        assert all[j] == existing[j];
      }
    }
  }

  /** Adding the same batch twice changes nothing the second time. */
  lemma AddWordsIdempotent(store: Store, items: seq<VocabularyItem>, now: int, later: int, ok: bool)
    ensures AddWords(AddWords(store, items, now, true), items, later, ok) == AddWords(store, items, now, true)
  {
  }

  // ------------------------------------------------------- updateWordProgress

  /** `findIndex` with a case-insensitive comparison: the first match, or -1. */
  function FindWord(words: seq<LeitnerWord>, word: string): (r: int)
    ensures -1 <= r < |words|
    ensures r >= 0 ==> Lower(words[r].word) == Lower(word)
    ensures forall i :: 0 <= i < |words| && (r < 0 || i < r) ==> Lower(words[i].word) != Lower(word)
    decreases |words|
  {
    if words == [] then -1
    else if Lower(words[0].word) == Lower(word) then 0
    else
      var k := FindWord(words[1..], word);
      assert forall i :: 1 <= i < |words| ==> words[i] == words[1..][i - 1];
      if k < 0 then -1 else k + 1
  }

  /**
   * One review outcome: "knew it" moves the word up one box, never past the last;
   * "didn't know" sends it back to box 0. Either way it is stamped with `now`, and a
   * box in range stays in range.
   */
  function Review(w: LeitnerWord, known: bool, now: int): (r: LeitnerWord)
    ensures r.word == w.word && r.definition == w.definition && r.example == w.example
    ensures r.lastReviewed == now
    ensures known && w.box < MaxBox ==> r.box == w.box + 1
    ensures known && w.box >= MaxBox ==> r.box == MaxBox
    ensures !known ==> r.box == 0
    ensures 0 <= w.box <= MaxBox ==> 0 <= r.box <= MaxBox
  {
    w.(box := if known then (if w.box + 1 < MaxBox then w.box + 1 else MaxBox) else 0, lastReviewed := now)
  }

  /**
   * The list after a review of `word`: only the first record whose word matches
   * case-insensitively is replaced, by its reviewed copy; every other record and the
   * order are unchanged, and an unknown word changes nothing.
   */
  function Reviewed(words: seq<LeitnerWord>, word: string, known: bool, now: int): (r: seq<LeitnerWord>)
    ensures |r| == |words|
    ensures forall i :: 0 <= i < |words| && i != FindWord(words, word) ==> r[i] == words[i]
    ensures FindWord(words, word) >= 0 ==>
              r[FindWord(words, word)] == Review(words[FindWord(words, word)], known, now)
    ensures BoxesInRange(words) ==> BoxesInRange(r)
  {
    var k := FindWord(words, word);
    if k < 0 then words else words[k := Review(words[k], known, now)]
  }

  /** The loop behind `findIndex` over the loaded array. */
  method FindIndex(vocab: array<LeitnerWord>, word: string) returns (index: int)
    ensures index == FindWord(vocab[..], word)
  {
    var key := Lower(word);
    index := 0;
    while index < vocab.Length
      invariant 0 <= index <= vocab.Length
      invariant forall i :: 0 <= i < index ==> Lower(vocab[i].word) != key
    {
      if Lower(vocab[index].word) == key {
        assert vocab[..][index] == vocab[index];
        return;
      }
      index := index + 1;
    }
    index := -1;
  }

  /** Lines 94-111 on the loaded array: find the word, then overwrite its record in place. */
  method ReviewInPlace(vocab: array<LeitnerWord>, word: string, known: bool, now: int) returns (index: int)
    modifies vocab
    ensures index == FindWord(old(vocab[..]), word)
    ensures vocab[..] == Reviewed(old(vocab[..]), word, known, now)
  {
    index := FindIndex(vocab, word);
    if index == -1 {
      return;
    }
    vocab[index] := Review(vocab[index], known, now);
  }

  /**
   * `updateWordProgress`: an unknown word is only logged, so the store is left as it
   * was; otherwise the reviewed list is written back.
   */
  function UpdateWordProgress(store: Store, word: string, known: bool, now: int, ok: bool): (r: Store)
    ensures FindWord(Storage.Read(store), word) < 0 ==> r == store
    ensures !ok ==> r == store
    ensures ok && FindWord(Storage.Read(store), word) >= 0 ==>
              Storage.Read(r) == Reviewed(Storage.Read(store), word, known, now)
    ensures BoxesInRange(Storage.Read(store)) ==> BoxesInRange(Storage.Read(r))
  {
    var existing := Storage.Read(store);
    if FindWord(existing, word) == -1 then store
    else Storage.Write(store, Reviewed(existing, word, known, now), ok)
  }

  /** The two mutators, for stating what holds under any sequence of them. */
  datatype Operation =
    | AddOp(items: seq<VocabularyItem>, at: int, ok: bool)
    | ReviewOp(word: string, known: bool, at: int, ok: bool)

  function Apply(store: Store, op: Operation): (r: Store)
  {
    match op
    case AddOp(items, at, ok) => AddWords(store, items, at, ok)
    case ReviewOp(word, known, at, ok) => UpdateWordProgress(store, word, known, at, ok)
  }

  function Run(store: Store, ops: seq<Operation>): (r: Store)
    decreases |ops|
  {
    if ops == [] then store else Run(Apply(store, ops[0]), ops[1..])
  }

  /** Running one more operation applies it to the result of the earlier ones. */
  lemma {:induction false} RunSnoc(store: Store, ops: seq<Operation>, op: Operation)
    ensures Run(store, ops + [op]) == Apply(Run(store, ops), op)
    decreases |ops|
  {
    if ops == [] {
      assert [] + [op] == [op];
    } else {
      assert (ops + [op])[0] == ops[0] && (ops + [op])[1..] == ops[1..] + [op];
      RunSnoc(Apply(store, ops[0]), ops[1..], op);
    }
  }

  /** A review recorded after a run is the run with that review appended. */
  lemma RunReview(start: Store, ops: seq<Operation>, word: string, known: bool, now: int, ok: bool)
    ensures UpdateWordProgress(Run(start, ops), word, known, now, ok) == Run(start, ops + [ReviewOp(word, known, now, ok)])
  {
    RunSnoc(start, ops, ReviewOp(word, known, now, ok));
  }

  /** Boxes stay within [0, 5] under any sequence of additions and reviews. */
  lemma {:induction false} BoxesStayInRange(store: Store, ops: seq<Operation>)
    requires BoxesInRange(Storage.Read(store))
    ensures BoxesInRange(Storage.Read(Run(store, ops)))
    decreases |ops|
  {
    if ops != [] {
      BoxesStayInRange(Apply(store, ops[0]), ops[1..]);
    }
  }

  // ------------------------------------------------------- getVocabularyStats

  /** The words with box 5 or more, in stored order: exactly the mastered ones. */
  function Mastered(words: seq<LeitnerWord>): (r: seq<LeitnerWord>)
    ensures forall w :: w in r ==> w.box >= MaxBox
    ensures forall i :: 0 <= i < |words| && words[i].box >= MaxBox ==> words[i] in r
    ensures multiset(r) <= multiset(words)
    decreases |words|
  {
    if words == [] then []
    else
      var rest := Mastered(words[1..]);
      assert words == [words[0]] + words[1..];
      assert forall i :: 1 <= i < |words| ==> words[i] == words[1..][i - 1];
      (if words[0].box >= MaxBox then [words[0]] else []) + rest
  }

  /** The filter keeps every copy of a mastered record and no copy of any other. */
  lemma {:induction false} MasteredCounts(words: seq<LeitnerWord>)
    ensures forall w :: multiset(Mastered(words))[w] == if w.box >= MaxBox then multiset(words)[w] else 0
    decreases |words|
  {
    if words != [] {
      MasteredCounts(words[1..]);
      assert words == [words[0]] + words[1..];
      var h := if words[0].box >= MaxBox then [words[0]] else [];
      assert multiset(words) == multiset{words[0]} + multiset(words[1..]);
      assert multiset(Mastered(words)) == multiset(h) + multiset(Mastered(words[1..]));
    }
  }

  /** A due word is never mastered, so due and mastered words never outnumber the store. */
  lemma {:induction false} DueAndMasteredDisjoint(words: seq<LeitnerWord>, now: int)
    ensures |DueWords(words, now)| + |Mastered(words)| <= |words|
    decreases |words|
  {
    if words != [] {
      DueAndMasteredDisjoint(words[1..], now);
    }
  }

  /**
   * `getVocabularyStats`: the store size, the size of the practice session and the
   * number of mastered words; the last two together never exceed the first.
   */
  function GetVocabularyStats(store: Store, now: int): (r: VocabularyStats)
    ensures r.totalWords == |Storage.Read(store)|
    ensures r.wordsToReview == |GetPracticeSession(store, now)|
    ensures r.wordsMastered == |Mastered(Storage.Read(store))|
    ensures r.wordsToReview + r.wordsMastered <= r.totalWords
  {
    var all := Storage.Read(store);
    var session := GetPracticeSession(store, now);
    Sorting.SortBySpec(DueWords(all, now), Box);
    assert |session| == |multiset(session)| == |multiset(DueWords(all, now))| == |DueWords(all, now)|;
    DueAndMasteredDisjoint(all, now);
    VocabularyStats(|all|, |session|, |Mastered(all)|)
  }
}
