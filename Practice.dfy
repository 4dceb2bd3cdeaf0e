/**
 * The flashcard screen of `components/VocabularyPracticeView.tsx`. On mount it loads
 * the practice session; each "I knew it" / "I didn't know" answer records a review of
 * the current card and moves to the next card or ends the session.
 */
module Practice {
  import opened Types
  import Storage
  import V = Vocabulary

  /** The `k`-th recorded operation is a review of the `k`-th word of the session. */
  ghost predicate ReviewsFollow(reviews: seq<V.Operation>, words: seq<V.LeitnerWord>)
  {
    forall k :: 0 <= k < |reviews| && k < |words| ==> reviews[k].ReviewOp? && reviews[k].word == words[k].word
  }

  lemma ReviewsFollowSnoc(reviews: seq<V.Operation>, words: seq<V.LeitnerWord>, op: V.Operation)
    requires ReviewsFollow(reviews, words) && |reviews| < |words|
    requires op.ReviewOp? && op.word == words[|reviews|].word
    ensures ReviewsFollow(reviews + [op], words)
  {
    var r := reviews + [op];
    forall k | 0 <= k < |r| && k < |words| ensures r[k].ReviewOp? && r[k].word == words[k].word {
      if k < |reviews| {
        assert r[k] == reviews[k];
      }
    }
  }

  /**
   * The session state the screen keeps: the index stays on the list (on its last card
   * once complete), one review is recorded per answered card, and the store is the
   * one loaded with those reviews applied.
   */
  ghost predicate SessionValid(words: seq<V.LeitnerWord>, index: nat, complete: bool,
                               reviews: seq<V.Operation>, store: V.Store, start: V.Store)
  {
    && index <= |words|
    && (words != [] ==> index < |words|)
    && (complete && words != [] ==> index == |words| - 1)
    && |reviews| == (if complete then |words| else index)
    && ReviewsFollow(reviews, words)
    && store == V.Run(start, reviews)
  }

  /**
   * Answering card `i` of a running session records its review, then either moves to
   * card `i + 1` or, on the last card, completes the session; both keep the state valid.
   */
  lemma AnswerKeepsValid(words: seq<V.LeitnerWord>, i: nat, reviews: seq<V.Operation>, store: V.Store,
                         start: V.Store, known: bool, now: int, ok: bool)
    requires SessionValid(words, i, false, reviews, store, start) && i < |words|
    ensures var op := V.ReviewOp(words[i].word, known, now, ok);
            var r, st := reviews + [op], V.UpdateWordProgress(store, words[i].word, known, now, ok);
            && st == V.Apply(store, op)
            && (i + 1 < |words| ==> SessionValid(words, i + 1, false, r, st, start))
            && (i + 1 >= |words| ==> SessionValid(words, i, true, r, st, start))
  {
    var op := V.ReviewOp(words[i].word, known, now, ok);
    V.RunReview(start, reviews, words[i].word, known, now, ok);
    ReviewsFollowSnoc(reviews, words, op);
  }

  class PracticeView {
    var practiceWords: seq<V.LeitnerWord>
    var currentIndex: nat
    var isFlipped: bool
    var sessionComplete: bool
    /** The vocabulary key of browser storage, which the answers write. */
    var store: V.Store
    /** The store when the session was loaded, and the reviews recorded since. */
    ghost var sessionStart: V.Store
    ghost var reviews: seq<V.Operation>

    ghost predicate Valid()
      reads this`currentIndex, this`practiceWords, this`sessionComplete, this`reviews, this`store, this`sessionStart
    {
      SessionValid(practiceWords, currentIndex, sessionComplete, reviews, store, sessionStart)
    }

    /** The answer buttons are rendered only on a flipped card of a running session. */
    predicate ButtonsShown()
      reads this`sessionComplete, this`isFlipped
    {
      !sessionComplete && isFlipped
    }

    /** The first render: no words yet, first card, face up, not complete. */
    constructor(store: V.Store)
      ensures Valid()
      ensures practiceWords == [] && currentIndex == 0 && !isFlipped && !sessionComplete
      ensures this.store == store && reviews == []
    {
      practiceWords := [];
      currentIndex := 0;
      isFlipped := false;
      sessionComplete := false;
      this.store := store;
      sessionStart := store;
      reviews := [];
    }

    /**
     * The mount effect: the due words are loaded, the first card is shown face up, and
     * a session with nothing due is complete at once.
     */
    method LoadSession(now: int)
      modifies this
      ensures Valid()
      ensures practiceWords == V.GetPracticeSession(old(store), now)
      ensures currentIndex == 0 && !isFlipped && (sessionComplete <==> practiceWords == [])
      ensures store == old(store) && reviews == []
    {
      var words := V.GetPracticeSession(store, now);
      practiceWords := words;
      currentIndex := 0;
      isFlipped := false;
      sessionComplete := practiceWords == [];
      sessionStart := store;
      reviews := [];
      assert store == V.Run(sessionStart, reviews);
    }

    /** Clicking the card turns it over. */
    method Flip()
      requires Valid()
      modifies this`isFlipped
      ensures Valid()
      ensures isFlipped == !old(isFlipped)
    {
      isFlipped := !isFlipped;
    }

    /**
     * `handleProgressUpdate`: past the end of the list nothing happens. Otherwise the
     * current word is reviewed in storage; then the next card is shown face up, or,
     * after the last card, the session is complete. Once complete, every word of the
     * session has been reviewed exactly once, in session order.
     */
    method HandleProgressUpdate(known: bool, now: int, ok: bool)
      requires Valid() && ButtonsShown()
      modifies this`store, this`reviews, this`currentIndex, this`isFlipped, this`sessionComplete
      ensures Valid()
      ensures old(currentIndex) >= |practiceWords| ==>
        currentIndex == old(currentIndex) && isFlipped == old(isFlipped)
        && sessionComplete == old(sessionComplete) && store == old(store) && reviews == old(reviews)
      ensures old(currentIndex) < |practiceWords| ==>
        var op := V.ReviewOp(practiceWords[old(currentIndex)].word, known, now, ok);
        && store == V.Apply(old(store), op)
        && reviews == old(reviews) + [op]
        && (if old(currentIndex) + 1 < |practiceWords|
            then currentIndex == old(currentIndex) + 1 && !isFlipped && !sessionComplete
            else currentIndex == old(currentIndex) && isFlipped == old(isFlipped) && sessionComplete)
      ensures sessionComplete ==>
        |reviews| == |practiceWords| && ReviewsFollow(reviews, practiceWords)
    {
      if currentIndex >= |practiceWords| {
        return;
      }
      AnswerKeepsValid(practiceWords, currentIndex, reviews, store, sessionStart, known, now, ok);
      store := V.UpdateWordProgress(store, practiceWords[currentIndex].word, known, now, ok);
      reviews := reviews + [V.ReviewOp(practiceWords[currentIndex].word, known, now, ok)];
      if currentIndex + 1 < |practiceWords| {
        currentIndex := currentIndex + 1;
        isFlipped := false;
      } else {
        sessionComplete := true;
      }
    }
  }

  /** A session's reviews keep every stored box within [0, 5]. */
  lemma SessionKeepsBoxesInRange(view: PracticeView)
    requires view.Valid()
    requires V.BoxesInRange(Storage.Read(view.sessionStart))
    ensures V.BoxesInRange(Storage.Read(view.store))
  {
    V.BoxesStayInRange(view.sessionStart, view.reviews);
  }
}
