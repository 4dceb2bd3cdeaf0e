/**
 * The session archive of `services/historyService.ts`: a list of finished sessions
 * under one storage key, written newest first, capped at 50 items, and re-sorted
 * newest first on every read. An item's id is the time it was saved, here an integer
 * number of milliseconds.
 */
module History {
  import opened Types
  import Storage
  import Sorting

  const MaxHistoryItems := 50

  /** `ConversationHistoryItem`. */
  datatype HistoryItem = HistoryItem(id: int, scenario: Scenario, conversation: seq<Turn>, feedback: Feedback)

  type Store = Storage.Slot<HistoryItem>

  /** The comparator `b.id - a.id` sorts ascending on the negated id. */
  function Age(item: HistoryItem): int { -item.id }

  ghost predicate NewestFirst(items: seq<HistoryItem>)
  {
    forall i, j :: 0 <= i < j < |items| ==> items[i].id >= items[j].id
  }

  /**
   * `getConversationHistory`: the stored items, newest first. It is a permutation of
   * what is stored, and a missing or unparsable key reads as no history at all.
   */
  function GetConversationHistory(store: Store): (r: seq<HistoryItem>)
    ensures NewestFirst(r)
    ensures multiset(r) == multiset(Storage.Read(store))
    ensures !store.Stored? ==> r == []
  {
    var r := Sorting.SortBy(Storage.Read(store), Age);
    Sorting.SortBySpec(Storage.Read(store), Age);
    assert forall i, j :: 0 <= i < j < |r| ==> Age(r[i]) <= Age(r[j]);
    r
  }

  /** Items saved at the same instant keep their stored order when the history is read. */
  lemma HistoryReadIsStable(store: Store, t: int)
    ensures Sorting.WithKey(GetConversationHistory(store), Age, t) == Sorting.WithKey(Storage.Read(store), Age, t)
  {
    Sorting.SortStable(Storage.Read(store), Age, t);
  }

  /**
   * The new item in front of the history, cut to 50: the item first, then as much of
   * the history as fits, so that when the history is newest first every item kept is
   * at least as new as every item dropped.
   */
  function PrependCapped(item: HistoryItem, history: seq<HistoryItem>): (r: seq<HistoryItem>)
    ensures |r| == (if |history| + 1 < MaxHistoryItems then |history| + 1 else MaxHistoryItems)
    ensures r[0] == item && r[1..] == history[..|r| - 1]
    ensures NewestFirst(history) ==>
      forall i, j :: 1 <= i < |r| && |r| - 1 <= j < |history| ==> r[i].id >= history[j].id
  {
    var n := if |history| + 1 < MaxHistoryItems then |history| + 1 else MaxHistoryItems;
    var r := ([item] + history)[..n];
    assert r[1..] == history[..n - 1];
    assert forall i :: 1 <= i < n ==> r[i] == history[i - 1];
    r
  }

  /**
   * `saveConversation`: the new item, stamped `now`, goes in front of the history as
   * read, and the list is cut to 50. So the stored length becomes min(old + 1, 50), the
   * item is first with its scenario, transcript and feedback unchanged, the rest is the
   * previous history newest first, and on overflow the items dropped are the oldest
   * ones. A write that fails leaves the key as it was.
   */
  function SaveConversation(store: Store, scenario: Scenario, conversation: seq<Turn>, feedback: Feedback,
                            now: int, ok: bool): (r: Store)
    ensures !ok ==> r == store
    ensures ok ==>
      var before := GetConversationHistory(store);
      var after := Storage.Read(r);
      && |after| == (if |before| + 1 < MaxHistoryItems then |before| + 1 else MaxHistoryItems)
      && after[0] == HistoryItem(now, scenario, conversation, feedback)
      && after[1..] == before[..|after| - 1]
      && (forall i, j :: 1 <= i < |after| && |after| - 1 <= j < |before| ==> after[i].id >= before[j].id)
  {
    var history := GetConversationHistory(store);
    Storage.Write(store, PrependCapped(HistoryItem(now, scenario, conversation, feedback), history), ok)
  }

  /** However long the stored list was, a successful save leaves at most 50 items. */
  lemma SaveNeverExceedsCap(store: Store, scenario: Scenario, conversation: seq<Turn>, feedback: Feedback, now: int)
    ensures |Storage.Read(SaveConversation(store, scenario, conversation, feedback, now, true))| <= MaxHistoryItems
  {
  }
}
