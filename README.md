# English-Online-Teacher, modelled in Dafny

English-Online-Teacher is a browser application for practising spoken English. A
learner picks a role-play scenario and talks to an AI tutor over a live audio
session. The tutor marks each scenario goal the learner completes with an inline
`[GOAL_COMPLETE: "<goal>"]` tag. When the session ends, the transcript goes to an
analyzer, which returns feedback. Vocabulary from that feedback feeds a Leitner
flashcard scheduler. Finished sessions are archived in local storage.

This project models the client-side bookkeeping around those AI calls and proves
what it promises. One module per source file:

- `Types`: the record shapes of `types.ts`, as datatypes.
- `Storage`: one local-storage key holding a JSON list. A missing or unparsable key
  reads as empty, and a write that throws is swallowed.
- `Text`: the ASCII string built-ins the code relies on: `toLowerCase`, `trim`,
  `replace`, number formatting, `join`/`split`.
- `Sorting`: the stable `Array.prototype.sort` with a numeric key, as insertion sort.
- `Vocabulary` (`services/vocabularyService.ts`): the Leitner boxes, the due
  schedule, `addWords`, `getPracticeSession`, `updateWordProgress` and
  `getVocabularyStats`. The store is a value passed in and returned.
  `updateWordProgress`'s in-place overwrite is also modelled on an `array`.
- `History` (`services/historyService.ts`): the newest-first archive, capped at 50.
- `Tutor` (`services/geminiService.ts`): the pure pieces. These are the system
  instruction, the `Learner:`/`Tutor:` transcript and the fallback feedback.
- `GoalMarkers` (`services/geminiService.ts`): the goal-marker regular expression,
  its left-to-right `exec` scan and its deletion by `replace`.
- `LiveSession` (`services/geminiService.ts`): the `onmessage` handler as a class
  over `nextStartTime`, the playing sources and the two transcript accumulators.
  The callbacks it makes go into a ghost log.
- `Scenarios` (`services/scenarios.ts`): `applyInstructionTemplate` and the
  published catalog.
- `Practice` (`components/VocabularyPracticeView.tsx`): the flashcard screen as a
  class.
- `Grouping` (`components/ScenarioSelectionView.tsx`): the group-by-difficulty fold
  and the Easy, Medium, Hard sections.
- `AppController` (`App.tsx`): the application component's session state and its
  handlers, as a class. Ghost logs record the session handles closed, the sound
  cues played, the transcripts sent to the analyzer and the connections requested.

Time is an integer number of milliseconds, and a day is 86,400,000 of them. Audio
time is an integer number of ticks. The analyzer is a function parameter that
returns a feedback or fails. Whether `startConversation` connects is an input.

## Model

| member | source | states |
|---|---|---|
| Storage.Read | services/vocabularyService.ts:19-27 | A missing or unparsable key reads as the empty list. |
| Storage.Write | services/vocabularyService.ts:32-38 | A successful write stores exactly the given list. A write that throws leaves the key as it was. |
| Text.LowerChar | services/vocabularyService.ts:46 | Upper-case ASCII letters move down by 32. Every other character is unchanged. The result is never upper case. |
| Text.Lower | services/vocabularyService.ts:46 | Same length as the input, lower-cased character by character. |
| Text.TrimStartSpec | services/geminiService.ts:107 | Trimming the front leaves a suffix of the input. That suffix does not start with whitespace, and only whitespace was removed. |
| Text.TrimEndSpec | services/geminiService.ts:107 | Trimming the back leaves a prefix of the input. That prefix does not end with whitespace, and only whitespace was removed. |
| Text.TrimSpec | services/geminiService.ts:107 | `trim` never lengthens a string. Its result is empty or has no whitespace at either end. It is empty exactly when the input is all whitespace. A string with nothing to trim is returned unchanged. |
| Text.TrimIsEmptyWhenBlank | App.tsx:48 | `text.trim() !== ''` holds exactly when the text is not all whitespace. |
| Text.ReplaceFirstAbsent | services/scenarios.ts:18-20 | `replace` with a pattern that does not occur returns the string unchanged. |
| Text.ReplaceFirstAfter | services/scenarios.ts:18-20 | `replace` puts the replacement exactly where the pattern's first occurrence was. This holds when the text before it does not contain the pattern's first character. |
| Text.ReplaceChar | services/scenarios.ts:21 | `replace(/ /g, '-')` keeps the length and substitutes every space. Afterwards no space is left. |
| Text.NatToString | services/geminiService.ts:39 | The decimal text of a natural number is a non-empty string of digits that denotes the number. It has no leading zero unless the number is 0. |
| Text.IntToString | services/geminiService.ts:39 | The decimal text of an integer starts with `-` exactly when the integer is negative. The rest is the decimal text of its magnitude, so it denotes the integer. |
| Text.Split | services/geminiService.ts:177 | Splitting gives at least one piece, and no piece contains the separator. This inverse is not in the source; it exists for the round trip. |
| Text.SplitJoin | services/geminiService.ts:175-177 | `join` is undone by splitting on its separator when no part contains it. |
| Sorting.InsertSpec | services/vocabularyService.ts:84 | Inserting into a sorted list keeps it sorted. It adds exactly the new element. |
| Sorting.SortBySpec | services/vocabularyService.ts:84 | `sort((a, b) => key(a) - key(b))` yields a permutation of the input in non-decreasing key order. |
| Sorting.InsertWithKey | services/historyService.ts:14 | Insertion adds the element to the elements of its own key and leaves the other keys' elements as they were. |
| Sorting.SortStable | services/historyService.ts:14 | The sort is stable. Elements with equal keys keep their input order. |
| Vocabulary.DueSchedule | services/vocabularyService.ts:7-14 | Box 0 is always due. Boxes 1, 2, 3 and 4 are due 1, 3, 7 and 14 days after the last review. Nothing else is due, so the 30-day entry is never used. |
| Vocabulary.DueWordsSpec | services/vocabularyService.ts:69-81 | The filter keeps only due words and keeps every due word. It is a sub-multiset of the store. |
| Vocabulary.DueWordsCounts | services/vocabularyService.ts:69-81 | The filter keeps every copy of a due record and no copy of any other record, so duplicate records are counted as often as stored. |
| Vocabulary.PracticeSessionSpec | services/vocabularyService.ts:65-85 | The practice session is exactly the stored due words, sorted non-decreasing by box. Words in the same box keep their stored order. |
| Vocabulary.NewWordsAlwaysPractised | services/vocabularyService.ts:70 | A stored word in box 0 is in every practice session. |
| Vocabulary.StoredKeys | services/vocabularyService.ts:46 | The `existingWords` set holds exactly the lower-cased forms of the stored words. |
| Vocabulary.NewEntry | services/vocabularyService.ts:50-54 | A new entry keeps the item's word, definition and example. It has box 0 and is stamped now. |
| Vocabulary.WordsToAdd | services/vocabularyService.ts:48-54 | Only items whose lower-cased word is not stored are added, each as a new entry in box 0, and every such item is added. When every item is already stored, nothing is added. |
| Vocabulary.WordsToAddConcat | services/vocabularyService.ts:48-49 | The filter works item by item and in order. |
| Vocabulary.BatchNotDeduplicated | services/vocabularyService.ts:46-49 | Two case variants of a new word in one batch are both added. Duplicates are checked only against the stored words. |
| Vocabulary.AddWords | services/vocabularyService.ts:44-59 | A successful write of a non-empty batch of new words stores the old list followed by the new entries. When nothing qualifies, or the write throws, the store is unchanged. Afterwards every item's word is stored. Boxes stay in range. |
| Vocabulary.AddedWordsCover | services/vocabularyService.ts:45-57 | After appending the new entries, every item's lower-cased word is a stored key. |
| Vocabulary.AddWordsIdempotent | services/vocabularyService.ts:44-59 | Adding the same batch a second time changes nothing. |
| Vocabulary.FindWord | services/vocabularyService.ts:94 | `findIndex` returns -1 or the first index whose word matches case-insensitively. |
| Vocabulary.Review | services/vocabularyService.ts:101-109 | "Knew it" moves the word up one box, capped at 5. "Didn't know" resets it to box 0. Both stamp it with now and keep its text. |
| Vocabulary.Reviewed | services/vocabularyService.ts:101-111 | Only the first matching record is replaced, by its review. Every other record, the order and the length are unchanged. |
| Vocabulary.FindIndex | services/vocabularyService.ts:94 | The search loop over the array returns the index `findIndex` returns. |
| Vocabulary.ReviewInPlace | services/vocabularyService.ts:94-111 | Overwriting `existingVocab[wordIndex]` in place leaves the array equal to the reviewed list. |
| Vocabulary.UpdateWordProgress | services/vocabularyService.ts:92-113 | An absent word, or a write that throws, leaves the store untouched. When the word is found and the write succeeds, the stored list becomes the reviewed list. Boxes stay in range. |
| Vocabulary.RunSnoc | services/vocabularyService.ts:44-113 | One more operation after a run applies it to the run's result. |
| Vocabulary.RunReview | services/vocabularyService.ts:92-113 | A review after a run of operations is that run with the review appended. |
| Vocabulary.BoxesStayInRange | services/vocabularyService.ts:44-113 | Boxes that start in [0, 5] stay there under any sequence of additions and reviews. |
| Vocabulary.Mastered | services/vocabularyService.ts:125 | The filter keeps exactly the words in box 5 or more: every such word, and no other. It is a sub-multiset of the store. |
| Vocabulary.MasteredCounts | services/vocabularyService.ts:125 | The filter keeps every copy of a record in box 5 or more and no copy of any other, so its length is the number of such records. |
| Vocabulary.DueAndMasteredDisjoint | services/vocabularyService.ts:118-127 | No word is both due and mastered, so the two counts together never exceed the store size. |
| Vocabulary.GetVocabularyStats | services/vocabularyService.ts:118-127 | The total is the store size and the review count is the session size. The mastered count is the length of the box-5 filter, which is the number of stored records in box 5 or more. The last two together never exceed the first. |
| History.GetConversationHistory | services/historyService.ts:9-19 | A read is a permutation of the stored items, newest first. A missing or unparsable key reads as no history. |
| History.HistoryReadIsStable | services/historyService.ts:14 | Items with the same time keep their stored order. |
| History.PrependCapped | services/historyService.ts:34 | The new item comes first, then as much of the history as fits in 50. On a newest-first history every item kept is at least as new as every item dropped. |
| History.SaveConversation | services/historyService.ts:24-40 | The stored length becomes min(old + 1, 50). The new item is first, with id now and the given scenario, transcript and feedback. The rest is the previous history newest first, and on overflow the oldest items are the ones dropped. A failed write changes nothing. |
| History.SaveNeverExceedsCap | services/historyService.ts:34 | After a save the archive never holds more than 50 items. |
| Tutor.FinalSystemInstruction | services/geminiService.ts:37-40 | The instruction is the scenario's text plus the English-only paragraph. The pacing paragraph follows exactly when the target pace is set and non-zero. It contains the decimal text of the target. |
| Tutor.Lines | services/geminiService.ts:175-176 | There is one `Learner: …` or `Tutor: …` line per turn, in order. |
| Tutor.ParseLine | services/geminiService.ts:176 | A line that reads back as a turn is exactly that turn's formatted line. This inverse is not in the source; it exists for the round trip. |
| Tutor.ParseLines | services/geminiService.ts:175-177 | A list of lines that reads back gives one turn per line. This inverse is not in the source; it exists for the round trip. |
| Tutor.ParseLineOfLine | services/geminiService.ts:176 | Every formatted line reads back as its turn. This inverse is not in the source; it exists for the round trip. |
| Tutor.ParseLinesOfLines | services/geminiService.ts:175-176 | The formatted lines read back as the turns, in order. This inverse is not in the source; it exists for the round trip. |
| Tutor.TranscriptRoundTrip | services/geminiService.ts:175-177 | The transcript loses nothing. When no turn contains a line break, it reads back as the same speakers and texts, in order. |
| Tutor.GetConversationFeedback | services/geminiService.ts:246-257 | The analyzer's feedback is returned as is. On failure the fixed fallback is returned, with no pronunciation items, no vocabulary and a rate of 0 words per minute. |
| GoalMarkers.FirstQuote | services/geminiService.ts:35 | `[^"]+` stops at the first double quote, or runs to the end. |
| GoalMarkers.MatchAt | services/geminiService.ts:35 | A match captures a non-empty goal with no double quote. Its length is that of the goal's marker, within the text. |
| GoalMarkers.FindMatch | services/geminiService.ts:95 | The match found lies within the text and captures a well-formed goal. |
| GoalMarkers.FindMatchLeftmost | services/geminiService.ts:95 | No match starts before the one found, and when none is found there is none anywhere. |
| GoalMarkers.Goals | services/geminiService.ts:95-98 | Every reported goal is non-empty and contains no double quote. |
| GoalMarkers.Strip | services/geminiService.ts:107 | Deleting the markers never lengthens the text. |
| GoalMarkers.NoMatchWithoutBracket | services/geminiService.ts:35 | No match starts anywhere but at a `[`. |
| GoalMarkers.NoBracketNoMarker | services/geminiService.ts:93-107 | Text without `[` reports no goal and is not changed by the deletion. |
| GoalMarkers.MarkerMatches | services/geminiService.ts:35 | The marker of a goal without quotes matches at its own front and captures that goal. |
| GoalMarkers.FoundBehindPlainText | services/geminiService.ts:95 | A match behind text without `[` is the leftmost match. |
| GoalMarkers.MarkerFoundFirst | services/geminiService.ts:95 | A marker behind text without `[` is the leftmost match. |
| GoalMarkers.MarkerGoalReported | services/geminiService.ts:95-98 | That marker's goal is reported first, before the goals of the text after it. |
| GoalMarkers.MarkerDeleted | services/geminiService.ts:107 | That marker is deleted. The text before it is kept, and the text after it is stripped in turn. |
| GoalMarkers.MarkerReported | services/geminiService.ts:93-107 | Both together: the goal is reported first and the marker is deleted. |
| GoalMarkers.UnclosedMarker | services/geminiService.ts:35 | The opening text and a goal without the closing `"]` is no match anywhere. |
| GoalMarkers.MarkerAlone | services/geminiService.ts:93-107 | A marker on its own reports its goal and is deleted entirely. |
| GoalMarkers.SplitMarkerNeverReported | services/geminiService.ts:93-107 | A marker split over two fragments is never reported, because only the new fragment is scanned. The whole transcript is stripped, so the marker still disappears from the shown text. |
| LiveSession.GoalEvents | services/geminiService.ts:95-98 | There is one `onGoalAchieved` callback per goal, in order. |
| LiveSession.ScanGoals | services/geminiService.ts:94-98 | The `exec` loop collects exactly the goals of the left-to-right, non-overlapping matches. |
| LiveSession.Max | services/geminiService.ts:81 | `Math.max` is at least both arguments and is one of them. |
| LiveSession.MessageHandler.constructor | services/geminiService.ts:28-33 | A session starts with the cursor at 0, no source and empty transcripts. |
| LiveSession.MessageHandler.ScheduleChunk | services/geminiService.ts:80-89 | A chunk starts at max(cursor, now), so never in the past and never before the queued chunks, and right after them when it arrives early. The cursor moves to its end and the source is tracked. Chunks never overlap. |
| LiveSession.MessageHandler.CatchUp | services/geminiService.ts:81 | Before the decoder is awaited, the cursor is raised to the current time if it lags behind. Chunks still never overlap. |
| LiveSession.MessageHandler.SourceEnded | services/geminiService.ts:86 | A source that ends leaves the tracked set. |
| LiveSession.MessageHandler.AppendOutput | services/geminiService.ts:92-100 | The goals of the new output fragment only are reported, then the fragment is appended. |
| LiveSession.MessageHandler.AppendInput | services/geminiService.ts:101-103 | The input fragment is appended. |
| LiveSession.MessageHandler.EmitSnapshot | services/geminiService.ts:105-109 | A snapshot carries the input so far and the output with markers deleted and trimmed. |
| LiveSession.MessageHandler.CompleteTurn | services/geminiService.ts:111-119 | A completed turn emits a final snapshot of the same contents and then empties both transcripts. |
| LiveSession.MessageHandler.Interrupt | services/geminiService.ts:121-127 | An interruption stops every tracked source, empties the set and resets the cursor to 0. |
| LiveSession.MessageHandler.AppendFragments | services/geminiService.ts:92-103 | The output fragment's goals are reported and both fragments are appended. |
| LiveSession.MessageHandler.HandleTranscription | services/geminiService.ts:92-119 | Goal callbacks come before exactly one non-final snapshot. On turn completion exactly one final snapshot with the same contents follows, and both transcripts are emptied. |
| LiveSession.MessageHandler.OnMessage | services/geminiService.ts:78-128 | A whole message. A decoded chunk is added at max(cursor, now), and the cursor moves to its end. Then the transcript callbacks above are made. An interruption stops every playing source, the new one included, and resets the cursor to 0. Audio that fails to decode only raises the cursor: the rejected handler drops the rest of the message, with no callback, no transcript change, no chunk and no interruption. |
| Practice.ReviewsFollowSnoc | components/VocabularyPracticeView.tsx:54-55 | Reviewing the next word in the list keeps the reviews in list order. |
| Practice.AnswerKeepsValid | components/VocabularyPracticeView.tsx:51-63 | Answering card i records its review, then moves to card i + 1 or completes the session on the last card. Either way the state stays valid. |
| Practice.PracticeView.constructor | components/VocabularyPracticeView.tsx:38-41 | The first render has no words, card 0, face up, not complete. |
| Practice.PracticeView.LoadSession | components/VocabularyPracticeView.tsx:43-49 | On mount the due words are loaded, with index 0 and the card unflipped. The session is complete exactly when nothing is due. |
| Practice.PracticeView.Flip | components/VocabularyPracticeView.tsx:94 | A click toggles `isFlipped`. |
| Practice.PracticeView.HandleProgressUpdate | components/VocabularyPracticeView.tsx:51-63 | Past the end of the list nothing happens. Otherwise exactly the current word is reviewed, then the index advances and the card unflips, or on the last card the session completes. A complete session has reviewed every word once, in list order. |
| Practice.SessionKeepsBoxesInRange | components/VocabularyPracticeView.tsx:55 | A session's reviews keep every stored box within [0, 5]. |
| Grouping.OfDifficulty | components/ScenarioSelectionView.tsx:11-14 | A group is never longer than the catalog. |
| Grouping.OfDifficultySnoc | components/ScenarioSelectionView.tsx:12 | One more scenario is appended to its own difficulty's group only. |
| Grouping.OfDifficultyMembers | components/ScenarioSelectionView.tsx:11-14 | A group holds exactly the scenarios of its difficulty. |
| Grouping.GroupedKeys | components/ScenarioSelectionView.tsx:11-14 | A difficulty has a group exactly when some scenario has that difficulty. |
| Grouping.GroupedSnoc | components/ScenarioSelectionView.tsx:12 | Folding one more scenario in creates or extends its difficulty's group. |
| Grouping.GroupByDifficulty | components/ScenarioSelectionView.tsx:11-14 | The `reduce` builds exactly the grouped dictionary, with every scenario in its group and in catalog order. |
| Grouping.OfDifficultyCount | components/ScenarioSelectionView.tsx:11-14 | Together the three groups hold each scenario exactly once. |
| Grouping.SectionsShape | components/ScenarioSelectionView.tsx:27-28 | The sections are Easy, Medium and Hard, each only if present. |
| Grouping.SectionsOrdered | components/ScenarioSelectionView.tsx:16-28 | Whatever the dictionary, the sections follow the order Easy, Medium, Hard, each at most once. |
| Grouping.SectionsShowEachOnce | components/ScenarioSelectionView.tsx:27-33 | The screen shows every scenario of the catalog exactly once. |
| Grouping.SectionsAreGroups | components/ScenarioSelectionView.tsx:28-32 | Each section is non-empty and holds the scenarios of its difficulty, in catalog order. |
| Scenarios.ReplaceTwo | services/scenarios.ts:18-19 | Two chained first-occurrence replacements put each replacement where its placeholder was. |
| Scenarios.ReplaceThree | services/scenarios.ts:17-20 | The same holds for three chained replacements. |
| Scenarios.GoalInstructionSplicesGoals | services/scenarios.ts:3-20 | When the first two goals contain no `{`, the three goals replace the three placeholders of the template in place. |
| Scenarios.ScenarioId | services/scenarios.ts:21 | The id is the title lower-cased with every space turned into `-`. It has the title's length and no space. |
| Scenarios.ApplyInstructionTemplate | services/scenarios.ts:16-28 | The entry's own fields are copied and the id is the slug of the title. The instruction is the base instruction, a blank line and the goal text. The image URL is built from the id. |
| Scenarios.TemplateQuotes | services/scenarios.ts:6-8 | In the template each placeholder sits between double quotes. |
| Scenarios.GoalQuotedInGoalInstruction | services/scenarios.ts:6-20 | Each of the first three goals appears in quotes in the substituted template. |
| Scenarios.GoalsQuotedInInstruction | services/scenarios.ts:17-25 | Each of the first three goals appears in quotes in the published system instruction. |
| Scenarios.PublishAll | services/scenarios.ts:642 | The published catalog is the template applied to each entry, with the same length and order. |
| AppController.NonBlank | App.tsx:114 | The filter keeps no blank turn and never lengthens the list. |
| AppController.NonBlankMembers | App.tsx:114 | The filter keeps exactly the non-blank turns. |
| AppController.NonBlankOfNonBlank | App.tsx:114 | A list with no blank turn passes the filter unchanged. |
| AppController.FinalTurnsShape | App.tsx:42-48 | A final message adds the learner's turn and then the tutor's, each unless blank. |
| AppController.StartFailure | App.tsx:104-106 | A failed start reports the thrown message, or "An unknown error occurred.", after "Failed to start session: ". |
| AppController.App.constructor | App.tsx:16-26 | The first render is the home screen with no scenario, no session and empty state. |
| AppController.App.CloseLiveSession | App.tsx:30-35 | The held session is closed once and released. Without one nothing happens, so a second call is a no-op. |
| AppController.App.HandleMessage | App.tsx:37-53 | The live transcription is replaced. A final message with some text appends the non-blank turns, resets the transcription and plays the cue. Other messages never change the dialogue. |
| AppController.App.HandleError | App.tsx:55-61 | The status becomes ERROR, the message is recorded, the cue is played and the session is closed. |
| AppController.App.HandleOpen | App.tsx:63-66 | The status becomes LISTENING and the connect cue is played. |
| AppController.App.HandleClose | App.tsx:68-72 | The status becomes IDLE unless it is ANALYZING. The held session is not released. |
| AppController.App.HandleGoalAchieved | App.tsx:74-84 | The goal set only grows by the reported goal. The cue is played only for a new goal. |
| AppController.App.StartSession | App.tsx:86-108 | Nothing happens unless the status is IDLE or ERROR and a scenario is selected. Otherwise a connection is requested with the scenario's instruction and pace, the status becomes CONNECTING and the error is cleared. A failure is handled as an error. |
| AppController.App.StartSessionReleasing | App.tsx:86-108 | The same as `startSession`, except that a session still held is closed first. This keeps every started session either held or closed. |
| AppController.App.StopSessionAndGetFeedback | App.tsx:110-131 | The session is closed. With no non-blank turn the fixed "No conversation was recorded." feedback is shown, with wpm 0 and empty lists, and the analyzer is not called. Otherwise the analyzer gets the non-blank transcript. It always ends IDLE on the feedback screen. |
| AppController.App.RequestFeedback | App.tsx:112-130 | The analysis step alone: the non-blank transcript is analysed, or the fixed feedback is shown when there is none. |
| AppController.App.HandleToggleConversation | App.tsx:133-139 | From IDLE or ERROR with a scenario, the button runs `startSession` as written. It requests a connection and clears the error. A connection is held as the new session without closing the one held before. A failure sets ERROR with its message and plays the error cue. Without a scenario nothing changes. From any other status it closes the session, analyses the non-blank turns or shows the fixed feedback, and ends IDLE on the feedback screen. |
| AppController.App.HandleToggleConversationReleasing | App.tsx:133-139 | The same button over the releasing start, branch by branch with the same outcomes. The difference is that any session still held is closed before the new one is requested, so every started session stays held or closed. |
| AppController.App.ResetConversationState | App.tsx:141-148 | The dialogue, error, goals, feedback and transcription are cleared, and the status becomes IDLE. |
| AppController.App.HandleSelectScenario | App.tsx:150-154 | The scenario is selected, the state is reset and the conversation screen opens. |
| AppController.App.HandleReturnToSelection | App.tsx:156-161 | The session is closed, the selection cleared and the state reset, back on the selection screen. |
| AppController.App.HandleRetryScenario | App.tsx:163-166 | The state is reset and the same scenario's conversation screen opens. |
| AppController.App.HandleNavigate | App.tsx:168-175 | Leaving the scenarios view mid-conversation closes the session and sets IDLE. Any other navigation only changes the view. |
| AppController.LeakAfterServerClose | App.tsx:68-139 | Select, press the button, open, server close, press again: the first session is neither held nor closed. |
| AppController.NoLeakAfterServerClose | App.tsx:86-139 | With the button over the releasing start, the same steps close the first session. |

## Left out

- `services/audioService.ts`: the tones themselves are float audio synthesis. The
  handlers' sound cues are recorded in a ghost log instead.
- The network and device plumbing in `services/geminiService.ts` is not modelled:
  - `ai.live.connect`, `getUserMedia`, the capture callback and `sendRealtimeInput`;
  - the `onopen` setup and its microphone error messages;
  - the `onerror`/`onclose` wiring;
  - the teardown in `closeSession`.
  A session handle is a number, and closing it is recorded.
- `generateContent`, its prompt and `JSON.parse` of the reply are not modelled. The
  analyzer is a function parameter that receives the formatted transcript and
  returns a feedback or fails. The fixed prose of the prompt around the transcript
  is not modelled.
- `utils/audioUtils` is not part of this model. Whether a chunk decodes, and its
  decoded duration in integer ticks, are inputs.
- `onmessage` awaits the audio decoder, so messages could interleave. The model
  treats each message and each handler as atomic.
- `Date`, ISO timestamps and the local-calendar `setDate` are integer milliseconds
  here. Days are 86,400,000 ms each, so daylight-saving shifts are not modelled.
- Unicode `toLowerCase` and `trim` are not modelled. Lower-casing is ASCII, and
  whitespace is space, tab, line feed, carriage return, vertical tab and form feed.
- `String.prototype.replace` `$` patterns in the replacement text are not
  interpreted. Goals are inserted literally.
- React rendering, `useForceUpdate` and hook mechanics are left out. The handlers
  read the current state. In particular, `handleClose`'s `status` closure is not
  stale in the model.
- The presentation components and the 50 prose catalog entries are left out. The
  `handlePracticeClick` glue over `addWords` is left out too.
- Object spreads copy fields that are not part of the record types, such as
  `baseInstruction`/`imageKeywords` into a scenario or extra item fields into a
  word. Records here keep only their declared fields.
- Stored boxes and ids are integers. A `NaN` or fractional box from a hand-edited
  store is not modelled.
- Vocabulary.GetVocabularyStats: the source reads storage twice. The model reads one
  store value for both.

## Findings

| source | as written | input that shows it | evidently intended | confidence | as-written member | corrected member |
|---|---|---|---|---|---|---|
| App.tsx:68-139 | `handleClose` sets IDLE but keeps `liveSessionRef`. The next `startSession` then overwrites the ref without calling `close()` on the old session, whose microphone and audio contexts stay open. | Select a scenario, start, the server opens then closes the session, press the button again. | `startSession` releases any session still held before connecting, so every started session is held or closed. | not executed | AppController.LeakAfterServerClose | AppController.NoLeakAfterServerClose |
