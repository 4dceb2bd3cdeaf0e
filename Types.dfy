/** The record shapes of `types.ts`, as values. */
module Types {

  /** An optional value: `undefined`/`null` in the application becomes `None`. */
  datatype Option<+T> = None | Some(value: T)

  /** `ConversationStatus`: the lifecycle of one live tutoring session. */
  datatype Status = Idle | Connecting | Listening | Analyzing | Error

  /** `AppView`: the top-level screen. */
  datatype AppView = Home | Scenarios | Vocabulary | Desktop | History

  /** `ScenarioState`: the sub-screen of the scenarios view. */
  datatype ScenarioState = Selection | Conversation | FeedbackReport

  datatype Speaker = User | Ai

  /** One final utterance of the dialogue. */
  datatype Turn = Turn(speaker: Speaker, text: string)

  datatype Difficulty = Easy | Medium | Hard

  /** `IScenario`: a role-play exercise as the catalog publishes it. */
  datatype Scenario = Scenario(
    id: string,
    title: string,
    description: string,
    difficulty: Difficulty,
    systemInstruction: string,
    goals: seq<string>,
    imageUrl: string,
    targetWpm: Option<int>)

  datatype PronunciationItem = PronunciationItem(word: string, score: int, feedback: string)

  datatype SpeakingRate = SpeakingRate(wpm: int, feedback: string)

  /** A vocabulary entry suggested by the feedback analysis. */
  datatype VocabularyItem = VocabularyItem(word: string, definition: string, example: string)

  /** The structured report produced once per finished session. */
  datatype Feedback = Feedback(
    intonation: string,
    grammar: string,
    suggestions: string,
    pronunciation: seq<PronunciationItem>,
    speakingRate: SpeakingRate,
    vocabulary: seq<VocabularyItem>)
}
