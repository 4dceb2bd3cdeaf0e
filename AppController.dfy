/**
 * The session controller of `App.tsx`: the state the application component keeps
 * for the scenarios screen and the handlers that change it. The handle of the live
 * session is a number, the handles closed so far and the sound cues played are
 * recorded in ghost logs, and the transcripts handed to the analyzer in a third.
 * Each handler runs to completion before the next one starts.
 */
module AppController {
  import opened Types
  import opened Text
  import Tutor

  /** The cues of the audio service the handlers play. */
  datatype Cue = MessageCue | ErrorCue | ConnectCue | GoalCue

  /**
   * What `startConversation` gives back: an open session, or the thrown value, which
   * carries a message when it is an `Error`.
   */
  datatype ConnectResult = Connected | ConnectFailed(reason: Option<string>)

  /** The turns of `turns` whose text is not blank, in order. */
  function NonBlank(turns: seq<Turn>): (r: seq<Turn>)
    ensures |r| <= |turns|
    ensures forall k :: 0 <= k < |r| ==> !IsBlank(r[k].text)
    decreases |turns|
  {
    if turns == [] then []
    else (if IsBlank(turns[0].text) then [] else [turns[0]]) + NonBlank(turns[1..])
  }

  /** Filtering keeps exactly the non-blank turns. */
  lemma {:induction false} NonBlankMembers(turns: seq<Turn>, t: Turn)
    ensures t in NonBlank(turns) <==> t in turns && !IsBlank(t.text)
    decreases |turns|
  {
    if turns != [] {
      NonBlankMembers(turns[1..], t);
      assert turns == [turns[0]] + turns[1..];
    }
  }

  /** A list without blank turns passes the filter unchanged. */
  lemma {:induction false} NonBlankOfNonBlank(turns: seq<Turn>)
    requires forall k :: 0 <= k < |turns| ==> !IsBlank(turns[k].text)
    ensures NonBlank(turns) == turns
    decreases |turns|
  {
    if turns != [] {
      NonBlankOfNonBlank(turns[1..]);
      assert [turns[0]] + turns[1..] == turns;
    }
  }

  /** The turns a final message adds: the learner's, then the tutor's, each unless blank. */
  function FinalTurns(user: string, ai: string): (r: seq<Turn>)
  {
    NonBlank([Turn(User, user), Turn(Ai, ai)])
  }

  lemma FinalTurnsShape(user: string, ai: string)
    ensures FinalTurns(user, ai) ==
      (if IsBlank(user) then [] else [Turn(User, user)]) + (if IsBlank(ai) then [] else [Turn(Ai, ai)])
  {
    var u, a := Turn(User, user), Turn(Ai, ai);
    assert [u, a][1..] == [a];
    assert [a][1..] == [];
    assert NonBlank([a]) == (if IsBlank(ai) then [] else [a]) + NonBlank([]);
    assert NonBlank([u, a]) == (if IsBlank(user) then [] else [u]) + NonBlank([a]);
  }

  const NotRecorded := "No conversation was recorded."

  /** The feedback shown when nothing worth analysing was said. */
  const NoConversationFeedback := Feedback(
    NotRecorded,
    NotRecorded,
    "Try speaking for a bit longer next time to get feedback!",
    [],
    SpeakingRate(0, NotRecorded),
    [])

  const UnknownError := "An unknown error occurred."

  function StartFailure(reason: Option<string>): (r: string)
    ensures reason.Some? ==> r == "Failed to start session: " + reason.value
    ensures reason.None? ==> r == "Failed to start session: " + UnknownError
  {
    "Failed to start session: " + (match reason case Some(m) => m case None => UnknownError)
  }

  class App {
    var status: Status
    var conversation: seq<Turn>
    var currentError: Option<string>
    var view: AppView
    var scenarioState: ScenarioState
    var selectedScenario: Option<Scenario>
    var achievedGoals: set<string>
    var feedback: Option<Feedback>
    /** The live transcription of the turn in progress (`currentTranscriptionRef`). */
    var transcriptionUser: string
    var transcriptionAi: string
    /** `liveSessionRef`: the handle of the open session, if any. */
    var liveSession: Option<nat>
    /** How many sessions have been started; a new session takes the next number. */
    var started: nat

    /** The handles `close` was called on, in order. */
    ghost var closed: seq<nat>
    /** The sound cues played, in order. */
    ghost var cues: seq<Cue>
    /** The transcripts handed to the analyzer, in order. */
    ghost var analyzed: seq<string>
    /** The instruction and target pace each connection was requested with. */
    ghost var requests: seq<(string, Option<int>)>

    /**
     * No session is closed twice and the held session is not a closed one; the
     * recorded dialogue holds no blank turn.
     */
    ghost predicate Valid()
      reads this`closed, this`started, this`liveSession, this`conversation
    {
      && (forall i, j :: 0 <= i < j < |closed| ==> closed[i] != closed[j])
      && (forall i :: 0 <= i < |closed| ==> closed[i] < started)
      && (liveSession.Some? ==> liveSession.value < started && liveSession.value !in closed)
      && (forall k :: 0 <= k < |conversation| ==> !IsBlank(conversation[k].text))
    }

    /** Every session ever started is either the one held or has been closed. */
    ghost predicate NoLeak()
      reads this`started, this`closed, this`liveSession
    {
      forall h: nat :: h < started ==> h in closed || liveSession == Some(h)
    }

    /** The first render: the home screen, no scenario, no session. */
    constructor()
      ensures Valid() && NoLeak()
      ensures status == Idle && conversation == [] && currentError == None
      ensures view == Home && scenarioState == Selection && selectedScenario == None
      ensures achievedGoals == {} && feedback == None
      ensures transcriptionUser == [] && transcriptionAi == []
      ensures liveSession == None && started == 0
      ensures closed == [] && cues == [] && analyzed == [] && requests == []
    {
      status := Idle;
      conversation := [];
      currentError := None;
      view := Home;
      scenarioState := Selection;
      selectedScenario := None;
      achievedGoals := {};
      feedback := None;
      transcriptionUser := [];
      transcriptionAi := [];
      liveSession := None;
      started := 0;
      closed := [];
      cues := [];
      analyzed := [];
      requests := [];
    }

    /**
     * `closeLiveSession`: the held session, if any, is closed once and forgotten, so
     * a second call does nothing.
     */
    method CloseLiveSession()
      requires Valid()
      modifies this`liveSession, this`closed
      ensures Valid() && (old(NoLeak()) ==> NoLeak())
      ensures liveSession == None
      ensures old(liveSession).Some? ==> closed == old(closed) + [old(liveSession).value]
      ensures old(liveSession).None? ==> closed == old(closed)
    {
      if liveSession.Some? {
        closed := closed + [liveSession.value];
        liveSession := None;
      }
    }

    /**
     * `handleMessage`: the snapshot becomes the live transcription; a final snapshot
     * with some text adds the learner's and the tutor's turns, blank ones dropped,
     * plays the message cue and clears the live transcription. A non-final snapshot
     * never changes the dialogue.
     */
    method HandleMessage(user: string, ai: string, isFinal: bool)
      requires Valid()
      modifies this`transcriptionUser, this`transcriptionAi, this`cues, this`conversation
      ensures Valid()
      ensures isFinal && (user != [] || ai != []) ==>
        && conversation == old(conversation) + FinalTurns(user, ai)
        && transcriptionUser == [] && transcriptionAi == []
        && cues == old(cues) + [MessageCue]
      ensures !(isFinal && (user != [] || ai != [])) ==>
        && conversation == old(conversation)
        && transcriptionUser == user && transcriptionAi == ai
        && cues == old(cues)
    {
      transcriptionUser, transcriptionAi := user, ai;
      if isFinal && (user != [] || ai != []) {
        cues := cues + [MessageCue];
        conversation := conversation + FinalTurns(user, ai);
        transcriptionUser, transcriptionAi := [], [];
      }
    }

    /** `handleError`: the error cue, status ERROR, the message kept, the session closed. */
    method HandleError(error: string)
      requires Valid()
      modifies this`cues, this`status, this`currentError, this`liveSession, this`closed
      ensures Valid() && (old(NoLeak()) ==> NoLeak())
      ensures status == Error && currentError == Some(error) && cues == old(cues) + [ErrorCue]
      ensures liveSession == None
      ensures old(liveSession).Some? ==> closed == old(closed) + [old(liveSession).value]
      ensures old(liveSession).None? ==> closed == old(closed)
    {
      cues := cues + [ErrorCue];
      status := Error;
      currentError := Some(error);
      CloseLiveSession();
    }

    /** `handleOpen`: the connect cue, status LISTENING. */
    method HandleOpen()
      requires Valid()
      modifies this`cues, this`status
      ensures Valid()
      ensures status == Listening && cues == old(cues) + [ConnectCue]
    {
      cues := cues + [ConnectCue];
      status := Listening;
    }

    /**
     * `handleClose`: the server ended the session; the status returns to IDLE unless
     * an analysis is under way. The session handle is kept.
     */
    method HandleClose()
      requires Valid()
      modifies this`status
      ensures Valid()
      ensures status == if old(status) == Analyzing then Analyzing else Idle
    {
      if status != Analyzing {
        status := Idle;
      }
    }

    /**
     * `handleGoalAchieved`: the set of achieved goals only grows; a new goal adds
     * exactly that goal and plays the goal cue, a goal already there changes nothing.
     */
    method HandleGoalAchieved(goal: string)
      requires Valid()
      modifies this`cues, this`achievedGoals
      ensures Valid()
      ensures achievedGoals == old(achievedGoals) + {goal}
      ensures cues == old(cues) + (if goal in old(achievedGoals) then [] else [GoalCue])
    {
      if goal !in achievedGoals {
        cues := cues + [GoalCue];
        achievedGoals := achievedGoals + {goal};
      }
    }

    /**
     * `startSession`, as written: only from IDLE or ERROR with a scenario selected;
     * the status becomes CONNECTING, the error is cleared and a session is requested
     * with the scenario's instruction and target pace. A new session replaces the
     * held handle without closing it; a failure is reported through `handleError`.
     */
    method StartSession(connect: ConnectResult)
      requires Valid()
      modifies this`status, this`currentError, this`requests, this`liveSession,
               this`started, this`cues, this`closed
      ensures Valid()
      ensures !(old(status) in {Idle, Error} && old(selectedScenario).Some?) ==>
        && status == old(status) && currentError == old(currentError)
        && liveSession == old(liveSession) && started == old(started) && closed == old(closed)
        && cues == old(cues) && requests == old(requests)
      ensures old(status) in {Idle, Error} && old(selectedScenario).Some? ==>
        && requests == old(requests) + [(old(selectedScenario).value.systemInstruction, old(selectedScenario).value.targetWpm)]
        && (connect.Connected? ==>
              && status == Connecting && currentError == None
              && liveSession == Some(old(started)) && started == old(started) + 1 && closed == old(closed)
              && cues == old(cues))
        && (connect.ConnectFailed? ==>
              && status == Error && currentError == Some(StartFailure(connect.reason))
              && liveSession == None && started == old(started)
              && closed == old(closed) + (if old(liveSession).Some? then [old(liveSession).value] else [])
              && cues == old(cues) + [ErrorCue])
    {
      if !(status in {Idle, Error}) || selectedScenario.None? {
        return;
      }
      status := Connecting;
      currentError := None;
      requests := requests + [(selectedScenario.value.systemInstruction, selectedScenario.value.targetWpm)];
      match connect
      case Connected =>
        liveSession := Some(started);
        started := started + 1;
      case ConnectFailed(reason) =>
        HandleError(StartFailure(reason));
    }

    /**
     * `startSession` as evidently intended: a session still held (one the server has
     * closed) is released before the new one replaces it, so no session is leaked.
     */
    method StartSessionReleasing(connect: ConnectResult)
      requires Valid()
      modifies this`status, this`currentError, this`requests, this`liveSession,
               this`started, this`cues, this`closed
      ensures Valid() && (old(NoLeak()) ==> NoLeak())
      ensures !(old(status) in {Idle, Error} && old(selectedScenario).Some?) ==>
        && status == old(status) && currentError == old(currentError)
        && liveSession == old(liveSession) && started == old(started) && closed == old(closed)
        && cues == old(cues) && requests == old(requests)
      ensures old(status) in {Idle, Error} && old(selectedScenario).Some? ==>
        && requests == old(requests) + [(old(selectedScenario).value.systemInstruction, old(selectedScenario).value.targetWpm)]
        && closed == old(closed) + (if old(liveSession).Some? then [old(liveSession).value] else [])
        && (connect.Connected? ==>
              && status == Connecting && currentError == None
              && liveSession == Some(old(started)) && started == old(started) + 1
              && cues == old(cues))
        && (connect.ConnectFailed? ==>
              && status == Error && currentError == Some(StartFailure(connect.reason))
              && liveSession == None && started == old(started)
              && cues == old(cues) + [ErrorCue])
    {
      if !(status in {Idle, Error}) || selectedScenario.None? {
        return;
      }
      CloseLiveSession();
      status := Connecting;
      currentError := None;
      requests := requests + [(selectedScenario.value.systemInstruction, selectedScenario.value.targetWpm)];
      match connect
      case Connected =>
        liveSession := Some(started);
        started := started + 1;
      case ConnectFailed(reason) =>
        HandleError(StartFailure(reason));
    }

    /**
     * `stopSessionAndGetFeedback`: the session is closed; the non-blank turns go to
     * the analyzer, and when there are none the fixed "No conversation was recorded."
     * feedback is used without calling it. It always ends at IDLE on the feedback
     * screen.
     */
    method StopSessionAndGetFeedback(analyze: string -> Option<Feedback>)
      requires Valid()
      modifies this`liveSession, this`closed, this`status, this`analyzed, this`feedback, this`scenarioState
      ensures Valid() && (old(NoLeak()) ==> NoLeak())
      ensures var valid := NonBlank(old(conversation));
              && (valid != [] ==>
                    && feedback == Some(Tutor.GetConversationFeedback(valid, analyze))
                    && analyzed == old(analyzed) + [Tutor.FormatHistory(valid)])
              && (valid == [] ==>
                    && feedback == Some(NoConversationFeedback)
                    && feedback.value.speakingRate.wpm == 0
                    && feedback.value.pronunciation == [] && feedback.value.vocabulary == []
                    && analyzed == old(analyzed))
      ensures status == Idle && scenarioState == FeedbackReport
      ensures liveSession == None
      ensures old(liveSession).Some? ==> closed == old(closed) + [old(liveSession).value]
      ensures old(liveSession).None? ==> closed == old(closed)
    {
      CloseLiveSession();
      RequestFeedback(analyze);
    }

    /**
     * The analysis step of `stopSessionAndGetFeedback`: the non-blank turns are sent to
     * the analyzer, or, when there are none, the fixed "speak longer" feedback is shown.
     */
    method RequestFeedback(analyze: string -> Option<Feedback>)
      modifies this`status, this`analyzed, this`feedback, this`scenarioState
      ensures var valid := NonBlank(conversation);
              && (valid != [] ==>
                    && feedback == Some(Tutor.GetConversationFeedback(valid, analyze))
                    && analyzed == old(analyzed) + [Tutor.FormatHistory(valid)])
              && (valid == [] ==> feedback == Some(NoConversationFeedback) && analyzed == old(analyzed))
      ensures status == Idle && scenarioState == FeedbackReport
    {
      status := Analyzing;
      var valid := NonBlank(conversation);
      if valid != [] {
        analyzed := analyzed + [Tutor.FormatHistory(valid)];
        feedback := Some(Tutor.GetConversationFeedback(valid, analyze));
      } else {
        feedback := Some(NoConversationFeedback);
      }
      status := Idle;
      scenarioState := FeedbackReport;
    }

    /**
     * `handleToggleConversation`: from IDLE or ERROR the button starts a session with
     * `startSession` as written, from any other status it stops the session and asks
     * for feedback.
     */
    method HandleToggleConversation(connect: ConnectResult, analyze: string -> Option<Feedback>)
      requires Valid()
      modifies this`status, this`currentError, this`requests, this`liveSession, this`started,
               this`cues, this`closed, this`analyzed, this`feedback, this`scenarioState
      ensures Valid()
      ensures old(status) in {Idle, Error} && old(selectedScenario).Some? ==>
        && requests == old(requests) + [(old(selectedScenario).value.systemInstruction, old(selectedScenario).value.targetWpm)]
        && scenarioState == old(scenarioState) && feedback == old(feedback) && analyzed == old(analyzed)
        && (connect.Connected? ==>
              && status == Connecting && currentError == None
              && liveSession == Some(old(started)) && started == old(started) + 1
              && closed == old(closed) && cues == old(cues))
        && (connect.ConnectFailed? ==>
              && status == Error && currentError == Some(StartFailure(connect.reason))
              && liveSession == None && started == old(started)
              && closed == old(closed) + (if old(liveSession).Some? then [old(liveSession).value] else [])
              && cues == old(cues) + [ErrorCue])
      ensures old(status) in {Idle, Error} && old(selectedScenario).None? ==>
        && status == old(status) && currentError == old(currentError) && requests == old(requests)
        && liveSession == old(liveSession) && started == old(started) && cues == old(cues) && closed == old(closed)
        && analyzed == old(analyzed) && feedback == old(feedback) && scenarioState == old(scenarioState)
      ensures !(old(status) in {Idle, Error}) ==>
        var valid := NonBlank(old(conversation));
        && (valid != [] ==>
              && feedback == Some(Tutor.GetConversationFeedback(valid, analyze))
              && analyzed == old(analyzed) + [Tutor.FormatHistory(valid)])
        && (valid == [] ==> feedback == Some(NoConversationFeedback) && analyzed == old(analyzed))
        && status == Idle && scenarioState == FeedbackReport && liveSession == None
        && closed == old(closed) + (if old(liveSession).Some? then [old(liveSession).value] else [])
        && requests == old(requests) && currentError == old(currentError)
        && started == old(started) && cues == old(cues)
      ensures !(old(status) in {Idle, Error}) ==> (old(NoLeak()) ==> NoLeak())
    {
      if status == Idle || status == Error {
        StartSession(connect);
      } else {
        StopSessionAndGetFeedback(analyze);
      }
    }

    /**
     * The button as evidently intended: the same toggle over the releasing start, so
     * that every session started is held or closed.
     */
    method HandleToggleConversationReleasing(connect: ConnectResult, analyze: string -> Option<Feedback>)
      requires Valid()
      modifies this`status, this`currentError, this`requests, this`liveSession, this`started,
               this`cues, this`closed, this`analyzed, this`feedback, this`scenarioState
      ensures Valid() && (old(NoLeak()) ==> NoLeak())
      ensures old(status) in {Idle, Error} && old(selectedScenario).Some? ==>
        && requests == old(requests) + [(old(selectedScenario).value.systemInstruction, old(selectedScenario).value.targetWpm)]
        && scenarioState == old(scenarioState) && feedback == old(feedback) && analyzed == old(analyzed)
        && closed == old(closed) + (if old(liveSession).Some? then [old(liveSession).value] else [])
        && (connect.Connected? ==>
              && status == Connecting && currentError == None
              && liveSession == Some(old(started)) && started == old(started) + 1
              && cues == old(cues))
        && (connect.ConnectFailed? ==>
              && status == Error && currentError == Some(StartFailure(connect.reason))
              && liveSession == None && started == old(started)
              && cues == old(cues) + [ErrorCue])
      ensures old(status) in {Idle, Error} && old(selectedScenario).None? ==>
        && status == old(status) && currentError == old(currentError) && requests == old(requests)
        && liveSession == old(liveSession) && started == old(started) && cues == old(cues) && closed == old(closed)
        && analyzed == old(analyzed) && feedback == old(feedback) && scenarioState == old(scenarioState)
      ensures !(old(status) in {Idle, Error}) ==>
        var valid := NonBlank(old(conversation));
        && (valid != [] ==>
              && feedback == Some(Tutor.GetConversationFeedback(valid, analyze))
              && analyzed == old(analyzed) + [Tutor.FormatHistory(valid)])
        && (valid == [] ==> feedback == Some(NoConversationFeedback) && analyzed == old(analyzed))
        && status == Idle && scenarioState == FeedbackReport && liveSession == None
        && closed == old(closed) + (if old(liveSession).Some? then [old(liveSession).value] else [])
        && requests == old(requests) && currentError == old(currentError)
        && started == old(started) && cues == old(cues)
    {
      if status == Idle || status == Error {
        StartSessionReleasing(connect);
      } else {
        StopSessionAndGetFeedback(analyze);
      }
    }

    /**
     * `resetConversationState`: no dialogue, no error, no achieved goals, no feedback,
     * no live transcription, status IDLE. The session and the screens are untouched.
     */
    method ResetConversationState()
      requires Valid()
      modifies this`conversation, this`currentError, this`status, this`achievedGoals,
               this`feedback, this`transcriptionUser, this`transcriptionAi
      ensures Valid()
      ensures conversation == [] && currentError == None && status == Idle
      ensures achievedGoals == {} && feedback == None
      ensures transcriptionUser == [] && transcriptionAi == []
    {
      conversation := [];
      currentError := None;
      status := Idle;
      achievedGoals := {};
      feedback := None;
      transcriptionUser, transcriptionAi := [], [];
    }

    /** `handleSelectScenario`: the scenario is chosen and a fresh conversation shown. */
    method HandleSelectScenario(scenario: Scenario)
      requires Valid()
      modifies this`selectedScenario, this`scenarioState, this`conversation, this`currentError, this`status,
               this`achievedGoals, this`feedback, this`transcriptionUser, this`transcriptionAi
      ensures Valid()
      ensures selectedScenario == Some(scenario) && scenarioState == Conversation
      ensures conversation == [] && currentError == None && status == Idle
      ensures achievedGoals == {} && feedback == None
      ensures transcriptionUser == [] && transcriptionAi == []
    {
      selectedScenario := Some(scenario);
      ResetConversationState();
      scenarioState := Conversation;
    }

    /** `handleReturnToSelection`: the session is closed, the choice dropped, the state reset. */
    method HandleReturnToSelection()
      requires Valid()
      modifies this`liveSession, this`closed, this`selectedScenario, this`scenarioState, this`conversation, this`currentError,
               this`status, this`achievedGoals, this`feedback, this`transcriptionUser, this`transcriptionAi
      ensures Valid() && (old(NoLeak()) ==> NoLeak())
      ensures selectedScenario == None && scenarioState == Selection
      ensures conversation == [] && currentError == None && status == Idle
      ensures achievedGoals == {} && feedback == None
      ensures transcriptionUser == [] && transcriptionAi == []
      ensures liveSession == None
      ensures old(liveSession).Some? ==> closed == old(closed) + [old(liveSession).value]
      ensures old(liveSession).None? ==> closed == old(closed)
    {
      CloseLiveSession();
      selectedScenario := None;
      ResetConversationState();
      scenarioState := Selection;
    }

    /** `handleRetryScenario`: the same scenario again, from a fresh conversation. */
    method HandleRetryScenario()
      requires Valid()
      modifies this`scenarioState, this`conversation, this`currentError, this`status,
               this`achievedGoals, this`feedback, this`transcriptionUser, this`transcriptionAi
      ensures Valid()
      ensures scenarioState == Conversation && selectedScenario == old(selectedScenario)
      ensures conversation == [] && currentError == None && status == Idle
      ensures achievedGoals == {} && feedback == None
      ensures transcriptionUser == [] && transcriptionAi == []
    {
      ResetConversationState();
      scenarioState := Conversation;
    }

    /**
     * `handleNavigate`: leaving the scenarios screen in the middle of a conversation
     * closes the session and sets status IDLE; any other navigation only changes the
     * screen.
     */
    method HandleNavigate(target: AppView)
      requires Valid()
      modifies this`view, this`liveSession, this`closed, this`status
      ensures Valid() && (old(NoLeak()) ==> NoLeak())
      ensures view == target
      ensures old(view) == Scenarios && old(scenarioState) == Conversation && target != Scenarios ==>
        && status == Idle && liveSession == None
        && closed == old(closed) + (if old(liveSession).Some? then [old(liveSession).value] else [])
      ensures !(old(view) == Scenarios && old(scenarioState) == Conversation && target != Scenarios) ==>
        status == old(status) && liveSession == old(liveSession) && closed == old(closed)
    {
      if view == Scenarios && scenarioState == Conversation && target != Scenarios {
        CloseLiveSession();
        status := Idle;
      }
      view := target;
    }
  }

  /**
   * A session the server closes is never released: after it ends, pressing the
   * button again opens a second session over the first, and the first is neither
   * held nor closed.
   */
  method LeakAfterServerClose(scenario: Scenario, analyze: string -> Option<Feedback>) returns (app: App)
    ensures app.Valid() && app.started == 2 && app.liveSession == Some(1)
    ensures 0 !in app.closed && !app.NoLeak()
  {
    app := new App();
    app.HandleSelectScenario(scenario);
    app.HandleToggleConversation(Connected, analyze);
    assert app.liveSession == Some(0) && app.started == 1 && app.closed == [];
    app.HandleOpen();
    app.HandleClose();
    assert app.status == Idle && app.selectedScenario == Some(scenario);
    app.HandleToggleConversation(Connected, analyze);
  }

  /** With the intended `startSession` behind the button the same steps close the first session. */
  method NoLeakAfterServerClose(scenario: Scenario, analyze: string -> Option<Feedback>) returns (app: App)
    ensures app.Valid() && app.NoLeak() && app.started == 2 && app.liveSession == Some(1)
    ensures app.closed == [0]
  {
    app := new App();
    app.HandleSelectScenario(scenario);
    app.HandleToggleConversationReleasing(Connected, analyze);
    assert app.liveSession == Some(0) && app.started == 1 && app.closed == [];
    app.HandleOpen();
    app.HandleClose();
    assert app.status == Idle && app.selectedScenario == Some(scenario);
    app.HandleToggleConversationReleasing(Connected, analyze);
  }
}
