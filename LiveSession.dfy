/**
 * The `onmessage` handler of a live session in `services/geminiService.ts`: a small
 * state machine over the playback cursor `nextStartTime`, the set of playing audio
 * sources and the two transcript accumulators. Callbacks to the application are
 * recorded in a ghost log, in the order they are made. Audio time is an integer
 * number of clock ticks; a chunk's duration comes from the decoder and is an input.
 */
module LiveSession {
  import opened Types
  import opened Text
  import opened GoalMarkers

  /** What the handler tells the application. */
  datatype Callback =
    | GoalAchieved(goal: string)
    | MessageSnapshot(user: string, ai: string, isFinal: bool)

  /** A scheduled audio chunk: when it starts playing and for how long. */
  datatype Chunk = Chunk(start: int, duration: nat)

  /**
   * The audio part of a message: none, a chunk the decoder turns into audio of the
   * given duration, or data `decode`/`decodeAudioData` throws on.
   */
  datatype Audio = NoAudio | Decoded(duration: nat) | Undecodable

  /**
   * The parts of a server message the handler looks at: its audio chunk, the output
   * and input transcription fragments, and the two flags.
   */
  datatype Message = Message(
    audio: Audio,
    outputText: Option<string>,
    inputText: Option<string>,
    turnComplete: bool,
    interrupted: bool)

  function GoalEvents(goals: seq<string>): (r: seq<Callback>)
    ensures |r| == |goals|
    ensures forall k :: 0 <= k < |goals| ==> r[k] == GoalAchieved(goals[k])
  {
    seq(|goals|, k requires 0 <= k < |goals| => GoalAchieved(goals[k]))
  }

  lemma GoalEventsCons(g: string, goals: seq<string>)
    ensures GoalEvents([g] + goals) == [GoalAchieved(g)] + GoalEvents(goals)
  {
  }

  /**
   * The `exec` loop of a global regular expression: each leftmost match after the
   * previous one, in turn, until none is left; its goals are those `Goals` reads.
   */
  method ScanGoals(text: string) returns (goals: seq<string>)
    ensures goals == Goals(text)
  {
    // `rest` is the text from the regular expression's `lastIndex` on.
    var rest := text;
    goals := [];
    var found := FindMatch(rest);
    while found.Some?
      invariant found == FindMatch(rest)
      invariant goals + Goals(rest) == Goals(text)
      decreases |rest|
    {
      var (p, m) := found.value;
      GoalsStep(rest);
      var next := rest[p + m.length..];
      AppendAssoc(goals, [m.goal], Goals(next));
      goals := goals + [m.goal];
      rest := next;
      found := FindMatch(rest);
    }
    GoalsDone(goals, rest);
  }

  lemma AppendAssoc<T>(a: seq<T>, b: seq<T>, c: seq<T>)
    ensures a + (b + c) == (a + b) + c
  {
  }

  /** With no match left, the scan has all the goals. */
  lemma GoalsDone(goals: seq<string>, rest: string)
    requires FindMatch(rest).None?
    ensures goals + Goals(rest) == goals
  {
    assert Goals(rest) == [];
  }

  /** What a snapshot shows of the tutor: the transcript with markers deleted, trimmed. */
  function ShownAi(output: string): string
  {
    Trim(Strip(output))
  }

  function Max(a: int, b: int): (m: int)
    ensures m >= a && m >= b && (m == a || m == b)
  {
    if a >= b then a else b
  }

  class MessageHandler {
    var nextStartTime: int
    /** The ids of the audio sources still playing. */
    var sources: set<nat>
    var inputTranscription: string
    var outputTranscription: string
    /** How many sources have been created; a new source takes the next number. */
    var created: nat

    /** Every chunk ever scheduled; a source's id is its index here. */
    ghost var chunks: seq<Chunk>
    /** The sources an interruption stopped. */
    ghost var stopped: set<nat>
    /** The index of the first chunk scheduled since the last interruption. */
    ghost var epoch: nat
    ghost var log: seq<Callback>

    /**
     * Since the last interruption chunks play one after another without overlap and
     * all end by `nextStartTime`; only those chunks can still be playing.
     */
    ghost predicate Valid()
      reads this`created, this`epoch, this`sources, this`chunks, this`nextStartTime
    {
      && created == |chunks|
      && epoch <= |chunks|
      && (forall id :: id in sources ==> epoch <= id < |chunks|)
      && (forall i, j :: epoch <= i < j < |chunks| ==> chunks[i].start + chunks[i].duration <= chunks[j].start)
      && (forall i :: epoch <= i < |chunks| ==> chunks[i].start + chunks[i].duration <= nextStartTime)
    }

    /** The state when a session starts. */
    constructor()
      ensures Valid()
      ensures nextStartTime == 0 && sources == {} && inputTranscription == [] && outputTranscription == []
      ensures chunks == [] && stopped == {} && log == []
    {
      nextStartTime := 0;
      sources := {};
      inputTranscription := [];
      outputTranscription := [];
      created := 0;
      chunks := [];
      stopped := {};
      epoch := 0;
      log := [];
    }

    /**
     * A chunk of audio starts at the later of `nextStartTime` and the current time, so
     * never in the past and never before the chunks already queued, and right after
     * them when it arrives early; `nextStartTime` moves to its end and the new source
     * is tracked.
     */
    method ScheduleChunk(duration: nat, currentTime: int) returns (id: nat)
      requires Valid()
      modifies this
      ensures Valid()
      ensures id == |old(chunks)| && chunks == old(chunks) + [Chunk(Max(old(nextStartTime), currentTime), duration)]
      ensures chunks[id].start >= currentTime && chunks[id].start >= old(nextStartTime)
      ensures old(nextStartTime) >= currentTime ==> chunks[id].start == old(nextStartTime)
      ensures nextStartTime == chunks[id].start + duration
      ensures sources == old(sources) + {id}
      ensures inputTranscription == old(inputTranscription) && outputTranscription == old(outputTranscription)
      ensures stopped == old(stopped) && epoch == old(epoch) && log == old(log)
    {
      var start := Max(nextStartTime, currentTime);
      id := created;
      created := created + 1;
      chunks := chunks + [Chunk(start, duration)];
      nextStartTime := start + duration;
      sources := sources + {id};
    }

    /**
     * The first step for a message with audio, taken before the decoder is awaited:
     * the cursor is raised to the current time if it lags behind.
     */
    method CatchUp(currentTime: int)
      requires Valid()
      modifies this`nextStartTime
      ensures Valid()
      ensures nextStartTime == Max(old(nextStartTime), currentTime)
    {
      nextStartTime := Max(nextStartTime, currentTime);
    }

    /** The `ended` listener: a finished source is no longer tracked. */
    method SourceEnded(id: nat)
      requires Valid()
      modifies this
      ensures Valid()
      ensures sources == old(sources) - {id}
      ensures nextStartTime == old(nextStartTime) && chunks == old(chunks) && stopped == old(stopped)
      ensures inputTranscription == old(inputTranscription) && outputTranscription == old(outputTranscription)
      ensures epoch == old(epoch) && log == old(log)
    {
      sources := sources - {id};
    }

    /**
     * An output fragment: every marker in the fragment, left to right, reports its
     * goal; then the fragment is appended to the output transcript.
     */
    method AppendOutput(text: string)
      requires Valid()
      modifies this
      ensures Valid()
      ensures log == old(log) + GoalEvents(Goals(text))
      ensures outputTranscription == old(outputTranscription) + text
      ensures inputTranscription == old(inputTranscription)
      ensures nextStartTime == old(nextStartTime) && sources == old(sources) && chunks == old(chunks)
      ensures stopped == old(stopped) && epoch == old(epoch)
    {
      var goals := ScanGoals(text);
      log := log + GoalEvents(goals);
      outputTranscription := outputTranscription + text;
    }

    /** An input fragment is appended to the input transcript. */
    method AppendInput(text: string)
      requires Valid()
      modifies this
      ensures Valid()
      ensures inputTranscription == old(inputTranscription) + text
      ensures outputTranscription == old(outputTranscription)
      ensures nextStartTime == old(nextStartTime) && sources == old(sources) && chunks == old(chunks)
      ensures stopped == old(stopped) && epoch == old(epoch) && log == old(log)
    {
      inputTranscription := inputTranscription + text;
    }

    /** `callbacks.onMessage` with both transcripts, the tutor's stripped and trimmed. */
    method EmitSnapshot(isFinal: bool)
      requires Valid()
      modifies this
      ensures Valid()
      ensures log == old(log) + [MessageSnapshot(inputTranscription, ShownAi(outputTranscription), isFinal)]
      ensures inputTranscription == old(inputTranscription) && outputTranscription == old(outputTranscription)
      ensures nextStartTime == old(nextStartTime) && sources == old(sources) && chunks == old(chunks)
      ensures stopped == old(stopped) && epoch == old(epoch)
    {
      log := log + [MessageSnapshot(inputTranscription, ShownAi(outputTranscription), isFinal)];
    }

    /** The end of a turn: one final snapshot, then both transcripts start afresh. */
    method CompleteTurn()
      requires Valid()
      modifies this
      ensures Valid()
      ensures log == old(log) + [MessageSnapshot(old(inputTranscription), ShownAi(old(outputTranscription)), true)]
      ensures inputTranscription == [] && outputTranscription == []
      ensures nextStartTime == old(nextStartTime) && sources == old(sources) && chunks == old(chunks)
      ensures stopped == old(stopped) && epoch == old(epoch)
    {
      EmitSnapshot(true);
      inputTranscription := [];
      outputTranscription := [];
    }

    /**
     * An interruption stops every tracked source and forgets it, and playback of the
     * next chunk is no longer queued behind the stopped ones.
     */
    method Interrupt()
      requires Valid()
      modifies this
      ensures Valid()
      ensures sources == {} && stopped == old(stopped) + old(sources) && nextStartTime == 0
      ensures epoch == |chunks| && chunks == old(chunks)
      ensures inputTranscription == old(inputTranscription) && outputTranscription == old(outputTranscription)
      ensures log == old(log)
    {
      while sources != {}
        invariant sources <= old(sources)
        invariant stopped == old(stopped) + (old(sources) - sources)
        invariant Valid() && chunks == old(chunks) && epoch == old(epoch) && log == old(log)
        invariant nextStartTime == old(nextStartTime)
        invariant inputTranscription == old(inputTranscription) && outputTranscription == old(outputTranscription)
        decreases |sources|
      {
        var source :| source in sources;
        stopped := stopped + {source};
        sources := sources - {source};
      }
      nextStartTime := 0;
      epoch := |chunks|;
    }

    /**
     * The transcription part of `onmessage`: report goals and append the output
     * fragment, append the input fragment, emit one non-final snapshot, and on
     * `turnComplete` emit one final snapshot with the same contents and clear the
     * transcripts. Playback is not touched.
     */
    method HandleTranscription(msg: Message)
      requires Valid()
      modifies this
      ensures Valid()
      ensures var output := old(outputTranscription) + (if msg.outputText.Some? then msg.outputText.value else []);
              var input := old(inputTranscription) + (if msg.inputText.Some? then msg.inputText.value else []);
              var goals := if msg.outputText.Some? then Goals(msg.outputText.value) else [];
              var snapshot := MessageSnapshot(input, ShownAi(output), false);
              && log == old(log) + GoalEvents(goals) + [snapshot]
                        + (if msg.turnComplete then [snapshot.(isFinal := true)] else [])
              && outputTranscription == (if msg.turnComplete then [] else output)
              && inputTranscription == (if msg.turnComplete then [] else input)
      ensures sources == old(sources) && nextStartTime == old(nextStartTime) && chunks == old(chunks)
      ensures stopped == old(stopped) && epoch == old(epoch)
    {
      AppendFragments(msg);
      EmitSnapshot(false);
      if msg.turnComplete {
        CompleteTurn();
      }
    }

    /** Both fragments of a message, the output one first, each when present. */
    method AppendFragments(msg: Message)
      requires Valid()
      modifies this
      ensures Valid()
      ensures log == old(log) + GoalEvents(if msg.outputText.Some? then Goals(msg.outputText.value) else [])
      ensures outputTranscription == old(outputTranscription) + (if msg.outputText.Some? then msg.outputText.value else [])
      ensures inputTranscription == old(inputTranscription) + (if msg.inputText.Some? then msg.inputText.value else [])
      ensures sources == old(sources) && nextStartTime == old(nextStartTime) && chunks == old(chunks)
      ensures stopped == old(stopped) && epoch == old(epoch)
    {
      if msg.outputText.Some? {
        AppendOutput(msg.outputText.value);
      } else {
        assert old(log) + GoalEvents([]) == old(log) && old(outputTranscription) + [] == old(outputTranscription);
      }
      if msg.inputText.Some? {
        AppendInput(msg.inputText.value);
      } else {
        assert old(inputTranscription) + [] == old(inputTranscription);
      }
    }

    /**
     * `onmessage`, in the order of the source: schedule the audio, handle the
     * transcription, and on `interrupted` stop all playback. When the audio cannot be
     * decoded the handler's promise rejects after the cursor has been raised, and
     * nothing else of the message is handled.
     */
    method OnMessage(msg: Message, currentTime: int)
      requires Valid()
      modifies this
      ensures Valid()
      ensures msg.audio.Undecodable? ==>
        && nextStartTime == Max(old(nextStartTime), currentTime)
        && sources == old(sources) && chunks == old(chunks) && log == old(log)
        && outputTranscription == old(outputTranscription) && inputTranscription == old(inputTranscription)
      ensures !msg.audio.Undecodable? ==>
        var output := old(outputTranscription) + (if msg.outputText.Some? then msg.outputText.value else []);
        var input := old(inputTranscription) + (if msg.inputText.Some? then msg.inputText.value else []);
        var goals := if msg.outputText.Some? then Goals(msg.outputText.value) else [];
        var snapshot := MessageSnapshot(input, ShownAi(output), false);
        && log == old(log) + GoalEvents(goals) + [snapshot]
                  + (if msg.turnComplete then [snapshot.(isFinal := true)] else [])
        && outputTranscription == (if msg.turnComplete then [] else output)
        && inputTranscription == (if msg.turnComplete then [] else input)
      ensures msg.interrupted && !msg.audio.Undecodable? ==> sources == {} && nextStartTime == 0
      ensures !msg.interrupted && msg.audio.NoAudio? ==>
        sources == old(sources) && nextStartTime == old(nextStartTime)
      ensures !msg.interrupted && msg.audio.Decoded? ==>
        && |chunks| == |old(chunks)| + 1
        && sources == old(sources) + {|old(chunks)|}
        && nextStartTime == Max(old(nextStartTime), currentTime) + msg.audio.duration
      ensures msg.audio.Decoded? ==>
        chunks == old(chunks) + [Chunk(Max(old(nextStartTime), currentTime), msg.audio.duration)]
      ensures !msg.audio.Decoded? ==> chunks == old(chunks)
      ensures msg.interrupted && !msg.audio.Undecodable? ==>
        stopped == old(stopped) + old(sources) + (if msg.audio.Decoded? then {|old(chunks)|} else {})
        && epoch == |chunks|
      ensures !(msg.interrupted && !msg.audio.Undecodable?) ==> stopped == old(stopped) && epoch == old(epoch)
    {
      match msg.audio {
        case Undecodable =>
          CatchUp(currentTime);
          return;
        case Decoded(duration) =>
          CatchUp(currentTime);
          var _ := ScheduleChunk(duration, currentTime);
        case NoAudio =>
      }
      HandleTranscription(msg);
      if msg.interrupted {
        Interrupt();
      }
    }
  }
}
