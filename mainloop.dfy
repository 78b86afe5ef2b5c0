/**
 * The controller's main loop. Each iteration consults the clock gate; while
 * idle it drops both handles, otherwise it creates whichever handle is
 * missing, takes the transcript of the next audio chunk and, unless that
 * transcript is empty, scans the keyword table. A match emits the action and
 * drops the recognizer, so the next utterance starts on a fresh one.
 *
 * The transcript is an input of each iteration: reading audio and
 * recognising it belong to the capture backend and the speech engine.
 */
module MainLoop {
  import opened Wrappers
  import opened Gate
  import opened Actions
  import opened Keywords

  /** The sample rate every recognizer is created for. */
  const SampleRate: nat := 16000

  /** A recognizer handle of the speech engine. */
  class Recognizer {
    const sampleRate: nat

    constructor (rate: nat)
      ensures sampleRate == rate
    {
      sampleRate := rate;
    }
  }

  /** An open audio input stream. */
  class AudioReader {
    constructor ()
    {
    }
  }

  /** What the environment supplies to one iteration: the local hour and the chunk's transcript. */
  datatype Input = Input(hour: nat, text: string)

  /** The action one iteration emits, if any. */
  function StepAction(input: Input): Option<LedAction>
  {
    if IsIdle(input.hour) || input.text == [] then None
    else Dispatch(WordedActions, input.text)
  }

  function ActionList(a: Option<LedAction>): (r: seq<LedAction>)
    ensures |r| <= 1
  {
    match a
    case None => []
    case Some(x) => [x]
  }

  /** The actions a run of iterations emits, in the order of the iterations. */
  function Emissions(inputs: seq<Input>): seq<LedAction>
    decreases |inputs|
  {
    if inputs == [] then []
    else Emissions(inputs[..|inputs| - 1]) + ActionList(StepAction(inputs[|inputs| - 1]))
  }

  class Session {
    var recognizer: Recognizer?
    var audioreader: AudioReader?

    /** The recognizer may be dropped alone, the audio stream never: it goes only together with the recognizer. */
    ghost predicate Coupled()
      reads this
    {
      recognizer != null ==> audioreader != null
    }

    /** Both handles start absent. */
    constructor ()
      ensures recognizer == null && audioreader == null && Coupled()
    {
      recognizer := null;
      audioreader := null;
    }

    /** The lazy-creation phase: a missing handle is created, a present one is kept. */
    method AcquireHandles()
      modifies this
      ensures recognizer != null && audioreader != null
      ensures old(recognizer) != null ==> recognizer == old(recognizer)
      ensures old(recognizer) == null ==> fresh(recognizer) && recognizer.sampleRate == SampleRate
      ensures old(audioreader) != null ==> audioreader == old(audioreader)
      ensures old(audioreader) == null ==> fresh(audioreader)
    {
      if recognizer == null {
        recognizer := new Recognizer(SampleRate);
      }
      if audioreader == null {
        audioreader := new AudioReader();
      }
    }

    /** One iteration of the loop, at the given hour, on the transcript the recognizer yields. */
    method Step(hour: nat, text: string) returns (action: Option<LedAction>)
      modifies this
      ensures action == StepAction(Input(hour, text))
      ensures IsIdle(hour) ==> recognizer == null && audioreader == null
      ensures !IsIdle(hour) ==> audioreader != null
      ensures !IsIdle(hour) && old(audioreader) != null ==> audioreader == old(audioreader)
      ensures !IsIdle(hour) && old(audioreader) == null ==> fresh(audioreader)
      ensures !IsIdle(hour) && action.Some? ==> recognizer == null
      ensures !IsIdle(hour) && action.None? ==> recognizer != null
      ensures !IsIdle(hour) && action.None? && old(recognizer) != null ==> recognizer == old(recognizer)
      ensures !IsIdle(hour) && action.None? && old(recognizer) == null ==> fresh(recognizer) && recognizer.sampleRate == SampleRate
      ensures Coupled()
    {
      if IsIdle(hour) {
        recognizer := null;
        audioreader := null;
        return None;
      }
      AcquireHandles();
      if text == [] {
        return None;
      }
      action := FindAction(WordedActions, text);
      if action.Some? {
        recognizer := null;
      }
    }

    /** A run of the loop over the inputs of successive iterations. */
    method Run(inputs: seq<Input>) returns (emitted: seq<LedAction>)
      requires Coupled()
      modifies this
      ensures emitted == Emissions(inputs)
      ensures Coupled()
      ensures inputs == [] ==> recognizer == old(recognizer) && audioreader == old(audioreader)
      ensures inputs != [] && IsIdle(inputs[|inputs| - 1].hour) ==> recognizer == null && audioreader == null
      ensures inputs != [] && !IsIdle(inputs[|inputs| - 1].hour) ==>
        audioreader != null && (recognizer == null <==> StepAction(inputs[|inputs| - 1]).Some?)
    {
      emitted := [];
      var n := 0;
      while n < |inputs|
        invariant 0 <= n <= |inputs|
        invariant emitted == Emissions(inputs[..n])
        invariant Coupled()
        invariant n > 0 && IsIdle(inputs[n - 1].hour) ==> recognizer == null && audioreader == null
        invariant n == 0 ==> recognizer == old(recognizer) && audioreader == old(audioreader)
        invariant n > 0 && !IsIdle(inputs[n - 1].hour) ==>
          audioreader != null && (recognizer == null <==> StepAction(inputs[n - 1]).Some?)
      {
        var input := inputs[n];
        var action := Step(input.hour, input.text);
        assert action == StepAction(input);
        EmissionsSnoc(inputs, n);
        emitted := emitted + ActionList(action);
        n := n + 1;
      }
      assert inputs[..n] == inputs;
    }
  }

  // ---------------------------------------------------------------------------
  // Properties of runs.

  /** One more iteration adds its own emission at the end. */
  lemma EmissionsSnoc(inputs: seq<Input>, n: nat)
    requires n < |inputs|
    ensures Emissions(inputs[..n + 1]) == Emissions(inputs[..n]) + ActionList(StepAction(inputs[n]))
  {
    assert inputs[..n + 1][..n] == inputs[..n];
  }

  /**
   * Given each iteration's hour and transcript, the emissions of consecutive
   * stretches of iterations concatenate.
   */
  lemma {:induction false} EmissionsAppend(a: seq<Input>, b: seq<Input>)
    ensures Emissions(a + b) == Emissions(a) + Emissions(b)
    decreases |b|
  {
    if b == [] {
      assert a + b == a;
    } else {
      var b' := b[..|b| - 1];
      assert (a + b)[..|a + b| - 1] == a + b';
      EmissionsAppend(a, b');
    }
  }

  /** At most one action per iteration. */
  lemma {:induction false} AtMostOnePerStep(inputs: seq<Input>)
    ensures |Emissions(inputs)| <= |inputs|
    decreases |inputs|
  {
    if inputs != [] {
      AtMostOnePerStep(inputs[..|inputs| - 1]);
    }
  }

  /** Iterations whose transcripts are all empty (silence) emit nothing. */
  lemma {:induction false} SilenceEmitsNothing(inputs: seq<Input>)
    requires forall i :: 0 <= i < |inputs| ==> inputs[i].text == []
    ensures Emissions(inputs) == []
    decreases |inputs|
  {
    if inputs != [] {
      SilenceEmitsNothing(inputs[..|inputs| - 1]);
    }
  }

  /** Iterations that all fall in the idle window emit nothing, whatever was said. */
  lemma {:induction false} IdleEmitsNothing(inputs: seq<Input>)
    requires forall i :: 0 <= i < |inputs| ==> IsIdle(inputs[i].hour)
    ensures Emissions(inputs) == []
    decreases |inputs|
  {
    if inputs != [] {
      IdleEmitsNothing(inputs[..|inputs| - 1]);
    }
  }

  /** An iteration emits an action only while listening, on a non-empty transcript, from its first matching entry. */
  lemma StepActionFromFirstMatch(input: Input, a: LedAction)
    requires StepAction(input) == Some(a)
    ensures !IsIdle(input.hour) && input.text != []
    ensures exists k :: FirstMatchAt(WordedActions, input.text, k) && WordedActions[k].action == a
  {
    DispatchFromFirstMatch(WordedActions, input.text, a);
  }

  /** The same transcript twice is dispatched twice, to the same link: nothing is deduplicated. */
  lemma NoDeduplication(input: Input, a: LedAction)
    requires StepAction(input) == Some(a)
    ensures Emissions([input, input]) == [a, a]
  {
    var once := ActionList(StepAction(input));
    assert once == [a];
    assert Emissions([input]) == once by {
      assert [input][..0] == [];
    }
    assert Emissions([input, input]) == Emissions([input]) + once by {
      assert [input, input][..1] == [input];
    }
  }

  /**
   * The utterance scenario: while listening, "включи голубой" emits the
   * light-blue colour and drops the recognizer; the next iteration, on silence,
   * creates a fresh recognizer and keeps the audio stream.
   */
  method UtteranceScenario() returns (first: Option<LedAction>, second: Option<LedAction>)
    ensures first == Some(Color(205, 92, 92)) && second == None
  {
    var session := new Session();
    LightBlueExample();
    first := session.Step(20, "включи голубой");
    assert session.recognizer == null && session.audioreader != null;
    var reader := session.audioreader;
    second := session.Step(20, "");
    assert session.recognizer != null && fresh(session.recognizer);
    assert session.audioreader == reader;
  }
}
