# voice-led controller: a Dafny model of its control logic

The controller listens to a microphone outside a
daily idle window from 01:00 to 18:00. It transcribes
speech chunk by chunk and looks for trigger phrases in each transcript. When it finds
one, it sends a lighting command to an HTTP actuator. This project models the control
logic of `src/main.rs` and proves what it promises:

- **Clock gate** (`gate.dfy`, module `Gate`): the hours `[1, 18)` are idle; every other
  hour is a listening hour.
- **Action serialiser** (`actions.dfy`, module `Actions`): `LedAction` is either
  `Color(red, green, blue)` with `u8` components or `Power(bool)`. Each action becomes
  the link `HOST` + `color/<r>/<g>/<b>` or `HOST` + `power/<true|false>`, with the
  components in decimal as Rust's `Display` writes them. The parser `ParseLink` reads a
  link back in the layout the serialiser writes. It is there so that the round
  trip can be stated: every link reads back as the action it came from, so distinct
  actions go to distinct links.
- **Keyword table and dispatcher** (`keywords.dfy`, module `Keywords`): `WordedActions`
  is the nine-entry table in declaration order. `Dispatch` is first-match-in-table-order
  substring search, specified by `FirstMatch` and `FirstMatchAt`. `FindAction` is the
  `for` loop with `continue`/`break`, proved equal to `Dispatch`.
- **Main loop** (`mainloop.dfy`, module `MainLoop`): `Session` holds the two optional
  handles, `recognizer` and `audioreader`, as nullable references to `Recognizer` and
  `AudioReader` objects. `Session.Step` is one iteration of `loop`. It runs the gate,
  then lazy creation (`AcquireHandles`), then the empty-transcript skip, then dispatch
  with the recognizer reset. It returns the action that the source hands to a spawned
  thread. `Session.Run` runs successive iterations. The pure function `Emissions` gives
  the actions a run emits.

Substring search is modelled on Unicode scalar values (`string` = `seq<char>`). Rust
searches UTF-8 bytes. Because UTF-8 is self-synchronising, a match on valid UTF-8 bytes
is the same as a match on characters.

After a match the code drops the recognizer alone (`src/main.rs:136`). The audio stream
is never dropped without the recognizer, and `Session.Coupled` states this.

## Model

| member | source | states |
|---|---|---|
| Gate.IsIdle | src/main.rs:102 | the gate condition `hour >= 1 && hour < 18`; its properties are stated by `GateBoundaries` and `ListeningHours` |
| Gate.GateBoundaries | src/main.rs:7-8 | hour 1 (the window's start) is idle, hour 0 is not; hour 17 is idle, hour 18 (its end) is not |
| Gate.ListeningHours | src/main.rs:102 | over hours 0 to 23 the loop listens exactly at 0 and 18 to 23, and is idle exactly at 1 to 17 |
| Actions.Decimal | src/main.rs:83 | the decimal text of a component is non-empty, all digits, with a leading zero only for zero, and one digit long exactly for values below ten (so zero is "0") |
| Actions.DecimalRoundTrip | src/main.rs:83 | parsing the decimal text of n gives back n |
| Actions.Path | src/main.rs:81-88 | the path `color/<r>/<g>/<b>` or `power/<true|false>`; its properties are stated by `PathRoundTrip`, `PowerPathExamples` and `VioletPathExample` |
| Actions.Link | src/main.rs:78-89 | the link is `HOST` followed by the action's path; `LinkRoundTrip` and `LinkInjective` state that it loses nothing |
| Actions.PathRoundTrip | src/main.rs:81-88 | parsing the path of any action (`color/r/g/b` or `power/true|false`) gives back that action |
| Actions.LinkRoundTrip | src/main.rs:78-89 | every link starts with `HOST`, and parsing it gives back its action |
| Actions.LinkInjective | src/main.rs:78-89 | two actions have the same link exactly when they are the same action |
| Actions.PowerPathExamples | src/main.rs:84-87 | `Power(false)` gives `power/false` and `Power(true)` gives `power/true` |
| Actions.VioletPathExample | src/main.rs:82-83 | `Color{255,0,255}` gives `color/255/0/255` |
| Actions.LightBlueLinkExample | src/main.rs:78-83 | the light-blue colour's full link is `http://localhost:70/color/205/92/92` |
| Keywords.WordedActions | src/main.rs:10-69 | the nine (phrase, action) entries in declaration order; `EmptyTranscriptDispatchesNothing`, `WhiteLightExample` and `LightBlueExample` state facts about it |
| Keywords.Contains | src/main.rs:133 | `text.contains(action_word)`: the phrase starts at some position of the text; `MissingLetter` and the dispatch lemmas use it |
| Keywords.FirstMatch | src/main.rs:132-135 | the index found is of an entry whose phrase occurs in the text, with no earlier entry's phrase occurring; none is found exactly when no phrase occurs |
| Keywords.FindAction | src/main.rs:132-139 | the table scan that skips absent phrases and stops at the first present one returns exactly `Dispatch` of the table and text |
| Keywords.DispatchFirstInTableOrder | src/main.rs:132-138 | if entry k is the first in table order whose phrase occurs, its action is dispatched, wherever in the text other phrases occur |
| Keywords.Dispatch | src/main.rs:132-139 | the action of the entry `FirstMatch` finds, if any; its properties are stated by `DispatchNoneIffNoPhrase`, `DispatchFromFirstMatch`, `DispatchFirstInTableOrder`, `DispatchAppend` and `FindAction` |
| Keywords.DispatchNoneIffNoPhrase | src/main.rs:132-135 | nothing is dispatched exactly when no phrase of the table occurs in the text |
| Keywords.DispatchFromFirstMatch | src/main.rs:132-138 | a dispatched action belongs to an entry whose phrase occurs and that no earlier entry preempts |
| Keywords.DispatchSinglePhrase | src/main.rs:132-138 | when exactly one phrase occurs, its action is dispatched |
| Keywords.DispatchAppend | src/main.rs:137-138 | entries after the first match are never consulted: appending entries changes nothing if the table already matches, and otherwise defers to the new entries |
| Keywords.EmptyTranscriptDispatchesNothing | src/main.rs:10-69 | no trigger phrase of the table is empty, so an empty transcript dispatches nothing |
| Keywords.WhiteLightExample | src/main.rs:10-20 | "включи белый свет" dispatches `Power(true)`, because "свет" is declared before "белый" |
| Keywords.LightBlueExample | src/main.rs:53-60 | "включи голубой" dispatches `Color{205,92,92}` |
| MainLoop.Recognizer.constructor | src/main.rs:109 | a new recognizer is bound to the sample rate it is given |
| MainLoop.Session.constructor | src/main.rs:98-99 | both handles start absent |
| MainLoop.Session.AcquireHandles | src/main.rs:108-113 | after lazy creation both handles are present; a present handle is kept, a missing one is freshly created, and the recognizer gets 16000 Hz |
| MainLoop.Session.Step | src/main.rs:100-140 | an idle step drops both handles and emits nothing; an active step keeps or freshly creates the audio stream; it emits the dispatched action of a non-empty transcript, and then the recognizer is absent; otherwise it emits nothing and the recognizer is kept or fresh; the coupling invariant holds afterwards |
| MainLoop.Session.Run | src/main.rs:100-140 | successive iterations emit exactly `Emissions` of their inputs and keep the coupling invariant; no iterations leave both handles as they were; after an idle last iteration both handles are absent; after an active last iteration the audio stream is present and the recognizer is absent exactly when that iteration emitted |
| MainLoop.StepAction | src/main.rs:102-138 | the action one iteration emits: none at an idle hour or on an empty transcript, otherwise the dispatched one; `Session.Step` is proved to emit it, and `StepActionFromFirstMatch` states where an emitted action comes from |
| MainLoop.EmissionsAppend | src/main.rs:132-139 | given each iteration's hour and transcript, what a run emits is what its two halves emit, concatenated |
| MainLoop.AtMostOnePerStep | src/main.rs:137-138 | a run of n iterations emits at most n actions |
| MainLoop.SilenceEmitsNothing | src/main.rs:128-130 | iterations whose transcripts are all empty emit nothing |
| MainLoop.IdleEmitsNothing | src/main.rs:102-106 | iterations that all fall in the idle window emit nothing |
| MainLoop.StepActionFromFirstMatch | src/main.rs:102-138 | an iteration emits an action only at a listening hour, on a non-empty transcript, as the action of its first matching entry |
| MainLoop.NoDeduplication | src/main.rs:137 | the same transcript on two iterations emits its action twice |
| MainLoop.UtteranceScenario | src/main.rs:108-139 | while listening, "включи голубой" emits `Color{205,92,92}` and the next iteration, on an empty transcript, emits nothing; its body asserts that the recognizer is dropped after the match, then freshly created, and that the audio stream is kept |

## Left out

- Speech recognition: what `Model::new`, `accept_waveform`, `final_result` and `partial_result` compute belongs to the Vosk engine. Each iteration's transcript is an input of `Session.Step`, so partial and final results look the same to the model.
- Audio capture: `ParecStream::init` and `read_n_milliseconds(100.0)`, and the `unwrap` panics on their failures. This is I/O against a foreign backend. `AudioReader` only stands for the open stream.
- The HTTP PUT in `LedAction::perform`. This is network I/O whose result is discarded. The model stops at the link string (`Link`).
- `std::thread::spawn` and the 60-second `std::thread::sleep` of the idle path. These are concurrency and timing. A spawned action is modelled as the action that `Step` returns.
- `Local::now()`: the wall clock is an input, the hour passed to `Step`.
- `set_log_level`, and the model path `MODEL`. These are configuration. `HOST` is used only as the fixed prefix of every link.
- The infinite `loop`: `Session.Run` covers any finite prefix of its iterations.
- `ParsePath`/`ParseLink`: they accept leading zeros in components, which the serialiser never writes. They only read back the layout `Path` and `Link` write, to state the round trip.
- How the recognizer reset at `src/main.rs:136` affects later transcripts. A fresh recognizer starts a new utterance, so a partial result that still holds a matched phrase does not match again on the next chunk. Because each iteration's transcript is a free input of `Session.Step`, the model does not capture this.
