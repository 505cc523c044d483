# mediti-collector in Dafny

mediti-collector records training clips of meditation actions from a webcam. The program
announces each action by text-to-speech and records frames while the user does it. Then it
moves on to the next action. This project models the core of that program and proves
properties about it:

- **Command line** (`command_line.dfy`, module `CommandLine`). The identifier and action
  pattern `^[a-zA-Z-_]+$`, the checks of `parse_command_line_arguments` and the invariants
  of `Arguments`. The identifier check is a parameter: `AsWritten` is the pattern as
  `re.match` applies it, which is the program's behaviour; `Intended` is the rule the
  pattern is meant to enforce (see "## Findings").
- **Frame buffer** (`capture.dfy`, module `Capture`). `Recording` shares the latest frame
  between the capture thread and the main loop. It has `copy_frame`, and `__exit__`
  re-raises the capture thread's error.
- **Session state machine** (`session.dfy`, module `Session`). `next_action`, the FADE state
  (`do_fade`), the RECORDING state (`do_recording`) and the loop `execute_state_machine` that
  alternates them.
- **Announcer** (`announce.dfy`, module `Announce`). The commands, the supervisor-side
  `Announcer` with its local `_done` flag, the two queues, and one pass of the worker's loop.
- `decimal.dfy` (module `Decimal`) is `str()` of a natural number, with its inverse. The
  worker uses it to name utterances.
- `wrappers.dfy` (module `Wrappers`) has the `Option`, `Result` and `Outcome` types.

The injected callbacks are inputs that the caller scripts:

- `exit_fn` and `announcer.done()` are the sequences of answers they give on successive
  calls.
- The clock is the sequence of readings it returns, in integer microseconds.
- A video read is one `ReadResult`.
- The speech engine's `finished-utterance` callbacks for one iteration are a `seq<Finished>`.

The methods return what the program hands to the outside as traces:

- the announcer calls;
- the `store_fn` calls;
- the engine calls.

Concurrency is sequentialised. One loop pass of the capture thread is `CaptureStep`, and one
pass of the speech worker is `Worker.Step`. A join runs those passes until the loop ends.

## Model

| member | source | states |
|---|---|---|
| CommandLine.TrailingNewlineMatches | mediti_collector/main.py:19 | the pattern as Python's `re.match` applies it accepts `"a\n"`, which is not a valid identifier |
| CommandLine.ValidIdentifierIsPatternWithoutNewline | mediti_collector/main.py:19 | a valid identifier is exactly a pattern match that contains no newline |
| CommandLine.IntendedAcceptsLess | mediti_collector/main.py:19 | every string the intended rule accepts, the pattern as written accepts as well |
| CommandLine.FirstInvalidAction | mediti_collector/main.py:69-73 | under either identifier rule: none iff every action is accepted; otherwise the first rejected action, with every action before it accepted |
| CommandLine.ParseCommandLineArguments | mediti_collector/main.py:48-85 | under either identifier rule (`AsWritten` is `re.match` as the program applies it): success iff the `Arguments` invariants hold, and then the fields are carried over unchanged; each error (identifier, frequency, period, no actions, first bad action) is raised exactly when every earlier check passed and its own fails |
| CommandLine.ParseAcceptsTrailingNewline | mediti_collector/main.py:51-54 | the program as written accepts the identifier `"a\n"` and returns arguments for it; the intended rule rejects the same command line as an invalid identifier |
| CommandLine.IntendedParseAgrees | mediti_collector/main.py:48-85 | whenever the corrected parser succeeds, the program as written returns the same arguments |
| Decimal.NatToString | mediti_collector/announce.py:89 | `str(n)`: a non-empty string of decimal digits without a leading zero |
| Decimal.ParseNatToString | mediti_collector/announce.py:89 | reading `str(n)` back gives `n` |
| Decimal.NatToStringInjective | mediti_collector/announce.py:89 | `str(m) == str(n)` iff `m == n` |
| Capture.Recording.constructor | mediti_collector/main.py:137-154 | no frame, no thread, no error, no shutdown |
| Capture.Recording.Enter | mediti_collector/main.py:156-180 | the capture loop is running |
| Capture.Recording.CaptureStep | mediti_collector/main.py:161-177 | a running loop with shutdown set finishes; otherwise a frame is published as the latest frame, and a failed read or an exception is recorded as the thread's error and finishes the loop; a loop that is not running changes nothing |
| Capture.Recording.CopyFrame | mediti_collector/main.py:182-197 | `None` before any frame was published, otherwise the most recently published frame; nothing changes |
| Capture.Recording.Exit | mediti_collector/main.py:199-207 | shutdown is set and the thread is no longer running; the in-flight iteration's read is published or recorded as an error; the result fails iff an error was recorded, and then carries that error |
| Capture.CopyAfterPublish | mediti_collector/main.py:182-197 | a fresh recording copies `None`; after frames `f` and then `g` are published it copies `g` |
| Session.Action.constructor | mediti_collector/main.py:210-215 | the action holds the given value |
| Session.IndexOf | mediti_collector/main.py:233-238 | the index of the first occurrence of the element |
| Session.NextAction | mediti_collector/main.py:218-243 | the result is one of the actions; with no previous action it is the first; otherwise it is the action after the first occurrence of the previous one, wrapping around |
| Session.NextOfDistinct | mediti_collector/main.py:233-241 | over distinct actions, the successor of the action at `i` is the action at `(i + 1) mod n` |
| Session.Announcement | mediti_collector/main.py:340-344 | the opening template iff there is no previous action, the follow-up template iff there is one, always ending in the action's value and the countdown; its length is exactly the template's plus the value's plus the countdown's |
| Session.DoFade | mediti_collector/main.py:323-364 | the action is `next_action(actions, prev)`; the announcer sees one `say` of the announcement, then only `done()` polls, then one `stop`; the loop ends at the first true `done()` or at the `done()` after the first true `exit_fn()`; the state is EXIT iff `exit_fn()` answered true, otherwise RECORDING after `done()` answered true |
| Session.StoreTraceFromReadings | mediti_collector/main.py:401-403 | every store carries the recorded action and the time of one of the readings |
| Session.StoreTraceGaps | mediti_collector/main.py:401-403 | consecutive stores lie strictly more than the frame period apart |
| Session.StoreTraceFirst | mediti_collector/main.py:401-403 | the first reading is always stored |
| Session.StoreTraceSkip | mediti_collector/main.py:401-403 | a new reading is not stored exactly when it lies within the frame period of the last store |
| Session.DoRecording | mediti_collector/main.py:367-412 | RECORDING always ends in FADE or EXIT; FADE iff the interval elapsed at the last reading; EXIT iff it had not and `exit_fn()` answered true; `exit_fn()` is not asked on the reading that completes the interval; every earlier reading lies within the interval with `exit_fn()` false; the stores are the reference store trace of those readings, so they record only this action within the interval, more than the frame period apart, starting with the first reading |
| Session.SessionRunExtend | mediti_collector/main.py:430-459 | a run extended by a phase that follows its last phase is still a run |
| Session.FadeOutcomeOfScripts | mediti_collector/main.py:323-364 | what `do_fade` does on whole scripts determines the FADE phase on the `done()` and `exit_fn()` answers it used |
| Session.RecordingOutcomeOfScripts | mediti_collector/main.py:367-412 | what `do_recording` does on whole scripts determines the RECORDING phase on the readings and `exit_fn()` answers it used |
| Session.UsedAppend | mediti_collector/main.py:436-457 | appending a phase appends the readings and answers it used to what the run used |
| Session.FadeExtends | mediti_collector/main.py:437-442 | a FADE that picks the successor of the previous action and behaves as `do_fade` on the next answers extends the run, and the run then used the scripts up to its end |
| Session.RecordingExtends | mediti_collector/main.py:444-457 | a RECORDING of the FADE's action that behaves as `do_recording` on the next readings and answers extends the run, and the run then used the scripts up to its end |
| Session.FadeVisit | mediti_collector/main.py:437-442 | one FADE pass of the loop: after `do_fade` on the rest of the scripts the phases still form a run tied to the script prefixes, and at least one `done()` answer more was used |
| Session.RecordingVisit | mediti_collector/main.py:444-457 | one RECORDING pass of the loop: after `do_recording` on the rest of the scripts the phases still form a run tied to the script prefixes, and at least one reading more was used |
| Session.ExecuteStateMachine | mediti_collector/main.py:415-459 | the phases form a run: FADE and RECORDING alternate starting with FADE; each FADE chooses `next_action` of the previous action and behaves as `do_fade` on its own answers; each RECORDING stores only its FADE's action and behaves as `do_recording` on its own readings and answers; only the last phase goes to EXIT. The phases used the scripts from the start, in order: the readings, `done()` answers and `exit_fn()` answers of all phases, one after the other, are the first `clockUsed`, `donesUsed` and `exitsUsed` entries. The machine stops only at EXIT or when the rest of the scripts cannot carry the next phase to its end; over distinct actions FADE number `k` chooses action `k mod n` |
| Session.FadesCycle | mediti_collector/main.py:430-437 | over distinct actions, in any run, FADE number `i` (phase `2i`) chooses action number `i mod n` |
| Session.PhaseChoice | mediti_collector/main.py:436-457 | in a run, a FADE picks the successor of the previous phase's action and a RECORDING keeps its FADE's action |
| Session.ChoicesCycle | mediti_collector/main.py:218-243 | phases that pick their actions as a run does, over distinct actions, give FADE number `i` action number `i mod n` |
| Session.NextInCycle | mediti_collector/main.py:233-241 | over distinct actions, the successor of action number `(i - 1) mod n` is action number `i mod n` |
| Session.TwoActionsAlternate | mediti_collector/main.py:340-344 | with two actions A and B, the FADEs announce A with the opening template, then B, then A with the follow-up template |
| Announce.NewCommand | mediti_collector/announce.py:18-27 | success iff SAY carries a text and the other codes carry none; the two failures carry the two assertion messages, in the order they are checked |
| Announce.Completed | mediti_collector/announce.py:63-66 | the handler enqueues no more names than there were callbacks |
| Announce.CompletedEach | mediti_collector/announce.py:63-66 | one more callback appends its name to the queued names iff it completed, and otherwise appends nothing: at most one name per callback, in callback order |
| Announce.CompletedMembers | mediti_collector/announce.py:63-66 | a name is enqueued iff some completed callback carries it |
| Announce.InterruptedAreSilent | mediti_collector/announce.py:63-66 | callbacks of interrupted utterances enqueue nothing |
| Announce.Names | mediti_collector/announce.py:61 | the names `str(0)` up to `str(n - 1)`, in order |
| Announce.NamesDistinctIncreasing | mediti_collector/announce.py:89-90 | the utterance names are pairwise distinct and each reads back as its position |
| Announce.Channels.constructor | mediti_collector/announce.py:36-41 | both queues start empty |
| Announce.Worker.constructor | mediti_collector/announce.py:57-61 | the worker loops with message id 0 and no engine calls |
| Announce.Worker.Step | mediti_collector/announce.py:70-95 | an empty poll only iterates the engine and leaves the counter alone; TERMINATE ends the loop without iterating; STOP stops the engine; SAY speaks the text under the name `str(message_id)` and increments the id; the callbacks of the iteration put the completed names on the done queue; utterance `k` always carries the name `str(k)`; the spoken texts grow by the polled command's SAY text, and the id by one exactly when it was a SAY |
| Announce.Worker.Join | mediti_collector/announce.py:70-95 | the worker loop run on a queue that ends in its only TERMINATE: it takes every command, ends with the engine's end-loop call and stops looping; the texts it speaks are the queued SAY texts, in queue order, and the id grows by their number |
| Announce.Announcer.constructor | mediti_collector/announce.py:33-44 | both queues are empty, the worker loops, and `_done` is true |
| Announce.Announcer.Say | mediti_collector/announce.py:102-105 | `_done` becomes false and exactly one SAY with the text is appended to the command queue |
| Announce.Announcer.Stop | mediti_collector/announce.py:107-109 | exactly one STOP is appended; the flag and the done queue are unchanged |
| Announce.Announcer.Done | mediti_collector/announce.py:111-124 | at most one event is taken; `_done` is set iff one was taken, otherwise the flag and the queue are unchanged; the result is the updated flag |
| Announce.Announcer.BlockUntilDone | mediti_collector/announce.py:126-129 | on a non-empty done queue exactly one event is taken and `_done` is set |
| Announce.Announcer.Terminate | mediti_collector/announce.py:131-134 | TERMINATE is enqueued and the worker is joined: it carries out every command queued before, speaks exactly the queued SAY texts in queue order, ends with the engine's end-loop call and is no longer running; `_done` is unchanged; a worker that no longer runs only gets TERMINATE appended |
| Announce.DoneBeforeSay | mediti_collector/announce.py:111-124 | a fresh announcer reports done before anything was said |
| Announce.DoneAfterCompletedUtterance | mediti_collector/announce.py:102-124 | after `say`, a poll reports not done; once the worker has spoken and the engine reports the utterance completed, a poll reports done |

## Left out

- Threads and processes. `threading.Thread`, the frame lock, `multiprocessing.Process`, its
  queues and the joins are run one pass at a time. Their interleavings and the queues'
  timing are not modelled.
- The speech engine (`pyttsx3`). `init`, `setProperty`, `startLoop` and when callbacks fire
  are foreign calls. The engine is a log of the calls made to it. The callbacks of each
  iteration are an input.
- `done()` becoming true after `stop()`. That depends on how the engine reports stopped
  utterances, not on this code, so no contract states it.
- Announce.Announcer.BlockUntilDone: requires a non-empty done queue. A blocking `get` on an
  empty queue would wait for the worker, and that wait is not modelled.
- Announce.Worker.Step: the `NotImplementedError` branch is left out because the three codes
  are exhaustive. The "SAY command expected to have text" assertion is discharged by the
  invariant that every queued command is well-formed.
- The OpenCV parts: the viewer (`display_fade`, `display_recording`), `q_or_closed`, the video
  capture object, and the frame copy as a numpy operation. Frames are values of a type
  parameter.
- argparse (`define_argument_parser`) and `main()`. These include the conversions `str()`,
  `float()`, `int()` and `pathlib.Path`, the ratio `1.0 / frequency` and the `store_fn` that
  writes images. The parser's input is the typed namespace `RawArguments`.
- CommandLine.ParseCommandLineArguments: Dafny reals have no infinity or NaN, so the
  `isinf`/`isnan` checks have no counterpart. The error messages' text formatting is left
  out; the error carries the value it reports.
- Exceptions raised by the injected callbacks, and the exception that `__exit__` receives.
- Session.ExecuteStateMachine: scripts are finite. The model therefore also stops when the
  remaining scripts cannot carry the next phase to its end, and says so in its contract.
- Session.DoRecording and Session.DoFade: require that the scripts reach the end of the
  loop. An endless loop, such as `exit_fn` never firing while the speech never ends, is not
  modelled.

## Findings

| source | as written | input that shows it | evidently intended | confidence | as-written member | corrected member |
|---|---|---|---|---|---|---|
| mediti_collector/main.py:19 | `re.match` with `^[a-zA-Z-_]+$` also matches when the string ends in a single newline, because without MULTILINE `$` matches just before a final newline | identifier `"a\n"` passes the check in parse_command_line_arguments and in `Arguments.__init__` | only letters, `-` and `_` (e.g. `re.fullmatch` or `\Z`) | high, not executed | CommandLine.ParseCommandLineArguments with `AsWritten` (CommandLine.MatchesIdentifierPattern), CommandLine.TrailingNewlineMatches, CommandLine.ParseAcceptsTrailingNewline | CommandLine.ParseCommandLineArguments with `Intended` (CommandLine.ValidIdentifier), CommandLine.ValidIdentifierIsPatternWithoutNewline, CommandLine.IntendedParseAgrees |
