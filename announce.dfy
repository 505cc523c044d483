/**
 * The text-to-speech announcer: a supervisor object that sends commands to a
 * worker over one queue and learns about finished utterances over another.
 *
 * The worker process runs concurrently with the supervisor; here both sides
 * share the two queues sequentially, and the worker's loop body is one method
 * call (`Worker.Step`).  The speech engine is abstract: the calls made to it
 * are logged, and the `finished-utterance` callbacks it fires while iterating
 * are an input of each step.
 */
module Announce {
  import opened Wrappers
  import opened Decimal

  // ---------------------------------------------------------------------------
  // Commands
  // ---------------------------------------------------------------------------

  /** What the worker is told to do. */
  datatype Code = Say | Stop | Terminate

  /** A command to the worker; only SAY carries a text. */
  datatype Command = Command(code: Code, text: Option<string>) {
    predicate WellFormed() {
      (code == Say) == text.Some?
    }
  }

  const SAY_NEEDS_TEXT := "SAY command needs text."
  const NO_TEXT_EXPECTED := "All commands except SAY do not accept text."

  /**
   * The command constructor with its two assertions, checked in the order the
   * constructor checks them; a failed assertion is the `Failure` message.
   */
  function NewCommand(code: Code, text: Option<string>): (r: Result<Command, string>)
    ensures r.Success? <==> Command(code, text).WellFormed()
    ensures r.Success? ==> r.value.code == code && r.value.text == text
    ensures (r == Failure(SAY_NEEDS_TEXT)) <==> (code == Say && text.None?)
    ensures (r == Failure(NO_TEXT_EXPECTED)) <==> (code != Say && text.Some?)
  {
    if code == Say && text.None? then Failure(SAY_NEEDS_TEXT)
    else if code != Say && text.Some? then Failure(NO_TEXT_EXPECTED)
    else Success(Command(code, text))
  }

  /** The texts of the SAY commands in a queue, in queue order. */
  function SayTexts(commands: seq<Command>): seq<string>
  {
    if commands == [] then []
    else
      (if commands[0].code == Say && commands[0].text.Some? then [commands[0].text.value] else [])
      + SayTexts(commands[1..])
  }

  /** No TERMINATE command is waiting in the queue. */
  predicate NoTerminate(commands: seq<Command>) {
    forall i :: 0 <= i < |commands| ==> commands[i].code != Terminate
  }

  // ---------------------------------------------------------------------------
  // The speech engine, seen from outside
  // ---------------------------------------------------------------------------

  /** A call the worker makes on the speech engine. */
  datatype EngineCall =
    | Speak(text: string, name: string)
    | StopSpeaking
    | Iterate
    | EndLoop

  /** A `finished-utterance` callback: the utterance's name and whether it was completed. */
  datatype Finished = Finished(name: string, completed: bool)

  /**
   * The names the `finished-utterance` handler puts on the done queue for a
   * sequence of callbacks: the handler enqueues a name only when the utterance
   * was completed.
   */
  function Completed(fired: seq<Finished>): (names: seq<string>)
    ensures |names| <= |fired|
  {
    if fired == [] then []
    else (if fired[0].completed then [fired[0].name] else []) + Completed(fired[1..])
  }

  /** Some completed callback in `fired` carries `name`. */
  predicate CompletedAmong(fired: seq<Finished>, name: string) {
    exists i :: 0 <= i < |fired| && fired[i].completed && fired[i].name == name
  }

  /** A name is enqueued exactly when some completed callback carries it. */
  lemma {:induction false} CompletedMembers(fired: seq<Finished>, name: string)
    ensures name in Completed(fired) <==> CompletedAmong(fired, name)
  {
    if fired != [] {
      CompletedMembers(fired[1..], name);
      var head := if fired[0].completed then [fired[0].name] else [];
      assert Completed(fired) == head + Completed(fired[1..]);
      if CompletedAmong(fired[1..], name) {
        var i :| 0 <= i < |fired| - 1 && fired[1..][i].completed && fired[1..][i].name == name;
        assert fired[i + 1].completed && fired[i + 1].name == name;
      }
      if CompletedAmong(fired, name) && !(fired[0].completed && fired[0].name == name) {
        var i :| 0 <= i < |fired| && fired[i].completed && fired[i].name == name;
        assert i > 0;
        assert fired[1..][i - 1] == fired[i];
      }
    }
  }

  /**
   * The handler runs once per callback, in the order the callbacks fire: one
   * more callback adds its name if it was completed and nothing otherwise.
   */
  lemma {:induction false} CompletedEach(fired: seq<Finished>, f: Finished)
    ensures Completed(fired + [f]) == Completed(fired) + (if f.completed then [f.name] else [])
  {
    if fired == [] {
      assert [f][1..] == [];
    } else {
      assert (fired + [f])[0] == fired[0];
      assert (fired + [f])[1..] == fired[1..] + [f];
      CompletedEach(fired[1..], f);
    }
  }

  /** Callbacks of interrupted utterances put nothing on the done queue. */
  lemma {:induction false} InterruptedAreSilent(fired: seq<Finished>)
    requires forall i :: 0 <= i < |fired| ==> !fired[i].completed
    ensures Completed(fired) == []
  {
    if fired != [] {
      InterruptedAreSilent(fired[1..]);
    }
  }

  /** The utterance names handed to the engine, in order. */
  function SpeakNames(engine: seq<EngineCall>): seq<string>
  {
    if engine == [] then []
    else (if engine[0].Speak? then [engine[0].name] else []) + SpeakNames(engine[1..])
  }

  lemma {:induction false} SpeakNamesAppend(x: seq<EngineCall>, y: seq<EngineCall>)
    ensures SpeakNames(x + y) == SpeakNames(x) + SpeakNames(y)
  {
    if x == [] {
      assert x + y == y;
    } else {
      assert (x + y)[0] == x[0];
      assert (x + y)[1..] == x[1..] + y;
      SpeakNamesAppend(x[1..], y);
    }
  }

  /** The texts handed to the engine, in order. */
  function SpeakTexts(engine: seq<EngineCall>): seq<string>
  {
    if engine == [] then []
    else (if engine[0].Speak? then [engine[0].text] else []) + SpeakTexts(engine[1..])
  }

  lemma {:induction false} SpeakTextsAppend(x: seq<EngineCall>, y: seq<EngineCall>)
    ensures SpeakTexts(x + y) == SpeakTexts(x) + SpeakTexts(y)
  {
    if x == [] {
      assert x + y == y;
    } else {
      assert (x + y)[0] == x[0];
      assert (x + y)[1..] == x[1..] + y;
      SpeakTextsAppend(x[1..], y);
    }
  }

  /** The names `str(0)`, ..., `str(n - 1)` in order. */
  function Names(n: nat): (names: seq<string>)
    ensures |names| == n
    ensures forall i :: 0 <= i < n ==> names[i] == NatToString(i)
  {
    if n == 0 then [] else Names(n - 1) + [NatToString(n - 1)]
  }

  /** The utterance names are distinct, and each one reads back as its position. */
  lemma NamesDistinctIncreasing(n: nat)
    ensures forall i, j :: 0 <= i < j < n ==> Names(n)[i] != Names(n)[j]
    ensures forall i :: 0 <= i < n ==> ParseNat(Names(n)[i]) == i
  {
    forall i, j | 0 <= i < j < n
      ensures Names(n)[i] != Names(n)[j]
    {
      NatToStringInjective(i, j);
    }
    forall i | 0 <= i < n
      ensures ParseNat(Names(n)[i]) == i
    {
      ParseNatToString(i);
    }
  }

  // ---------------------------------------------------------------------------
  // The two queues
  // ---------------------------------------------------------------------------

  /** The command queue (supervisor to worker) and the done queue (worker to supervisor). */
  class Channels {
    var commands: seq<Command>
    var events: seq<string>

    ghost predicate Valid()
      reads this
    {
      forall i :: 0 <= i < |commands| ==> commands[i].WellFormed()
    }

    constructor ()
      ensures Valid()
      ensures commands == [] && events == []
    {
      commands := [];
      events := [];
    }
  }

  // ---------------------------------------------------------------------------
  // The worker
  // ---------------------------------------------------------------------------

  /** The worker's loop state: whether it still loops, the next message id, and the engine log. */
  class Worker {
    const channels: Channels
    var running: bool
    var messageId: nat
    var engine: seq<EngineCall>

    /** Utterance `k` was handed to the engine under the name `str(k)`. */
    ghost predicate Valid()
      reads this
    {
      SpeakNames(engine) == Names(messageId)
    }

    constructor (channels: Channels)
      ensures Valid()
      ensures this.channels == channels
      ensures running && messageId == 0 && engine == []
    {
      this.channels := channels;
      running := true;
      messageId := 0;
      engine := [];
    }

    /**
     * One pass of the worker loop: poll the command queue without blocking,
     * carry out the command if there was one, and, unless the command was
     * TERMINATE, let the engine iterate, which fires the callbacks `fired`.
     */
    method Step(fired: seq<Finished>)
      requires running && Valid() && channels.Valid()
      modifies this, channels
      ensures Valid() && channels.Valid()
      ensures old(channels.commands) == [] ==>
        && channels.commands == []
        && running
        && messageId == old(messageId)
        && engine == old(engine) + [Iterate]
        && channels.events == old(channels.events) + Completed(fired)
      ensures old(channels.commands) != [] ==>
        var cmd := old(channels.commands)[0];
        && channels.commands == old(channels.commands)[1..]
        && (running <==> cmd.code != Terminate)
        && (cmd.code == Terminate ==>
              engine == old(engine) + [EndLoop] && messageId == old(messageId)
              && channels.events == old(channels.events))
        && (cmd.code == Stop ==>
              engine == old(engine) + [StopSpeaking, Iterate] && messageId == old(messageId)
              && channels.events == old(channels.events) + Completed(fired))
        && (cmd.code == Say ==>
              engine == old(engine) + [Speak(cmd.text.value, NatToString(old(messageId))), Iterate]
              && messageId == old(messageId) + 1
              && channels.events == old(channels.events) + Completed(fired))
      ensures old(channels.commands) == [] ==> SpeakTexts(engine) == SpeakTexts(old(engine))
      ensures old(channels.commands) != [] ==>
        && SpeakTexts(engine) == SpeakTexts(old(engine)) + SayTexts([old(channels.commands)[0]])
        && messageId == old(messageId) + |SayTexts([old(channels.commands)[0]])|
    {
      if channels.commands == [] {
        SpeakNamesAppend(engine, [Iterate]);
        SpeakTextsAppend(engine, [Iterate]);
        engine := engine + [Iterate];
        channels.events := channels.events + Completed(fired);
        return;
      }
      var cmd := channels.commands[0];
      channels.commands := channels.commands[1..];
      match cmd.code {
        case Terminate =>
          SpeakNamesAppend(engine, [EndLoop]);
          SpeakTextsAppend(engine, [EndLoop]);
          engine := engine + [EndLoop];
          running := false;
          return;
        case Stop =>
          SpeakNamesAppend(engine, [StopSpeaking, Iterate]);
          assert SpeakNames([StopSpeaking, Iterate]) == [];
          SpeakTextsAppend(engine, [StopSpeaking, Iterate]);
          assert SpeakTexts([StopSpeaking, Iterate]) == [];
          engine := engine + [StopSpeaking, Iterate];
        case Say =>
          assert old(channels.commands)[0].WellFormed();
          var call := Speak(cmd.text.value, NatToString(messageId));
          SpeakNamesAppend(engine, [call, Iterate]);
          assert SpeakNames([call, Iterate]) == [call.name];
          SpeakTextsAppend(engine, [call, Iterate]);
          assert SpeakTexts([call, Iterate]) == [call.text];
          engine := engine + [call, Iterate];
          messageId := messageId + 1;
      }
      channels.events := channels.events + Completed(fired);
    }

    /**
     * The worker loop run to its end on a queue whose last command is its only
     * TERMINATE: the `k`-th pass fires the callbacks `fired[k]`. Every command is
     * carried out in queue order, so every queued text is spoken, in order.
     */
    method Join(fired: seq<seq<Finished>>)
      requires running && Valid() && channels.Valid()
      requires |channels.commands| > 0 && channels.commands[|channels.commands| - 1].code == Terminate
      requires NoTerminate(channels.commands[..|channels.commands| - 1])
      requires |fired| >= |channels.commands|
      modifies this, channels
      ensures Valid() && channels.Valid()
      ensures !running && channels.commands == []
      ensures messageId == old(messageId) + |SayTexts(old(channels.commands))|
      ensures SpeakTexts(engine) == SpeakTexts(old(engine)) + SayTexts(old(channels.commands))
      ensures |engine| > 0 && engine[|engine| - 1] == EndLoop
      ensures old(channels.events) <= channels.events
    {
      ghost var pending := channels.commands;
      assert pending[..|pending|] == pending;
      assert pending[..0] == [];
      var k := 0;
      while running
        invariant Joined(pending, k, old(messageId), old(engine), old(channels.events))
        decreases |pending| - k
      {
        JoinStep(fired[k], pending, k, old(messageId), old(engine), old(channels.events));
        k := k + 1;
      }
    }

    /**
     * The state of `Join` after `k` passes over `pending`, starting from message id
     * `id0`, engine log `engine0` and done queue `events0`.
     */
    ghost predicate Joined(pending: seq<Command>, k: nat, id0: nat, engine0: seq<EngineCall>, events0: seq<string>)
      reads this, channels
    {
      && k <= |pending|
      && Valid() && channels.Valid()
      && channels.commands == pending[k..]
      && (running ==> k < |pending|)
      && (!running ==> k == |pending| && |engine| > 0 && engine[|engine| - 1] == EndLoop)
      && messageId == id0 + |SayTexts(pending[..k])|
      && SpeakTexts(engine) == SpeakTexts(engine0) + SayTexts(pending[..k])
      && events0 <= channels.events
    }

    /** Pass `k` of `Join`: the worker carries out the `k`-th command of `pending`. */
    method JoinStep(fired: seq<Finished>, ghost pending: seq<Command>, ghost k: nat,
                    ghost id0: nat, ghost engine0: seq<EngineCall>, ghost events0: seq<string>)
      requires running && Joined(pending, k, id0, engine0, events0)
      requires pending[|pending| - 1].code == Terminate
      requires NoTerminate(pending[..|pending| - 1])
      modifies this, channels
      ensures Joined(pending, k + 1, id0, engine0, events0)
    {
      assert pending[k..][1..] == pending[k + 1..];
      assert pending[..k + 1] == pending[..k] + [pending[k]];
      SayTextsAppend(pending[..k], [pending[k]]);
      if k < |pending| - 1 {
        assert pending[k] == pending[..|pending| - 1][k];
      }
      ghost var said := SayTexts(pending[..k]);
      Step(fired);
      assert SpeakTexts(engine0) + said + SayTexts([pending[k]])
          == SpeakTexts(engine0) + (said + SayTexts([pending[k]]));
    }
  }

  // ---------------------------------------------------------------------------
  // The supervisor side
  // ---------------------------------------------------------------------------

  /** The announcer as seen by its caller: the queues, the worker, and the local `done` flag. */
  class Announcer {
    const channels: Channels
    const worker: Worker
    var done: bool

    /**
     * The worker reads and writes the announcer's queues; every queued command
     * is well-formed; while the worker loops no TERMINATE is waiting.
     */
    ghost predicate Valid()
      reads this, channels, worker
    {
      && worker.channels == channels
      && channels.Valid()
      && worker.Valid()
      && (worker.running ==> NoTerminate(channels.commands))
    }

    /** Both queues start empty, the worker loops, and nothing is being announced. */
    constructor ()
      ensures Valid()
      ensures fresh(channels) && fresh(worker)
      ensures done
      ensures channels.commands == [] && channels.events == []
      ensures worker.running && worker.messageId == 0 && worker.engine == []
    {
      var ch := new Channels();
      channels := ch;
      worker := new Worker(ch);
      done := true;
    }

    /** Enqueue one SAY command with `text` and mark the announcement as in progress. */
    method Say(text: string)
      requires Valid()
      modifies this, channels
      ensures Valid()
      ensures !done
      ensures channels.commands == old(channels.commands) + [Command(Code.Say, Some(text))]
      ensures channels.events == old(channels.events)
    {
      done := false;
      var cmd := NewCommand(Code.Say, Some(text));
      channels.commands := channels.commands + [cmd.value];
    }

    /** Enqueue one STOP command; the `done` flag is untouched. */
    method Stop()
      requires Valid()
      modifies channels
      ensures Valid()
      ensures channels.commands == old(channels.commands) + [Command(Code.Stop, None)]
      ensures channels.events == old(channels.events)
    {
      var cmd := NewCommand(Code.Stop, None);
      channels.commands := channels.commands + [cmd.value];
    }

    /**
     * Poll the done queue without blocking: take at most one event, set `done`
     * iff one was taken, and report `done`.
     */
    method Done() returns (r: bool)
      requires Valid()
      modifies this, channels
      ensures Valid()
      ensures r == done
      ensures channels.commands == old(channels.commands)
      ensures old(channels.events) == [] ==> channels.events == [] && done == old(done)
      ensures old(channels.events) != [] ==> channels.events == old(channels.events)[1..] && done
    {
      if channels.events != [] {
        channels.events := channels.events[1..];
        done := true;
      }
      r := done;
    }

    /** Take one event off a non-empty done queue and set `done`. */
    method BlockUntilDone()
      requires Valid()
      requires channels.events != []
      modifies this, channels
      ensures Valid()
      ensures done
      ensures channels.commands == old(channels.commands)
      ensures channels.events == old(channels.events)[1..]
    {
      channels.events := channels.events[1..];
      done := true;
    }

    /**
     * Enqueue TERMINATE and join the worker: the worker keeps stepping, the
     * `k`-th step with callbacks `fired[k]`, until it has taken TERMINATE.
     * Every command queued before is carried out first, so the worker has
     * spoken every text that was queued, in queue order.
     */
    method Terminate(fired: seq<seq<Finished>>)
      requires Valid()
      requires worker.running ==> |fired| > |channels.commands|
      modifies channels, worker
      ensures Valid()
      ensures !worker.running
      ensures done == old(done)
      ensures old(channels.events) <= channels.events
      ensures old(worker.running) ==>
        && channels.commands == []
        && worker.messageId == old(worker.messageId) + |SayTexts(old(channels.commands))|
        && SpeakTexts(worker.engine) == SpeakTexts(old(worker.engine)) + SayTexts(old(channels.commands))
        && |worker.engine| > 0 && worker.engine[|worker.engine| - 1] == EndLoop
      ensures !old(worker.running) ==>
        channels.commands == old(channels.commands) + [Command(Code.Terminate, None)]
    {
      var cmd := NewCommand(Code.Terminate, None);
      ghost var before := channels.commands;
      channels.commands := channels.commands + [cmd.value];
      if !worker.running {
        return;
      }
      SayTextsAppend(before, [cmd.value]);
      assert SayTexts([cmd.value]) == [];
      worker.Join(fired);
    }
  }

  /** The texts of two queues one after the other are the texts of each, in turn. */
  lemma {:induction false} SayTextsAppend(x: seq<Command>, y: seq<Command>)
    ensures SayTexts(x + y) == SayTexts(x) + SayTexts(y)
  {
    if x == [] {
      assert x + y == y;
    } else {
      assert (x + y)[0] == x[0];
      assert (x + y)[1..] == x[1..] + y;
      SayTextsAppend(x[1..], y);
    }
  }

  // ---------------------------------------------------------------------------
  // Uses of the protocol
  // ---------------------------------------------------------------------------

  /** A fresh announcer reports `done` before anything was said. */
  method DoneBeforeSay() returns (r: bool)
    ensures r
  {
    var a := new Announcer();
    r := a.Done();
  }

  /**
   * After `say`, polling reports not done until the worker has spoken the
   * text and the engine has reported the utterance completed.
   */
  method DoneAfterCompletedUtterance(text: string) returns (before: bool, after: bool)
    ensures !before && after
  {
    var a := new Announcer();
    a.Say(text);
    before := a.Done();
    a.worker.Step([Finished(NatToString(0), true)]);
    after := a.Done();
  }
}
