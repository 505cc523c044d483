/**
 * The session state machine of mediti_collector/main.py: FADE announces the next action and waits for
 * the speech to finish, RECORDING stores frames at a fixed rate for a fixed period, EXIT ends the loop.
 *
 * The injected callbacks are scripts. `exit_fn` is the sequence of answers it gives on successive
 * calls, `announcer.done()` likewise, and `utcnow_fn` is the sequence of clock readings, in integer
 * ticks (microseconds: the resolution of `datetime.timedelta`). Rendering is a no-op and is not
 * recorded. The announcer calls and the `store_fn` calls are returned as traces.
 */
module Session {
  import opened Wrappers

  /** `Action`: a labelled activity. Python compares actions by identity, as Dafny compares objects. */
  class Action {
    const value: string

    constructor (value: string)
      ensures this.value == value
    {
      this.value := value;
    }
  }

  /** `State`. */
  datatype State = Fade | Recording | Exit

  predicate Distinct<T(==)>(s: seq<T>) {
    forall i, j :: 0 <= i < j < |s| ==> s[i] != s[j]
  }

  // ---------------------------------------------------------------------------------------------
  // next_action

  /** The first position of `x` in `s`: the search loop of `next_action` with its `break`. */
  function IndexOf<T(==)>(s: seq<T>, x: T): (i: nat)
    requires x in s
    ensures i < |s| && s[i] == x
    ensures forall j :: 0 <= j < i ==> s[j] != x
  {
    if s[0] == x then 0 else 1 + IndexOf(s[1..], x)
  }

  /**
   * `next_action`: the first action when there is no previous one, otherwise the action after the
   * first occurrence of the previous one, wrapping around at the end of the list.
   */
  function NextAction<T(==)>(actions: seq<T>, prev: Option<T>): (r: T)
    requires |actions| > 0
    requires prev.Some? ==> prev.value in actions
    ensures r in actions
    ensures prev.None? ==> r == actions[0]
    ensures prev.Some? ==>
              exists i {:trigger actions[i]} :: 0 <= i < |actions| && actions[i] == prev.value
                          && (forall j :: 0 <= j < i ==> actions[j] != prev.value)
                          && r == actions[(i + 1) % |actions|]
  {
    match prev
    case None => actions[0]
    case Some(p) =>
      var i := IndexOf(actions, p);
      actions[(i + 1) % |actions|]
  }

  /** Over a list without repetitions, the action after the one at `i` is the one at `i + 1`, cyclically. */
  lemma NextOfDistinct<T>(actions: seq<T>, i: nat)
    requires Distinct(actions) && i < |actions|
    ensures NextAction(actions, Some(actions[i])) == actions[(i + 1) % |actions|]
  {
    assert IndexOf(actions, actions[i]) == i;
  }

  lemma MulAtLeast(d: int, n: int)
    requires d >= 1 && n > 0
    ensures d * n >= n
  {}

  /** Euclidean division leaves one remainder only. */
  lemma ModUnique(a: int, n: int, q: int, r: int)
    requires n > 0 && 0 <= r < n && a == q * n + r
    ensures a % n == r
  {
    var d := q - a / n;
    assert a == (a / n) * n + a % n;
    assert d * n == q * n - (a / n) * n;
    assert d * n == a % n - r;
    if d >= 1 {
      MulAtLeast(d, n);
    }
  }

  lemma ModSucc(m: nat, n: nat)
    requires n > 0
    ensures (m % n + 1) % n == (m + 1) % n
  {
    var q, r := m / n, m % n;
    assert m == q * n + r;
    if r + 1 < n {
      ModUnique(r + 1, n, 0, r + 1);
      ModUnique(m + 1, n, q, r + 1);
    } else {
      ModUnique(r + 1, n, 1, 0);
      assert m + 1 == (q + 1) * n;
      ModUnique(m + 1, n, q + 1, 0);
    }
  }

  // ---------------------------------------------------------------------------------------------
  // do_fade

  const START_PREFIX := "Let's start with: "
  const THANKS_PREFIX := "Thanks! Now let's do: "
  const COUNTDOWN := ". 1. 2. 3. Go!"

  /** The announcement of `do_fade`: one template for the first action, another for every later one. */
  function Announcement(prev: Option<Action>, action: Action): (r: string)
    ensures prev.None? <==> START_PREFIX <= r
    ensures prev.Some? <==> THANKS_PREFIX <= r
    ensures |r| == |if prev.None? then START_PREFIX else THANKS_PREFIX| + |action.value| + |COUNTDOWN|
    ensures |r| >= |action.value + COUNTDOWN|
            && r[|r| - |action.value + COUNTDOWN|..] == action.value + COUNTDOWN
  {
    var r := (if prev.None? then START_PREFIX else THANKS_PREFIX) + action.value + COUNTDOWN;
    assert START_PREFIX[0] != THANKS_PREFIX[0];
    assert r[0] == (if prev.None? then START_PREFIX[0] else THANKS_PREFIX[0]);
    r
  }

  /** A call that `do_fade` makes on the announcer. */
  datatype AnnouncerCall = SayCall(text: string) | DoneCall | StopCall

  /**
   * How `do_fade` uses the announcer: one `say` of the announcement first, one `stop` last, and only
   * `done()` polls in between.
   */
  predicate AnnouncerProtocol(calls: seq<AnnouncerCall>, text: string) {
    && |calls| >= 3
    && calls[0] == SayCall(text)
    && calls[|calls| - 1] == StopCall
    && forall k :: 0 < k < |calls| - 1 ==> calls[k] == DoneCall
  }

  /**
   * The FADE loop ends at its `n`-th head: there `done()` answered true, or `exit_fn()` answered true
   * in the body before it.
   */
  predicate FadeStops(dones: seq<bool>, exits: seq<bool>, n: nat)
    requires n < |dones| && n <= |exits|
  {
    dones[n] || (n > 0 && exits[n - 1])
  }

  /** The scripts reach the end of the FADE loop. */
  predicate FadeEnds(dones: seq<bool>, exits: seq<bool>) {
    exists n :: 0 <= n < |dones| && n <= |exits| && FadeStops(dones, exits, n)
  }

  /**
   * `do_fade`. `dones[k]` is the answer of the `k`-th `announcer.done()` call, `exits[k]` that of the
   * `k`-th `exit_fn()` call; `polls` is the number of `done()` calls, one more than the number of
   * `exit_fn()` calls. The loop head calls `done()` before it looks at `should_exit`, so after
   * `exit_fn()` fires there is still one more `done()` call. `stop()` is called on the way out in
   * every case.
   */
  method DoFade(actions: seq<Action>, prev: Option<Action>, dones: seq<bool>, exits: seq<bool>)
    returns (action: Action, state: State, calls: seq<AnnouncerCall>, polls: nat)
    requires |actions| > 0
    requires prev.Some? ==> prev.value in actions
    requires FadeEnds(dones, exits)
    ensures action == NextAction(actions, prev)
    ensures 0 < polls <= |dones| && polls - 1 <= |exits|
    ensures calls == [SayCall(Announcement(prev, action))] + seq(polls, _ => DoneCall) + [StopCall]
    ensures AnnouncerProtocol(calls, Announcement(prev, action))
    ensures forall k :: 0 <= k < polls - 1 ==> !dones[k]
    ensures forall k :: 0 <= k < polls - 2 ==> !exits[k]
    ensures FadeStops(dones, exits, polls - 1)
    ensures state == Exit <==> polls > 1 && exits[polls - 2]
    ensures state != Exit ==> state == Recording && dones[polls - 1]
  {
    ghost var n :| 0 <= n < |dones| && n <= |exits| && FadeStops(dones, exits, n);
    action := NextAction(actions, prev);
    var announcement := Announcement(prev, action);
    calls := [SayCall(announcement)];
    var shouldExit := false;
    var isDone := dones[0];
    polls := 1;
    calls := calls + [DoneCall];
    while !isDone && !shouldExit
      invariant 1 <= polls <= n + 1
      invariant isDone == dones[polls - 1]
      invariant shouldExit == (polls > 1 && exits[polls - 2])
      invariant forall k :: 0 <= k < polls - 1 ==> !dones[k]
      invariant forall k :: 0 <= k < polls - 2 ==> !exits[k]
      invariant calls == [SayCall(announcement)] + seq(polls, _ => DoneCall)
      decreases n + 1 - polls
    {
      if exits[polls - 1] {
        shouldExit := true;
      }
      isDone := dones[polls];
      polls := polls + 1;
      calls := calls + [DoneCall];
    }
    calls := calls + [StopCall];
    state := if shouldExit then Exit else Recording;
  }

  // ---------------------------------------------------------------------------------------------
  // do_recording

  /** One `store_fn(action, now)` call. */
  datatype Store = Store(action: Action, time: int)

  /**
   * The reference rule for storing: a reading is stored when nothing has been stored yet or when it
   * lies strictly more than `framePeriod` after the last stored one.
   */
  function StoreTrace(action: Action, framePeriod: int, readings: seq<int>): seq<Store> {
    if readings == [] then []
    else
      var prev := StoreTrace(action, framePeriod, readings[..|readings| - 1]);
      var now := readings[|readings| - 1];
      if prev == [] || now - prev[|prev| - 1].time > framePeriod
      then prev + [Store(action, now)]
      else prev
  }

  /** One more reading extends the trace by the store rule applied to that reading. */
  lemma StoreTraceStep(action: Action, framePeriod: int, clock: seq<int>, k: nat)
    requires k < |clock|
    ensures var prev := StoreTrace(action, framePeriod, clock[..k]);
            StoreTrace(action, framePeriod, clock[..k + 1])
              == if prev == [] || clock[k] - prev[|prev| - 1].time > framePeriod
                 then prev + [Store(action, clock[k])]
                 else prev
  {
    assert clock[..k + 1][..k] == clock[..k];
  }

  /** Every store carries the recorded action and the time of one of the readings. */
  lemma {:induction false} StoreTraceFromReadings(action: Action, framePeriod: int, readings: seq<int>)
    ensures forall s :: s in StoreTrace(action, framePeriod, readings) ==>
              s.action == action && s.time in readings
  {
    if readings != [] {
      var init := readings[..|readings| - 1];
      StoreTraceFromReadings(action, framePeriod, init);
      assert forall t :: t in init ==> t in readings;
    }
  }

  /** Consecutive stores lie strictly more than `gap` apart. */
  predicate Spaced(stores: seq<Store>, gap: int) {
    forall j :: 0 <= j < |stores| - 1 ==> stores[j + 1].time - stores[j].time > gap
  }

  /** Consecutive stores lie strictly more than `framePeriod` apart. */
  lemma {:induction false} StoreTraceGaps(action: Action, framePeriod: int, readings: seq<int>)
    ensures Spaced(StoreTrace(action, framePeriod, readings), framePeriod)
  {
    if readings != [] {
      var init := readings[..|readings| - 1];
      StoreTraceGaps(action, framePeriod, init);
      var prev := StoreTrace(action, framePeriod, init);
      var r := StoreTrace(action, framePeriod, readings);
      var now := readings[|readings| - 1];
      if prev == [] || now - prev[|prev| - 1].time > framePeriod {
        assert r == prev + [Store(action, now)];
        forall j | 0 <= j < |r| - 1
          ensures r[j + 1].time - r[j].time > framePeriod
        {
          if j < |prev| - 1 {
            assert r[j] == prev[j] && r[j + 1] == prev[j + 1];
            assert prev[j + 1].time - prev[j].time > framePeriod;
          } else {
            assert prev != [] && j == |prev| - 1;
            assert now - prev[|prev| - 1].time > framePeriod;
            assert r[j] == prev[|prev| - 1] && r[j + 1].time == now;
          }
        }
      }
    }
  }

  /** The first reading is always stored. */
  lemma {:induction false} StoreTraceFirst(action: Action, framePeriod: int, readings: seq<int>)
    requires readings != []
    ensures var r := StoreTrace(action, framePeriod, readings);
            r != [] && r[0] == Store(action, readings[0])
  {
    var init := readings[..|readings| - 1];
    if init != [] {
      StoreTraceFirst(action, framePeriod, init);
      assert init[0] == readings[0];
    }
  }

  /** A reading that is not stored lies at most `framePeriod` after the last store before it. */
  lemma StoreTraceSkip(action: Action, framePeriod: int, readings: seq<int>, now: int)
    ensures var prev := StoreTrace(action, framePeriod, readings);
            var r := StoreTrace(action, framePeriod, readings + [now]);
            (r == prev + [Store(action, now)]) != (prev != [] && now - prev[|prev| - 1].time <= framePeriod)
  {
    assert (readings + [now])[..|readings|] == readings;
  }

  /** The RECORDING loop ends at its `n`-th iteration: the interval is over or `exit_fn()` fired. */
  predicate RecordingStops(start: int, actionPeriod: int, clock: seq<int>, exits: seq<bool>, n: nat)
    requires n < |clock|
  {
    clock[n] - start >= actionPeriod || (n < |exits| && exits[n])
  }

  /** The scripts reach the end of the RECORDING loop. */
  predicate RecordingEnds(start: int, actionPeriod: int, clock: seq<int>, exits: seq<bool>) {
    exists n :: 0 <= n < |clock| && n <= |exits| && RecordingStops(start, actionPeriod, clock, exits, n)
  }

  /**
   * `do_recording`. `start` is the reading taken as `recording_start`, `clock[k]` the reading of the
   * `k`-th iteration and `exits[k]` the answer of the `k`-th `exit_fn()` call; `polls` iterations run
   * and `asked` calls of `exit_fn` are made. Completion of the interval is tested before `exit_fn`.
   */
  method DoRecording(actionPeriod: int, framePeriod: int, action: Action, start: int,
                     clock: seq<int>, exits: seq<bool>)
    returns (state: State, stores: seq<Store>, polls: nat, asked: nat)
    requires actionPeriod > 0 && framePeriod > 0
    requires RecordingEnds(start, actionPeriod, clock, exits)
    ensures 0 < polls <= |clock| && asked <= |exits|
    ensures asked == if clock[polls - 1] - start >= actionPeriod then polls - 1 else polls
    ensures forall k :: 0 <= k < polls - 1 ==> clock[k] - start < actionPeriod && !exits[k]
    ensures state != Recording
    ensures state == Fade <==> clock[polls - 1] - start >= actionPeriod
    ensures state == Exit <==> clock[polls - 1] - start < actionPeriod && exits[polls - 1]
    ensures stores == StoreTrace(action, framePeriod, clock[..polls - 1])
    ensures forall s :: s in stores ==> s.action == action && s.time - start < actionPeriod
    ensures Spaced(stores, framePeriod)
    ensures polls > 1 ==> stores != [] && stores[0] == Store(action, clock[0])
  {
    ghost var n :| 0 <= n < |clock| && n <= |exits| && RecordingStops(start, actionPeriod, clock, exits, n);
    var done, shouldExit := false, false;
    var lastRecording: Option<int> := None;
    stores := [];
    polls, asked := 0, 0;
    ghost var fed: nat := 0;  // readings that went through the store rule
    while !done
      invariant polls <= n + 1 && fed <= polls
      invariant !done ==> polls <= n && fed == polls && asked == polls && !shouldExit
      invariant done ==> 0 < polls && fed == polls - 1
      invariant forall k :: 0 <= k < fed ==> clock[k] - start < actionPeriod && !exits[k]
      invariant done ==> asked == (if clock[polls - 1] - start >= actionPeriod then polls - 1 else polls)
      invariant done ==> shouldExit == (clock[polls - 1] - start < actionPeriod && exits[polls - 1])
      invariant done ==> RecordingStops(start, actionPeriod, clock, exits, polls - 1)
      invariant stores == StoreTrace(action, framePeriod, clock[..fed])
      invariant lastRecording == if stores == [] then None else Some(stores[|stores| - 1].time)
      decreases n + 1 - polls
    {
      var now := clock[polls];
      polls := polls + 1;
      if now - start >= actionPeriod {
        done := true;
      } else {
        var fired := exits[asked];
        asked := asked + 1;
        if fired {
          done := true;
          shouldExit := true;
        } else {
          StoreTraceStep(action, framePeriod, clock, fed);
          if lastRecording.None? || now - lastRecording.value > framePeriod {
            lastRecording := Some(now);
            stores := stores + [Store(action, now)];
          }
          fed := fed + 1;
        }
      }
    }
    state := if shouldExit then Exit else Fade;

    var readings := clock[..polls - 1];
    StoreTraceFromReadings(action, framePeriod, readings);
    StoreTraceGaps(action, framePeriod, readings);
    if polls > 1 {
      StoreTraceFirst(action, framePeriod, readings);
    }
  }

  // ---------------------------------------------------------------------------------------------
  // execute_state_machine

  /**
   * One visit of FADE or RECORDING: what it did, the answers and readings of the scripts it used up,
   * and the state it moved to. A FADE uses `done()` answers and `exit_fn()` answers; a RECORDING uses
   * clock readings (the first one is `recording_start`) and `exit_fn()` answers.
   */
  datatype Phase =
    | FadePhase(prev: Option<Action>, action: Action, calls: seq<AnnouncerCall>,
                dones: seq<bool>, exits: seq<bool>, next: State)
    | RecordingPhase(action: Action, clock: seq<int>, exits: seq<bool>, stores: seq<Store>, next: State)

  /**
   * What `do_fade` does with the answers it used up: it announces `text` under the protocol, polling
   * `done()` once per answer, and stops at the first true `done()` or at the `done()` after the first
   * true `exit_fn()`; it goes to EXIT iff `exit_fn()` answered true, otherwise to RECORDING.
   */
  predicate FadeOutcome(dones: seq<bool>, exits: seq<bool>, calls: seq<AnnouncerCall>, text: string, next: State) {
    && |dones| > 0 && |exits| == |dones| - 1
    && AnnouncerProtocol(calls, text) && |calls| == |dones| + 2
    && (forall k :: 0 <= k < |dones| - 1 ==> !dones[k])
    && (forall k :: 0 <= k < |exits| - 1 ==> !exits[k])
    && FadeStops(dones, exits, |dones| - 1)
    && (next == Exit <==> |exits| > 0 && exits[|exits| - 1])
    && (next != Exit ==> next == Recording && dones[|dones| - 1])
  }

  /**
   * What `do_recording` does with the readings and answers it used up: `clock[0]` is the start and
   * `clock[1..]` the readings of its iterations; it goes to FADE iff the last reading completes the
   * interval, to EXIT iff it does not and `exit_fn()` answered true; every earlier reading lies within
   * the interval with `exit_fn()` false; the stores are the store rule applied to those readings.
   */
  predicate RecordingOutcome(actionPeriod: int, framePeriod: int, action: Action, clock: seq<int>,
                             exits: seq<bool>, stores: seq<Store>, next: State) {
    && |clock| >= 2
    && var last := clock[|clock| - 1] - clock[0];
       && |exits| == (if last >= actionPeriod then |clock| - 2 else |clock| - 1)
       && (forall k :: 1 <= k < |clock| - 1 ==> clock[k] - clock[0] < actionPeriod && !exits[k - 1])
       && (next == Fade <==> last >= actionPeriod)
       && (next == Exit <==> last < actionPeriod && exits[|exits| - 1])
       && next != Recording
       && stores == StoreTrace(action, framePeriod, clock[1..|clock| - 1])
  }

  /**
   * A run of `execute_state_machine`: FADE and RECORDING alternate starting with FADE; each FADE picks
   * the action after the previous one and behaves as `do_fade` on the answers it used; each RECORDING
   * records the action its FADE picked and behaves as `do_recording` on the readings and answers it
   * used; only the last phase may go to EXIT.
   */
  ghost predicate SessionRun(actions: seq<Action>, actionPeriod: int, framePeriod: int, phases: seq<Phase>)
    requires |actions| > 0
  {
    && (forall j :: 0 <= j < |phases| ==> PhaseOk(actions, actionPeriod, framePeriod, phases, j))
    && (forall j :: 0 <= j < |phases| - 1 ==> phases[j].next != Exit)
  }

  /** Phase `j` of `phases` follows the one before it. */
  ghost predicate PhaseOk(actions: seq<Action>, actionPeriod: int, framePeriod: int, phases: seq<Phase>, j: nat)
    requires |actions| > 0 && j < |phases|
  {
    PhaseAfter(actions, actionPeriod, framePeriod, j, if j == 0 then None else Some(phases[j - 1].action), phases[j])
  }

  /** Phase number `j` of a run, given the action of the phase before it (`None` for the first). */
  ghost predicate PhaseAfter(actions: seq<Action>, actionPeriod: int, framePeriod: int, j: nat,
                             before: Option<Action>, p: Phase)
    requires |actions| > 0
  {
    match p
    case FadePhase(prev, action, calls, dones, exits, next) =>
      && j % 2 == 0
      && prev == before
      && (prev.Some? ==> prev.value in actions)
      && action == NextAction(actions, prev)
      && FadeOutcome(dones, exits, calls, Announcement(prev, action), next)
    case RecordingPhase(action, clock, exits, stores, next) =>
      && j % 2 == 1
      && before == Some(action)
      && RecordingOutcome(actionPeriod, framePeriod, action, clock, exits, stores, next)
  }

  /** A run extended by a phase that follows its last one is a run. */
  lemma SessionRunExtend(actions: seq<Action>, actionPeriod: int, framePeriod: int, phases: seq<Phase>, p: Phase)
    requires |actions| > 0 && SessionRun(actions, actionPeriod, framePeriod, phases)
    requires phases != [] ==> phases[|phases| - 1].next != Exit
    requires PhaseAfter(actions, actionPeriod, framePeriod, |phases|,
                        if phases == [] then None else Some(phases[|phases| - 1].action), p)
    ensures SessionRun(actions, actionPeriod, framePeriod, phases + [p])
  {
    var ext := phases + [p];
    forall j | 0 <= j < |ext|
      ensures PhaseOk(actions, actionPeriod, framePeriod, ext, j)
    {
      if j < |phases| {
        assert PhaseOk(actions, actionPeriod, framePeriod, phases, j);
        assert ext[j] == phases[j];
        if j > 0 {
          assert ext[j - 1] == phases[j - 1];
        }
      }
    }
  }

  /** The clock readings each phase used, one phase after the other. */
  function ClockOf(phases: seq<Phase>): seq<int> {
    if phases == [] then []
    else
      var p := phases[|phases| - 1];
      ClockOf(phases[..|phases| - 1]) + (if p.RecordingPhase? then p.clock else [])
  }

  /** The `done()` answers each phase used, one phase after the other. */
  function DonesOf(phases: seq<Phase>): seq<bool> {
    if phases == [] then []
    else
      var p := phases[|phases| - 1];
      DonesOf(phases[..|phases| - 1]) + (if p.FadePhase? then p.dones else [])
  }

  /** The `exit_fn()` answers each phase used, one phase after the other. */
  function ExitsOf(phases: seq<Phase>): seq<bool> {
    if phases == [] then [] else ExitsOf(phases[..|phases| - 1]) + phases[|phases| - 1].exits
  }

  /** Appending a phase appends what it used. */
  lemma UsedAppend(phases: seq<Phase>, p: Phase)
    ensures ClockOf(phases + [p]) == ClockOf(phases) + (if p.RecordingPhase? then p.clock else [])
    ensures DonesOf(phases + [p]) == DonesOf(phases) + (if p.FadePhase? then p.dones else [])
    ensures ExitsOf(phases + [p]) == ExitsOf(phases) + p.exits
  {
    assert (phases + [p])[..|phases|] == phases;
  }

  /** A phase that used the next entries of the scripts keeps the phases tied to the script prefixes. */
  lemma UsedExtend(clock: seq<int>, dones: seq<bool>, exits: seq<bool>, phases: seq<Phase>, p: Phase,
                   clockUsed: nat, donesUsed: nat, exitsUsed: nat, nc: nat, nd: nat, ne: nat)
    requires clockUsed + nc <= |clock| && donesUsed + nd <= |dones| && exitsUsed + ne <= |exits|
    requires clock[..clockUsed] == ClockOf(phases)
    requires dones[..donesUsed] == DonesOf(phases)
    requires exits[..exitsUsed] == ExitsOf(phases)
    requires clock[clockUsed..][..nc] == (if p.RecordingPhase? then p.clock else [])
    requires dones[donesUsed..][..nd] == (if p.FadePhase? then p.dones else [])
    requires exits[exitsUsed..][..ne] == p.exits
    ensures clock[..clockUsed + nc] == ClockOf(phases + [p])
    ensures dones[..donesUsed + nd] == DonesOf(phases + [p])
    ensures exits[..exitsUsed + ne] == ExitsOf(phases + [p])
  {
    UsedAppend(phases, p);
    PrefixExtend(clock, clockUsed, nc);
    PrefixExtend(dones, donesUsed, nd);
    PrefixExtend(exits, exitsUsed, ne);
  }

  /** The first `i + n` entries of a script are its first `i` entries followed by the next `n`. */
  lemma PrefixExtend<T>(s: seq<T>, i: nat, n: nat)
    requires i + n <= |s|
    ensures s[..i + n] == s[..i] + s[i..][..n]
  {
  }

  /** The facts `DoFade` ensures about whole scripts, read on the answers it used. */
  lemma FadeOutcomeOfScripts(dones: seq<bool>, exits: seq<bool>, polls: nat, calls: seq<AnnouncerCall>,
                             text: string, state: State)
    requires 0 < polls <= |dones| && polls - 1 <= |exits|
    requires calls == [SayCall(text)] + seq(polls, _ => DoneCall) + [StopCall]
    requires AnnouncerProtocol(calls, text)
    requires forall k :: 0 <= k < polls - 1 ==> !dones[k]
    requires forall k :: 0 <= k < polls - 2 ==> !exits[k]
    requires FadeStops(dones, exits, polls - 1)
    requires state == Exit <==> polls > 1 && exits[polls - 2]
    requires state != Exit ==> state == Recording && dones[polls - 1]
    ensures FadeOutcome(dones[..polls], exits[..polls - 1], calls, text, state)
  {
  }

  /** The facts `DoRecording` ensures about whole scripts, read on the readings and answers it used. */
  lemma RecordingOutcomeOfScripts(actionPeriod: int, framePeriod: int, action: Action, start: int,
                                  clock: seq<int>, exits: seq<bool>, polls: nat, asked: nat,
                                  stores: seq<Store>, state: State)
    requires 0 < polls <= |clock| && asked <= |exits|
    requires asked == if clock[polls - 1] - start >= actionPeriod then polls - 1 else polls
    requires forall k :: 0 <= k < polls - 1 ==> clock[k] - start < actionPeriod && !exits[k]
    requires state != Recording
    requires state == Fade <==> clock[polls - 1] - start >= actionPeriod
    requires state == Exit <==> clock[polls - 1] - start < actionPeriod && exits[polls - 1]
    requires stores == StoreTrace(action, framePeriod, clock[..polls - 1])
    ensures RecordingOutcome(actionPeriod, framePeriod, action, [start] + clock[..polls], exits[..asked],
                             stores, state)
  {
    var used := [start] + clock[..polls];
    assert used[1..|used| - 1] == clock[..polls - 1];
    forall k | 1 <= k < |used| - 1
      ensures used[k] - used[0] < actionPeriod && !exits[..asked][k - 1]
    {
      assert used[k] == clock[k - 1];
    }
  }

  /** The remaining scripts can carry the phase of `state` to its end. */
  predicate CanRun(state: State, actionPeriod: int, clock: seq<int>, dones: seq<bool>, exits: seq<bool>) {
    match state
    case Fade => FadeEnds(dones, exits)
    case Recording => |clock| > 0 && RecordingEnds(clock[0], actionPeriod, clock[1..], exits)
    case Exit => false
  }

  /**
   * The loop invariant of `execute_state_machine`: the phases so far form a run, they used up the
   * first `clockUsed` readings, `donesUsed` `done()` answers and `exitsUsed` `exit_fn()` answers, and
   * `state` and `action` are what the last phase left behind.
   */
  ghost predicate Driven(actions: seq<Action>, actionPeriod: int, framePeriod: int,
                         clock: seq<int>, dones: seq<bool>, exits: seq<bool>, phases: seq<Phase>,
                         clockUsed: nat, donesUsed: nat, exitsUsed: nat, state: State, action: Option<Action>)
    requires |actions| > 0
  {
    && clockUsed <= |clock| && donesUsed <= |dones| && exitsUsed <= |exits|
    && SessionRun(actions, actionPeriod, framePeriod, phases)
    && clock[..clockUsed] == ClockOf(phases)
    && dones[..donesUsed] == DonesOf(phases)
    && exits[..exitsUsed] == ExitsOf(phases)
    && (phases == [] ==> state == Fade && action == None)
    && (phases != [] ==> phases[|phases| - 1].next == state && action == Some(phases[|phases| - 1].action))
    && (action.Some? ==> action.value in actions)
    && (state != Exit ==> (state == Fade <==> |phases| % 2 == 0))
  }

  /** A FADE that picks the successor and behaves as `do_fade` may be phase number `j` (even). */
  lemma FadeFollows(actions: seq<Action>, actionPeriod: int, framePeriod: int, j: nat, prev: Option<Action>,
                    chosen: Action, calls: seq<AnnouncerCall>, dones: seq<bool>, exits: seq<bool>, next: State)
    requires |actions| > 0 && j % 2 == 0 && (prev.Some? ==> prev.value in actions)
    requires chosen == NextAction(actions, prev)
    requires FadeOutcome(dones, exits, calls, Announcement(prev, chosen), next)
    ensures PhaseAfter(actions, actionPeriod, framePeriod, j, prev, FadePhase(prev, chosen, calls, dones, exits, next))
  {
  }

  /** A RECORDING of the FADE's action that behaves as `do_recording` may be phase number `j` (odd). */
  lemma RecordingFollows(actions: seq<Action>, actionPeriod: int, framePeriod: int, j: nat, action: Action,
                         clock: seq<int>, exits: seq<bool>, stores: seq<Store>, next: State)
    requires |actions| > 0 && j % 2 == 1
    requires RecordingOutcome(actionPeriod, framePeriod, action, clock, exits, stores, next)
    ensures PhaseAfter(actions, actionPeriod, framePeriod, j, Some(action), RecordingPhase(action, clock, exits, stores, next))
  {
  }

  /** A FADE that behaved as `do_fade` on the next answers keeps the loop invariant. */
  lemma FadeExtends(actions: seq<Action>, actionPeriod: int, framePeriod: int,
                    clock: seq<int>, dones: seq<bool>, exits: seq<bool>, phases: seq<Phase>,
                    clockUsed: nat, donesUsed: nat, exitsUsed: nat, action: Option<Action>,
                    chosen: Action, calls: seq<AnnouncerCall>, polls: nat, next: State)
    requires |actions| > 0
    requires Driven(actions, actionPeriod, framePeriod, clock, dones, exits, phases,
                    clockUsed, donesUsed, exitsUsed, Fade, action)
    requires 0 < polls <= |dones| - donesUsed && polls - 1 <= |exits| - exitsUsed
    requires chosen == NextAction(actions, action)
    requires FadeOutcome(dones[donesUsed..][..polls], exits[exitsUsed..][..polls - 1], calls,
                         Announcement(action, chosen), next)
    ensures Driven(actions, actionPeriod, framePeriod, clock, dones, exits,
                   phases + [FadePhase(action, chosen, calls, dones[donesUsed..][..polls],
                                       exits[exitsUsed..][..polls - 1], next)],
                   clockUsed, donesUsed + polls, exitsUsed + polls - 1, next, Some(chosen))
  {
    var p := FadePhase(action, chosen, calls, dones[donesUsed..][..polls], exits[exitsUsed..][..polls - 1], next);
    assert action == if phases == [] then None else Some(phases[|phases| - 1].action);
    assert |phases| % 2 == 0;
    FadeFollows(actions, actionPeriod, framePeriod, |phases|, action, chosen, calls,
                dones[donesUsed..][..polls], exits[exitsUsed..][..polls - 1], next);
    SessionRunExtend(actions, actionPeriod, framePeriod, phases, p);
    UsedExtend(clock, dones, exits, phases, p, clockUsed, donesUsed, exitsUsed, 0, polls, polls - 1);
  }

  /** A RECORDING that behaved as `do_recording` on the next readings and answers keeps the loop invariant. */
  lemma RecordingExtends(actions: seq<Action>, actionPeriod: int, framePeriod: int,
                         clock: seq<int>, dones: seq<bool>, exits: seq<bool>, phases: seq<Phase>,
                         clockUsed: nat, donesUsed: nat, exitsUsed: nat, action: Action,
                         stores: seq<Store>, polls: nat, asked: nat, next: State)
    requires |actions| > 0
    requires Driven(actions, actionPeriod, framePeriod, clock, dones, exits, phases,
                    clockUsed, donesUsed, exitsUsed, Recording, Some(action))
    requires 0 < 1 + polls <= |clock| - clockUsed && asked <= |exits| - exitsUsed
    requires RecordingOutcome(actionPeriod, framePeriod, action, clock[clockUsed..][..1 + polls],
                              exits[exitsUsed..][..asked], stores, next)
    ensures Driven(actions, actionPeriod, framePeriod, clock, dones, exits,
                   phases + [RecordingPhase(action, clock[clockUsed..][..1 + polls],
                                            exits[exitsUsed..][..asked], stores, next)],
                   clockUsed + 1 + polls, donesUsed, exitsUsed + asked, next, Some(action))
  {
    var p := RecordingPhase(action, clock[clockUsed..][..1 + polls], exits[exitsUsed..][..asked], stores, next);
    assert phases != [] && phases[|phases| - 1].action == action;
    assert |phases| % 2 == 1;
    RecordingFollows(actions, actionPeriod, framePeriod, |phases|, action, clock[clockUsed..][..1 + polls],
                     exits[exitsUsed..][..asked], stores, next);
    SessionRunExtend(actions, actionPeriod, framePeriod, phases, p);
    UsedExtend(clock, dones, exits, phases, p, clockUsed, donesUsed, exitsUsed, 1 + polls, 0, asked);
  }

  /** One pass of the `execute_state_machine` loop in FADE: `do_fade` on the rest of the scripts. */
  method FadeVisit(actions: seq<Action>, actionPeriod: int, framePeriod: int,
                   clock: seq<int>, dones: seq<bool>, exits: seq<bool>, phases: seq<Phase>,
                   clockUsed: nat, donesUsed: nat, exitsUsed: nat, action: Option<Action>)
    returns (phases': seq<Phase>, donesUsed': nat, exitsUsed': nat, state': State, action': Option<Action>)
    requires |actions| > 0
    requires Driven(actions, actionPeriod, framePeriod, clock, dones, exits, phases,
                    clockUsed, donesUsed, exitsUsed, Fade, action)
    requires FadeEnds(dones[donesUsed..], exits[exitsUsed..])
    ensures Driven(actions, actionPeriod, framePeriod, clock, dones, exits, phases',
                   clockUsed, donesUsed', exitsUsed', state', action')
    ensures donesUsed < donesUsed' && exitsUsed <= exitsUsed'
  {
    var d, e := dones[donesUsed..], exits[exitsUsed..];
    var chosen, next, calls, polls := DoFade(actions, action, d, e);
    FadeOutcomeOfScripts(d, e, polls, calls, Announcement(action, chosen), next);
    FadeExtends(actions, actionPeriod, framePeriod, clock, dones, exits, phases,
                clockUsed, donesUsed, exitsUsed, action, chosen, calls, polls, next);
    phases' := phases + [FadePhase(action, chosen, calls, d[..polls], e[..polls - 1], next)];
    donesUsed', exitsUsed' := donesUsed + polls, exitsUsed + polls - 1;
    action', state' := Some(chosen), next;
  }

  /** One pass of the `execute_state_machine` loop in RECORDING: `do_recording` on the rest of the scripts. */
  method RecordingVisit(actions: seq<Action>, actionPeriod: int, framePeriod: int,
                        clock: seq<int>, dones: seq<bool>, exits: seq<bool>, phases: seq<Phase>,
                        clockUsed: nat, donesUsed: nat, exitsUsed: nat, action: Action)
    returns (phases': seq<Phase>, clockUsed': nat, exitsUsed': nat, state': State)
    requires |actions| > 0 && actionPeriod > 0 && framePeriod > 0
    requires Driven(actions, actionPeriod, framePeriod, clock, dones, exits, phases,
                    clockUsed, donesUsed, exitsUsed, Recording, Some(action))
    requires |clock| > clockUsed
             && RecordingEnds(clock[clockUsed], actionPeriod, clock[clockUsed + 1..], exits[exitsUsed..])
    ensures Driven(actions, actionPeriod, framePeriod, clock, dones, exits, phases',
                   clockUsed', donesUsed, exitsUsed', state', Some(action))
    ensures clockUsed < clockUsed' && exitsUsed <= exitsUsed'
  {
    var start := clock[clockUsed];
    var c, e := clock[clockUsed + 1..], exits[exitsUsed..];
    var next, stores, polls, asked := DoRecording(actionPeriod, framePeriod, action, start, c, e);
    RecordingOutcomeOfScripts(actionPeriod, framePeriod, action, start, c, e, polls, asked, stores, next);
    assert clock[clockUsed..][..1 + polls] == [start] + c[..polls];
    RecordingExtends(actions, actionPeriod, framePeriod, clock, dones, exits, phases,
                     clockUsed, donesUsed, exitsUsed, action, stores, polls, asked, next);
    phases' := phases + [RecordingPhase(action, clock[clockUsed..][..1 + polls], e[..asked], stores, next)];
    clockUsed', exitsUsed' := clockUsed + 1 + polls, exitsUsed + asked;
    state' := next;
  }

  /**
   * `execute_state_machine`, starting in FADE with no action. The phases used up the scripts from the
   * start, in order: the first `clockUsed` readings, `donesUsed` `done()` answers and `exitsUsed`
   * `exit_fn()` answers. The machine stops on reaching EXIT, or when the rest of the scripts cannot
   * carry the next phase to its end, that is when the environment was observed for a shorter time than
   * the session lasted.
   */
  method ExecuteStateMachine(actions: seq<Action>, actionPeriod: int, framePeriod: int,
                             clock: seq<int>, dones: seq<bool>, exits: seq<bool>)
    returns (phases: seq<Phase>, state: State, clockUsed: nat, donesUsed: nat, exitsUsed: nat)
    requires |actions| > 0 && actionPeriod > 0 && framePeriod > 0
    ensures clockUsed <= |clock| && donesUsed <= |dones| && exitsUsed <= |exits|
    ensures SessionRun(actions, actionPeriod, framePeriod, phases)
    ensures clock[..clockUsed] == ClockOf(phases)
    ensures dones[..donesUsed] == DonesOf(phases)
    ensures exits[..exitsUsed] == ExitsOf(phases)
    ensures phases == [] ==> state == Fade
    ensures phases != [] ==> phases[|phases| - 1].next == state
    ensures state != Exit ==>
              !CanRun(state, actionPeriod, clock[clockUsed..], dones[donesUsed..], exits[exitsUsed..])
    ensures Distinct(actions) ==>
              forall j :: 0 <= j < |phases| && j % 2 == 0 ==> phases[j].action == actions[(j / 2) % |actions|]
  {
    phases := [];
    state := Fade;
    var action: Option<Action> := None;
    clockUsed, donesUsed, exitsUsed := 0, 0, 0;
    while state != Exit
          && CanRun(state, actionPeriod, clock[clockUsed..], dones[donesUsed..], exits[exitsUsed..])
      invariant Driven(actions, actionPeriod, framePeriod, clock, dones, exits, phases,
                       clockUsed, donesUsed, exitsUsed, state, action)
      decreases (|clock| - clockUsed) + (|dones| - donesUsed)
    {
      if state == Fade {
        phases, donesUsed, exitsUsed, state, action :=
          FadeVisit(actions, actionPeriod, framePeriod, clock, dones, exits, phases,
                    clockUsed, donesUsed, exitsUsed, action);
      } else {
        assert clock[clockUsed..][1..] == clock[clockUsed + 1..];
        phases, clockUsed, exitsUsed, state :=
          RecordingVisit(actions, actionPeriod, framePeriod, clock, dones, exits, phases,
                         clockUsed, donesUsed, exitsUsed, action.value);
      }
    }
    if Distinct(actions) {
      forall j | 0 <= j < |phases| && j % 2 == 0
        ensures phases[j].action == actions[(j / 2) % |actions|]
      {
        assert 2 * (j / 2) == j;
        FadesCycle(actions, actionPeriod, framePeriod, phases, j / 2);
      }
    }
  }

  /** Over actions without repetitions, the FADE phases pick the actions in list order, cyclically. */
  lemma FadesCycle(actions: seq<Action>, actionPeriod: int, framePeriod: int, phases: seq<Phase>, i: nat)
    requires |actions| > 0 && Distinct(actions) && SessionRun(actions, actionPeriod, framePeriod, phases)
    requires 2 * i < |phases|
    ensures phases[2 * i].action == actions[i % |actions|]
  {
    forall j | 0 <= j < |phases|
      ensures Chooses(actions, phases, j)
    {
      PhaseChoice(actions, actionPeriod, framePeriod, phases, j);
    }
    ChoicesCycle(actions, phases, i);
  }

  /** Phase `j` has the action a run gives it: a FADE picks the successor, a RECORDING keeps its FADE's. */
  ghost predicate Chooses(actions: seq<Action>, phases: seq<Phase>, j: nat)
    requires |actions| > 0 && j < |phases|
  {
    && (j % 2 == 0 ==>
          && phases[j].FadePhase?
          && (j > 0 ==> phases[j - 1].action in actions)
          && phases[j].action == NextAction(actions, if j == 0 then None else Some(phases[j - 1].action)))
    && (j % 2 == 1 ==> phases[j].RecordingPhase? && phases[j].action == phases[j - 1].action)
  }

  /** Every phase of a run has the action the run gives it. */
  lemma PhaseChoice(actions: seq<Action>, actionPeriod: int, framePeriod: int, phases: seq<Phase>, j: nat)
    requires |actions| > 0 && SessionRun(actions, actionPeriod, framePeriod, phases) && j < |phases|
    ensures Chooses(actions, phases, j)
  {
    assert PhaseOk(actions, actionPeriod, framePeriod, phases, j);
  }

  /** Phases that take their actions as a run does, over distinct actions, pick FADE number `i`'s as action `i mod n`. */
  lemma {:induction false} ChoicesCycle(actions: seq<Action>, phases: seq<Phase>, i: nat)
    requires |actions| > 0 && Distinct(actions) && 2 * i < |phases|
    requires forall j :: 0 <= j < |phases| ==> Chooses(actions, phases, j)
    ensures phases[2 * i].action == actions[i % |actions|]
  {
    assert Chooses(actions, phases, 2 * i);
    if i > 0 {
      ChoicesCycle(actions, phases, i - 1);
      assert Chooses(actions, phases, 2 * i - 1);
      NextInCycle(actions, i, phases[2 * i - 1].action);
    } else {
      assert 0 % |actions| == 0;
    }
  }

  /** Over distinct actions, the successor of action number `(i - 1) mod n` is action number `i mod n`. */
  lemma NextInCycle(actions: seq<Action>, i: nat, prev: Action)
    requires |actions| > 0 && Distinct(actions) && i > 0
    requires prev == actions[(i - 1) % |actions|]
    ensures NextAction(actions, Some(prev)) == actions[i % |actions|]
  {
    NextOfDistinct(actions, (i - 1) % |actions|);
    ModSucc(i - 1, |actions|);
  }

  /**
   * The end-to-end scenario over two actions A and B: the first FADE picks A with the opening
   * template, the next picks B with the follow-up template, the one after picks A again.
   */
  lemma TwoActionsAlternate(a: Action, b: Action, actionPeriod: int, framePeriod: int, phases: seq<Phase>)
    requires a != b && SessionRun([a, b], actionPeriod, framePeriod, phases) && |phases| >= 5
    ensures phases[0].FadePhase? && phases[0].action == a
            && AnnouncerProtocol(phases[0].calls, Announcement(None, a))
    ensures phases[2].FadePhase? && phases[2].action == b
            && AnnouncerProtocol(phases[2].calls, Announcement(Some(a), b))
    ensures phases[4].FadePhase? && phases[4].action == a
            && AnnouncerProtocol(phases[4].calls, Announcement(Some(b), a))
  {
    assert PhaseOk([a, b], actionPeriod, framePeriod, phases, 0);
    assert PhaseOk([a, b], actionPeriod, framePeriod, phases, 1);
    assert PhaseOk([a, b], actionPeriod, framePeriod, phases, 2);
    assert PhaseOk([a, b], actionPeriod, framePeriod, phases, 3);
    assert PhaseOk([a, b], actionPeriod, framePeriod, phases, 4);
    FadesCycle([a, b], actionPeriod, framePeriod, phases, 0);
    FadesCycle([a, b], actionPeriod, framePeriod, phases, 1);
    FadesCycle([a, b], actionPeriod, framePeriod, phases, 2);
    assert phases[1].RecordingPhase?;
  }
}
