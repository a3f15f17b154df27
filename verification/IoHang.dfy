/**
 The disk-hang detector of pkg/health, in discrete time: a ticker that kicks probes, at most one probe at a time, and a
 verdict that is read from three atomic words without ever waiting for the disk.
 */
module IoHang {
  import opened Wrappers

  // ---- Configuration ----

  const Second: int := 1_000_000_000
  const DefaultInterval := 5 * Second
  const DefaultTimeout := 3 * Second
  const DefaultStaleness := 15 * Second

  datatype Config = Config(enable: Option<bool>, interval: int, timeout: int, staleness: int, affectHeartbeat: Option<bool>)

  function WithDefaults(c: Config): (r: Config)
    ensures r.interval > 0 && r.timeout > 0 && r.staleness >= 2 * r.interval + r.timeout
    ensures r.interval == c.interval || (c.interval <= 0 && r.interval == 5_000_000_000)
    ensures r.timeout == c.timeout || (c.timeout <= 0 && r.timeout == 3_000_000_000)
    ensures var wanted := if c.staleness > 0 then c.staleness else 15_000_000_000;
            r.staleness >= wanted && (r.staleness == wanted || r.staleness == 2 * r.interval + r.timeout)
    ensures r.enable.Some? && r.affectHeartbeat.Some?
  {
    var enable := if c.enable.None? then Some(true) else c.enable;
    var affectHeartbeat := if c.affectHeartbeat.None? then Some(true) else c.affectHeartbeat;
    var interval := if c.interval <= 0 then DefaultInterval else c.interval;
    var timeout := if c.timeout <= 0 then DefaultTimeout else c.timeout;
    var staleness := if c.staleness <= 0 then DefaultStaleness else c.staleness;
    var minStaleness := 2 * interval + timeout;
    Config(enable, interval, timeout, if staleness < minStaleness then minStaleness else staleness, affectHeartbeat)
  }

  /** Filling in defaults twice is filling them in once, and changes exactly the configurations that are not sound. */
  lemma DefaultsSettle(c: Config)
    ensures WithDefaults(WithDefaults(c)) == WithDefaults(c)
    ensures WithDefaults(c) == c <==>
              && c.interval > 0 && c.timeout > 0 && c.staleness >= 2 * c.interval + c.timeout
              && c.enable.Some? && c.affectHeartbeat.Some?
  {
  }

  // ---- The detector ----

  datatype ProbeError = NoError | WriteError(device: bool)

  /** How far the probe goroutine has come; Idle when there is none. */
  datatype Phase =
    | Idle
    | Spawned
    | Writing(start: int)
    | Returned(done: int, err: ProbeError)
    | DoneStored(err: ProbeError)
    | ErrStored
    | Announced
    | Cleared

  datatype State = State(
    now: int,
    lastTick: int,
    kickedAt: int,            // tick that started the latest probe
    missed: nat,              // ticks since then that found the probe still there
    phase: Phase,
    inflightSince: int,
    lastDoneAt: int,
    lastErr: ProbeError,
    firstDone: bool)

  datatype Step =
    | Advance(d: nat)
    | Tick
    | BeginWrite
    | WriteReturns(err: ProbeError)
    | StoreDone
    | StoreErr
    | CloseFirstDone
    | ClearInflight
    | Release

  /** The detector as Start leaves it: the first probe is kicked at once. */
  function Started(at: int): State {
    State(at, at, at, 0, Spawned, 0, 0, NoError, false)
  }

  predicate Enabled(s: State, t: Step) {
    match t
    case Advance(_) => true
    case Tick => true
    case BeginWrite => s.phase.Spawned?
    case WriteReturns(_) => s.phase.Writing?
    case StoreDone => s.phase.Returned?
    case StoreErr => s.phase.DoneStored?
    case CloseFirstDone => s.phase.ErrStored?
    case ClearInflight => s.phase.Announced?
    case Release => s.phase.Cleared?
  }

  function Apply(s: State, t: Step): State
    requires Enabled(s, t)
  {
    match t
    case Advance(d) => s.(now := s.now + d)
    case Tick =>
      if s.phase.Idle? then s.(lastTick := s.now, kickedAt := s.now, missed := 0, phase := Spawned)
      else s.(lastTick := s.now, missed := s.missed + 1)
    case BeginWrite => s.(phase := Writing(s.now), inflightSince := s.now)
    case WriteReturns(err) => s.(phase := Returned(s.now, err))
    case StoreDone => s.(phase := DoneStored(s.phase.err), lastDoneAt := s.phase.done)
    case StoreErr => s.(phase := ErrStored, lastErr := s.phase.err)
    case CloseFirstDone => s.(phase := Announced, firstDone := true)
    case ClearInflight => s.(phase := Cleared, inflightSince := 0)
    case Release => s.(phase := Idle)
  }

  datatype Verdict = WarmingUp | Up | Inflight | Stale | DeviceError

  predicate IsUp(v: Verdict) {
    v.Up? || v.WarmingUp?
  }

  /** The verdict from a time and three words, each of which may be read a little later than the one before. */
  function Status(c: Config, now: int, lastErr: ProbeError, inflight: int, lastDone: int): Verdict {
    if inflight != 0 && now - inflight > c.timeout then Inflight
    else if lastDone == 0 then WarmingUp
    else if now - lastDone > c.staleness then Stale
    else if lastErr.WriteError? && lastErr.device then DeviceError
    else Up
  }

  function StatusOf(c: Config, s: State): Verdict {
    Status(c, s.now, s.lastErr, s.inflightSince, s.lastDoneAt)
  }

  // ---- Runs ----

  /** A run as the states it goes through. */
  ghost predicate Trace(states: seq<State>, steps: seq<Step>) {
    && |states| == |steps| + 1
    && forall i :: 0 <= i < |steps| ==> Enabled(states[i], steps[i]) && states[i + 1] == Apply(states[i], steps[i])
  }

  predicate Probing(p: Phase) {
    !p.Idle? && !p.Cleared?
  }

  /**
   Timing as on a working node: ticks come every interval, a probe has left its mark within timeout of its tick, and
   the probe slot is free before the second tick after that.
   */
  predicate Timely(c: Config, s: State) {
    && s.now <= s.lastTick + c.interval
    && (Probing(s.phase) ==> s.now <= s.kickedAt + c.timeout)
    && s.missed <= 1
  }

  ghost predicate TimelyTrace(c: Config, states: seq<State>, steps: seq<Step>) {
    Trace(states, steps) && forall i :: 0 <= i < |states| ==> Timely(c, states[i])
  }

  /** What ties the words to the clock and to the ticks. */
  predicate Clocked(c: Config, s: State) {
    && 0 < s.kickedAt <= s.lastTick <= s.now
    && s.lastTick <= s.kickedAt + s.missed * c.interval
    && 0 <= s.lastDoneAt <= s.now
    && (match s.phase
        case Spawned => s.inflightSince == 0
        case Idle => s.inflightSince == 0
        case Cleared => s.inflightSince == 0
        case Writing(start) => s.kickedAt <= start == s.inflightSince <= s.now
        case Returned(done, _) => s.kickedAt <= s.inflightSince <= done <= s.now
        case _ => s.kickedAt <= s.inflightSince)
    && (if s.phase.Spawned? || s.phase.Writing? || s.phase.Returned?
        then s.lastDoneAt == 0 || s.kickedAt <= s.lastDoneAt + 2 * c.interval
        else s.kickedAt <= s.lastDoneAt)
  }

  lemma ClockedStep(c: Config, s: State, t: Step)
    requires c.interval > 0 && Clocked(c, s) && Timely(c, s) && Enabled(s, t)
    ensures Clocked(c, Apply(s, t))
  {
    OneMissedTick(s.missed, c.interval);
  }

  lemma OneMissedTick(missed: nat, interval: int)
    requires interval > 0
    ensures (missed + 1) * interval == missed * interval + interval
    ensures missed <= 1 ==> missed * interval <= interval
  {
  }

  lemma {:induction false} ClockedTrace(c: Config, at: int, states: seq<State>, steps: seq<Step>, i: nat)
    requires c.interval > 0 && at > 0 && TimelyTrace(c, states, steps) && states[0] == Started(at) && i < |states|
    ensures Clocked(c, states[i])
  {
    if i > 0 {
      ClockedTrace(c, at, states, steps, i - 1);
      ClockedStep(c, states[i - 1], steps[i - 1]);
    }
  }

  /** How far apart two completions of timely probes can be: two ticks, and the time that is left for the second probe. */
  function LeastStaleness(c: Config): int {
    2 * c.interval + Min(c.timeout, 2 * c.interval)
  }

  /** Reading a word at a later moment than the time cannot make a timely detector look late. */
  lemma TimelyIsInTime(c: Config, s: State, now: int)
    requires c.interval > 0 && c.timeout > 0 && c.staleness >= LeastStaleness(c)
    requires Clocked(c, s) && Timely(c, s) && now <= s.now
    ensures s.inflightSince == 0 || now - s.inflightSince <= c.timeout
    ensures s.lastDoneAt == 0 || now - s.lastDoneAt <= c.staleness
  {
    OneMissedTick(s.missed, c.interval);
  }

  /**
   No false alarm: under every configuration, a detector with timely probes is never reported down for a write in
   flight or a stale probe, even when the words of the verdict are read at different moments of the run.
   */
  lemma NoFalseAlarm(given: Config, at: int, states: seq<State>, steps: seq<Step>, time: nat, i: nat, j: nat, e: ProbeError)
    requires at > 0 && TimelyTrace(WithDefaults(given), states, steps) && states[0] == Started(at)
    requires time <= i <= j < |states|
    ensures var v := Status(WithDefaults(given), states[time].now, e, states[i].inflightSince, states[j].lastDoneAt);
            v != Inflight && v != Stale && (v == DeviceError ==> e == WriteError(true))
  {
    var c := WithDefaults(given);
    ClockedTrace(c, at, states, steps, i);
    ClockedTrace(c, at, states, steps, j);
    TimePasses(states, steps, time, i);
    TimePasses(states, steps, time, j);
    TimelyIsInTime(c, states[i], states[time].now);
    TimelyIsInTime(c, states[j], states[time].now);
  }

  lemma {:induction false} TimePasses(states: seq<State>, steps: seq<Step>, i: nat, j: nat)
    requires Trace(states, steps) && i <= j < |states|
    ensures states[i].now <= states[j].now
    decreases j
  {
    if i < j {
      TimePasses(states, steps, i, j - 1);
    }
  }

  /** Read at one moment, the verdict of a timely detector is down exactly for a device error of the latest probe. */
  lemma TimelyVerdict(given: Config, at: int, states: seq<State>, steps: seq<Step>, i: nat)
    requires at > 0 && TimelyTrace(WithDefaults(given), states, steps) && states[0] == Started(at) && i < |states|
    ensures IsUp(StatusOf(WithDefaults(given), states[i])) <==>
              states[i].lastDoneAt == 0 || states[i].lastErr != WriteError(true)
  {
    NoFalseAlarm(given, at, states, steps, i, i, i, states[i].lastErr);
  }

  /** In no timely run is the detector reported stale. */
  ghost predicate NeverStale(c: Config) {
    forall at: int, states: seq<State>, steps: seq<Step>, i: nat ::
      at > 0 && TimelyTrace(c, states, steps) && states[0] == Started(at) && i < |states| ==>
        StatusOf(c, states[i]) != Stale
  }

  /**
   The exact bound: timely runs are never reported stale if and only if the staleness is at least this. For timeouts of up
   to two intervals this is the floor that WithDefaults puts in; beyond that timely probes end before their timeout, at
   the second tick, and the floor is higher than needed.
   */
  lemma LeastStalenessExact(c: Config)
    requires c.interval > 0 && c.timeout > 0
    ensures NeverStale(c) <==> c.staleness >= LeastStaleness(c)
    ensures LeastStaleness(c) == 2 * c.interval + c.timeout <==> c.timeout <= 2 * c.interval
  {
    if c.staleness >= LeastStaleness(c) {
      forall at: int, states: seq<State>, steps: seq<Step>, i: nat
        | at > 0 && TimelyTrace(c, states, steps) && states[0] == Started(at) && i < |states|
        ensures StatusOf(c, states[i]) != Stale {
        ClockedTrace(c, at, states, steps, i);
        TimelyIsInTime(c, states[i], states[i].now);
      }
    } else {
      var states, steps := FloorIsTight(c, 1);
      assert StatusOf(c, states[|states| - 1]) == Stale;
    }
  }

  /** With anything less a timely run is reported stale. */
  lemma FloorIsTight(c: Config, at: int) returns (states: seq<State>, steps: seq<Step>)
    requires c.interval > 0 && c.timeout > 0 && c.staleness < LeastStaleness(c) && at > 0
    ensures TimelyTrace(c, states, steps) && states[0] == Started(at)
    ensures StatusOf(c, states[|states| - 1]) == Stale
  {
    states, steps := QuickProbe(c, at);
    states, steps := Extend(c, states, steps, Advance(c.interval));
    states, steps := Extend(c, states, steps, Tick);
    states, steps := Extend(c, states, steps, Release);
    states, steps := Extend(c, states, steps, Advance(c.interval));
    states, steps := Extend(c, states, steps, Tick);
    states, steps := Extend(c, states, steps, BeginWrite);
    if c.timeout > c.interval {
      states, steps := Extend(c, states, steps, Advance(c.interval));
      states, steps := Extend(c, states, steps, Tick);
      states, steps := Extend(c, states, steps, Advance(Min(c.timeout, 2 * c.interval) - c.interval));
    } else {
      states, steps := Extend(c, states, steps, Advance(c.timeout));
    }
  }

  /** A first probe that takes no time, up to where it still holds the probe slot. */
  lemma QuickProbe(c: Config, at: int) returns (states: seq<State>, steps: seq<Step>)
    requires c.interval > 0 && c.timeout > 0 && at > 0
    ensures TimelyTrace(c, states, steps) && states[0] == Started(at)
    ensures states[|states| - 1] == Started(at).(phase := Cleared, lastDoneAt := at, firstDone := true)
  {
    states, steps := [Started(at)], [];
    states, steps := Extend(c, states, steps, BeginWrite);
    states, steps := Extend(c, states, steps, WriteReturns(NoError));
    states, steps := Extend(c, states, steps, StoreDone);
    states, steps := Extend(c, states, steps, StoreErr);
    states, steps := Extend(c, states, steps, CloseFirstDone);
    states, steps := Extend(c, states, steps, ClearInflight);
  }

  lemma Extend(c: Config, states: seq<State>, steps: seq<Step>, t: Step) returns (states': seq<State>, steps': seq<Step>)
    requires TimelyTrace(c, states, steps) && Enabled(states[|states| - 1], t)
    requires Timely(c, Apply(states[|states| - 1], t))
    ensures TimelyTrace(c, states', steps') && states'[0] == states[0]
    ensures states'[|states'| - 1] == Apply(states[|states| - 1], t)
  {
    states', steps' := states + [Apply(states[|states| - 1], t)], steps + [t];
  }

  // ---- Hangs ----

  /** A write that never returns is reported down at every moment past its timeout, and no second probe ever starts. */
  lemma {:induction false} HungWriteIsDown(c: Config, states: seq<State>, steps: seq<Step>, i: nat)
    requires Trace(states, steps) && i < |states| && states[0].phase.Writing?
    requires states[0].inflightSince == states[0].phase.start != 0
    requires forall k :: 0 <= k < |steps| ==> !steps[k].WriteReturns?
    ensures states[i].phase == states[0].phase && states[i].kickedAt == states[0].kickedAt
    ensures states[i].inflightSince == states[0].inflightSince
    ensures states[i].now > states[0].phase.start + c.timeout ==> StatusOf(c, states[i]) == Inflight
    decreases i
  {
    if i > 0 {
      HungWriteIsDown(c, states, steps, i - 1);
    }
  }

  /** Whatever else stops the probes, the log write after a probe included, is reported down once the last one is stale. */
  lemma {:induction false} SilenceIsDown(c: Config, states: seq<State>, steps: seq<Step>, i: nat)
    requires Trace(states, steps) && i < |states| && states[0].lastDoneAt != 0
    requires forall k :: 0 <= k < |steps| ==> !steps[k].StoreDone?
    ensures states[i].lastDoneAt == states[0].lastDoneAt
    ensures states[i].now > states[0].lastDoneAt + c.staleness ==> !IsUp(StatusOf(c, states[i]))
    decreases i
  {
    if i > 0 {
      SilenceIsDown(c, states, steps, i - 1);
    }
  }

  // ---- The verdict from the history ----

  /** When the latest write of the first i steps returned, and with what; 0 before the first. */
  function ReturnedAt(states: seq<State>, steps: seq<Step>, i: nat): int
    requires i <= |steps| && i < |states|
  {
    if i == 0 then 0
    else if steps[i - 1].WriteReturns? then states[i - 1].now
    else ReturnedAt(states, steps, i - 1)
  }

  function ReturnedWith(steps: seq<Step>, i: nat): ProbeError
    requires i <= |steps|
  {
    if i == 0 then NoError
    else if steps[i - 1].WriteReturns? then steps[i - 1].err
    else ReturnedWith(steps, i - 1)
  }

  /** When the latest write of the first i steps began. */
  function BeganAt(states: seq<State>, steps: seq<Step>, i: nat): int
    requires i <= |steps| && i < |states|
  {
    if i == 0 then 0
    else if steps[i - 1].BeginWrite? then states[i - 1].now
    else BeganAt(states, steps, i - 1)
  }

  /** A probe has begun its write and not taken back its mark. */
  predicate Marked(p: Phase) {
    p.Writing? || p.Returned? || p.DoneStored? || p.ErrStored? || p.Announced?
  }

  /** A probe that is about to store its result. */
  predicate Storing(p: Phase) {
    p.Returned? || p.DoneStored?
  }

  /** The words of the detector tell the history of its writes, up to a result that is being stored. */
  ghost predicate Told(states: seq<State>, steps: seq<Step>, i: nat)
    requires i <= |steps| && i < |states|
  {
    var s := states[i];
    && s.inflightSince == (if Marked(s.phase) then BeganAt(states, steps, i) else 0)
    && (!s.phase.Returned? ==> s.lastDoneAt == ReturnedAt(states, steps, i))
    && (!Storing(s.phase) ==> s.lastErr == ReturnedWith(steps, i))
    && (s.phase.Returned? ==> s.phase.done == ReturnedAt(states, steps, i))
    && (Storing(s.phase) ==> s.phase.err == ReturnedWith(steps, i))
  }

  lemma {:induction false} WordsTellHistory(at: int, states: seq<State>, steps: seq<Step>, i: nat)
    requires Trace(states, steps) && states[0] == Started(at) && i < |states|
    ensures Told(states, steps, i)
  {
    if i > 0 {
      WordsTellHistory(at, states, steps, i - 1);
    }
  }

  /**
   The verdict of every run, timely or not, from its history: down exactly if a write has been in flight for longer than
   the timeout, or the latest write returned longer ago than the staleness, or it returned a device error. Only while a
   result is being stored does the verdict still speak of the one before.
   */
  lemma VerdictExact(c: Config, at: int, states: seq<State>, steps: seq<Step>, i: nat)
    requires at > 0 && Trace(states, steps) && states[0] == Started(at) && i < |states|
    ensures var s := states[i];
            var late := Marked(s.phase) && s.now - BeganAt(states, steps, i) > c.timeout;
            var done := ReturnedAt(states, steps, i);
            && (late <==> StatusOf(c, s) == Inflight)
            && (!Storing(s.phase) ==>
                  && (StatusOf(c, s) == Stale <==> !late && done != 0 && s.now - done > c.staleness)
                  && (StatusOf(c, s) == WarmingUp <==> !late && done == 0)
                  && (!IsUp(StatusOf(c, s)) <==>
                        || late
                        || (done != 0 && (s.now - done > c.staleness || ReturnedWith(steps, i) == WriteError(true)))))
  {
    WordsTellHistory(at, states, steps, i);
    FirstProbeTrace(states, steps, i);
    BeganPositive(at, states, steps, i);
  }

  lemma {:induction false} BeganPositive(at: int, states: seq<State>, steps: seq<Step>, i: nat)
    requires at > 0 && Trace(states, steps) && states[0] == Started(at) && i < |states|
    ensures states[i].now > 0 && (Marked(states[i].phase) ==> BeganAt(states, steps, i) > 0)
  {
    if i > 0 {
      BeganPositive(at, states, steps, i - 1);
    }
  }

  /** So an age of the latest completion up to the staleness is never reported, and any beyond it is, while no write is late. */
  lemma StaleExactly(c: Config, s: State)
    requires s.lastDoneAt != 0 && (s.inflightSince == 0 || s.now - s.inflightSince <= c.timeout)
    ensures StatusOf(c, s) == Stale <==> s.now - s.lastDoneAt > c.staleness
    ensures s.now - s.lastDoneAt <= c.staleness ==> (IsUp(StatusOf(c, s)) <==> s.lastErr != WriteError(true))
  {
  }

  // ---- Waiting for the first result ----

  /** When the wait of the start-up can end: a probe is through, the verdict is down, or twice the timeout is over. */
  predicate WaitEnds(c: Config, s: State, began: int) {
    s.firstDone || !IsUp(StatusOf(c, s)) || s.now >= began + 2 * c.timeout
  }

  /** Until the first probe is through, the detector is inside it, and its write is in flight once it has begun. */
  predicate FirstProbe(s: State) {
    && s.now > 0
    && (s.lastDoneAt == 0 ==> !s.firstDone && (s.phase.Spawned? || s.phase.Writing? || s.phase.Returned?))
    && (s.lastDoneAt == 0 && s.phase.Spawned? ==> s.inflightSince == 0)
    && (s.phase.Writing? ==> 0 < s.phase.start == s.inflightSince)
    && (s.phase.Returned? ==> 0 < s.phase.done && 0 < s.inflightSince)
  }

  lemma {:induction false} FirstProbeTrace(states: seq<State>, steps: seq<Step>, i: nat)
    requires Trace(states, steps) && FirstProbe(states[0]) && i < |states|
    ensures FirstProbe(states[i])
  {
    if i > 0 {
      FirstProbeTrace(states, steps, i - 1);
    }
  }

  /**
   When the wait of the start-up ends there is a verdict, provided that the first probe began to write less than a
   timeout after the wait began; and exactly then, when the wait ends for its length alone.
   */
  lemma FirstResultIsConclusive(c: Config, at: int, began: int, states: seq<State>, steps: seq<Step>, i: nat)
    requires at > 0 && Trace(states, steps) && states[0] == Started(at) && i < |states| && WaitEnds(c, states[i], began)
    ensures states[i].inflightSince != 0 && states[i].inflightSince < began + c.timeout ==>
              StatusOf(c, states[i]) != WarmingUp
    ensures states[i].lastDoneAt == 0 && states[i].now == began + 2 * c.timeout ==>
              (StatusOf(c, states[i]) != WarmingUp
               <==> states[i].inflightSince != 0 && states[i].inflightSince < began + c.timeout)
  {
    FirstProbeTrace(states, steps, i);
  }

  /** The wait can end without a verdict: the first probe has not begun to write when twice the timeout is over. */
  lemma WaitCanEndWarm(c: Config, at: int) returns (states: seq<State>, steps: seq<Step>)
    requires c.timeout > 0 && at > 0
    ensures Trace(states, steps) && states[0] == Started(at)
    ensures WaitEnds(c, states[|states| - 1], at) && StatusOf(c, states[|states| - 1]) == WarmingUp
  {
    steps := [Advance(2 * c.timeout)];
    states := [Started(at), Apply(Started(at), Advance(2 * c.timeout))];
  }

  /** A verdict, once there is one, never turns back into warming up. */
  lemma {:induction false} NeverWarmAgain(c: Config, states: seq<State>, steps: seq<Step>, i: nat, j: nat)
    requires Trace(states, steps) && FirstProbe(states[0]) && i <= j < |states|
    requires StatusOf(c, states[i]) != WarmingUp
    ensures StatusOf(c, states[j]) != WarmingUp
    decreases j
  {
    if i < j {
      NeverWarmAgain(c, states, steps, i, j - 1);
      FirstProbeTrace(states, steps, j - 1);
    }
  }
}
