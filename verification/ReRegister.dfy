/**
 Re-registration of bootstrap/registry.go, one atomic operation at a time: the heartbeat goroutine, the start-up gate that
 waits for readiness, and the loops that either of them may start.
 */
module ReRegister {
  import opened Wrappers

  // ---- The backoff ----

  const Second: int := 1_000_000_000
  const ServerTtl := 5 * Second
  const MaxReRegisterDelay := 60 * Second
  const MaxHeartbeatFailCount := 2
  const MaxExp := 10

  function Pow2(n: nat): (p: nat)
    ensures p >= 1
  {
    if n == 0 then 1 else 2 * Pow2(n - 1)
  }

  /** The delay before a try, after a number of failures. */
  function ReRegisterDelay(count: int, jitter: int): int {
    if count <= 0 then 0
    else if count > MaxExp then MaxReRegisterDelay
    else
      var delay := ServerTtl * Pow2(count - 1) + jitter;
      if delay < 0 || delay > MaxReRegisterDelay then MaxReRegisterDelay else delay
  }

  lemma {:induction false} PowersGrow(m: nat, n: nat)
    requires m <= n
    ensures Pow2(m) <= Pow2(n)
    decreases n
  {
    if m < n {
      PowersGrow(m, n - 1);
    }
  }

  /** The early cut-off changes nothing: the delay is the capped power for every count, however large. */
  lemma DelayExact(count: int, jitter: int)
    requires 0 <= jitter < ServerTtl
    ensures count >= 1 ==> ReRegisterDelay(count, jitter) == Min(ServerTtl * Pow2(count - 1) + jitter, MaxReRegisterDelay)
    ensures ServerTtl == 5_000_000_000 && MaxReRegisterDelay == 60_000_000_000
    ensures count <= 0 <==> ReRegisterDelay(count, jitter) == 0
  {
    if count >= 5 {
      PowersGrow(4, count - 1);
      Sixteen();
    }
  }

  /** Later tries never wait less, whatever the jitter. */
  lemma DelaysGrow(count: int, more: int, jitter: int, other: int)
    requires count < more && 0 <= jitter < ServerTtl && 0 <= other < ServerTtl
    ensures ReRegisterDelay(count, jitter) <= ReRegisterDelay(more, other) <= MaxReRegisterDelay
    ensures count >= 5 ==> ReRegisterDelay(count, jitter) == MaxReRegisterDelay
  {
    DelayExact(count, jitter);
    DelayExact(more, other);
    if count >= 1 {
      PowersGrow(count, more - 1);
      CappedGrows(Pow2(count - 1), Pow2(more - 1), jitter, other);
    }
    if count >= 5 {
      LateDelays(count, jitter);
    }
  }

  /** A doubled delay outweighs any jitter. */
  lemma CappedGrows(p: nat, q: nat, jitter: int, other: int)
    requires 1 <= p && 2 * p <= q && 0 <= jitter < ServerTtl && 0 <= other
    ensures Min(ServerTtl * p + jitter, MaxReRegisterDelay) <= Min(ServerTtl * q + other, MaxReRegisterDelay)
  {
  }

  lemma LateDelays(count: int, jitter: int)
    requires count >= 5 && 0 <= jitter < ServerTtl
    ensures ReRegisterDelay(count, jitter) == MaxReRegisterDelay
  {
    PowersGrow(4, count - 1);
    Sixteen();
  }

  lemma Sixteen()
    ensures Pow2(4) == 16
  {
  }

  // ---- The machine ----

  /** A loop between its start and its clearing of the flag. */
  datatype Loop =
    | AtTop
    | Backoff(delay: int)
    | AtContext
    | Registering
    | Failed
    | FailureCounted
    | Registered
    | BeatsCleared
    | Leaving

  /** The heartbeat goroutine between two answers, or about to trigger. */
  datatype Beat = Quiet | Counted(count: int)

  datatype Gate = Waiting | Recovered | Passed

  datatype State = State(
    reRegistering: int,
    notFoundCount: int,
    reRegisterCount: int,
    registered: bool,        // there are instances to send heartbeats for
    contextStored: bool,
    cancelled: bool,
    loops: seq<Loop>,
    beat: Beat,
    gate: Gate)

  datatype Step =
    | Cancel
    | AnswerOk
    | AnswerNotFound
    | TriggerBeat
    | GateOpens
    | GateCancelled
    | TriggerGate
    | LoadCount(i: nat, jitter: int)
    | BackoffOver(i: nat)
    | BackoffCancelled(i: nat)
    | LoadContext(i: nat)
    | Register(i: nat, ok: bool)
    | CountFailure(i: nat)
    | CheckCancelled(i: nat)
    | ClearBeats(i: nat)
    | ClearFailures(i: nat)
    | Leave(i: nat)

  /** Registered at start-up, or with the registration put off by a node that is not ready. */
  function Init(ready: bool): State {
    State(0, 0, 0, ready, true, false, [], Quiet, if ready then Passed else Waiting)
  }

  predicate At(s: State, i: nat, l: Loop) {
    i < |s.loops| && s.loops[i] == l
  }

  predicate Enabled(s: State, t: Step) {
    match t
    case Cancel => true
    case AnswerOk => s.registered && s.beat.Quiet?
    case AnswerNotFound => s.registered && s.beat.Quiet?
    case TriggerBeat => s.beat.Counted?
    case GateOpens => s.gate.Waiting?
    case GateCancelled => s.gate.Waiting? && s.cancelled
    case TriggerGate => s.gate.Recovered?
    case LoadCount(i, jitter) => At(s, i, AtTop) && 0 <= jitter < ServerTtl
    case BackoffOver(i) => i < |s.loops| && s.loops[i].Backoff?
    case BackoffCancelled(i) => i < |s.loops| && s.loops[i].Backoff? && s.cancelled
    case LoadContext(i) => At(s, i, AtContext)
    case Register(i, _) => At(s, i, Registering)
    case CountFailure(i) => At(s, i, Failed)
    case CheckCancelled(i) => At(s, i, FailureCounted)
    case ClearBeats(i) => At(s, i, Registered)
    case ClearFailures(i) => At(s, i, BeatsCleared)
    case Leave(i) => At(s, i, Leaving)
  }

  function Goto(s: State, i: nat, l: Loop): State
    requires i < |s.loops|
  {
    s.(loops := s.loops[i := l])
  }

  /** The compare-and-swap on the flag, and the loop that a successful one starts. */
  function Trigger(s: State): State {
    if s.reRegistering == 0 then s.(reRegistering := 1, loops := s.loops + [AtTop]) else s
  }

  function Apply(s: State, t: Step): State
    requires Enabled(s, t)
  {
    match t
    case Cancel => s.(cancelled := true)
    case AnswerOk => s.(notFoundCount := 0)
    case AnswerNotFound =>
      var cnt := s.notFoundCount + 1;
      s.(notFoundCount := cnt, beat := if cnt > MaxHeartbeatFailCount then Counted(cnt) else Quiet)
    case TriggerBeat => Trigger(s).(beat := Quiet)
    case GateOpens => s.(gate := Recovered)
    case GateCancelled => s.(gate := Passed)
    case TriggerGate => Trigger(s).(gate := Passed)
    case LoadCount(i, jitter) =>
      var delay := ReRegisterDelay(s.reRegisterCount, jitter);
      Goto(s, i, if delay > 0 then Backoff(delay) else AtContext)
    case BackoffOver(i) => Goto(s, i, AtContext)
    case BackoffCancelled(i) => Goto(s, i, Leaving)
    case LoadContext(i) => Goto(s, i, if s.contextStored then Registering else Leaving)
    case Register(i, ok) => Goto(s, i, if ok then Registered else Failed).(registered := s.registered || ok)
    case CountFailure(i) => Goto(s, i, FailureCounted).(reRegisterCount := s.reRegisterCount + 1)
    case CheckCancelled(i) => Goto(s, i, if s.cancelled then Leaving else AtTop)
    case ClearBeats(i) => Goto(s, i, BeatsCleared).(notFoundCount := 0)
    case ClearFailures(i) => Goto(s, i, Leaving).(reRegisterCount := 0)
    case Leave(i) => s.(reRegistering := 0, loops := s.loops[..i] + s.loops[i + 1..])
  }

  predicate Runs(s: State, steps: seq<Step>)
    decreases |steps|, 0
  {
    steps == [] || (Runs(s, Before(steps)) && Enabled(Exec(s, Before(steps)), Last(steps)))
  }

  function Exec(s: State, steps: seq<Step>): State
    requires Runs(s, steps)
    decreases |steps|, 1
  {
    if steps == [] then s else Apply(Exec(s, Before(steps)), Last(steps))
  }

  function Before(steps: seq<Step>): (r: seq<Step>)
    requires steps != []
    ensures |r| == |steps| - 1
  {
    steps[..|steps| - 1]
  }

  function Last(steps: seq<Step>): Step
    requires steps != []
  {
    steps[|steps| - 1]
  }

  // ---- At most one loop ----

  predicate Inv(s: State) {
    && s.reRegistering == |s.loops| <= 1
    && s.contextStored
    && (s.beat.Counted? ==> s.beat.count > MaxHeartbeatFailCount)
    && (!s.gate.Passed? ==> !s.registered && s.loops == [] && s.beat.Quiet?)
  }

  lemma InvStep(s: State, t: Step)
    requires Inv(s) && Enabled(s, t)
    ensures Inv(Apply(s, t))
  {
  }

  /** The flag is 1 exactly while a loop runs, and there is never a second one. */
  lemma {:induction false} AtMostOneLoop(ready: bool, steps: seq<Step>)
    requires Runs(Init(ready), steps)
    ensures Inv(Exec(Init(ready), steps))
    decreases |steps|
  {
    if steps != [] {
      AtMostOneLoop(ready, Before(steps));
      InvStep(Exec(Init(ready), Before(steps)), Last(steps));
    }
  }

  /** A registration that was put off is not skipped: the gate's trigger always finds the flag free. */
  lemma DeferredRegistrationStarts(ready: bool, steps: seq<Step>)
    requires Runs(Init(ready), steps) && Exec(Init(ready), steps).gate.Recovered?
    ensures Enabled(Exec(Init(ready), steps), TriggerGate)
    ensures Apply(Exec(Init(ready), steps), TriggerGate).loops == [AtTop]
  {
    AtMostOneLoop(ready, steps);
  }

  lemma GateStep(s: State, t: Step)
    requires Inv(s) && Enabled(s, t) && !s.cancelled
    ensures var s' := Apply(s, t);
            && (s'.gate.Passed? <==> s.gate.Passed? || t.TriggerGate?)
            && (s'.gate.Waiting? <==> s.gate.Waiting? && !t.GateOpens?)
  {
  }

  /** Without a cancellation, the gate of a node that is not ready at start-up is through exactly when it has triggered. */
  lemma {:induction false} GateTriggers(steps: seq<Step>)
    requires Runs(Init(false), steps) && Cancel !in steps
    ensures Exec(Init(false), steps).gate.Passed? <==> TriggerGate in steps
    ensures Exec(Init(false), steps).gate.Waiting? <==> GateOpens !in steps
    decreases |steps|
  {
    if steps != [] {
      assert steps == Before(steps) + [Last(steps)];
      GateTriggers(Before(steps));
      AtMostOneLoop(false, Before(steps));
      NotCancelled(false, Before(steps));
      GateStep(Exec(Init(false), Before(steps)), Last(steps));
    }
  }

  // ---- A loop ends only when it has registered, or is cancelled ----

  /** The steps of loops. */
  predicate OfLoop(t: Step) {
    !t.Cancel? && !OfHeartbeat(t) && !t.GateOpens? && !t.GateCancelled? && !t.TriggerGate?
  }

  /** The latest step of a loop was the last one of a completed registration. */
  predicate JustCompleted(steps: seq<Step>)
    decreases |steps|
  {
    steps != [] && if OfLoop(Last(steps)) then Last(steps).ClearFailures? else JustCompleted(Before(steps))
  }

  lemma RegisteredStep(s: State, t: Step)
    requires Enabled(s, t)
    ensures Apply(s, t).registered <==> s.registered || (t.Register? && t.ok)
  {
  }

  /** Heartbeats are sent from the first registration on: at start-up on a node that is ready, else by the first good try. */
  lemma {:induction false} RegisteredExactly(ready: bool, steps: seq<Step>)
    requires Runs(Init(ready), steps)
    ensures Exec(Init(ready), steps).registered <==> ready || exists t :: t in steps && t.Register? && t.ok
    decreases |steps|
  {
    if steps != [] {
      RegisteredExactly(ready, Before(steps));
      RegisteredStep(Exec(Init(ready), Before(steps)), Last(steps));
      assert steps == Before(steps) + [Last(steps)];
    }
  }

  /** The latest try of the run exists and has the given outcome. */
  predicate LatestTry(steps: seq<Step>, ok: bool)
    decreases |steps|
  {
    steps != [] && if Last(steps).Register? then Last(steps).ok == ok else LatestTry(Before(steps), ok)
  }

  /** Where a loop is after a try that went well, and after one that failed. */
  predicate AfterTry(l: Loop, ok: bool) {
    if ok then l.Registered? || l.BeatsCleared? else l.Failed? || l.FailureCounted?
  }

  lemma AfterTryStep(s: State, t: Step, ok: bool)
    requires Inv(s) && Enabled(s, t)
    ensures var s' := Apply(s, t);
            s'.loops != [] && AfterTry(s'.loops[0], ok) ==>
              if t.Register? then t.ok == ok else s.loops != [] && AfterTry(s.loops[0], ok)
  {
  }

  /** The loop goes by the outcome of its latest try. */
  lemma {:induction false} TryDecides(ready: bool, steps: seq<Step>, ok: bool)
    requires Runs(Init(ready), steps)
    ensures var s := Exec(Init(ready), steps); s.loops != [] && AfterTry(s.loops[0], ok) ==> LatestTry(steps, ok)
    decreases |steps|
  {
    if steps != [] {
      AtMostOneLoop(ready, Before(steps));
      AfterTryStep(Exec(Init(ready), Before(steps)), Last(steps), ok);
      TryDecides(ready, Before(steps), ok);
    }
  }

  lemma CancelledOnlyBy(s: State, t: Step)
    requires Enabled(s, t)
    ensures Apply(s, t).cancelled <==> s.cancelled || t.Cancel?
  {
  }

  lemma {:induction false} NotCancelled(ready: bool, steps: seq<Step>)
    requires Runs(Init(ready), steps)
    ensures Exec(Init(ready), steps).cancelled <==> Cancel in steps
    decreases |steps|
  {
    if steps != [] {
      NotCancelled(ready, Before(steps));
      CancelledOnlyBy(Exec(Init(ready), Before(steps)), Last(steps));
      assert steps == Before(steps) + [Last(steps)];
    }
  }

  lemma LeavingStep(s: State, t: Step)
    requires Inv(s) && Enabled(s, t) && !Apply(s, t).cancelled
    ensures var s' := Apply(s, t);
            s'.loops == [Leaving] ==> t.ClearFailures? || (!OfLoop(t) && s.loops == [Leaving])
  {
    var s' := Apply(s, t);
    if s'.loops == [Leaving] {
      assert s'.loops[0] == Leaving;
    }
  }

  /** In every run without a cancellation, a loop that is about to end has just completed a registration. */
  lemma {:induction false} LoopEndsCompleted(ready: bool, steps: seq<Step>)
    requires Runs(Init(ready), steps) && Cancel !in steps
    requires Exec(Init(ready), steps).loops == [Leaving]
    ensures JustCompleted(steps) && LatestTry(steps, true)
    decreases |steps|
  {
    AtMostOneLoop(ready, Before(steps));
    NotCancelled(ready, steps);
    assert forall t :: t in Before(steps) ==> t in steps;
    LeavingStep(Exec(Init(ready), Before(steps)), Last(steps));
    if OfLoop(Last(steps)) {
      TryDecides(ready, Before(steps), true);
    } else {
      LoopEndsCompleted(ready, Before(steps));
    }
  }

  /** The latest counted failure has not been followed by a try. */
  predicate Unretried(steps: seq<Step>)
    decreases |steps|
  {
    steps != [] && (Last(steps).CountFailure? || (!Last(steps).Register? && Unretried(Before(steps))))
  }

  /** How many steps a loop is away from its next try. */
  function StepsToTry(l: Loop): Option<nat> {
    match l
    case FailureCounted => Some(4)
    case AtTop => Some(3)
    case Backoff(_) => Some(2)
    case AtContext => Some(1)
    case Registering => Some(0)
    case _ => None
  }

  lemma TryStep(s: State, t: Step)
    requires Inv(s) && Enabled(s, t) && !s.cancelled
    requires s.loops != [] && StepsToTry(s.loops[0]).Some? && !t.Register?
    ensures var s' := Apply(s, t);
            && s'.loops != [] && StepsToTry(s'.loops[0]).Some?
            && StepsToTry(s'.loops[0]).value <= StepsToTry(s.loops[0]).value
            && (OfLoop(t) ==> StepsToTry(s'.loops[0]).value < StepsToTry(s.loops[0]).value)
  {
  }

  lemma FailureStep(s: State, i: nat)
    requires Inv(s) && Enabled(s, CountFailure(i))
    ensures Apply(s, CountFailure(i)).loops == [FailureCounted]
  {
  }

  /** In every run without a cancellation, a failure that has not been retried has a loop that is on its way to a try. */
  lemma {:induction false} FailureIsRetried(ready: bool, steps: seq<Step>)
    requires Runs(Init(ready), steps) && Cancel !in steps && Unretried(steps)
    ensures var s := Exec(Init(ready), steps); |s.loops| == 1 && StepsToTry(s.loops[0]).Some?
    decreases |steps|
  {
    AtMostOneLoop(ready, Before(steps));
    AtMostOneLoop(ready, steps);
    NotCancelled(ready, Before(steps));
    assert forall t :: t in Before(steps) ==> t in steps;
    var s := Exec(Init(ready), Before(steps));
    if Last(steps).CountFailure? {
      FailureStep(s, Last(steps).i);
    } else {
      FailureIsRetried(ready, Before(steps));
      TryStep(s, Last(steps));
    }
  }

  /**
   And that try comes: the loop can take its next step, and every step it takes brings the try nearer, whatever heartbeats
   and the gate do in between.
   */
  lemma TryComesNearer(ready: bool, steps: seq<Step>, t: Step)
    requires Runs(Init(ready), steps) && Cancel !in steps && Unretried(steps)
    ensures var s := Exec(Init(ready), steps);
            |s.loops| == 1 && StepsToTry(s.loops[0]).Some? && exists u :: OfLoop(u) && Enabled(s, u)
    ensures var s := Exec(Init(ready), steps);
            Enabled(s, t) && OfLoop(t) && !t.Register? ==>
              && Apply(s, t).loops != [] && StepsToTry(Apply(s, t).loops[0]).Some?
              && StepsToTry(Apply(s, t).loops[0]).value < StepsToTry(s.loops[0]).value
  {
    FailureIsRetried(ready, steps);
    AtMostOneLoop(ready, steps);
    NotCancelled(ready, steps);
    var s := Exec(Init(ready), steps);
    var u := match s.loops[0]
      case FailureCounted => CheckCancelled(0)
      case AtTop => LoadCount(0, 0)
      case Backoff(_) => BackoffOver(0)
      case AtContext => LoadContext(0)
      case _ => Register(0, true);
    assert OfLoop(u) && Enabled(s, u);
    if Enabled(s, t) && OfLoop(t) && !t.Register? {
      TryStep(s, t);
    }
  }

  // ---- What the counters count ----

  predicate ResetsBeats(t: Step) {
    t.AnswerOk? || t.ClearBeats?
  }

  /** NOT_FOUND answers since the latest good answer or completed re-registration. */
  function NotFoundAnswers(steps: seq<Step>): nat
    decreases |steps|
  {
    if steps == [] || ResetsBeats(Last(steps)) then 0
    else NotFoundAnswers(Before(steps)) + if Last(steps).AnswerNotFound? then 1 else 0
  }

  /** Failed registrations since the latest completed one. */
  function Failures(steps: seq<Step>): nat
    decreases |steps|
  {
    if steps == [] || Last(steps).ClearFailures? then 0
    else Failures(Before(steps)) + if Last(steps).CountFailure? then 1 else 0
  }

  /** Tries that failed since the latest completed registration. */
  function FailedTries(steps: seq<Step>): nat
    decreases |steps|
  {
    if steps == [] || Last(steps).ClearFailures? then 0
    else FailedTries(Before(steps)) + if Last(steps).Register? && !Last(steps).ok then 1 else 0
  }

  lemma FailedStep(s: State, t: Step)
    requires Inv(s) && Enabled(s, t)
    ensures s.loops == [Failed] ==> t.CountFailure? || !OfLoop(t)
    ensures Apply(s, t).loops == [Failed] <==> (t.Register? && !t.ok) || (s.loops == [Failed] && !OfLoop(t))
    ensures t.CountFailure? ==> s.loops == [Failed]
  {
    var s' := Apply(s, t);
    if s'.loops == [Failed] {
      assert s'.loops[0] == Failed;
    }
  }

  /** Every failed try is counted, and nothing else is. */
  lemma {:induction false} TriesCounted(ready: bool, steps: seq<Step>)
    requires Runs(Init(ready), steps)
    ensures FailedTries(steps) == Failures(steps) + if Exec(Init(ready), steps).loops == [Failed] then 1 else 0
    decreases |steps|
  {
    if steps != [] {
      AtMostOneLoop(ready, Before(steps));
      FailedStep(Exec(Init(ready), Before(steps)), Last(steps));
      TriesCounted(ready, Before(steps));
    }
  }

  lemma CountersStep(s: State, t: Step)
    requires Enabled(s, t)
    ensures var asked := if t.AnswerNotFound? then 1 else 0;
            Apply(s, t).notFoundCount == if ResetsBeats(t) then 0 else s.notFoundCount + asked
    ensures var failed := if t.CountFailure? then 1 else 0;
            Apply(s, t).reRegisterCount == if t.ClearFailures? then 0 else s.reRegisterCount + failed
  {
  }

  /** The two counters count exactly this. */
  lemma {:induction false} CountersExact(ready: bool, steps: seq<Step>)
    requires Runs(Init(ready), steps)
    ensures Exec(Init(ready), steps).notFoundCount == NotFoundAnswers(steps)
    ensures Exec(Init(ready), steps).reRegisterCount == Failures(steps)
    decreases |steps|
  {
    if steps != [] {
      CountersExact(ready, Before(steps));
      CountersStep(Exec(Init(ready), Before(steps)), Last(steps));
    }
  }

  /** What a loop does before its next try, after f failed ones. */
  predicate WaitsAsDue(l: Loop, f: nat, jitter: int) {
    l == if f == 0 then AtContext else Backoff(Min(ServerTtl * Pow2(f - 1) + jitter, MaxReRegisterDelay))
  }

  /** Every try waits exactly as long as its predecessors' failures make due; the first after a success does not wait. */
  lemma BackoffAsDue(ready: bool, steps: seq<Step>, i: nat, jitter: int)
    requires Runs(Init(ready), steps) && Enabled(Exec(Init(ready), steps), LoadCount(i, jitter))
    ensures WaitsAsDue(Apply(Exec(Init(ready), steps), LoadCount(i, jitter)).loops[i], FailedTries(steps), jitter)
  {
    AllTriesCounted(ready, steps, i);
    LoadStep(Exec(Init(ready), steps), i, jitter);
  }

  /** When a loop loads its counter, every failed try is in it. */
  lemma AllTriesCounted(ready: bool, steps: seq<Step>, i: nat)
    requires Runs(Init(ready), steps) && At(Exec(Init(ready), steps), i, AtTop)
    ensures Exec(Init(ready), steps).reRegisterCount == FailedTries(steps)
  {
    CountersExact(ready, steps);
    AtMostOneLoop(ready, steps);
    TriesCounted(ready, steps);
  }

  lemma LoadStep(s: State, i: nat, jitter: int)
    requires Enabled(s, LoadCount(i, jitter)) && s.reRegisterCount >= 0
    ensures WaitsAsDue(Apply(s, LoadCount(i, jitter)).loops[i], s.reRegisterCount, jitter)
  {
    DelayExact(s.reRegisterCount, jitter);
  }

  // ---- What a heartbeat needs to start a loop ----

  predicate OfHeartbeat(t: Step) {
    t.AnswerOk? || t.AnswerNotFound? || t.TriggerBeat?
  }

  /** The latest step of the heartbeat goroutine. */
  predicate LatestBeat(steps: seq<Step>, j: nat) {
    j < |steps| && OfHeartbeat(steps[j]) && forall k :: j < k < |steps| ==> !OfHeartbeat(steps[k])
  }

  predicate CompletedSince(steps: seq<Step>, j: nat) {
    exists k :: j < k < |steps| && steps[k].ClearBeats?
  }

  lemma BeatStep(s: State, t: Step)
    requires Enabled(s, t) && Apply(s, t).beat.Counted?
    ensures if t.AnswerNotFound? then Apply(s, t).notFoundCount >= 3 else s.beat.Counted? && !OfHeartbeat(t)
  {
  }

  lemma StaysLatest(steps: seq<Step>, t: Step, j: nat)
    requires LatestBeat(steps, j) && !OfHeartbeat(t)
    ensures LatestBeat(steps + [t], j) && (steps + [t])[j] == steps[j] && (steps + [t])[..j + 1] == steps[..j + 1]
  {
  }

  lemma {:induction false} CountedAtLeastThree(ready: bool, steps: seq<Step>)
    requires Runs(Init(ready), steps) && steps != [] && Last(steps).AnswerNotFound?
    requires Exec(Init(ready), steps).beat.Counted?
    ensures NotFoundAnswers(steps[..|steps|]) >= 3 && LatestBeat(steps, |steps| - 1)
  {
    assert steps[..|steps|] == steps;
    CountersExact(ready, steps);
    BeatStep(Exec(Init(ready), Before(steps)), Last(steps));
  }

  /** A loop that a heartbeat is about to start was asked for by the third or a later NOT_FOUND since the latest reset. */
  lemma {:induction false} TriggerFollowsThree(ready: bool, steps: seq<Step>) returns (j: nat)
    requires Runs(Init(ready), steps) && Exec(Init(ready), steps).beat.Counted?
    ensures LatestBeat(steps, j) && steps[j].AnswerNotFound? && NotFoundAnswers(steps[..j + 1]) >= 3
    decreases |steps|
  {
    BeatStep(Exec(Init(ready), Before(steps)), Last(steps));
    if Last(steps).AnswerNotFound? {
      j := |steps| - 1;
      CountedAtLeastThree(ready, steps);
    } else {
      j := TriggerFollowsThree(ready, Before(steps));
      StaysLatest(Before(steps), Last(steps), j);
      assert Before(steps) + [Last(steps)] == steps;
    }
  }

  /**
   By the time the loop starts, those answers may be settled: then and only then a re-registration was completed
   between the answer and the start.
   */
  lemma SettledExactlyIfCompleted(ready: bool, steps: seq<Step>, j: nat)
    requires Runs(Init(ready), steps) && Exec(Init(ready), steps).beat.Counted?
    requires LatestBeat(steps, j) && steps[j].AnswerNotFound? && NotFoundAnswers(steps[..j + 1]) >= 3
    ensures NotFoundAnswers(steps) >= 3 <==> !CompletedSince(steps, j)
    ensures NotFoundAnswers(steps) == 0 <==> CompletedSince(steps, j)
  {
    SinceAnswer(steps, j, |steps|);
    assert steps[..|steps|] == steps;
  }

  /** Such a run: the fourth answer comes in during a loop, and its trigger after that loop has ended well. */
  lemma SettledTrigger() returns (steps: seq<Step>)
    ensures Runs(Init(true), steps) && Enabled(Exec(Init(true), steps), TriggerBeat)
    ensures NotFoundAnswers(steps) == 0
    ensures Exec(Init(true), steps).loops == [] && Apply(Exec(Init(true), steps), TriggerBeat).loops == [AtTop]
  {
    steps := AnswerDuringLoop();
    steps := Then(steps, ClearBeats(0));
    steps := Then(steps, ClearFailures(0));
    steps := Then(steps, Leave(0));
  }

  lemma ThreeAnswers() returns (steps: seq<Step>)
    ensures Runs(Init(true), steps)
    ensures Exec(Init(true), steps) == Init(true).(reRegistering := 1, notFoundCount := 3, loops := [AtTop])
  {
    steps := [];
    steps := Then(steps, AnswerNotFound);
    steps := Then(steps, AnswerNotFound);
    steps := Then(steps, AnswerNotFound);
    steps := Then(steps, TriggerBeat);
  }

  lemma AnswerDuringLoop() returns (steps: seq<Step>)
    ensures Runs(Init(true), steps)
    ensures Exec(Init(true), steps)
         == Init(true).(reRegistering := 1, notFoundCount := 4, beat := Counted(4), loops := [Registered])
  {
    steps := ThreeAnswers();
    steps := Then(steps, LoadCount(0, 0));
    steps := Then(steps, LoadContext(0));
    steps := Then(steps, Register(0, true));
    steps := Then(steps, AnswerNotFound);
  }

  lemma Then(steps: seq<Step>, t: Step) returns (longer: seq<Step>)
    requires Runs(Init(true), steps) && Enabled(Exec(Init(true), steps), t)
    ensures Runs(Init(true), longer) && Exec(Init(true), longer) == Apply(Exec(Init(true), steps), t)
    ensures NotFoundAnswers(longer) ==
            if ResetsBeats(t) then 0 else NotFoundAnswers(steps) + if t.AnswerNotFound? then 1 else 0
  {
    longer := steps + [t];
    assert Before(longer) == steps;
  }

  lemma {:induction false} SinceAnswer(steps: seq<Step>, j: nat, n: nat)
    requires LatestBeat(steps, j) && j < n <= |steps|
    ensures NotFoundAnswers(steps[..n]) == if CompletedSince(steps[..n], j) then 0 else NotFoundAnswers(steps[..j + 1])
    decreases n
  {
    if n > j + 1 {
      SinceAnswer(steps, j, n - 1);
      assert Before(steps[..n]) == steps[..n - 1];
      assert CompletedSince(steps[..n], j) <==> CompletedSince(steps[..n - 1], j) || steps[n - 1].ClearBeats? by {
        CompletedAppend(steps[..n - 1], steps[n - 1], j);
        assert steps[..n - 1] + [steps[n - 1]] == steps[..n];
      }
    }
  }

  lemma CompletedAppend(steps: seq<Step>, t: Step, j: nat)
    requires j < |steps|
    ensures CompletedSince(steps + [t], j) <==> CompletedSince(steps, j) || t.ClearBeats?
  {
    var all := steps + [t];
    assert all[|steps|] == t;
    if CompletedSince(steps, j) {
      var k :| j < k < |steps| && steps[k].ClearBeats?;
      assert all[k].ClearBeats?;
    }
  }
}
