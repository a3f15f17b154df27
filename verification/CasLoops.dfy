/**
 The lock-free maximum of ratelimitv2/client.go (push timestamps), plugin/statis_api_obj_srv.go (maximum latency) and
 plugin/statis/prometheus/statis.go (maximum processing time), one atomic load or compare-and-swap at a time. The
 flusher may take the value out at any moment, by a swap or by reading and then resetting what it read.
 */
module CasLoops {

  /** An update: about to load, holding what it loaded, or over (accepted or not). */
  datatype Update = Loading(value: int) | Loaded(value: int, seen: int) | Over(value: int, accepted: bool)

  datatype Peek = NotPeeked | Peeked(value: int)

  datatype State = State(
    register: int,
    updates: seq<Update>,
    accepted: seq<int>,     // values whose compare-and-swap succeeded, in that order
    exported: seq<int>,     // values the flusher has taken for its report
    cuts: seq<nat>,         // how many values had been accepted at each take-out
    peek: Peek)

  datatype Step = Submit(value: int) | Load(i: nat) | Cas(i: nat) | SwapOut | PeekOut | ResetPeeked

  function Init(start: int): State {
    State(start, [], [], [], [], NotPeeked)
  }

  predicate Enabled(s: State, t: Step) {
    match t
    case Submit(_) => true
    case Load(i) => i < |s.updates| && s.updates[i].Loading?
    case Cas(i) => i < |s.updates| && s.updates[i].Loaded?
    case SwapOut => s.peek.NotPeeked?
    case PeekOut => s.peek.NotPeeked?
    case ResetPeeked => s.peek.Peeked?
  }

  function Set(s: State, i: nat, u: Update): State
    requires i < |s.updates|
  {
    s.(updates := s.updates[i := u])
  }

  function Apply(s: State, t: Step): State
    requires Enabled(s, t)
  {
    match t
    case Submit(v) => s.(updates := s.updates + [Loading(v)])
    case Load(i) =>
      var v := s.updates[i].value;
      Set(s, i, if s.register >= v then Over(v, false) else Loaded(v, s.register))
    case Cas(i) =>
      var v := s.updates[i].value;
      if s.register == s.updates[i].seen
      then Set(s, i, Over(v, true)).(register := v, accepted := s.accepted + [v])
      else Set(s, i, Loading(v))
    case SwapOut => s.(register := 0, exported := s.exported + [s.register], cuts := s.cuts + [|s.accepted|])
    case PeekOut =>
      s.(exported := s.exported + [s.register], cuts := s.cuts + [|s.accepted|], peek := Peeked(s.register))
    case ResetPeeked => s.(register := if s.register == s.peek.value then 0 else s.register, peek := NotPeeked)
  }

  predicate Runs(s: State, steps: seq<Step>)
    decreases |steps|
  {
    steps == [] || (Enabled(s, steps[0]) && Runs(Apply(s, steps[0]), steps[1..]))
  }

  function Exec(s: State, steps: seq<Step>): State
    requires Runs(s, steps)
    decreases |steps|
  {
    if steps == [] then s else Exec(Apply(s, steps[0]), steps[1..])
  }

  /** A push timestamp is never taken out again. */
  predicate Takes(t: Step) {
    t.SwapOut? || t.PeekOut? || t.ResetPeeked?
  }

  // ---- Push timestamps: accepted in strictly increasing order ----

  predicate Increasing(a: seq<int>, start: int) {
    && (a != [] ==> start < a[0])
    && forall i, j :: 0 <= i < j < |a| ==> a[i] < a[j]
  }

  /** Without take-outs the register is the latest accepted value, and the greatest so far. */
  ghost predicate Growing(s: State, start: int) {
    && Increasing(s.accepted, start)
    && s.register == (if s.accepted == [] then start else s.accepted[|s.accepted| - 1])
    && (forall i :: 0 <= i < |s.updates| ==> Placed(s, s.updates[i]))
  }

  /** A refused value is not above the register, an accepted one is in the log, and a loaded one was above what it saw. */
  ghost predicate Placed(s: State, u: Update) {
    match u
    case Loading(_) => true
    case Loaded(v, seen) => seen < v && seen <= s.register
    case Over(v, accepted) => v <= s.register && (accepted ==> v in s.accepted)
  }

  lemma GrowingStep(s: State, t: Step, start: int)
    requires Growing(s, start) && Enabled(s, t) && !Takes(t)
    ensures Growing(Apply(s, t), start) && s.accepted <= Apply(s, t).accepted
  {
    var s' := Apply(s, t);
    if t.Cas? && s.register == s.updates[t.i].seen {
      assert Placed(s, s.updates[t.i]);
      assert s'.accepted[|s.accepted|] == s'.register;
    }
    forall i | 0 <= i < |s'.updates| ensures Placed(s', s'.updates[i]) {
      assert i < |s.updates| ==> Placed(s, s.updates[i]);
    }
  }

  /** In every run the accepted push timestamps strictly increase, and a refused one was overtaken by one as late. */
  lemma {:induction false} AcceptedIncrease(s: State, steps: seq<Step>, start: int)
    requires Growing(s, start) && Runs(s, steps) && forall i :: 0 <= i < |steps| ==> !Takes(steps[i])
    ensures Growing(Exec(s, steps), start) && s.accepted <= Exec(s, steps).accepted
    decreases |steps|
  {
    if steps != [] {
      GrowingStep(s, steps[0], start);
      AcceptedIncrease(Apply(s, steps[0]), steps[1..], start);
    }
  }

  // ---- The maximum: never lost, never invented ----

  ghost predicate Submitted(s: State, v: int) {
    exists i :: 0 <= i < |s.updates| && s.updates[i].value == v
  }

  /** v is a value that somebody can still read or has been reported. */
  ghost predicate Shown(s: State, v: int) {
    v == s.register || v in s.exported
  }

  ghost predicate Covered(s: State, v: int) {
    v <= s.register || exists i :: 0 <= i < |s.exported| && v <= s.exported[i]
  }

  ghost predicate MaxInv(s: State, start: int) {
    && (forall i :: 0 <= i < |s.updates| && s.updates[i].Over? ==> Covered(s, s.updates[i].value))
    && (forall v :: Shown(s, v) ==> v == start || v == 0 || Submitted(s, v))
    && Covered(s, start)
    && (s.peek.Peeked? ==> s.peek.value in s.exported)
    && (forall i :: 0 <= i < |s.updates| && s.updates[i].Loaded? ==> s.updates[i].seen < s.updates[i].value)
  }

  /** No step uncovers a value. */
  lemma StaysCovered(s: State, t: Step, v: int)
    requires Enabled(s, t) && Covered(s, v)
    requires t.Cas? && s.updates[t.i].seen == s.register ==> s.register < s.updates[t.i].value
    requires s.peek.Peeked? ==> s.peek.value in s.exported
    ensures Covered(Apply(s, t), v)
  {
    var s' := Apply(s, t);
    if v <= s.register {
      if t.SwapOut? || t.PeekOut? {
        assert s'.exported[|s.exported|] == s.register;
      } else if t.ResetPeeked? && s.register == s.peek.value {
        var i :| 0 <= i < |s.exported| && s.exported[i] == s.peek.value;
      }
    } else {
      var i :| 0 <= i < |s.exported| && v <= s.exported[i];
      assert s'.exported[i] == s.exported[i];
    }
  }

  lemma StaysSubmitted(s: State, t: Step, v: int)
    requires Enabled(s, t) && Submitted(s, v)
    ensures Submitted(Apply(s, t), v)
  {
    var i :| 0 <= i < |s.updates| && s.updates[i].value == v;
    assert Apply(s, t).updates[i].value == v;
  }

  lemma MaxStep(s: State, t: Step, start: int)
    requires MaxInv(s, start) && Enabled(s, t)
    ensures MaxInv(Apply(s, t), start)
  {
    var s' := Apply(s, t);
    StaysCovered(s, t, start);
    forall i | 0 <= i < |s'.updates| && s'.updates[i].Over? ensures Covered(s', s'.updates[i].value) {
      if s.updates[i].Over? {
        StaysCovered(s, t, s.updates[i].value);
      }
    }
    forall v | Shown(s', v) ensures v == start || v == 0 || Submitted(s', v) {
      if Shown(s, v) {
        if v != start && v != 0 {
          StaysSubmitted(s, t, v);
        }
      } else if t.Cas? {
        assert s'.updates[t.i].value == v;
      }
    }
  }

  lemma {:induction false} MaxRun(s: State, steps: seq<Step>, start: int)
    requires MaxInv(s, start) && Runs(s, steps)
    ensures MaxInv(Exec(s, steps), start)
    decreases |steps|
  {
    if steps != [] {
      MaxStep(s, steps[0], start);
      MaxRun(Apply(s, steps[0]), steps[1..], start);
    }
  }

  /** The greatest of a start value and what was submitted. */
  ghost predicate IsGreatest(s: State, start: int, m: int) {
    (m == start || Submitted(s, m)) && start <= m && forall v :: Submitted(s, v) ==> v <= m
  }

  /**
   Once every update is over, the greatest value among the register and all reports is exactly the greatest ever
   submitted, wherever the flusher took values out in between.
   */
  lemma MaximumExact(steps: seq<Step>, m: int)
    requires Runs(Init(0), steps)
    requires forall i :: 0 <= i < |Exec(Init(0), steps).updates| ==> Exec(Init(0), steps).updates[i].Over?
    requires IsGreatest(Exec(Init(0), steps), 0, m)
    ensures Shown(Exec(Init(0), steps), m) && forall v :: Shown(Exec(Init(0), steps), v) ==> v <= m
  {
    MaxRun(Init(0), steps, 0);
    var s := Exec(Init(0), steps);
    if m != 0 {
      var i :| 0 <= i < |s.updates| && s.updates[i].value == m;
    }
    assert Covered(s, m);
    if m <= s.register {
      assert Shown(s, s.register);
    } else {
      var i :| 0 <= i < |s.exported| && m <= s.exported[i];
      assert Shown(s, s.exported[i]);
    }
  }

  /** Without take-outs the register itself ends at the maximum, from whatever value it started. */
  lemma RegisterEndsAtMaximum(start: int, steps: seq<Step>)
    requires Runs(Init(start), steps) && forall i :: 0 <= i < |steps| ==> !Takes(steps[i])
    requires forall i :: 0 <= i < |Exec(Init(start), steps).updates| ==> Exec(Init(start), steps).updates[i].Over?
    ensures IsGreatest(Exec(Init(start), steps), start, Exec(Init(start), steps).register)
  {
    AcceptedIncrease(Init(start), steps, start);
    var s := Exec(Init(start), steps);
    AcceptedWereSubmitted(Init(start), steps);
    forall v | Submitted(s, v) ensures v <= s.register {
      var i :| 0 <= i < |s.updates| && s.updates[i].value == v;
      assert Placed(s, s.updates[i]);
    }
    if s.accepted != [] {
      assert s.accepted[|s.accepted| - 1] in s.accepted;
    }
  }

  lemma {:induction false} AcceptedWereSubmitted(s: State, steps: seq<Step>)
    requires Runs(s, steps) && forall v :: v in s.accepted ==> Submitted(s, v)
    ensures forall v :: v in Exec(s, steps).accepted ==> Submitted(Exec(s, steps), v)
    decreases |steps|
  {
    if steps != [] {
      var s' := Apply(s, steps[0]);
      forall v | v in s'.accepted ensures Submitted(s', v) {
        if v in s.accepted {
          StaysSubmitted(s, steps[0], v);
        } else {
          assert s'.updates[steps[0].i].value == v;
        }
      }
      AcceptedWereSubmitted(s', steps[1..]);
    }
  }

  // ---- Periods: what is reported was accepted since the report before ----

  /** Where the period of report j begins in the log of accepted values; that of the next report if j is |cuts|. */
  function Begin(cuts: seq<nat>, j: nat): nat
    requires j <= |cuts|
  {
    if j == 0 then 0 else cuts[j - 1]
  }

  /** The latest of the accepted values from one place to another, and without any a given value. */
  function LatestOf(accepted: seq<int>, from: nat, upto: nat, none: int): int
    requires from <= upto <= |accepted|
  {
    if from == upto then none else accepted[upto - 1]
  }

  /** Accepted values are positive and strictly increase from one place to another, above a floor. */
  ghost predicate Climbs(accepted: seq<int>, from: nat, upto: nat, floor: int)
    requires from <= upto <= |accepted|
  {
    && (forall i :: from <= i < upto ==> floor < accepted[i])
    && (forall i, j :: from <= i < j < upto ==> accepted[i] < accepted[j])
  }

  /** Report j is the last and greatest of the values accepted since report j - 1, and 0 if there were none. */
  ghost predicate PeriodOk(s: State, j: nat)
    requires j < |s.exported| == |s.cuts|
  {
    var from, upto := Begin(s.cuts, j), s.cuts[j];
    && from <= upto <= |s.accepted|
    && Climbs(s.accepted, from, upto, 0)
    && s.exported[j] == LatestOf(s.accepted, from, upto, 0)
  }

  /** The register holds the latest value of the running period; without one it is empty, or still holds what was read. */
  ghost predicate PeriodInv(s: State) {
    && |s.exported| == |s.cuts|
    && (forall j :: 0 <= j < |s.cuts| ==> PeriodOk(s, j))
    && var from := Begin(s.cuts, |s.cuts|);
    && var held := if s.peek.Peeked? then s.peek.value else 0;
    && from <= |s.accepted| && held >= 0
    && Climbs(s.accepted, from, |s.accepted|, held)
    && s.register == LatestOf(s.accepted, from, |s.accepted|, held)
    && (forall i :: 0 <= i < |s.updates| && s.updates[i].Loaded? ==> s.updates[i].seen < s.updates[i].value)
  }

  lemma PeriodStep(s: State, t: Step)
    requires PeriodInv(s) && Enabled(s, t)
    ensures PeriodInv(Apply(s, t))
  {
    var s' := Apply(s, t);
    forall j | 0 <= j < |s'.cuts| ensures PeriodOk(s', j) {
      if j < |s.cuts| {
        assert PeriodOk(s, j);
        assert Begin(s'.cuts, j) == Begin(s.cuts, j);
      }
    }
  }

  lemma {:induction false} PeriodRun(s: State, steps: seq<Step>)
    requires PeriodInv(s) && Runs(s, steps)
    ensures PeriodInv(Exec(s, steps))
    decreases |steps|
  {
    if steps != [] {
      PeriodStep(s, steps[0]);
      PeriodRun(Apply(s, steps[0]), steps[1..]);
    }
  }

  /**
   Over every run, each report is the last and greatest value accepted since the report before it, and 0 if none was: a
   take-out empties the register, and what comes in between a reading and its reset counts for the next report.
   */
  lemma ReportsAreOfTheirPeriod(steps: seq<Step>, j: nat)
    requires Runs(Init(0), steps) && j < |Exec(Init(0), steps).exported|
    ensures |Exec(Init(0), steps).exported| == |Exec(Init(0), steps).cuts|
    ensures PeriodOk(Exec(Init(0), steps), j)
  {
    PeriodRun(Init(0), steps);
  }

  ghost predicate AllOver(s: State) {
    forall i :: 0 <= i < |s.updates| ==> s.updates[i].Over?
  }

  /** m is the greatest of a start value and the values submitted from update n on. */
  ghost predicate GreatestSince(s: State, n: nat, start: int, m: int) {
    && (m == start || exists i :: n <= i < |s.updates| && s.updates[i].value == m)
    && start <= m && forall i :: n <= i < |s.updates| ==> s.updates[i].value <= m
  }

  /** During a period without take-outs: old updates stay over, and the register climbs with the new ones. */
  ghost predicate Period(s: State, n: nat, start: int) {
    && n <= |s.updates| && start <= s.register
    && (forall i :: 0 <= i < n ==> s.updates[i].Over?)
    && (forall i :: n <= i < |s.updates| ==> match s.updates[i]
          case Loading(_) => true
          case Loaded(v, seen) => seen < v
          case Over(v, _) => v <= s.register)
    && (s.register == start || exists i :: n <= i < |s.updates| && s.updates[i].value == s.register)
  }

  lemma PeriodGoesOn(s: State, t: Step, n: nat, start: int)
    requires Period(s, n, start) && Enabled(s, t) && !Takes(t)
    ensures Period(Apply(s, t), n, start)
  {
    var s' := Apply(s, t);
    if s.register != start {
      var i :| n <= i < |s.updates| && s.updates[i].value == s.register;
      assert s'.updates[i].value == s.register;
    }
    if t.Cas? {
      assert s'.updates[t.i].value == s.updates[t.i].value;
    }
  }

  lemma {:induction false} PeriodEnds(s: State, steps: seq<Step>, n: nat, start: int)
    requires Period(s, n, start) && Runs(s, steps) && forall i :: 0 <= i < |steps| ==> !Takes(steps[i])
    ensures Period(Exec(s, steps), n, start)
    ensures AllOver(Exec(s, steps)) ==> GreatestSince(Exec(s, steps), n, start, Exec(s, steps).register)
    decreases |steps|
  {
    if steps != [] {
      PeriodGoesOn(s, steps[0], n, start);
      PeriodEnds(Apply(s, steps[0]), steps[1..], n, start);
    }
  }

  /**
   From a swap to the next take-out: if all updates are over at both, what is reported is the greatest value submitted in
   between, and 0 if that is greater.
   */
  lemma SwapPeriod(s: State, steps: seq<Step>)
    requires AllOver(s) && Enabled(s, SwapOut) && Runs(Apply(s, SwapOut), steps)
    requires forall i :: 0 <= i < |steps| ==> !Takes(steps[i])
    requires AllOver(Exec(Apply(s, SwapOut), steps))
    ensures var s' := Exec(Apply(s, SwapOut), steps); GreatestSince(s', |s.updates|, 0, s'.register)
  {
    PeriodEnds(Apply(s, SwapOut), steps, |s.updates|, 0);
  }

  /** After a reading of r and its reset: updates from place k on have joined since, those from n on after the reading. */
  ghost predicate AfterReset(s: State, n: nat, k: nat, r: int) {
    && n <= k <= |s.updates| && 0 <= s.register
    && (forall i :: 0 <= i < n ==> s.updates[i].Over?)
    && (forall i :: n <= i < |s.updates| ==> match s.updates[i]
          case Loading(_) => true
          case Loaded(v, seen) => seen < v
          case Over(v, _) => v <= s.register || (i < k && v <= r))
    && (s.register == 0 || exists i :: n <= i < |s.updates| && s.updates[i].value == s.register)
  }

  lemma AfterResetGoesOn(s: State, t: Step, n: nat, k: nat, r: int)
    requires AfterReset(s, n, k, r) && Enabled(s, t) && !Takes(t)
    ensures AfterReset(Apply(s, t), n, k, r)
  {
    var s' := Apply(s, t);
    if s.register != 0 {
      var i :| n <= i < |s.updates| && s.updates[i].value == s.register;
      assert s'.updates[i].value == s.register;
    }
    if t.Cas? {
      assert s'.updates[t.i].value == s.updates[t.i].value;
    }
  }

  lemma {:induction false} AfterResetEnds(s: State, steps: seq<Step>, n: nat, k: nat, r: int)
    requires AfterReset(s, n, k, r) && Runs(s, steps) && forall i :: 0 <= i < |steps| ==> !Takes(steps[i])
    ensures AfterReset(Exec(s, steps), n, k, r)
    decreases |steps|
  {
    if steps != [] {
      AfterResetGoesOn(s, steps[0], n, k, r);
      AfterResetEnds(Apply(s, steps[0]), steps[1..], n, k, r);
    }
  }

  lemma {:induction false} PeekStays(s: State, steps: seq<Step>)
    requires Runs(s, steps) && forall i :: 0 <= i < |steps| ==> !Takes(steps[i])
    ensures Exec(s, steps).peek == s.peek && Exec(s, steps).exported == s.exported
    decreases |steps|
  {
    if steps != [] {
      PeekStays(Apply(s, steps[0]), steps[1..]);
    }
  }

  /**
   From a reading to the next take-out, with the reset in between: if all updates are over at both, what is reported is 0
   or was submitted since the reading, and covers everything submitted after the reset. A value submitted between the
   reading and the reset is covered by it, unless it does not exceed what was read.
   */
  lemma PeekPeriod(s: State, during: seq<Step>, after: seq<Step>)
    requires AllOver(s) && s.register >= 0 && Enabled(s, PeekOut) && Runs(Apply(s, PeekOut), during)
    requires forall i :: 0 <= i < |during| ==> !Takes(during[i])
    requires Enabled(Exec(Apply(s, PeekOut), during), ResetPeeked)
    requires Runs(Apply(Exec(Apply(s, PeekOut), during), ResetPeeked), after)
    requires forall i :: 0 <= i < |after| ==> !Takes(after[i])
    requires AllOver(Exec(Apply(Exec(Apply(s, PeekOut), during), ResetPeeked), after))
    ensures var reset := Apply(Exec(Apply(s, PeekOut), during), ResetPeeked);
            var s' := Exec(reset, after);
            && (s'.register == 0 || exists i :: |s.updates| <= i < |s'.updates| && s'.updates[i].value == s'.register)
            && (forall i :: |reset.updates| <= i < |s'.updates| ==> s'.updates[i].value <= s'.register)
            && (forall i :: |s.updates| <= i < |s'.updates| && s'.updates[i].value > s.register ==>
                  s'.updates[i].value <= s'.register)
  {
    var n, r := |s.updates|, s.register;
    PeekStays(Apply(s, PeekOut), during);
    PeriodEnds(Apply(s, PeekOut), during, n, r);
    var reset := Apply(Exec(Apply(s, PeekOut), during), ResetPeeked);
    AfterResetEnds(reset, after, n, |reset.updates|, r);
    UpdatesStay(reset, after);
  }

  // ---- Progress ----

  function Open(us: seq<Update>): (n: nat) {
    if us == [] then 0 else (if us[0].Over? then 0 else 1) + Open(us[1..])
  }

  /** An update that holds an outdated value has to fail and load again. */
  function Weight(u: Update, register: int): nat {
    match u
    case Loading(_) => 1
    case Loaded(_, seen) => if seen == register then 0 else 2
    case Over(_, _) => 0
  }

  function Weights(us: seq<Update>, register: int): (n: nat)
    ensures n <= 2 * Open(us)
  {
    if us == [] then 0 else Weight(us[0], register) + Weights(us[1..], register)
  }

  lemma {:induction false} SetOpen(us: seq<Update>, i: nat, u: Update, register: int)
    requires i < |us|
    ensures Open(us[i := u]) + (if us[i].Over? then 0 else 1) == Open(us) + (if u.Over? then 0 else 1)
    ensures Weights(us[i := u], register) + Weight(us[i], register) == Weights(us, register) + Weight(u, register)
  {
    if i > 0 {
      SetOpen(us[1..], i - 1, u, register);
      assert us[i := u][1..] == us[1..][i - 1 := u];
    } else {
      assert us[i := u][1..] == us[1..];
    }
  }

  /** How many more loads and swaps the open updates can need. */
  function Work(s: State): nat {
    Open(s.updates) * Open(s.updates) + Weights(s.updates, s.register)
  }

  /** Every load and every swap brings the open updates nearer to their end, a failed swap too. */
  lemma WorkShrinks(s: State, t: Step)
    requires Enabled(s, t) && (t.Load? || t.Cas?)
    ensures Work(Apply(s, t)) < Work(s)
  {
    var s' := Apply(s, t);
    SetOpen(s.updates, t.i, s'.updates[t.i], s.register);
    SetOpen(s.updates, t.i, s'.updates[t.i], s'.register);
    if Open(s'.updates) < Open(s.updates) {
      SquareDrops(Open(s'.updates));
    }
  }

  lemma SquareDrops(n: nat)
    ensures (n + 1) * (n + 1) == n * n + 2 * n + 1
  {
  }

  lemma {:induction false} OneMoreOpen(us: seq<Update>, v: int, register: int)
    ensures Open(us + [Loading(v)]) == Open(us) + 1 && Weights(us + [Loading(v)], register) == Weights(us, register) + 1
  {
    if us != [] {
      OneMoreOpen(us[1..], v, register);
      assert (us + [Loading(v)])[1..] == us[1..] + [Loading(v)];
    }
  }

  lemma {:induction false} OpenBound(us: seq<Update>)
    ensures Open(us) <= |us|
  {
    if us != [] {
      OpenBound(us[1..]);
    }
  }

  /** A new update or a take-out adds at most two rounds of all updates to the work. */
  lemma WorkGrows(s: State, t: Step)
    requires Enabled(s, t) && !t.Load? && !t.Cas?
    ensures Work(Apply(s, t)) <= Work(s) + 2 * |Apply(s, t).updates|
  {
    OpenBound(s.updates);
    if t.Submit? {
      OneMoreOpen(s.updates, t.value, s.register);
      SquareDrops(Open(s.updates));
    }
  }

  /** The loads and swaps of a run. */
  function Moves(steps: seq<Step>): (n: nat)
    ensures n <= |steps|
  {
    if steps == [] then 0 else (if steps[0].Load? || steps[0].Cas? then 1 else 0) + Moves(steps[1..])
  }

  lemma {:induction false} UpdatesStay(s: State, steps: seq<Step>)
    requires Runs(s, steps)
    ensures |s.updates| <= |Exec(s, steps).updates|
    decreases |steps|
  {
    if steps != [] {
      UpdatesStay(Apply(s, steps[0]), steps[1..]);
    }
  }

  lemma OneMoreTime(n: nat, k: nat)
    ensures 2 * n * (k + 1) == 2 * n * k + 2 * n
  {
  }

  /**
   So the loops end, whatever the flusher does and however many updates join: with n updates in all, the loads and swaps
   are at most the work there was at first and 2 * n for every join and every take-out.
   */
  lemma {:induction false} LoopsEnd(s: State, steps: seq<Step>)
    requires Runs(s, steps)
    ensures var n, others := |Exec(s, steps).updates|, |steps| - Moves(steps);
            Moves(steps) + Work(Exec(s, steps)) <= Work(s) + 2 * n * others
    decreases |steps|
  {
    if steps != [] {
      var s', t, rest := Apply(s, steps[0]), steps[0], steps[1..];
      LoopsEnd(s', rest);
      if t.Load? || t.Cas? {
        WorkShrinks(s, t);
      } else {
        WorkGrows(s, t);
        UpdatesStay(s', rest);
        OneMoreTime(|Exec(s', rest).updates|, |rest| - Moves(rest));
      }
    }
  }

  /** Left alone, n fresh updates are over after at most n * n + n loads and swaps, in whatever order these come. */
  lemma FreshLoopsEnd(s: State, steps: seq<Step>)
    requires Runs(s, steps) && forall i :: 0 <= i < |s.updates| ==> s.updates[i].Loading?
    requires forall i :: 0 <= i < |steps| ==> steps[i].Load? || steps[i].Cas?
    ensures |steps| <= |s.updates| * |s.updates| + |s.updates|
  {
    MovesEnd(s, steps);
    FreshWork(s.updates, s.register);
  }

  lemma {:induction false} MovesEnd(s: State, steps: seq<Step>)
    requires Runs(s, steps) && forall i :: 0 <= i < |steps| ==> steps[i].Load? || steps[i].Cas?
    ensures |steps| <= Work(s)
    decreases |steps|
  {
    if steps != [] {
      WorkShrinks(s, steps[0]);
      MovesEnd(Apply(s, steps[0]), steps[1..]);
    }
  }

  lemma {:induction false} FreshWork(us: seq<Update>, register: int)
    requires forall i :: 0 <= i < |us| ==> us[i].Loading?
    ensures Open(us) == |us| && Weights(us, register) == |us|
  {
    if us != [] {
      FreshWork(us[1..], register);
    }
  }

  lemma {:induction false} WaitsAsLoaded(s: State, i: nat, steps: seq<Step>)
    requires i < |s.updates| && s.updates[i].Loaded?
    requires Runs(s, steps) && forall j :: 0 <= j < |steps| ==> steps[j] != Cas(i)
    ensures i < |Exec(s, steps).updates| && Exec(s, steps).updates[i] == s.updates[i]
    decreases |steps|
  {
    if steps != [] {
      WaitsAsLoaded(Apply(s, steps[0]), i, steps[1..]);
    }
  }

  /** A compare-and-swap fails exactly when another one succeeded since its load: every failure is somebody's progress. */
  lemma FailureIsProgress(s: State, i: nat, between: seq<Step>, start: int)
    requires Growing(s, start) && Enabled(s, Load(i)) && s.register < s.updates[i].value
    requires Runs(Apply(s, Load(i)), between)
    requires forall j :: 0 <= j < |between| ==> !Takes(between[j]) && between[j] != Cas(i)
    ensures var s' := Exec(Apply(s, Load(i)), between);
            && Enabled(s', Cas(i))
            && s.accepted <= s'.accepted
            && (Apply(s', Cas(i)).updates[i].Over? <==> s'.accepted == s.accepted)
  {
    var loaded := Apply(s, Load(i));
    GrowingStep(s, Load(i), start);
    WaitsAsLoaded(loaded, i, between);
    AcceptedIncrease(loaded, between, start);
    var s' := Exec(loaded, between);
    if |s'.accepted| > |s.accepted| > 0 {
      assert s'.accepted[|s.accepted| - 1] == s.accepted[|s.accepted| - 1];
    }
  }
}
