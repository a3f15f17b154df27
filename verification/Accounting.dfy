/**
 Usage accounting of the Prometheus plugin under every interleaving: request streams add to their collectors, closed
 streams give their collector back in two lock steps, and one flusher snapshots, drains, dumps, expires and aggregates,
 one lock or one atomic word at a time.
 */
module Accounting {
  import opened Sums
  import opened StatTypes
  import opened Wrappers
  import CurveDeltas

  type CollId = nat
  type ObjId = nat

  /** One value object: who created it, under which key, and the curve amounts not yet taken out. */
  datatype Obj = Obj(owner: CollId, key: StatKey, dim: Dim, passed: nat, limited: nat)

  /** Streams add while Live; giving back is HalfDropped between the two locks and Done after them. */
  datatype Phase = Live | HalfDropped | Done

  datatype Collector = Collector(phase: Phase, values: map<StatKey, ObjId>)

  /** The value being drained: the words read so far and how far the take-out has come. */
  datatype Hand =
    | Empty
    | ReadOne(obj: ObjId, p: nat)
    | ReadBoth(obj: ObjId, p: nat, l: nat)
    | TookPassed(obj: ObjId, p: nat, l: nat)
    | TookBoth(obj: ObjId, p: nat, l: nat)

  /** What the flusher does to one collector. */
  datatype Work =
    | NoWork
    | Popped(c: CollId)
    | Dumped(c: CollId, buf: seq<ObjId>, expired: set<StatKey>)
    | Draining(c: CollId, buf: seq<ObjId>, hand: Hand)

  datatype Flusher = Idle | Snapped(queue: seq<CollId>) | Looping(queue: seq<CollId>, work: Work)

  datatype State = State(
    objs: seq<Obj>,            // every value object ever created
    colls: seq<Collector>,     // every collector ever created
    active: set<CollId>,       // the map of collectors of open streams
    dropped: set<CollId>,      // the map of collectors given back but not settled
    flusher: Flusher,
    agg: Ledger,               // increments aggregated in the current flush
    exported: Ledger,          // what the metrics show
    added: Ledger,             // what was ever added, by the dimension of the value it went to
    log: seq<CurveDeltas.Delta>,       // increments collected for the curve log in the current flush
    reported: seq<CurveDeltas.Delta>)  // increments handed to the curve log so far

  datatype Step =
    | Create
    | Add(c: CollId, key: StatKey, dim: Dim, amount: Stats)
    | DropBegin(c: CollId)
    | DropEnd(c: CollId)
    | PrecisionTick
    | Snapshot(order: seq<CollId>)
    | DrainDropped(order: seq<CollId>)
    | Pop
    | Dump(order: seq<ObjId>, expired: set<StatKey>)
    | Expire
    | LoadPassed
    | LoadLimited
    | TakePassed
    | TakeLimited
    | Aggregate
    | FinishCollector
    | Export

  const Init := State([], [], {}, {}, Idle, map[], map[], map[], [], [])

  /** A loop over a map or set visits every element once, in some order. */
  predicate Enumerates<T(==)>(order: seq<T>, s: set<T>) {
    (set x | x in order) == s && forall i, j :: 0 <= i < j < |order| ==> order[i] != order[j]
  }

  function Queue(s: State): seq<CollId> {
    if s.flusher.Idle? then [] else s.flusher.queue
  }

  function WorkOf(s: State): Work {
    if s.flusher.Looping? then s.flusher.work else NoWork
  }

  function Buf(s: State): seq<ObjId> {
    var w := WorkOf(s);
    if w.Dumped? || w.Draining? then w.buf else []
  }

  function HandOf(s: State): Hand {
    var w := WorkOf(s);
    if w.Draining? then w.hand else Empty
  }

  /** When each atomic step can happen. */
  predicate Enabled(s: State, t: Step) {
    match t
    case Create => true
    case Add(c, _, _, _) => c < |s.colls| && s.colls[c].phase == Live
    case DropBegin(c) => c < |s.colls| && s.colls[c].phase == Live
    case DropEnd(c) => c < |s.colls| && s.colls[c].phase == HalfDropped
    case PrecisionTick => true
    case Snapshot(order) => s.flusher.Idle? && Enumerates(order, s.active)
    case DrainDropped(order) => s.flusher.Snapped? && Enumerates(order, s.dropped)
    case Pop => s.flusher.Looping? && WorkOf(s).NoWork? && Queue(s) != []
    case Dump(order, expired) =>
      && WorkOf(s).Popped? && WorkOf(s).c < |s.colls|
      && var values := s.colls[WorkOf(s).c].values;
      && Enumerates(order, values.Values) && expired <= values.Keys
    case Expire => WorkOf(s).Dumped? && WorkOf(s).c < |s.colls|
    case LoadPassed => WorkOf(s).Draining? && HandOf(s).Empty? && Buf(s) != [] && Buf(s)[0] < |s.objs|
    case LoadLimited => HandOf(s).ReadOne? && HandOf(s).obj < |s.objs|
    case TakePassed => HandOf(s).ReadBoth? && HandOf(s).obj < |s.objs| && HandOf(s).p <= s.objs[HandOf(s).obj].passed
    case TakeLimited => HandOf(s).TookPassed? && HandOf(s).obj < |s.objs| && HandOf(s).l <= s.objs[HandOf(s).obj].limited
    case Aggregate => HandOf(s).TookBoth? && HandOf(s).obj < |s.objs|
    case FinishCollector => WorkOf(s).Draining? && HandOf(s).Empty? && Buf(s) == []
    case Export => s.flusher.Looping? && WorkOf(s).NoWork? && Queue(s) == []
  }

  function WithWork(s: State, w: Work): State
    requires s.flusher.Looping?
  {
    s.(flusher := s.flusher.(work := w))
  }

  /** An addition goes to the entry of its key, which keeps the dimension it was created with. */
  function AddTo(s: State, c: CollId, key: StatKey, dim: Dim, a: Stats): State
    requires c < |s.colls|
  {
    var values := s.colls[c].values;
    if key in values && values[key] < |s.objs| then
      var o := values[key];
      var obj := s.objs[o];
      s.(objs := s.objs[o := obj.(passed := obj.passed + a.passed, limited := obj.limited + a.limited)],
         added := Credit(s.added, obj.dim, a))
    else
      s.(objs := s.objs + [Obj(c, key, dim, a.passed, a.limited)],
         colls := s.colls[c := s.colls[c].(values := values[key := |s.objs|])],
         added := Credit(s.added, dim, a))
  }

  /** An increment with the tags of the value it was taken from. */
  function Increment(o: Obj, amount: Stats): CurveDeltas.Delta {
    CurveDeltas.Delta(Some(CurveDeltas.Sample(o.key, o.dim)), amount)
  }

  /** The effect of each atomic step. */
  function Apply(s: State, t: Step): State
    requires Enabled(s, t)
  {
    match t
    case Create => s.(colls := s.colls + [Collector(Live, map[])], active := s.active + {|s.colls|})
    case Add(c, key, dim, amount) => AddTo(s, c, key, dim, amount)
    case DropBegin(c) =>
      s.(colls := s.colls[c := s.colls[c].(phase := HalfDropped)], active := s.active - {c})
    case DropEnd(c) =>
      s.(colls := s.colls[c := s.colls[c].(phase := Done)], dropped := s.dropped + {c})
    case PrecisionTick => s
    case Snapshot(order) => s.(flusher := Snapped(order), agg := map[], log := [])
    case DrainDropped(order) => s.(flusher := Looping(Queue(s) + order, NoWork), dropped := {})
    case Pop => s.(flusher := Looping(Queue(s)[1..], Popped(Queue(s)[0])))
    case Dump(order, expired) => WithWork(s, Dumped(WorkOf(s).c, order, expired))
    case Expire =>
      var w := WorkOf(s);
      WithWork(s, Draining(w.c, w.buf, Empty)).(
        colls := s.colls[w.c := s.colls[w.c].(values := s.colls[w.c].values - w.expired)])
    case LoadPassed =>
      var o := Buf(s)[0];
      WithWork(s, Draining(WorkOf(s).c, Buf(s)[1..], ReadOne(o, s.objs[o].passed)))
    case LoadLimited =>
      var h := HandOf(s);
      WithWork(s, WorkOf(s).(hand := ReadBoth(h.obj, h.p, s.objs[h.obj].limited)))
    case TakePassed =>
      var h := HandOf(s);
      var obj := s.objs[h.obj];
      WithWork(s, WorkOf(s).(hand := TookPassed(h.obj, h.p, h.l))).(
        objs := s.objs[h.obj := obj.(passed := obj.passed - h.p)])
    case TakeLimited =>
      var h := HandOf(s);
      var obj := s.objs[h.obj];
      WithWork(s, WorkOf(s).(hand := TookBoth(h.obj, h.p, h.l))).(
        objs := s.objs[h.obj := obj.(limited := obj.limited - h.l)])
    case Aggregate =>
      var h := HandOf(s);
      WithWork(s, WorkOf(s).(hand := Empty)).(
        agg := if h.p == 0 && h.l == 0 then s.agg else Credit(s.agg, s.objs[h.obj].dim, Stats(h.p, h.l)),
        log := if h.p == 0 && h.l == 0 then s.log else s.log + [Increment(s.objs[h.obj], Stats(h.p, h.l))])
    case FinishCollector => WithWork(s, NoWork)
    case Export => s.(flusher := Idle, exported := Merge(s.exported, s.agg), agg := map[],
                       reported := s.reported + s.log, log := [])
  }

  /** Whether a schedule can be carried out from a state, and where it leads. */
  predicate Runs(s: State, steps: seq<Step>)
    decreases |steps|
  {
    steps == [] || (Enabled(s, steps[0]) && Runs(Apply(s, steps[0]), steps[1..]))
  }

  function Exec(s: State, steps: seq<Step>): State
    requires Runs(s, steps)
    decreases |steps|
  {
    if steps == [] then s else Exec(Apply(s, steps[0]), steps[1..])
  }

  // ---- Conservation ----

  /** The amounts of a dimension that value objects still hold. */
  function Weights(objs: seq<Obj>, d: Dim, ch: Channel): (w: seq<int>)
    ensures |w| == |objs|
  {
    seq(|objs|, i requires 0 <= i < |objs| => Weight(objs[i], d, ch))
  }

  function Weight(o: Obj, d: Dim, ch: Channel): nat {
    if o.dim == d then Pick(Stats(o.passed, o.limited), ch) else 0
  }

  /** What the flusher has taken out of the value in hand but not yet aggregated. */
  function InHand(s: State, d: Dim, ch: Channel): nat {
    var h := HandOf(s);
    if h.Empty? || h.obj >= |s.objs| || s.objs[h.obj].dim != d then 0
    else match h
      case TookPassed(_, p, _) => if ch == Passed then p else 0
      case TookBoth(_, p, l) => if ch == Passed then p else l
      case _ => 0
  }

  /** Every amount added is in exactly one place. */
  predicate Conserved(s: State, d: Dim, ch: Channel) {
    At(s.added, d, ch)
    == At(s.exported, d, ch) + At(s.agg, d, ch) + InHand(s, d, ch) + Sum(Weights(s.objs, d, ch))
  }

  // ---- No loss ----

  /** The collector's map still leads to the object. */
  predicate Attached(s: State, o: ObjId)
    requires o < |s.objs|
  {
    var obj := s.objs[o];
    obj.owner < |s.colls| && obj.key in s.colls[obj.owner].values && s.colls[obj.owner].values[obj.key] == o
  }

  /** A later dump will still visit the collector. */
  predicate Held(s: State, c: CollId)
    requires c < |s.colls|
  {
    s.colls[c].phase != Done || c in s.dropped || c in Queue(s) || WorkOf(s) == Popped(c)
  }

  predicate Revisited(s: State, o: ObjId)
    requires o < |s.objs|
  {
    Attached(s, o) && Held(s, s.objs[o].owner)
  }

  predicate InFlight(s: State, o: ObjId) {
    o in Buf(s) || (!HandOf(s).Empty? && HandOf(s).obj == o)
  }

  predicate Nonzero(o: Obj) {
    o.passed != 0 || o.limited != 0
  }

  /** No amount sits in an object that nobody will look at again. */
  ghost predicate NothingLost(s: State) {
    forall o: nat :: o < |s.objs| && Nonzero(s.objs[o]) ==> Revisited(s, o) || InFlight(s, o)
  }

  /** The words read are still there to be taken, and exactly so when no addition can reach the object any more. */
  predicate HandSound(s: State) {
    var h := HandOf(s);
    !h.Empty? && h.obj < |s.objs| ==>
      var obj, fixed := s.objs[h.obj], !Revisited(s, h.obj);
      match h
      case ReadOne(_, p) => p <= obj.passed && (fixed ==> obj.passed == p)
      case ReadBoth(_, p, l) => p <= obj.passed && l <= obj.limited && (fixed ==> obj.passed == p && obj.limited == l)
      case TookPassed(_, p, l) => l <= obj.limited && (fixed ==> obj.passed == 0 && obj.limited == l)
      case TookBoth(_, _, _) => fixed ==> obj.passed == 0 && obj.limited == 0
  }

  /** An entry of a collector points to an object that knows this place. */
  predicate GoodEntry(s: State, c: CollId, k: StatKey)
    requires c < |s.colls| && k in s.colls[c].values
  {
    var o := s.colls[c].values[k];
    o < |s.objs| && s.objs[o].owner == c && s.objs[o].key == k
  }

  /** Objects know their place and collectors only point to objects of their own. */
  ghost predicate Places(s: State) {
    && (forall o: nat :: o < |s.objs| ==> s.objs[o].owner < |s.colls|)
    && (forall c: nat, k :: c < |s.colls| && k in s.colls[c].values ==> GoodEntry(s, c, k))
  }

  /** The two maps agree with the phases of the collectors. */
  ghost predicate Phases(s: State) {
    && (forall c: nat :: c in s.active <==> c < |s.colls| && s.colls[c].phase == Live)
    && (forall c :: c in s.dropped ==> c < |s.colls| && s.colls[c].phase == Done)
  }

  /** The flusher's lists point to things that exist; keys marked as expired are in the dump. */
  ghost predicate Lists(s: State) {
    && (forall c :: c in Queue(s) ==> c < |s.colls|)
    && (forall o :: o in Buf(s) ==> o < |s.objs|)
    && (!HandOf(s).Empty? ==> HandOf(s).obj < |s.objs|)
    && var w := WorkOf(s);
    && (!w.NoWork? ==> w.c < |s.colls|)
    && (w.Dumped? ==> forall k :: k in w.expired ==>
          k in s.colls[w.c].values && s.colls[w.c].values[k] in w.buf)
    && (s.flusher.Idle? ==> s.agg == map[])
  }

  ghost predicate WellFormed(s: State) {
    Places(s) && Phases(s) && Lists(s)
  }

  ghost predicate Inv(s: State) {
    WellFormed(s) && HandSound(s) && NothingLost(s) && forall d, ch :: Conserved(s, d, ch)
  }

  // ---- Every step keeps the invariant ----

  /** Changing one object changes the held amounts by that object's change. */
  lemma WeightsUpdate(objs: seq<Obj>, o: ObjId, obj: Obj, d: Dim, ch: Channel)
    requires o < |objs|
    ensures Sum(Weights(objs[o := obj], d, ch)) == Sum(Weights(objs, d, ch)) - Weight(objs[o], d, ch) + Weight(obj, d, ch)
  {
    assert Weights(objs[o := obj], d, ch) == Weights(objs, d, ch)[o := Weight(obj, d, ch)];
    SumUpdate(Weights(objs, d, ch), o, Weight(obj, d, ch));
  }

  lemma WeightsAppend(objs: seq<Obj>, obj: Obj, d: Dim, ch: Channel)
    ensures Sum(Weights(objs + [obj], d, ch)) == Sum(Weights(objs, d, ch)) + Weight(obj, d, ch)
  {
    assert Weights(objs + [obj], d, ch) == Weights(objs, d, ch) + [Weight(obj, d, ch)];
    SumAppend(Weights(objs, d, ch), Weight(obj, d, ch));
  }

  lemma EnumeratesIn<T>(order: seq<T>, s: set<T>)
    requires Enumerates(order, s)
    ensures forall x :: x in s ==> x in order
    ensures forall x :: x in order ==> x in s
  {
    forall x | x in order ensures x in s {
      assert x in (set y | y in order);
    }
  }

  lemma HeadTail<T>(q: seq<T>)
    requires q != []
    ensures forall x :: x in q ==> x == q[0] || x in q[1..]
    ensures forall x :: x in q[1..] ==> x in q
  {
  }

  /** Steps of the request streams, as opposed to those of the flusher. */
  predicate StreamStep(t: Step) {
    t.Create? || t.Add? || t.DropBegin? || t.DropEnd? || t.PrecisionTick?
  }

  /** Steps of the flusher on the words of one value. */
  predicate ValueStep(t: Step) {
    t.LoadPassed? || t.LoadLimited? || t.TakePassed? || t.TakeLimited? || t.Aggregate?
  }

  /** What a step on a value leaves alone. */
  lemma ValueFrame(s: State, t: Step)
    requires ValueStep(t) && Enabled(s, t)
    ensures var s' := Apply(s, t);
            && Queue(s') == Queue(s) && WorkOf(s').Draining? && WorkOf(s').c == WorkOf(s).c
            && (forall o :: o in Buf(s') ==> o in Buf(s))
            && (forall o :: o in Buf(s) ==> o in Buf(s') || (t.LoadPassed? && HandOf(s') == ReadOne(o, s.objs[o].passed)))
            && (!t.LoadPassed? && !t.Aggregate? ==> !HandOf(s').Empty? && HandOf(s').obj == HandOf(s).obj)
            && s'.colls == s.colls && s'.dropped == s.dropped && s'.active == s.active && |s'.objs| == |s.objs|
  {
    if t.LoadPassed? {
      HeadTail(Buf(s));
    }
  }

  /** What the other flusher steps do to the lists. */
  lemma FlushFrame(s: State, t: Step)
    requires !ValueStep(t) && !StreamStep(t) && Enabled(s, t)
    ensures var s' := Apply(s, t);
            && HandOf(s').Empty? && s'.objs == s.objs
            && (forall c :: c in Queue(s') ==> c in Queue(s) || c in s.dropped || (t.Snapshot? && c in s.active))
            && (forall c :: c in Queue(s) ==> c in Queue(s') || WorkOf(s') == Popped(c))
            && (forall c :: c in s.dropped ==> c in s'.dropped || c in Queue(s'))
            && (t.Pop? ==> WorkOf(s').Popped? && WorkOf(s').c in Queue(s))
            && (t.Dump? ==> forall o :: o in Buf(s') <==> o in s.colls[WorkOf(s).c].values.Values)
            && (t.Expire? ==> Buf(s') == Buf(s))
            && (!t.Dump? && !t.Expire? ==> Buf(s') == [])
  {
    match t
    case Snapshot(order) => EnumeratesIn(order, s.active);
    case DrainDropped(order) => EnumeratesIn(order, s.dropped);
    case Pop => HeadTail(Queue(s));
    case Dump(order, _) => EnumeratesIn(order, s.colls[WorkOf(s).c].values.Values);
    case _ =>
  }

  /** A value object after a stream step: untouched, or grown while a later dump will still visit it. */
  predicate GrownOrSame(s: State, s': State, o: ObjId)
    requires o < |s.objs| <= |s'.objs|
  {
    var was, now := s.objs[o], s'.objs[o];
    && now.owner == was.owner && now.key == was.key && now.dim == was.dim
    && was.passed <= now.passed && was.limited <= now.limited
    && (Revisited(s, o) ==> Revisited(s', o))
    && (now == was || Revisited(s', o))
  }

  /** What a stream step leaves alone, one object at a time. */
  lemma StreamFrame(s: State, t: Step, o: ObjId)
    requires StreamStep(t) && WellFormed(s) && Enabled(s, t) && o < |Apply(s, t).objs|
    ensures Apply(s, t).flusher == s.flusher && |s.objs| <= |Apply(s, t).objs|
    ensures if o < |s.objs| then GrownOrSame(s, Apply(s, t), o) else Revisited(Apply(s, t), o)
  {
    if t.Add? {
      AddFrame(s, t, o);
    } else if o < |s.objs| {
      assert s.objs[o].owner < |s.colls|;
    }
  }

  lemma AddFrame(s: State, t: Step, o: ObjId)
    requires t.Add? && WellFormed(s) && Enabled(s, t) && o < |Apply(s, t).objs|
    ensures if o < |s.objs| then GrownOrSame(s, Apply(s, t), o) else Revisited(Apply(s, t), o)
  {
    var s', values := Apply(s, t), s.colls[t.c].values;
    if t.key in values {
      assert GoodEntry(s, t.c, t.key);
    }
    if o < |s.objs| {
      assert s.objs[o].owner < |s.colls|;
    }
  }

  lemma AddConserves(s: State, t: Step, d: Dim, ch: Channel)
    requires t.Add? && Enabled(s, t) && Conserved(s, d, ch) && Lists(s)
    ensures Conserved(Apply(s, t), d, ch)
  {
    var values := s.colls[t.c].values;
    if t.key in values && values[t.key] < |s.objs| {
      GrowConserves(s, t, values[t.key], d, ch);
    } else {
      NewValueConserves(s, t, d, ch);
    }
  }

  lemma NewValueConserves(s: State, t: Step, d: Dim, ch: Channel)
    requires t.Add? && Enabled(s, t) && Conserved(s, d, ch) && Lists(s)
    requires !(t.key in s.colls[t.c].values && s.colls[t.c].values[t.key] < |s.objs|)
    ensures Conserved(Apply(s, t), d, ch)
  {
    WeightsAppend(s.objs, Obj(t.c, t.key, t.dim, t.amount.passed, t.amount.limited), d, ch);
    CreditAt(s.added, t.dim, t.amount, d, ch);
    assert InHand(Apply(s, t), d, ch) == InHand(s, d, ch);
  }

  lemma GrowConserves(s: State, t: Step, o: ObjId, d: Dim, ch: Channel)
    requires t.Add? && Enabled(s, t) && Conserved(s, d, ch)
    requires t.key in s.colls[t.c].values && s.colls[t.c].values[t.key] == o < |s.objs|
    ensures Conserved(Apply(s, t), d, ch)
  {
    var obj := s.objs[o];
    var grown := obj.(passed := obj.passed + t.amount.passed, limited := obj.limited + t.amount.limited);
    WeightsUpdate(s.objs, o, grown, d, ch);
    CreditAt(s.added, obj.dim, t.amount, d, ch);
    assert InHand(Apply(s, t), d, ch) == InHand(s, d, ch);
  }

  lemma TakeConserves(s: State, t: Step, d: Dim, ch: Channel)
    requires t.TakePassed? || t.TakeLimited?
    requires Enabled(s, t) && Conserved(s, d, ch)
    ensures Conserved(Apply(s, t), d, ch)
  {
    WeightsUpdate(s.objs, HandOf(s).obj, Apply(s, t).objs[HandOf(s).obj], d, ch);
  }

  /** No step creates or destroys an amount. */
  lemma StepConserves(s: State, t: Step, d: Dim, ch: Channel)
    requires Lists(s) && Enabled(s, t) && Conserved(s, d, ch)
    ensures Conserved(Apply(s, t), d, ch)
  {
    match t
    case Add(_, _, _, _) => AddConserves(s, t, d, ch);
    case TakePassed => TakeConserves(s, t, d, ch);
    case TakeLimited => TakeConserves(s, t, d, ch);
    case Aggregate =>
      var h := HandOf(s);
      CreditAt(s.agg, s.objs[h.obj].dim, Stats(h.p, h.l), d, ch);
    case Export => MergeAt(s.exported, s.agg, d, ch);
    case _ =>
  }

  /** An entry of a collector after a stream step: the entry it was, or the new object under the added key. */
  lemma StreamEntry(s: State, t: Step, c: CollId, k: StatKey)
    requires StreamStep(t) && Places(s) && Enabled(s, t)
    requires c < |Apply(s, t).colls| && k in Apply(s, t).colls[c].values
    ensures GoodEntry(Apply(s, t), c, k)
  {
    if c < |s.colls| && k in s.colls[c].values {
      assert GoodEntry(s, c, k);
    }
    if t.Add? && t.key in s.colls[t.c].values {
      assert GoodEntry(s, t.c, t.key);
    }
  }

  lemma StreamPlaces(s: State, t: Step)
    requires StreamStep(t) && Places(s) && Enabled(s, t)
    ensures Places(Apply(s, t))
  {
    var s' := Apply(s, t);
    forall c: nat, k | c < |s'.colls| && k in s'.colls[c].values ensures GoodEntry(s', c, k) {
      StreamEntry(s, t, c, k);
    }
  }

  lemma StreamPhases(s: State, t: Step)
    requires StreamStep(t) && Phases(s) && Enabled(s, t)
    ensures Phases(Apply(s, t))
  {
    var s' := Apply(s, t);
    forall c: nat ensures c in s'.active <==> c < |s'.colls| && s'.colls[c].phase == Live {
      assert c in s.active <==> c < |s.colls| && s.colls[c].phase == Live;
    }
    forall c | c in s'.dropped ensures c < |s'.colls| && s'.colls[c].phase == Done {
      assert c in s.dropped || t == DropEnd(c);
    }
  }

  lemma StreamLists(s: State, t: Step)
    requires StreamStep(t) && Places(s) && Lists(s) && Enabled(s, t)
    ensures Lists(Apply(s, t))
  {
    var s', w := Apply(s, t), WorkOf(s);
    assert Queue(s') == Queue(s) && Buf(s') == Buf(s);
    if w.Dumped? {
      forall k | k in w.expired ensures k in s'.colls[w.c].values && s'.colls[w.c].values[k] in w.buf {
        assert GoodEntry(s, w.c, k);
      }
    }
  }

  lemma StreamWellFormed(s: State, t: Step)
    requires StreamStep(t) && WellFormed(s) && Enabled(s, t)
    ensures WellFormed(Apply(s, t))
  {
    StreamPlaces(s, t);
    StreamPhases(s, t);
    StreamLists(s, t);
  }

  lemma ValueWellFormed(s: State, t: Step)
    requires ValueStep(t) && WellFormed(s) && Enabled(s, t)
    ensures WellFormed(Apply(s, t))
  {
    ValueFrame(s, t);
  }

  lemma FlushWellFormed(s: State, t: Step)
    requires !ValueStep(t) && !StreamStep(t) && WellFormed(s) && Enabled(s, t)
    ensures WellFormed(Apply(s, t))
  {
    FlushFrame(s, t);
  }

  lemma StreamHandSound(s: State, t: Step)
    requires StreamStep(t) && WellFormed(s) && HandSound(s) && Enabled(s, t)
    ensures HandSound(Apply(s, t))
  {
    if !HandOf(s).Empty? {
      StreamFrame(s, t, HandOf(s).obj);
    }
  }

  lemma ValueHandSound(s: State, t: Step)
    requires ValueStep(t) && WellFormed(s) && HandSound(s) && Enabled(s, t)
    ensures HandSound(Apply(s, t))
  {
  }

  lemma FlushHandSound(s: State, t: Step)
    requires !ValueStep(t) && !StreamStep(t) && WellFormed(s) && HandSound(s) && Enabled(s, t)
    ensures HandSound(Apply(s, t))
  {
  }

  lemma StreamNothingLost(s: State, t: Step)
    requires StreamStep(t) && WellFormed(s) && NothingLost(s) && Enabled(s, t)
    ensures NothingLost(Apply(s, t))
  {
    var s' := Apply(s, t);
    forall o: nat | o < |s'.objs| && Nonzero(s'.objs[o]) ensures Revisited(s', o) || InFlight(s', o) {
      StreamFrame(s, t, o);
    }
  }

  lemma ValueNothingLost(s: State, t: Step)
    requires ValueStep(t) && WellFormed(s) && HandSound(s) && NothingLost(s) && Enabled(s, t)
    ensures NothingLost(Apply(s, t))
  {
    ValueFrame(s, t);
  }

  lemma FlushNothingLost(s: State, t: Step)
    requires !ValueStep(t) && !StreamStep(t) && WellFormed(s) && HandSound(s) && NothingLost(s) && Enabled(s, t)
    ensures NothingLost(Apply(s, t))
  {
    FlushFrame(s, t);
  }

  /** Every atomic step of every participant keeps the invariant. */
  lemma StepInv(s: State, t: Step)
    requires Inv(s) && Enabled(s, t)
    ensures Inv(Apply(s, t))
  {
    if StreamStep(t) {
      StreamWellFormed(s, t);
      StreamHandSound(s, t);
      StreamNothingLost(s, t);
    } else if ValueStep(t) {
      ValueWellFormed(s, t);
      ValueHandSound(s, t);
      ValueNothingLost(s, t);
    } else {
      FlushWellFormed(s, t);
      FlushHandSound(s, t);
      FlushNothingLost(s, t);
    }
    forall d, ch ensures Conserved(Apply(s, t), d, ch) {
      StepConserves(s, t, d, ch);
    }
  }

  lemma {:induction false} RunInv(s: State, steps: seq<Step>)
    requires Inv(s) && Runs(s, steps)
    ensures Inv(Exec(s, steps))
    decreases |steps|
  {
    if steps != [] {
      StepInv(s, steps[0]);
      RunInv(Apply(s, steps[0]), steps[1..]);
    }
  }

  lemma InitInv()
    ensures Inv(Init)
  {
    forall d, ch ensures Conserved(Init, d, ch) {
      assert Weights(Init.objs, d, ch) == [];
    }
  }

  // ---- What holds of every schedule ----

  /**
   Exactly-once accounting: after any schedule, every amount ever added to a dimension has been exported, or is being
   aggregated, or is in the flusher's hand, or is still in a value object; and an object that holds anything will be
   visited by a later dump or is in the current one.
   */
  lemma ExactlyOnce(steps: seq<Step>, d: Dim, ch: Channel)
    requires Runs(Init, steps)
    ensures Conserved(Exec(Init, steps), d, ch)
    ensures NothingLost(Exec(Init, steps))
  {
    InitInv();
    RunInv(Init, steps);
  }

  /** The metrics never show more than was added, however a collector is dropped between snapshot and drain. */
  lemma NeverTwice(steps: seq<Step>, d: Dim, ch: Channel)
    requires Runs(Init, steps)
    ensures At(Exec(Init, steps).exported, d, ch) <= At(Exec(Init, steps).added, d, ch)
  {
    ExactlyOnce(steps, d, ch);
    SumNonNegative(Weights(Exec(Init, steps).objs, d, ch));
  }

  // ---- The second sink ----

  /** The increments for the curve log add up to the aggregate, and those handed over to what the metrics show. */
  ghost predicate Logged(s: State) {
    forall d, ch ::
      At(s.agg, d, ch) == CurveDeltas.DimSum(s.log, d, ch) && At(s.exported, d, ch) == CurveDeltas.DimSum(s.reported, d, ch)
  }

  lemma {:induction false} DimSumConcat(a: seq<CurveDeltas.Delta>, b: seq<CurveDeltas.Delta>, d: Dim, ch: Channel)
    ensures CurveDeltas.DimSum(a + b, d, ch) == CurveDeltas.DimSum(a, d, ch) + CurveDeltas.DimSum(b, d, ch)
  {
    if b == [] {
      assert a + b == a;
    } else {
      DimSumConcat(a, b[..|b| - 1], d, ch);
      assert (a + b)[..|a + b| - 1] == a + b[..|b| - 1];
    }
  }

  lemma LoggedStep(s: State, t: Step)
    requires Logged(s) && Enabled(s, t)
    ensures Logged(Apply(s, t))
  {
    var s' := Apply(s, t);
    forall d, ch
      ensures At(s'.agg, d, ch) == CurveDeltas.DimSum(s'.log, d, ch)
      ensures At(s'.exported, d, ch) == CurveDeltas.DimSum(s'.reported, d, ch) {
      if t.Aggregate? {
        AggregateLogged(s, d, ch);
      } else if t.Export? {
        MergeAt(s.exported, s.agg, d, ch);
        DimSumConcat(s.reported, s.log, d, ch);
      }
    }
  }

  lemma AggregateLogged(s: State, d: Dim, ch: Channel)
    requires Logged(s) && Enabled(s, Aggregate)
    ensures At(Apply(s, Aggregate).agg, d, ch) == CurveDeltas.DimSum(Apply(s, Aggregate).log, d, ch)
  {
    var h := HandOf(s);
    var obj, amount := s.objs[h.obj], Stats(h.p, h.l);
    CreditAt(s.agg, obj.dim, amount, d, ch);
    DimSumConcat(s.log, [Increment(obj, amount)], d, ch);
  }

  lemma {:induction false} LoggedRun(s: State, steps: seq<Step>)
    requires Logged(s) && Runs(s, steps)
    ensures Logged(Exec(s, steps))
    decreases |steps|
  {
    if steps != [] {
      LoggedStep(s, steps[0]);
      LoggedRun(Apply(s, steps[0]), steps[1..]);
    }
  }

  /**
   Exactly once for the curve log too: after any schedule, every amount ever added to a dimension has been handed to the
   log, or is collected for it, or is in the flusher's hand, or is still in a value object.
   */
  lemma LoggedExactlyOnce(steps: seq<Step>, d: Dim, ch: Channel)
    requires Runs(Init, steps)
    ensures var s := Exec(Init, steps);
            At(s.added, d, ch) == CurveDeltas.DimSum(s.reported, d, ch) + CurveDeltas.DimSum(s.log, d, ch)
                                  + InHand(s, d, ch) + Sum(Weights(s.objs, d, ch))
  {
    ExactlyOnce(steps, d, ch);
    LoggedRun(Init, steps);
  }

  /** All streams are closed and their collectors fully given back. */
  predicate AllGivenBack(s: State) {
    forall c :: 0 <= c < |s.colls| ==> s.colls[c].phase == Done
  }

  /** Between flushes with everything given back and drained, the metrics show exactly what was added. */
  lemma Settled(s: State, d: Dim, ch: Channel)
    requires Inv(s) && s.flusher.Idle? && s.dropped == {} && AllGivenBack(s)
    ensures At(s.exported, d, ch) == At(s.added, d, ch)
  {
    forall i | 0 <= i < |s.objs| ensures Weights(s.objs, d, ch)[i] == 0 {
      assert s.objs[i].owner < |s.colls|;
      assert !Revisited(s, i) && !InFlight(s, i);
    }
    SumZero(Weights(s.objs, d, ch));
    assert Conserved(s, d, ch);
  }

  lemma QuietStep(s: State, t: Step)
    requires WellFormed(s) && AllGivenBack(s) && Enabled(s, t) && !t.Create?
    requires s.flusher.Looping? ==> s.dropped == {}
    ensures var s' := Apply(s, t);
            && AllGivenBack(s') && s'.added == s.added
            && (s'.flusher.Looping? || t.Export? || s.dropped == {} ==> s'.dropped == {})
  {
  }

  /** Only the flusher moves once everything has been given back, and from the drain on nothing is in dropped. */
  lemma {:induction false} QuietFlush(s: State, steps: seq<Step>)
    requires Inv(s) && AllGivenBack(s) && Runs(s, steps)
    requires forall i :: 0 <= i < |steps| ==> !steps[i].Create?
    requires s.flusher.Looping? ==> s.dropped == {}
    ensures AllGivenBack(Exec(s, steps)) && Inv(Exec(s, steps))
    ensures Export in steps || s.dropped == {} ==> Exec(s, steps).dropped == {}
    ensures Exec(s, steps).added == s.added
    decreases |steps|
  {
    if steps != [] {
      StepInv(s, steps[0]);
      QuietStep(s, steps[0]);
      QuietFlush(Apply(s, steps[0]), steps[1..]);
    }
  }

  /**
   Nothing stays behind: once every stream is closed and given back, the end of the next flush leaves metrics that
   show exactly everything that was ever added, for every dimension and both channels.
   */
  lemma NextFlushSettles(before: seq<Step>, flush: seq<Step>, d: Dim, ch: Channel)
    requires Runs(Init, before) && AllGivenBack(Exec(Init, before)) && Exec(Init, before).flusher.Idle?
    requires Runs(Exec(Init, before), flush) && Export in flush
    requires forall i :: 0 <= i < |flush| ==> !flush[i].Create?
    requires Exec(Exec(Init, before), flush).flusher.Idle?
    ensures var s := Exec(Init, before);
            At(Exec(s, flush).exported, d, ch) == At(s.added, d, ch)
  {
    InitInv();
    RunInv(Init, before);
    QuietFlush(Exec(Init, before), flush);
    Settled(Exec(Exec(Init, before), flush), d, ch);
  }

  // ---- A flush takes everything that was there when it began ----

  /** This flush will still dump the object, or has it in its dump. */
  predicate Coming(s: State, o: ObjId)
    requires o < |s.objs|
  {
    || o in Buf(s)
    || (Attached(s, o)
        && var c := s.objs[o].owner;
        c in Queue(s) || WorkOf(s) == Popped(c) || (s.flusher.Snapped? && c in s.dropped))
  }

  /** What the flusher is going to take out of the value in its hand. */
  function HandDue(s: State, o: Obj, d: Dim, ch: Channel): nat {
    if o.dim != d then 0
    else match HandOf(s)
      case Empty => 0
      case ReadOne(_, p) => if ch == Passed then p else o.limited
      case ReadBoth(_, p, l) => if ch == Passed then p else l
      case TookPassed(_, _, l) => if ch == Passed then 0 else l
      case TookBoth(_, _, _) => 0
  }

  /** What this flush is going to take out of an object. */
  function Due(s: State, o: ObjId, d: Dim, ch: Channel): nat
    requires o < |s.objs|
  {
    if Coming(s, o) then Weight(s.objs[o], d, ch)
    else if !HandOf(s).Empty? && HandOf(s).obj == o then HandDue(s, s.objs[o], d, ch)
    else 0
  }

  function Dues(s: State, d: Dim, ch: Channel): (w: seq<int>)
    ensures |w| == |s.objs|
  {
    seq(|s.objs|, o requires 0 <= o < |s.objs| => Due(s, o, d, ch))
  }

  /** What is exported, or on its way to be exported by this flush, is at least a given amount. */
  predicate Covers(s: State, base: nat, d: Dim, ch: Channel) {
    base <= At(s.exported, d, ch) + At(s.agg, d, ch) + InHand(s, d, ch) + Sum(Dues(s, d, ch))
  }

  lemma {:induction false} SumGrows(a: seq<int>, b: seq<int>)
    requires |a| <= |b| && (forall i :: 0 <= i < |a| ==> a[i] <= b[i]) && forall i :: |a| <= i < |b| ==> b[i] >= 0
    ensures Sum(a) <= Sum(b)
    decreases |b|
  {
    if |a| < |b| {
      SumGrows(a, b[..|b| - 1]);
      SumAppend(b[..|b| - 1], b[|b| - 1]);
      assert b[..|b| - 1] + [b[|b| - 1]] == b;
    } else if b != [] {
      SumGrows(a[..|a| - 1], b[..|b| - 1]);
      SumAppend(a[..|a| - 1], a[|a| - 1]);
      SumAppend(b[..|b| - 1], b[|b| - 1]);
      assert a[..|a| - 1] + [a[|a| - 1]] == a && b[..|b| - 1] + [b[|b| - 1]] == b;
    }
  }

  /** No stream makes the flush take less. */
  lemma StreamDue(s: State, t: Step, o: ObjId, d: Dim, ch: Channel)
    requires WellFormed(s) && StreamStep(t) && Enabled(s, t) && o < |s.objs|
    ensures o < |Apply(s, t).objs| && Due(s, o, d, ch) <= Due(Apply(s, t), o, d, ch)
  {
    var s' := Apply(s, t);
    StreamFrame(s, t, o);
    StreamAttached(s, t, o);
    assert Coming(s, o) ==> Coming(s', o);
  }

  lemma StreamAttached(s: State, t: Step, o: ObjId)
    requires WellFormed(s) && StreamStep(t) && Enabled(s, t) && o < |s.objs|
    ensures o < |Apply(s, t).objs| && (Attached(s, o) ==> Attached(Apply(s, t), o))
    ensures s.dropped <= Apply(s, t).dropped
  {
    if t.Add? && t.key in s.colls[t.c].values {
      assert GoodEntry(s, t.c, t.key);
    }
  }

  /** The flusher's way through its lists takes what is there to the next list. */
  lemma ListDue(s: State, t: Step, o: ObjId, d: Dim, ch: Channel)
    requires WellFormed(s) && !StreamStep(t) && !ValueStep(t) && Enabled(s, t) && o < |s.objs|
    ensures Apply(s, t).objs == s.objs && Due(s, o, d, ch) <= Due(Apply(s, t), o, d, ch)
  {
    var s' := Apply(s, t);
    FlushFrame(s, t);
    assert Coming(s, o) ==> Coming(s', o) by {
      if Coming(s, o) && t.Expire? && o !in Buf(s) {
        assert Attached(s, o);
      }
    }
  }

  /** Reading a value and booking what was taken leave what is due. */
  lemma ReadDue(s: State, t: Step, o: ObjId, d: Dim, ch: Channel)
    requires WellFormed(s) && HandSound(s) && (t.LoadPassed? || t.LoadLimited? || t.Aggregate?) && Enabled(s, t) && o < |s.objs|
    ensures Apply(s, t).objs == s.objs && Due(s, o, d, ch) <= Due(Apply(s, t), o, d, ch)
  {
    var s' := Apply(s, t);
    ValueFrame(s, t);
    assert Coming(s, o) ==> Coming(s', o) || (t.LoadPassed? && HandOf(s') == ReadOne(o, s.objs[o].passed));
  }

  /** What is taken out of the value in hand was due, and is in the hand then; nothing else changes. */
  lemma TakeDue(s: State, t: Step, o: ObjId, d: Dim, ch: Channel)
    requires WellFormed(s) && HandSound(s) && (t.TakePassed? || t.TakeLimited?) && Enabled(s, t) && o < |s.objs|
    ensures var s' := Apply(s, t);
            && |s'.objs| == |s.objs|
            && Due(s', o, d, ch) + (if o == HandOf(s).obj then InHand(s', d, ch) - InHand(s, d, ch) else 0)
               >= Due(s, o, d, ch)
  {
    var s' := Apply(s, t);
    ValueFrame(s, t);
    assert Coming(s, o) <==> Coming(s', o);
  }

  /** The amounts of objects whose collector is between the two locks of its giving back, and of all others. */
  function HalfHeld(s: State, d: Dim, ch: Channel, half: bool): (w: seq<int>)
    ensures |w| == |s.objs|
  {
    seq(|s.objs|, o requires 0 <= o < |s.objs| => if HalfOwned(s, o) == half then Weight(s.objs[o], d, ch) else 0)
  }

  predicate HalfOwned(s: State, o: ObjId)
    requires o < |s.objs|
  {
    s.objs[o].owner < |s.colls| && s.colls[s.objs[o].owner].phase == HalfDropped
  }

  lemma {:induction false} SumParts(a: seq<int>, b: seq<int>, c: seq<int>)
    requires |a| == |b| == |c| && forall i :: 0 <= i < |a| ==> a[i] == b[i] + c[i]
    ensures Sum(a) == Sum(b) + Sum(c)
  {
    if a != [] {
      var n := |a| - 1;
      SumParts(a[..n], b[..n], c[..n]);
    }
  }

  lemma StartDue(s: State, t: Step, base: nat, d: Dim, ch: Channel)
    requires Inv(s) && t.Snapshot? && Enabled(s, t)
    requires base <= At(s.exported, d, ch) + Sum(HalfHeld(s, d, ch, false))
    ensures Covers(Apply(s, t), base, d, ch)
  {
    var s' := Apply(s, t);
    FlushFrame(s, t);
    EnumeratesIn(t.order, s.active);
    forall o | 0 <= o < |s.objs| ensures HalfHeld(s, d, ch, false)[o] <= Dues(s', d, ch)[o] {
      if Nonzero(s.objs[o]) && !HalfOwned(s, o) {
        assert Revisited(s, o) || InFlight(s, o);
        assert Coming(s', o);
      }
    }
    SumGrows(HalfHeld(s, d, ch, false), Dues(s', d, ch));
  }

  lemma TakeCovers(s: State, t: Step, base: nat, d: Dim, ch: Channel)
    requires WellFormed(s) && HandSound(s) && (t.TakePassed? || t.TakeLimited?) && Enabled(s, t) && Covers(s, base, d, ch)
    ensures Covers(Apply(s, t), base, d, ch)
  {
    var s', h := Apply(s, t), HandOf(s).obj;
    TakeFrame(s, t, d, ch);
    var gain := InHand(s', d, ch) - InHand(s, d, ch);
    forall o | 0 <= o < |s.objs| ensures Dues(s, d, ch)[o] <= Dues(s', d, ch)[o] + if o == h then gain else 0 {
      TakeDue(s, t, o, d, ch);
    }
    SumShift(Dues(s, d, ch), Dues(s', d, ch), h, gain);
  }

  lemma SumShift(a: seq<int>, b: seq<int>, h: nat, gain: int)
    requires |a| == |b| && h < |a| && forall i :: 0 <= i < |a| ==> a[i] <= b[i] + if i == h then gain else 0
    ensures Sum(a) <= Sum(b) + gain
  {
    SumGrows(a, b[h := b[h] + gain]);
    SumUpdate(b, h, b[h] + gain);
  }

  lemma TakeFrame(s: State, t: Step, d: Dim, ch: Channel)
    requires WellFormed(s) && (t.TakePassed? || t.TakeLimited?) && Enabled(s, t)
    ensures var s' := Apply(s, t);
            |s'.objs| == |s.objs| && HandOf(s).obj < |s.objs| && s'.exported == s.exported && s'.agg == s.agg
  {
  }

  lemma ExportCovers(s: State, base: nat, d: Dim, ch: Channel)
    requires Enabled(s, Export) && Covers(s, base, d, ch)
    ensures Covers(Apply(s, Export), base, d, ch)
  {
    MergeAt(s.exported, s.agg, d, ch);
    SumZero(Dues(s, d, ch));
    SumZero(Dues(Apply(s, Export), d, ch));
  }

  /** No step of streams or flusher loses what a flush has to export. */
  lemma CoversStep(s: State, t: Step, base: nat, d: Dim, ch: Channel)
    requires Inv(s) && Enabled(s, t) && Covers(s, base, d, ch)
    ensures Covers(Apply(s, t), base, d, ch)
  {
    var s' := Apply(s, t);
    if t.TakePassed? || t.TakeLimited? {
      TakeCovers(s, t, base, d, ch);
    } else if t.Export? {
      ExportCovers(s, base, d, ch);
    } else {
      forall o | 0 <= o < |s.objs| ensures |s.objs| <= |s'.objs| && Dues(s, d, ch)[o] <= Dues(s', d, ch)[o] {
        if StreamStep(t) {
          StreamDue(s, t, o, d, ch);
        } else if ValueStep(t) {
          ReadDue(s, t, o, d, ch);
        } else {
          ListDue(s, t, o, d, ch);
        }
      }
      BookedStays(s, t, d, ch);
      SumGrows(Dues(s, d, ch), Dues(s', d, ch));
    }
  }

  /** What is exported, aggregated and in hand only grows by such steps. */
  lemma BookedStays(s: State, t: Step, d: Dim, ch: Channel)
    requires Inv(s) && Enabled(s, t) && !t.TakePassed? && !t.TakeLimited? && !t.Export?
    ensures var s' := Apply(s, t);
            && |s.objs| <= |s'.objs|
            && At(s.exported, d, ch) + At(s.agg, d, ch) + InHand(s, d, ch)
               <= At(s'.exported, d, ch) + At(s'.agg, d, ch) + InHand(s', d, ch)
  {
    if t.Aggregate? {
      var h := HandOf(s);
      CreditAt(s.agg, s.objs[h.obj].dim, Stats(h.p, h.l), d, ch);
    } else if t.Add? {
      AddBooked(s, t, d, ch);
    }
  }

  lemma AddBooked(s: State, t: Step, d: Dim, ch: Channel)
    requires Inv(s) && Enabled(s, t) && t.Add?
    ensures var s' := Apply(s, t);
            |s.objs| <= |s'.objs| && s'.exported == s.exported && s'.agg == s.agg && InHand(s', d, ch) == InHand(s, d, ch)
  {
    if t.key in s.colls[t.c].values {
      assert GoodEntry(s, t.c, t.key);
    }
  }

  lemma {:induction false} CoversRun(s: State, steps: seq<Step>, base: nat, d: Dim, ch: Channel)
    requires Inv(s) && Runs(s, steps) && Covers(s, base, d, ch)
    ensures Covers(Exec(s, steps), base, d, ch)
    decreases |steps|
  {
    if steps != [] {
      StepInv(s, steps[0]);
      CoversStep(s, steps[0], base, d, ch);
      CoversRun(Apply(s, steps[0]), steps[1..], base, d, ch);
    }
  }

  /**
   A flush leaves nothing behind that was there when it began: whatever streams add, open and close meanwhile, once the
   flusher is idle again the metrics show at least what had been added when the flush took its snapshot, except what the
   collectors held that were between the two locks of their giving back just then.
   */
  lemma FlushTakesAll(before: seq<Step>, flush: seq<Step>, d: Dim, ch: Channel)
    requires Runs(Init, before) && Runs(Exec(Init, before), flush)
    requires flush != [] && flush[0].Snapshot? && Exec(Exec(Init, before), flush).flusher.Idle?
    ensures var s := Exec(Init, before);
            At(Exec(s, flush).exported, d, ch) + Sum(HalfHeld(s, d, ch, true)) >= At(s.added, d, ch)
  {
    InitInv();
    RunInv(Init, before);
    FlushFrom(Exec(Init, before), flush, d, ch);
  }

  lemma FlushFrom(s: State, flush: seq<Step>, d: Dim, ch: Channel)
    requires Inv(s) && Runs(s, flush) && flush != [] && flush[0].Snapshot? && Exec(s, flush).flusher.Idle?
    ensures At(Exec(s, flush).exported, d, ch) + Sum(HalfHeld(s, d, ch, true)) >= At(s.added, d, ch)
  {
    var base := At(s.exported, d, ch) + Sum(HalfHeld(s, d, ch, false));
    SumNonNegative(HalfHeld(s, d, ch, false));
    SumParts(Weights(s.objs, d, ch), HalfHeld(s, d, ch, true), HalfHeld(s, d, ch, false));
    assert Conserved(s, d, ch);
    StartDue(s, flush[0], base, d, ch);
    StepInv(s, flush[0]);
    CoversRun(Apply(s, flush[0]), flush[1..], base, d, ch);
    RunInv(s, flush);
    NothingDueIdle(Exec(s, flush), base, d, ch);
  }

  lemma NothingDueIdle(s: State, base: nat, d: Dim, ch: Channel)
    requires Inv(s) && s.flusher.Idle? && Covers(s, base, d, ch)
    ensures At(s.exported, d, ch) >= base
  {
    SumZero(Dues(s, d, ch));
  }

  /** Entries that a dump has found expired are gone after the next step, and their amounts are in that dump. */
  lemma ExpiredEntriesGo(s: State, k: StatKey)
    requires Inv(s) && Enabled(s, Expire) && k in WorkOf(s).expired
    ensures var s' := Apply(s, Expire);
            k !in s'.colls[WorkOf(s).c].values && s.colls[WorkOf(s).c].values[k] in Buf(s')
  {
  }

  // ---- Progress and attribution ----

  /** Any finite set can be visited once in some order. */
  lemma {:induction false} SomeOrder<T>(s: set<T>) returns (order: seq<T>)
    ensures Enumerates(order, s)
  {
    if s == {} {
      order := [];
    } else {
      var x :| x in s;
      var rest := SomeOrder(s - {x});
      EnumeratesIn(rest, s - {x});
      order := rest + [x];
      assert (set y | y in order) == (set y | y in rest) + {x};
    }
  }

  /** The flusher is never blocked: whatever the streams do, it has a next step, up to its return to Idle. */
  lemma FlusherNeverStuck(s: State) returns (t: Step)
    requires Inv(s) && !s.flusher.Idle?
    ensures Enabled(s, t) && !StreamStep(t)
  {
    match s.flusher
    case Snapped(_) =>
      var order := SomeOrder(s.dropped);
      t := DrainDropped(order);
    case Looping(queue, work) =>
      match work
      case NoWork => t := if queue == [] then Export else Pop;
      case Popped(c) =>
        var order := SomeOrder(s.colls[c].values.Values);
        t := Dump(order, {});
      case Dumped(_, _, _) => t := Expire;
      case Draining(_, buf, hand) =>
        match hand
        case Empty =>
          assert buf != [] ==> buf[0] in Buf(s);
          t := if buf == [] then FinishCollector else LoadPassed;
        case ReadOne(_, _) => t := LoadLimited;
        case ReadBoth(_, _, _) => t := TakePassed;
        case TookPassed(_, _, _) => t := TakeLimited;
        case TookBoth(_, _, _) => t := Aggregate;
  }

  /**
   An addition is booked under the dimension it names exactly when its collector has no entry for the key yet or the
   entry was created with that dimension: a counter key that is recycled to another rule while the entry lives is
   booked under the old rule.
   */
  lemma BookedAsNamed(s: State, t: Step, ch: Channel)
    requires Inv(s) && t.Add? && Enabled(s, t) && Pick(t.amount, ch) > 0
    ensures var values := s.colls[t.c].values;
            At(Apply(s, t).added, t.dim, ch) == At(s.added, t.dim, ch) + Pick(t.amount, ch)
            <==> t.key !in values || s.objs[values[t.key]].dim == t.dim
  {
    var values := s.colls[t.c].values;
    if t.key in values {
      assert GoodEntry(s, t.c, t.key);
      CreditAt(s.added, s.objs[values[t.key]].dim, t.amount, t.dim, ch);
    } else {
      CreditAt(s.added, t.dim, t.amount, t.dim, ch);
    }
  }

  lemma Then(steps: seq<Step>, t: Step) returns (longer: seq<Step>)
    requires Runs(Init, steps) && Enabled(Exec(Init, steps), t)
    ensures Runs(Init, longer) && Exec(Init, longer) == Apply(Exec(Init, steps), t)
  {
    longer := steps + [t];
    RunsThen(Init, steps, t);
  }

  lemma {:induction false} RunsThen(s: State, steps: seq<Step>, t: Step)
    requires Runs(s, steps) && Enabled(Exec(s, steps), t)
    ensures Runs(s, steps + [t]) && Exec(s, steps + [t]) == Apply(Exec(s, steps), t)
    decreases |steps|
  {
    if steps != [] {
      RunsThen(Apply(s, steps[0]), steps[1..], t);
      assert (steps + [t])[1..] == steps[1..] + [t];
    }
  }

  /** A run into the wrong dimension: a key comes back under another rule while its entry lives. */
  lemma RecycledKeyRun(k: StatKey, e: Dim, f: Dim) returns (steps: seq<Step>)
    requires e != f
    ensures Runs(Init, steps)
    ensures var t := Add(0, k, f, Stats(1, 0));
            && Enabled(Exec(Init, steps), t)
            && At(Apply(Exec(Init, steps), t).added, f, Passed) == 0
            && At(Apply(Exec(Init, steps), t).added, e, Passed) == 2
  {
    steps := [];
    steps := Then(steps, Create);
    steps := Then(steps, Add(0, k, e, Stats(1, 0)));
  }

  /** What two collectors hold when their streams have added one amount each under one key, for different rules. */
  function TwoRules(k: StatKey, e: Dim, f: Dim): State {
    var live := Collector(Live, map[]);
    State([Obj(0, k, e, 1, 0), Obj(1, k, f, 1, 0)],
          [live.(values := map[k := 0]), live.(values := map[k := 1])], {0, 1}, {}, Idle, map[], map[],
          Credit(Credit(map[], e, Stats(1, 0)), f, Stats(1, 0)), [], [])
  }

  lemma TwoRulesRun(k: StatKey, e: Dim, f: Dim) returns (steps: seq<Step>)
    ensures Runs(Init, steps) && Exec(Init, steps) == TwoRules(k, e, f)
  {
    steps := [];
    steps := Then(steps, Create);
    steps := Then(steps, Create);
    steps := Then(steps, Add(0, k, e, Stats(1, 0)));
    steps := Then(steps, Add(1, k, f, Stats(1, 0)));
  }

  /** The flusher's way through a collector with one value, of one passed request. */
  lemma DrainOne(steps: seq<Step>, c: CollId, k: StatKey, o: ObjId) returns (longer: seq<Step>)
    requires Runs(Init, steps) && Exec(Init, steps).flusher.Looping? && WorkOf(Exec(Init, steps)).NoWork?
    requires var s := Exec(Init, steps);
             && Queue(s) != [] && Queue(s)[0] == c < |s.colls| && s.colls[c].values == map[k := o]
             && o < |s.objs| && s.objs[o].passed == 1 && s.objs[o].limited == 0
    ensures Runs(Init, longer)
    ensures var s, s' := Exec(Init, steps), Exec(Init, longer);
            && s'.flusher == Looping(Queue(s)[1..], NoWork) && s'.colls == s.colls
            && s'.objs == s.objs[o := s.objs[o].(passed := 0)]
            && s'.log == s.log + [Increment(s.objs[o], Stats(1, 0))]
  {
    longer := Then(steps, Pop);
    longer := DumpOne(longer, c, k, o);
    longer := ReadOneValue(longer, c, o);
    longer := Then(longer, Aggregate);
    longer := Then(longer, FinishCollector);
  }

  lemma DumpOne(steps: seq<Step>, c: CollId, k: StatKey, o: ObjId) returns (longer: seq<Step>)
    requires Runs(Init, steps) && WorkOf(Exec(Init, steps)) == Popped(c)
    requires c < |Exec(Init, steps).colls| && Exec(Init, steps).colls[c].values == map[k := o]
    ensures Runs(Init, longer)
    ensures Exec(Init, longer) == WithWork(Exec(Init, steps), Draining(c, [o], Empty))
  {
    var s := Exec(Init, steps);
    var values := s.colls[c].values;
    assert values.Values == {o} by {
      assert values[k] == o;
    }
    longer := Then(steps, Dump([o], {}));
    longer := Then(longer, Expire);
    assert values - {} == values;
    assert s.colls[c := s.colls[c].(values := values)] == s.colls;
  }

  /** The one passed request of a value is in the flusher's hand. */
  function OneTaken(s: State, c: CollId, o: ObjId): State
    requires s.flusher.Looping? && o < |s.objs|
  {
    WithWork(s, Draining(c, [], TookBoth(o, 1, 0))).(objs := s.objs[o := s.objs[o].(passed := 0)])
  }

  lemma ReadOneValue(steps: seq<Step>, c: CollId, o: ObjId) returns (longer: seq<Step>)
    requires Runs(Init, steps) && WorkOf(Exec(Init, steps)) == Draining(c, [o], Empty)
    requires var s := Exec(Init, steps); o < |s.objs| && s.objs[o].passed == 1 && s.objs[o].limited == 0
    ensures Runs(Init, longer)
    ensures Exec(Init, longer) == OneTaken(Exec(Init, steps), c, o)
  {
    longer := Then(steps, LoadPassed);
    longer := Then(longer, LoadLimited);
    longer := TakeOneValue(longer, c, o);
  }

  lemma TakeOneValue(steps: seq<Step>, c: CollId, o: ObjId) returns (longer: seq<Step>)
    requires Runs(Init, steps) && WorkOf(Exec(Init, steps)) == Draining(c, [], ReadBoth(o, 1, 0))
    requires var s := Exec(Init, steps); o < |s.objs| && s.objs[o].passed == 1 && s.objs[o].limited == 0
    ensures Runs(Init, longer)
    ensures Exec(Init, longer) == OneTaken(Exec(Init, steps), c, o)
  {
    TakeBoth(Exec(Init, steps), c, o);
    longer := Then(steps, TakePassed);
    longer := Then(longer, TakeLimited);
  }

  lemma TakeBoth(s: State, c: CollId, o: ObjId)
    requires WorkOf(s) == Draining(c, [], ReadBoth(o, 1, 0)) && o < |s.objs| && s.objs[o].passed == 1 && s.objs[o].limited == 0
    ensures Enabled(s, TakePassed) && Enabled(Apply(s, TakePassed), TakeLimited)
    ensures Apply(Apply(s, TakePassed), TakeLimited) == OneTaken(s, c, o)
  {
  }

  /** A flush whose two sinks differ: the increments of CurveDeltas.RecycledKeyDiverges come out of two collectors. */
  lemma DivergingFlush(k: StatKey, e: Dim, f: Dim) returns (steps: seq<Step>)
    requires e != f
    ensures Runs(Init, steps) && Enabled(Exec(Init, steps), Export)
    ensures var log := Exec(Init, steps).log;
            CurveDeltas.Rows(log) == [CurveDeltas.Row(CurveDeltas.Sample(k, e), Stats(2, 0))]
            && CurveDeltas.DimSum(log, e, Passed) == 1 && CurveDeltas.DimSum(log, f, Passed) == 1
  {
    steps := TwoRulesRun(k, e, f);
    steps := Then(steps, Snapshot([0, 1]));
    steps := Then(steps, DrainDropped([]));
    steps := DrainOne(steps, 0, k, 0);
    steps := DrainOne(steps, 1, k, 1);
    assert Exec(Init, steps).log
        == [CurveDeltas.Delta(Some(CurveDeltas.Sample(k, e)), Stats(1, 0)),
            CurveDeltas.Delta(Some(CurveDeltas.Sample(k, f)), Stats(1, 0))];
    CurveDeltas.RecycledKeyDiverges(k, e, f);
  }
}
