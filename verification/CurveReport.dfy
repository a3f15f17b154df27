/**
 The stand-alone file plugin: collectors of open and of closed streams, the merge pass of the curve reporter in its curve
 and precision variants, and the record that is printed from it.
 */
module CurveReport {
  import opened StatTypes
  import opened Sums
  import opened Wrappers

  /** Amounts with the time of the last fetch. */
  datatype Data = Data(stats: Stats, lastFetchMs: int)

  datatype StatValue = StatValue(key: StatKey, dim: Dim, durationMs: int, curve: Data, precision: Data,
                                 expireMs: int, lastUpdateMs: int)

  /** The key of the merge: the whole entry key for curves, the counter alone for precision. */
  datatype GroupKey = ByEntry(key: StatKey) | ByCounter(counterKey: nat)

  type Merged = map<GroupKey, StatValue>

  function GroupOf(v: StatValue, counterOnly: bool): GroupKey {
    if counterOnly then ByCounter(v.key.counterKey) else ByEntry(v.key)
  }

  /** The curve amounts merged for an entry key. */
  function MergedCurve(m: Merged, k: StatKey, ch: Channel): nat {
    if ByEntry(k) in m then Pick(m[ByEntry(k)].curve.stats, ch) else 0
  }

  /** The tags that the merge has for an entry key. */
  function DimOf(m: Merged, k: StatKey): Option<Dim> {
    if ByEntry(k) in m then Some(m[ByEntry(k)].dim) else None
  }

  function Either(a: Option<Dim>, b: Option<Dim>): Option<Dim> {
    if a.Some? then a else b
  }

  /** In a curve merge every group is the entry key of its value. */
  ghost predicate EntryGroups(m: Merged) {
    forall g :: g in m ==> g == ByEntry(m[g].key)
  }

  /** A precision amount is taken only after a full period. */
  predicate NeedProcess(isCurve: bool, data: Data, curTimeMs: int, durationMs: int) {
    isCurve || curTimeMs - data.lastFetchMs >= durationMs
  }

  function Fetch(v: StatValue, isCurve: bool): Data {
    if isCurve then v.curve else v.precision
  }

  function WithData(v: StatValue, isCurve: bool, d: Data): StatValue {
    if isCurve then v.(curve := d) else v.(precision := d)
  }

  type Values = map<StatKey, StatValue>

  /** The curve amounts held for an entry key. */
  function CurveIn(vs: Values, k: StatKey, ch: Channel): nat {
    if k in vs then Pick(vs[k].curve.stats, ch) else 0
  }

  /** The tags that a collector has for an entry key. */
  function DimIn(vs: Values, k: StatKey): Option<Dim> {
    if k in vs then Some(vs[k].dim) else None
  }

  /** The tags of the first of several collectors that has the entry key. */
  function FirstDim(vss: seq<Values>, k: StatKey): Option<Dim> {
    if vss == [] then None else Either(FirstDim(vss[..|vss| - 1], k), DimIn(vss[|vss| - 1], k))
  }

  ghost predicate Keyed(vs: Values) {
    forall k :: k in vs ==> vs[k].key == k
  }

  /** An entry that has been silent for longer than its expiry. */
  predicate Expired(v: StatValue, nowMs: int) {
    nowMs - v.lastUpdateMs > v.expireMs
  }

  function ExpiredKeys(vs: Values, keys: set<StatKey>, enableExpire: bool, nowMs: int): set<StatKey> {
    set k | k in keys && k in vs && enableExpire && Expired(vs[k], nowMs)
  }

  lemma ExpiredKeysAppend(vs: Values, keys: set<StatKey>, k: StatKey, enableExpire: bool, nowMs: int)
    requires k in vs
    ensures ExpiredKeys(vs, keys + {k}, enableExpire, nowMs)
         == ExpiredKeys(vs, keys, enableExpire, nowMs) + if enableExpire && Expired(vs[k], nowMs) then {k} else {}
  {
  }

  lemma ExpiredKeysExact(vs: Values, enableExpire: bool, nowMs: int)
    ensures vs - ExpiredKeys(vs, vs.Keys, enableExpire, nowMs) == Unexpired(vs, enableExpire, nowMs)
  {
  }

  function Unexpired(vs: Values, enableExpire: bool, nowMs: int): Values {
    map k | k in vs && !(enableExpire && Expired(vs[k], nowMs)) :: vs[k]
  }

  /** The dump lists the entries of the given keys, each once. */
  ghost predicate IsDump(dump: seq<StatValue>, vs: Values, keys: set<StatKey>) {
    && (forall i :: 0 <= i < |dump| ==> dump[i].key in vs && dump[i] == vs[dump[i].key])
    && (forall i, j :: 0 <= i < j < |dump| ==> dump[i].key != dump[j].key)
    && KeysOf(dump) == keys
  }

  function KeysOf(dump: seq<StatValue>): set<StatKey> {
    set i | 0 <= i < |dump| :: dump[i].key
  }

  lemma KeysOfAppend(dump: seq<StatValue>, v: StatValue)
    ensures KeysOf(dump + [v]) == KeysOf(dump) + {v.key}
  {
    forall k | k in KeysOf(dump) + {v.key} ensures k in KeysOf(dump + [v]) {
      if k in KeysOf(dump) {
        var i :| 0 <= i < |dump| && dump[i].key == k;
        assert (dump + [v])[i].key == k;
      } else {
        assert (dump + [v])[|dump|].key == k;
      }
    }
  }

  lemma KeysOfPrefix(dump: seq<StatValue>, i: nat)
    requires i < |dump|
    ensures KeysOf(dump[..i + 1]) == KeysOf(dump[..i]) + {dump[i].key}
  {
    assert dump[..i + 1] == dump[..i] + [dump[i]];
    KeysOfAppend(dump[..i], dump[i]);
  }

  /** The next value of a dump is one that has not been visited yet. */
  lemma NextOfDump(dump: seq<StatValue>, vs: Values, i: nat)
    requires IsDump(dump, vs, vs.Keys) && i < |dump|
    ensures dump[i].key in vs && dump[i] == vs[dump[i].key] && dump[i].key !in KeysOf(dump[..i])
    ensures KeysOf(dump[..i + 1]) == KeysOf(dump[..i]) + {dump[i].key}
  {
    KeysOfPrefix(dump, i);
  }

  lemma IsDumpAppend(dump: seq<StatValue>, vs: Values, keys: set<StatKey>, k: StatKey)
    requires IsDump(dump, vs, keys) && Keyed(vs) && k in vs && k !in keys
    ensures IsDump(dump + [vs[k]], vs, keys + {k})
  {
    KeysOfAppend(dump, vs[k]);
    forall i | 0 <= i < |dump| ensures dump[i].key != k {
      assert dump[i].key in KeysOf(dump);
    }
  }

  /** The collector of one stream. */
  class Collector {
    var values: Values

    constructor ()
      ensures values == map[]
    {
      values := map[];
    }

    /** Adds a report to its entry, which keeps its tags; a new entry is a copy of the report. */
    method AddStatValue(value: StatValue)
      requires Keyed(values)
      modifies this
      ensures Keyed(values)
      ensures forall k, ch :: CurveIn(values, k, ch)
                == CurveIn(old(values), k, ch) + if k == value.key then Pick(value.curve.stats, ch) else 0
      ensures values.Keys == old(values).Keys + {value.key}
      ensures forall k :: k in old(values) ==> values[k].dim == old(values)[k].dim
      ensures forall k :: k in old(values) && k != value.key ==> values[k] == old(values)[k]
      ensures var e := values[value.key];
              e.lastUpdateMs == value.lastUpdateMs && e.expireMs == value.expireMs
      ensures var was := if value.key in old(values) then old(values)[value.key].precision.stats else Stats(0, 0);
              values[value.key].precision.stats == was.Plus(value.precision.stats)
      ensures value.key !in old(values) ==> values[value.key] == value
    {
      if value.key !in values {
        values := values[value.key := value];
      } else {
        var e := values[value.key];
        values := values[value.key := e.(
          precision := e.precision.(stats := e.precision.stats.Plus(value.precision.stats)),
          curve := e.curve.(stats := e.curve.stats.Plus(value.curve.stats)),
          expireMs := value.expireMs, lastUpdateMs := value.lastUpdateMs)];
      }
    }

    /** The entries in some order; with expiry, those that have been silent too long leave the map but not the dump. */
    method DumpAndExpire(enableExpire: bool, nowMs: int) returns (dump: seq<StatValue>)
      requires Keyed(values)
      modifies this
      ensures IsDump(dump, old(values), old(values).Keys)
      ensures values == Unexpired(old(values), enableExpire, nowMs)
      ensures forall k :: k in values <==>
                k in old(values)
                && (!enableExpire || nowMs - old(values)[k].lastUpdateMs <= old(values)[k].expireMs)
    {
      dump := [];
      var todo := values.Keys;
      var expiredKeys: set<StatKey> := {};
      while todo != {}
        invariant todo <= values.Keys && values == old(values)
        invariant IsDump(dump, values, values.Keys - todo)
        invariant expiredKeys == ExpiredKeys(values, values.Keys - todo, enableExpire, nowMs)
        decreases |todo|
      {
        var key :| key in todo;
        IsDumpAppend(dump, values, values.Keys - todo, key);
        dump := dump + [values[key]];
        ExpiredKeysAppend(values, values.Keys - todo, key, enableExpire, nowMs);
        assert values.Keys - (todo - {key}) == values.Keys - todo + {key};
        todo := todo - {key};
        if enableExpire && Expired(values[key], nowMs) {
          expiredKeys := expiredKeys + {key};
        }
      }
      assert values.Keys - todo == values.Keys;
      ExpiredKeysExact(values, enableExpire, nowMs);
      values := values - expiredKeys;
    }

    /** Subtracts an amount from an entry and marks it as fetched; an entry that has expired is not in the map any more. */
    method TakeOut(key: StatKey, isCurve: bool, amount: Stats, nowMs: int)
      requires key in values ==> Fetch(values[key], isCurve).stats.Covers(amount)
      modifies this
      ensures values == if key !in old(values) then old(values)
                        else
                          var d := Fetch(old(values)[key], isCurve);
                          old(values)[key := WithData(old(values)[key], isCurve, Data(d.stats.Minus(amount), nowMs))]
    {
      if key in values {
        var d := Fetch(values[key], isCurve);
        values := values[key := WithData(values[key], isCurve, Data(d.stats.Minus(amount), nowMs))];
      }
    }
  }

  /** The merge after one value: added to its group if that exists, otherwise a clone of it. */
  function MergedWith(m: Merged, v: StatValue, isCurve: bool, nowMs: int): Merged {
    var g, d := GroupOf(v, !isCurve), Fetch(v, isCurve);
    if !NeedProcess(isCurve, d, nowMs, v.durationMs) then m
    else if g in m then
      var there := Fetch(m[g], isCurve);
      m[g := WithData(m[g], isCurve, there.(stats := there.stats.Plus(d.stats)))]
    else m[g := WithData(v, isCurve, d.(lastFetchMs := nowMs))]
  }

  /** An entry that is gone, or still holds what was read from it. */
  predicate Holds(vs: Values, v: StatValue, isCurve: bool) {
    v.key in vs ==> Fetch(vs[v.key], isCurve).stats.Covers(Fetch(v, isCurve).stats)
  }

  /** The collector after one value: what was read is subtracted, or only marked as fetched in shared curve mode. */
  function TakenOut(vs: Values, v: StatValue, isCurve: bool, clear: bool, nowMs: int): Values
    requires Holds(vs, v, isCurve)
  {
    var d := Fetch(v, isCurve);
    if v.key !in vs || !NeedProcess(isCurve, d, nowMs, v.durationMs) then vs
    else
      var there := Fetch(vs[v.key], isCurve).stats;
      vs[v.key := WithData(vs[v.key], isCurve, Data(if clear then there.Minus(d.stats) else there, nowMs))]
  }

  /**
   Streams go on adding between the clone and the subtraction: whatever the collector has grown to by then, what the
   merge gains for a key is what the collector loses.
   */
  lemma CloneThenSubtract(m: Merged, v: StatValue, grown: Values, nowMs: int, k: StatKey, ch: Channel)
    requires v.key in grown && Holds(grown, v, true)
    ensures MergedCurve(MergedWith(m, v, true, nowMs), k, ch) + CurveIn(TakenOut(grown, v, true, true, nowMs), k, ch)
         == MergedCurve(m, k, ch) + CurveIn(grown, k, ch)
  {
    MergeOneCurve(m, v, nowMs);
  }

  /** The progress of draining one collector: what is done has moved to the merge, the rest is where it was. */
  ghost predicate DrainedSoFar(m0: Merged, m: Merged, was: Values, now: Values, done: set<StatKey>,
                               isCurve: bool, shared: bool) {
    && Keyed(now) && now.Keys <= was.Keys && (!isCurve || shared ==> now.Keys == was.Keys)
    && (isCurve && EntryGroups(m0) ==> EntryGroups(m))
    && (forall k :: k in now && k !in done ==> now[k] == was[k])
    && (isCurve ==> forall k, ch :: MergedCurve(m, k, ch)
                              == MergedCurve(m0, k, ch) + if k in done then CurveIn(was, k, ch) else 0)
    && (isCurve ==> forall k :: DimOf(m, k) == Either(DimOf(m0, k), if k in done then DimIn(was, k) else None))
    && (forall k, ch :: k in now && k in done ==>
          CurveIn(now, k, ch) == if isCurve && !shared then 0 else CurveIn(was, k, ch))
  }

  /** The precision amounts merged for a counter. */
  function MergedPrecision(m: Merged, counterKey: nat, ch: Channel): nat {
    if ByCounter(counterKey) in m then Pick(m[ByCounter(counterKey)].precision.stats, ch) else 0
  }

  /**
   A precision amount waits for a full period of its rule since it was last fetched; then it goes to its counter's group,
   and what the group gains the entry loses.
   */
  lemma PrecisionStep(m: Merged, v: StatValue, grown: Values, nowMs: int, ch: Channel)
    requires v.key in grown && Holds(grown, v, false)
    ensures var m', now := MergedWith(m, v, false, nowMs), TakenOut(grown, v, false, true, nowMs);
            if nowMs - v.precision.lastFetchMs < v.durationMs then m' == m && now == grown
            else
              var k, amount := v.key.counterKey, Pick(v.precision.stats, ch);
              && MergedPrecision(m', k, ch) == MergedPrecision(m, k, ch) + amount
              && Pick(now[v.key].precision.stats, ch) + amount == Pick(grown[v.key].precision.stats, ch)
              && now[v.key].precision.lastFetchMs == nowMs && now[v.key].curve == grown[v.key].curve
  {
  }

  /** Of an entry that has not grown since it was read, a curve pass leaves nothing, and a precision pass its curve. */
  lemma TakenOutExact(vs: Values, v: StatValue, isCurve: bool, clear: bool, nowMs: int, ch: Channel)
    requires v.key in vs && vs[v.key] == v
    ensures CurveIn(TakenOut(vs, v, isCurve, clear, nowMs), v.key, ch) == if isCurve && clear then 0 else Pick(v.curve.stats, ch)
  {
  }

  /** Every value moves exactly its own amounts. */
  lemma DrainStep(m0: Merged, m: Merged, was: Values, now: Values, done: set<StatKey>, v: StatValue,
                  isCurve: bool, shared: bool, nowMs: int)
    requires DrainedSoFar(m0, m, was, now, done, isCurve, shared) && Keyed(was)
    requires v.key in was && v == was[v.key] && v.key !in done
    ensures Holds(now, v, isCurve)
    ensures DrainedSoFar(m0, MergedWith(m, v, isCurve, nowMs), was, TakenOut(now, v, isCurve, !shared || !isCurve, nowMs),
                         done + {v.key}, isCurve, shared)
    ensures TakenOut(now, v, isCurve, !shared || !isCurve, nowMs).Keys == now.Keys
  {
    var m', now' := MergedWith(m, v, isCurve, nowMs), TakenOut(now, v, isCurve, !shared || !isCurve, nowMs);
    assert v.key in now ==> now[v.key] == v;
    forall k, ch | k in now' && k in done + {v.key}
      ensures CurveIn(now', k, ch) == if isCurve && !shared then 0 else CurveIn(was, k, ch) {
      if k == v.key {
        TakenOutExact(now, v, isCurve, !shared || !isCurve, nowMs, ch);
      } else {
        assert k in now && k in done && now'[k] == now[k];
        assert CurveIn(now', k, ch) == CurveIn(now, k, ch);
      }
    }
    if isCurve {
      MergeOneCurve(m, v, nowMs);
      forall k, ch ensures MergedCurve(m', k, ch)
                        == MergedCurve(m0, k, ch) + if k in done + {v.key} then CurveIn(was, k, ch) else 0 {
        assert CurveIn(was, v.key, ch) == Pick(v.curve.stats, ch);
      }
    }
  }

  /** A curve value is merged under its own entry key. */
  lemma MergeOneCurve(m: Merged, v: StatValue, nowMs: int)
    ensures var m' := MergedWith(m, v, true, nowMs);
            && (forall k, ch :: MergedCurve(m', k, ch)
                             == MergedCurve(m, k, ch) + if k == v.key then Pick(v.curve.stats, ch) else 0)
            && (EntryGroups(m) ==> EntryGroups(m'))
            && (forall k :: DimOf(m', k) == Either(DimOf(m, k), if k == v.key then Some(v.dim) else None))
  {
    var m' := MergedWith(m, v, true, nowMs);
    if EntryGroups(m) {
      forall g | g in m' ensures g == ByEntry(m'[g].key) {
        assert g in m ==> g == ByEntry(m[g].key);
      }
    }
  }

  /** The curve amounts of an entry key in several collectors. */
  function Held(vss: seq<Values>, k: StatKey, ch: Channel): int {
    Sum(Amounts(vss, k, ch))
  }

  function Amounts(vss: seq<Values>, k: StatKey, ch: Channel): (s: seq<int>)
    ensures |s| == |vss|
  {
    seq(|vss|, i requires 0 <= i < |vss| => CurveIn(vss[i], k, ch))
  }

  lemma HeldUpdate(vss: seq<Values>, i: nat, vs: Values, k: StatKey, ch: Channel)
    requires i < |vss|
    ensures Held(vss[i := vs], k, ch) == Held(vss, k, ch) - CurveIn(vss[i], k, ch) + CurveIn(vs, k, ch)
  {
    assert Amounts(vss[i := vs], k, ch) == Amounts(vss, k, ch)[i := CurveIn(vs, k, ch)];
    SumUpdate(Amounts(vss, k, ch), i, CurveIn(vs, k, ch));
  }

  lemma HeldConcat(v: seq<Values>, w: seq<Values>, k: StatKey, ch: Channel)
    ensures Held(v + w, k, ch) == Held(v, k, ch) + Held(w, k, ch)
  {
    assert Amounts(v + w, k, ch) == Amounts(v, k, ch) + Amounts(w, k, ch);
    SumConcat(Amounts(v, k, ch), Amounts(w, k, ch));
  }

  lemma HeldAppend(v: seq<Values>, vs: Values, k: StatKey, ch: Channel)
    ensures Held(v + [vs], k, ch) == Held(v, k, ch) + CurveIn(vs, k, ch)
  {
    assert Amounts(v + [vs], k, ch) == Amounts(v, k, ch) + [CurveIn(vs, k, ch)];
    SumAppend(Amounts(v, k, ch), CurveIn(vs, k, ch));
  }

  lemma HeldNothing(vss: seq<Values>, k: StatKey, ch: Channel)
    requires forall i :: 0 <= i < |vss| ==> CurveIn(vss[i], k, ch) == 0
    ensures Held(vss, k, ch) == 0
  {
    SumZero(Amounts(vss, k, ch));
  }

  /** Amounts booked per entry key. */
  type Book = map<StatKey, Stats>

  function Booked(b: Book, k: StatKey, ch: Channel): nat {
    if k in b then Pick(b[k], ch) else 0
  }

  function BookIn(b: Book, k: StatKey, s: Stats): Book {
    b[k := if k in b then b[k].Plus(s) else s]
  }

  /** A printed line: the limited count comes first. */
  datatype ReportItem = ReportItem(key: StatKey, dim: Dim, limited: nat, passed: nat)

  /** What a record shows for an entry key. */
  function Shown(tags: seq<ReportItem>, k: StatKey, ch: Channel): nat {
    if tags == [] then 0
    else
      var t := tags[|tags| - 1];
      Shown(tags[..|tags| - 1], k, ch) + if t.key == k then Pick(Stats(t.passed, t.limited), ch) else 0
  }

  /** The tags of the line that a record has for an entry key. */
  function LineOf(tags: seq<ReportItem>, k: StatKey): Option<Dim> {
    if tags == [] then None
    else
      var t := tags[|tags| - 1];
      Either(LineOf(tags[..|tags| - 1], k), if t.key == k then Some(t.dim) else None)
  }

  ghost function Contents(cs: seq<Collector>): (vss: seq<Values>)
    reads cs
    ensures |vss| == |cs| && forall i :: 0 <= i < |cs| ==> vss[i] == cs[i].values
  {
    seq(|cs|, i requires 0 <= i < |cs| reads cs => cs[i].values)
  }

  lemma LineAppend(tags: seq<ReportItem>, t: ReportItem)
    ensures forall k, ch :: Shown(tags + [t], k, ch)
                         == Shown(tags, k, ch) + if t.key == k then Pick(Stats(t.passed, t.limited), ch) else 0
    ensures forall k :: LineOf(tags + [t], k) == Either(LineOf(tags, k), if t.key == k then Some(t.dim) else None)
  {
    assert (tags + [t])[..|tags|] == tags;
  }

  ghost predicate Distinct(cs: seq<Collector>) {
    forall i, j :: 0 <= i < j < |cs| ==> cs[i] != cs[j]
  }

  /** Moving an element from one list to the end of the other keeps all elements, and keeps them distinct. */
  lemma MoveKeepsDistinct(a: seq<Collector>, b: seq<Collector>, i: nat)
    requires Distinct(a + b) && i < |a|
    ensures var moved := (a[..i] + a[i + 1..]) + (b + [a[i]]);
            Distinct(moved) && forall c :: c in moved <==> c in a + b
  {
    var all, moved := a + b, (a[..i] + a[i + 1..]) + (b + [a[i]]);
    var n := |all|;
    forall l | 0 <= l < n ensures moved[l] == all[if l == n - 1 then i else if l < i then l else l + 1] {}
    forall c | c in all ensures c in moved {
      var p :| 0 <= p < n && all[p] == c;
      assert moved[if p == i then n - 1 else if p < i then p else p - 1] == c;
    }
  }

  ghost predicate Balanced(added: Book, printed: Book, live: seq<Values>, dropped: seq<Values>) {
    forall k, ch :: Booked(added, k, ch) == Booked(printed, k, ch) + Held(live, k, ch) + Held(dropped, k, ch)
  }

  /** What the collectors gain by a report is what is booked as added. */
  lemma ReportBalance(added: Book, printed: Book, value: StatValue, live: seq<Values>, i: nat, now: Values, dropped: seq<Values>)
    requires i < |live|
    requires Balanced(added, printed, live, dropped)
    requires forall k, ch ::
               CurveIn(now, k, ch) == CurveIn(live[i], k, ch) + if k == value.key then Pick(value.curve.stats, ch) else 0
    ensures Balanced(BookIn(added, value.key, value.curve.stats), printed, live[i := now], dropped)
  {
    forall k, ch ensures Booked(BookIn(added, value.key, value.curve.stats), k, ch)
                      == Booked(printed, k, ch) + Held(live[i := now], k, ch) + Held(dropped, k, ch) {
      HeldUpdate(live, i, now, k, ch);
    }
  }

  class RateLimitCurveReporter {
    const sharedCollector: bool
    var collectors: seq<Collector>
    var droppedCollectors: seq<Collector>
    /** All curve amounts ever added to a collector, and all ever printed. */
    ghost var added: Book
    ghost var printed: Book

    ghost predicate Wired()
      reads this, collectors, droppedCollectors
    {
      && Distinct(collectors + droppedCollectors)
      && forall c :: c in collectors + droppedCollectors ==> Keyed(c.values)
    }

    /** Stand-alone mode: what was added has been printed or is still in an open or a closed collector. */
    ghost predicate Conserved(k: StatKey, ch: Channel)
      reads this, collectors, droppedCollectors
    {
      Booked(added, k, ch) == Booked(printed, k, ch)
        + Held(Contents(collectors), k, ch) + Held(Contents(droppedCollectors), k, ch)
    }

    ghost predicate Valid()
      reads this, collectors, droppedCollectors
    {
      Wired() && (!sharedCollector ==> forall k, ch :: Conserved(k, ch))
    }

    constructor (sharedCollector: bool)
      ensures this.sharedCollector == sharedCollector && Valid()
      ensures collectors == [] && droppedCollectors == [] && added == map[] && printed == map[]
    {
      this.sharedCollector := sharedCollector;
      collectors, droppedCollectors := [], [];
      added, printed := map[], map[];
    }

    method CreateCollector() returns (c: Collector)
      requires Valid()
      modifies this`collectors
      ensures Valid() && fresh(c) && collectors == old(collectors) + [c] && c.values == map[]
    {
      c := new Collector();
      ghost var before := Contents(collectors);
      assert c !in collectors + droppedCollectors;
      ghost var all := collectors + droppedCollectors;
      ghost var n := |collectors|;
      collectors := collectors + [c];
      assert collectors + droppedCollectors == all[..n] + [c] + all[n..];
      assert Contents(collectors) == before + [map[]];
      forall k, ch | !sharedCollector ensures Conserved(k, ch) {
        assert old(Conserved(k, ch));
        HeldAppend(before, map[], k, ch);
      }
    }

    /** A stream reports to its collector, which is still open. */
    method Report(i: nat, value: StatValue)
      requires Valid() && i < |collectors|
      modifies this`added, collectors[i]
      ensures Valid() && added == BookIn(old(added), value.key, value.curve.stats)
      ensures unchanged(this`collectors) && unchanged(this`droppedCollectors) && unchanged(this`printed)
    {
      ghost var before, dropped := Contents(collectors), Contents(droppedCollectors);
      var c := collectors[i];
      forall k, ch | !sharedCollector
        ensures Booked(added, k, ch) == Booked(printed, k, ch) + Held(before, k, ch) + Held(dropped, k, ch) {
        assert Conserved(k, ch);
      }
      assert c == (collectors + droppedCollectors)[i];
      ghost var all := collectors + droppedCollectors;
      c.AddStatValue(value);
      added := BookIn(added, value.key, value.curve.stats);
      forall j | 0 <= j < |all| ensures j != i ==> all[j] != c {}
      forall j | 0 <= j < |droppedCollectors| ensures droppedCollectors[j].values == dropped[j] {
        assert all[|collectors| + j] == droppedCollectors[j];
      }
      forall j | 0 <= j < |collectors| && j != i ensures collectors[j].values == before[j] {
        assert all[j] == collectors[j];
      }
      assert Contents(collectors) == before[i := c.values] && Contents(droppedCollectors) == dropped;
      if !sharedCollector {
        ReportBalance(old(added), printed, value, before, i, c.values, dropped);
      }
    }

    /** Giving back moves the collector from one map to the other. */
    method DropCollector(i: nat)
      requires Valid() && i < |collectors|
      modifies this`collectors, this`droppedCollectors
      ensures Valid()
      ensures collectors == old(collectors)[..i] + old(collectors)[i + 1..]
      ensures droppedCollectors == old(droppedCollectors) + [old(collectors)[i]]
    {
      ghost var live, dropped := Contents(collectors), Contents(droppedCollectors);
      var c := collectors[i];
      MoveKeepsDistinct(collectors, droppedCollectors, i);
      collectors := collectors[..i] + collectors[i + 1..];
      droppedCollectors := droppedCollectors + [c];
      forall k, ch | !sharedCollector ensures Conserved(k, ch) {
        assert old(Conserved(k, ch));
        assert live == live[..i] + [c.values] + live[i + 1..];
        assert Contents(collectors) == live[..i] + live[i + 1..];
        assert Contents(droppedCollectors) == dropped + [c.values];
        HeldAppend(live[..i], c.values, k, ch);
        HeldConcat(live[..i] + [c.values], live[i + 1..], k, ch);
        HeldConcat(live[..i], live[i + 1..], k, ch);
        HeldAppend(dropped, c.values, k, ch);
      }
    }

    /** Moves one value into the merge: clone first, then take out exactly what was cloned or added. */
    method ProcessValue(statValues: Merged, collector: Collector, v: StatValue, isCurve: bool, curTimeMs: int)
      returns (merged: Merged)
      requires Keyed(collector.values) && Holds(collector.values, v, isCurve)
      modifies collector
      ensures merged == MergedWith(statValues, v, isCurve, curTimeMs)
      ensures collector.values == TakenOut(old(collector.values), v, isCurve, !sharedCollector || !isCurve, curTimeMs)
    {
      merged := statValues;
      var data := Fetch(v, isCurve);
      if !NeedProcess(isCurve, data, curTimeMs, v.durationMs) {
        return;
      }
      var clearCurve := !sharedCollector || !isCurve;
      var statKey := GroupOf(v, !isCurve);
      data := data.(lastFetchMs := curTimeMs);
      if statKey in merged {
        var there := Fetch(merged[statKey], isCurve);
        merged := merged[statKey := WithData(merged[statKey], isCurve, there.(stats := there.stats.Plus(data.stats)))];
      } else {
        merged := merged[statKey := WithData(v, isCurve, data)];
      }
      collector.TakeOut(v.key, isCurve, if clearCurve then data.stats else Stats(0, 0), curTimeMs);
    }

    /**
     Merges one collector. The curve pass moves every curve amount of the collector into the merge, and leaves it in
     place only in shared mode; the precision pass leaves curve amounts and entries alone in both modes.
     */
    method ProcessCollector(statValues: Merged, collector: Collector, isCurve: bool, nowMs: int) returns (merged: Merged)
      requires Keyed(collector.values)
      modifies collector
      ensures Keyed(collector.values)
      ensures isCurve ==> forall k, ch ::
                MergedCurve(merged, k, ch) == MergedCurve(statValues, k, ch) + CurveIn(old(collector.values), k, ch)
      ensures forall k, ch :: CurveIn(collector.values, k, ch)
                == if isCurve && !sharedCollector then 0 else CurveIn(old(collector.values), k, ch)
      ensures !isCurve || sharedCollector ==> collector.values.Keys == old(collector.values).Keys
      ensures isCurve && EntryGroups(statValues) ==> EntryGroups(merged)
      ensures isCurve ==> forall k :: DimOf(merged, k) == Either(DimOf(statValues, k), DimIn(old(collector.values), k))
    {
      ghost var was := collector.values;
      var dump := collector.DumpAndExpire(isCurve && !sharedCollector, nowMs);
      merged := statValues;
      ghost var done: set<StatKey> := {};
      for i := 0 to |dump|
        invariant done == KeysOf(dump[..i])
        invariant DrainedSoFar(statValues, merged, was, collector.values, done, isCurve, sharedCollector)
      {
        NextOfDump(dump, was, i);
        merged := DrainNext(merged, collector, dump[i], isCurve, nowMs, statValues, was, done);
        done := done + {dump[i].key};
      }
      assert dump[..|dump|] == dump;
    }

    /** One round of the drain loop. */
    method DrainNext(statValues: Merged, collector: Collector, v: StatValue, isCurve: bool, nowMs: int,
                     ghost m0: Merged, ghost was: Values, ghost done: set<StatKey>) returns (merged: Merged)
      requires DrainedSoFar(m0, statValues, was, collector.values, done, isCurve, sharedCollector) && Keyed(was)
      requires v.key in was && v == was[v.key] && v.key !in done
      modifies collector
      ensures DrainedSoFar(m0, merged, was, collector.values, done + {v.key}, isCurve, sharedCollector)
    {
      DrainStep(m0, statValues, was, collector.values, done, v, isCurve, sharedCollector, nowMs);
      merged := ProcessValue(statValues, collector, v, isCurve, nowMs);
    }

    /** Visits the collectors of one of the two maps in turn. */
    method RangeMerge(statValues: Merged, cs: seq<Collector>, isCurve: bool, nowMs: int) returns (merged: Merged)
      requires Distinct(cs) && forall c :: c in cs ==> Keyed(c.values)
      modifies cs
      ensures forall c :: c in cs ==> Keyed(c.values)
      ensures isCurve ==> forall k, ch ::
                MergedCurve(merged, k, ch) == MergedCurve(statValues, k, ch) + Held(old(Contents(cs)), k, ch)
      ensures forall i, k, ch | 0 <= i < |cs| ::
                CurveIn(cs[i].values, k, ch) == if isCurve && !sharedCollector then 0 else CurveIn(old(cs[i].values), k, ch)
      ensures !isCurve ==> forall i | 0 <= i < |cs| :: cs[i].values.Keys == old(cs[i].values).Keys
      ensures isCurve && EntryGroups(statValues) ==> EntryGroups(merged)
      ensures isCurve ==> forall k :: DimOf(merged, k) == Either(DimOf(statValues, k), FirstDim(old(Contents(cs)), k))
    {
      merged := statValues;
      ghost var vss := Contents(cs);
      for i := 0 to |cs|
        invariant forall c :: c in cs ==> Keyed(c.values)
        invariant forall j :: i <= j < |cs| ==> cs[j].values == vss[j]
        invariant forall j, k, ch | 0 <= j < i ::
          CurveIn(cs[j].values, k, ch) == if isCurve && !sharedCollector then 0 else CurveIn(vss[j], k, ch)
        invariant !isCurve ==> forall j | 0 <= j < i :: cs[j].values.Keys == vss[j].Keys
        invariant isCurve ==> forall k, ch ::
          MergedCurve(merged, k, ch) == MergedCurve(statValues, k, ch) + Held(vss[..i], k, ch)
        invariant isCurve && EntryGroups(statValues) ==> EntryGroups(merged)
        invariant isCurve ==> forall k :: DimOf(merged, k) == Either(DimOf(statValues, k), FirstDim(vss[..i], k))
      {
        assert vss[..i + 1] == vss[..i] + [vss[i]];
        assert vss[..i + 1][..i] == vss[..i];
        forall k, ch ensures Held(vss[..i + 1], k, ch) == Held(vss[..i], k, ch) + CurveIn(vss[i], k, ch) {
          HeldAppend(vss[..i], vss[i], k, ch);
        }
        merged := ProcessCollector(merged, cs[i], isCurve, nowMs);
      }
      assert vss[..|cs|] == vss;
    }

    /**
     One pass over all collectors. A curve pass of the stand-alone plugin collects everything and forgets the closed
     collectors; a precision pass changes no curve amount and expires no entry, and only in shared mode forgets the
     closed collectors, whose curves are then settled elsewhere.
     */
    method MergeAllStatValues(isCurve: bool, nowMs: int) returns (merged: Merged)
      requires Wired()
      modifies this`droppedCollectors, collectors, droppedCollectors
      ensures Wired() && collectors == old(collectors)
      ensures droppedCollectors == if isCurve || sharedCollector then [] else old(droppedCollectors)
      ensures isCurve ==> EntryGroups(merged)
      ensures isCurve ==> forall k, ch ::
                MergedCurve(merged, k, ch)
                == Held(old(Contents(collectors)), k, ch) + Held(old(Contents(droppedCollectors)), k, ch)
      ensures forall c, k, ch | c in old(collectors) + old(droppedCollectors) ::
                CurveIn(c.values, k, ch) == if isCurve && !sharedCollector then 0 else CurveIn(old(c.values), k, ch)
      ensures isCurve ==> forall k ::
                DimOf(merged, k)
                == Either(FirstDim(old(Contents(collectors)), k), FirstDim(old(Contents(droppedCollectors)), k))
      ensures !isCurve ==> forall c | c in old(collectors) + old(droppedCollectors) :: c.values.Keys == old(c.values.Keys)
    {
      ghost var all := collectors + droppedCollectors;
      var n := |collectors|;
      forall i, j | 0 <= i < n && 0 <= j < |droppedCollectors| ensures collectors[i] != droppedCollectors[j] {
        assert all[i] == collectors[i] && all[n + j] == droppedCollectors[j];
      }
      forall i, j | 0 <= i < j < n ensures collectors[i] != collectors[j] {
        assert all[i] == collectors[i] && all[j] == collectors[j];
      }
      forall i, j | 0 <= i < j < |droppedCollectors| ensures droppedCollectors[i] != droppedCollectors[j] {
        assert all[n + i] == droppedCollectors[i] && all[n + j] == droppedCollectors[j];
      }
      ghost var vss := Contents(droppedCollectors);
      merged := RangeMerge(map[], collectors, isCurve, nowMs);
      assert Contents(droppedCollectors) == vss;
      merged := RangeMerge(merged, droppedCollectors, isCurve, nowMs);
      if isCurve || sharedCollector {
        droppedCollectors := [];
      }
    }

    /** The printed value of an entry; the merged copy is reset. */
    method GetValueStr(v: StatValue) returns (limited: nat, passed: nat, reset: StatValue)
      ensures Stats(passed, limited) == v.curve.stats
      ensures reset == v.(curve := v.curve.(stats := Stats(0, 0)))
    {
      limited := v.curve.stats.limited;
      passed := v.curve.stats.passed;
      reset := v.(curve := v.curve.(stats := Stats(0, 0)));
    }

    /**
     The stand-alone plugin's record: one line per entry key, and afterwards everything that was ever added has been
     printed, in this record or an earlier one.
     */
    method BuildReportRecord(nowMs: int) returns (tags: seq<ReportItem>)
      requires Valid() && !sharedCollector
      modifies this`droppedCollectors, this`printed, collectors, droppedCollectors
      ensures Valid() && collectors == old(collectors) && added == old(added)
      ensures forall i, j :: 0 <= i < j < |tags| ==> tags[i].key != tags[j].key
      ensures forall k, ch :: Booked(printed, k, ch) == Booked(old(printed), k, ch) + Shown(tags, k, ch)
      ensures forall k, ch :: Booked(printed, k, ch) == Booked(added, k, ch)
      ensures forall k :: LineOf(tags, k)
                == Either(FirstDim(old(Contents(collectors)), k), FirstDim(old(Contents(droppedCollectors)), k))
    {
      ghost var before := printed;
      var merged := MergeAllStatValues(true, nowMs);
      tags := PrintMerged(merged);
      forall k, ch ensures Booked(printed, k, ch) == Booked(added, k, ch) && Conserved(k, ch) {
        assert old(Conserved(k, ch));
        HeldNothing(Contents(collectors), k, ch);
        HeldNothing(Contents(droppedCollectors), k, ch);
      }
    }

    /** Prints every merged value once. */
    method PrintMerged(merged: Merged) returns (tags: seq<ReportItem>)
      requires EntryGroups(merged)
      modifies this`printed
      ensures forall i, j :: 0 <= i < j < |tags| ==> tags[i].key != tags[j].key
      ensures forall k, ch :: Shown(tags, k, ch) == MergedCurve(merged, k, ch)
      ensures forall k :: LineOf(tags, k) == DimOf(merged, k)
      ensures forall k, ch :: Booked(printed, k, ch) == Booked(old(printed), k, ch) + MergedCurve(merged, k, ch)
    {
      tags := [];
      ghost var before := printed;
      var todo := merged.Keys;
      while todo != {}
        invariant Printing(merged, todo, tags, before, printed)
        decreases |todo|
      {
        var g :| g in todo;
        var v := merged[g];
        var limited, passed, _ := GetValueStr(v);
        PrintStep(merged, todo, tags, before, printed, g);
        tags := tags + [ReportItem(v.key, v.dim, limited, passed)];
        printed := BookIn(printed, v.key, v.curve.stats);
        todo := todo - {g};
      }
    }
  }

  /** How far the printing has come: the groups that are not to do have one line each, with their tags and amounts. */
  ghost predicate Printing(merged: Merged, todo: set<GroupKey>, tags: seq<ReportItem>, before: Book, printed: Book) {
    && todo <= merged.Keys
    && (forall i :: 0 <= i < |tags| ==> ByEntry(tags[i].key) in merged && ByEntry(tags[i].key) !in todo)
    && (forall i, j :: 0 <= i < j < |tags| ==> tags[i].key != tags[j].key)
    && (forall k :: LineOf(tags, k) == if ByEntry(k) in todo then None else DimOf(merged, k))
    && (forall k, ch :: Shown(tags, k, ch) == if ByEntry(k) in todo then 0 else MergedCurve(merged, k, ch))
    && (forall k, ch :: Booked(printed, k, ch) == Booked(before, k, ch) + Shown(tags, k, ch))
  }

  lemma PrintStep(merged: Merged, todo: set<GroupKey>, tags: seq<ReportItem>, before: Book, printed: Book, g: GroupKey)
    requires EntryGroups(merged) && Printing(merged, todo, tags, before, printed) && g in todo
    ensures var v := merged[g];
            var tags' := tags + [ReportItem(v.key, v.dim, v.curve.stats.limited, v.curve.stats.passed)];
            Printing(merged, todo - {g}, tags', before, BookIn(printed, v.key, v.curve.stats))
  {
    var v := merged[g];
    LineAppend(tags, ReportItem(v.key, v.dim, v.curve.stats.limited, v.curve.stats.passed));
  }
}
