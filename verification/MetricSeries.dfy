/**
 The metric series of the Prometheus plugin: what one flush does to the three counter vectors, and the eviction of
 series without traffic.
 */
module MetricSeries {
  import opened StatTypes

  const STALE_FLUSH_CYCLES: nat := 30

  /** The aggregated increments of every flush so far. */
  type History = seq<Ledger>

  /** Dimension k had an increment in one of the last 30 flushes. */
  ghost predicate RecentlyActive(h: History, k: Dim) {
    exists i :: |h| - 30 <= i < |h| && 0 <= i && k in h[i]
  }

  /** Flush i is the latest with an increment for k. */
  ghost predicate LastActive(h: History, k: Dim, i: int) {
    0 <= i < |h| && k in h[i] && forall j :: i < j < |h| ==> k !in h[j]
  }

  /** Flush b created a series for k: it had an increment, and none of the 30 flushes before it had one. */
  ghost predicate Birth(h: History, k: Dim, b: int) {
    0 <= b < |h| && k in h[b] && forall j :: 0 <= j < b && b - 30 <= j ==> k !in h[j]
  }

  ghost predicate LatestBirth(h: History, k: Dim, b: int) {
    Birth(h, k, b) && forall c :: b < c < |h| ==> !Birth(h, k, c)
  }

  /** The increments of k from flush b on. */
  function SumFrom(h: History, k: Dim, ch: Channel, b: nat): nat {
    if |h| <= b then 0 else SumFrom(h[..|h| - 1], k, ch, b) + At(h[|h| - 1], k, ch)
  }

  /** What the plugin knows about a dimension with a live series. */
  ghost predicate Tracked(h: History, k: Dim, seen: nat, born: nat, passed: nat, limited: nat) {
    && LastActive(h, k, seen - 1)
    && LatestBirth(h, k, born)
    && passed == SumFrom(h, k, Passed, born)
    && limited == SumFrom(h, k, Limited, born)
  }

  /** An increment within the window continues the series. */
  lemma Continues(h: History, m: Ledger, k: Dim, seen: nat, born: nat, passed: nat, limited: nat)
    requires Tracked(h, k, seen, born, passed, limited) && RecentlyActive(h, k) && k in m
    ensures Tracked(h + [m], k, |h| + 1, born, passed + m[k].passed, limited + m[k].limited)
  {
    var h' := h + [m];
    BirthStable(h, m, k);
    var i :| |h| - STALE_FLUSH_CYCLES <= i < |h| && 0 <= i && k in h[i];
    assert k in h'[i];
    assert !Birth(h', k, |h|);
    assert h'[..|h|] == h;
  }

  /** An increment after a whole window without one starts a new series at zero. */
  lemma Begins(h: History, m: Ledger, k: Dim)
    requires !RecentlyActive(h, k) && k in m
    ensures Tracked(h + [m], k, |h| + 1, |h|, m[k].passed, m[k].limited)
  {
    var h' := h + [m];
    forall j | 0 <= j < |h| && |h| - STALE_FLUSH_CYCLES <= j ensures k !in h'[j] {
      assert h'[j] == h[j];
    }
    assert h'[..|h|] == h;
    assert SumFrom(h, k, Passed, |h|) == 0 && SumFrom(h, k, Limited, |h|) == 0;
  }

  /** Without an increment what is known stays. */
  lemma Rests(h: History, m: Ledger, k: Dim, seen: nat, born: nat, passed: nat, limited: nat)
    requires Tracked(h, k, seen, born, passed, limited) && k !in m
    ensures Tracked(h + [m], k, seen, born, passed, limited)
  {
    BirthStable(h, m, k);
    assert (h + [m])[..|h|] == h;
    assert forall j :: 0 <= j < |h| ==> (h + [m])[j] == h[j];
  }

  lemma BirthStable(h: History, m: Ledger, k: Dim)
    ensures forall b :: b < |h| ==> (Birth(h + [m], k, b) <==> Birth(h, k, b))
  {
    forall b | b < |h| ensures Birth(h + [m], k, b) <==> Birth(h, k, b) {
      assert forall j :: 0 <= j < |h| ==> (h + [m])[j] == h[j];
    }
  }

  /** The age test of the source decides recent activity. */
  lemma AgeDecides(h: History, k: Dim, seen: nat)
    requires LastActive(h, k, seen - 1)
    ensures |h| - seen < STALE_FLUSH_CYCLES <==> RecentlyActive(h, k)
  {
  }

  /** A dimension with any increment has a latest one. */
  lemma {:induction false} HasLastActive(h: History, k: Dim, i: nat) returns (l: nat)
    requires i < |h| && k in h[i]
    ensures i <= l && LastActive(h, k, l)
  {
    var n := |h| - 1;
    if k in h[n] {
      l := n;
    } else {
      l := HasLastActive(h[..n], k, i);
    }
  }

  function Value(m: map<Dim, nat>, k: Dim): nat {
    if k in m then m[k] else 0
  }

  /** Everything the plugin stores about one dimension; the three has-fields say which series exist. */
  datatype Row = Row(live: bool, seen: nat, born: nat, hasTotal: bool, total: nat, hasPass: bool, passed: nat,
                     hasLimit: bool, limited: nat)

  /** Counting up creates a missing series at zero first. */
  function CountedUp(r: Row, st: Stats, cycle: nat): Row
    requires cycle > 0
  {
    r.(live := true, seen := cycle, born := if r.live then r.born else cycle - 1,
       hasTotal := r.hasTotal || st.passed + st.limited > 0, total := r.total + st.passed + st.limited,
       hasPass := r.hasPass || st.passed > 0, passed := r.passed + st.passed,
       hasLimit := r.hasLimit || st.limited > 0, limited := r.limited + st.limited)
  }

  const Gone := Row(false, 0, 0, false, 0, false, 0, false, 0)

  /** A dimension is stored exactly while it is recently active, and then shows its increments since creation. */
  ghost predicate RowOk(h: History, k: Dim, r: Row) {
    if RecentlyActive(h, k) then
      && r.live && r.hasTotal && r.total == r.passed + r.limited
      && (r.hasPass <==> r.passed > 0) && (r.hasLimit <==> r.limited > 0)
      && Tracked(h, k, r.seen, r.born, r.passed, r.limited)
    else r == Gone
  }

  /** Eviction drops everything about a dimension that has been silent for a whole window. */
  function Evicted(r: Row, cycle: nat): Row {
    if r.live && cycle - r.seen >= STALE_FLUSH_CYCLES then Gone else r
  }

  /** The row of a dimension after a flush. */
  function Flushed(r: Row, k: Dim, agg: Ledger, cycle: nat): Row
    requires cycle > 0
  {
    Evicted(if k in agg then CountedUp(r, agg[k], cycle) else r, cycle)
  }

  /** A flush keeps every row right: counting, creation, re-creation after eviction, eviction and silence. */
  lemma FlushKeepsRow(h: History, agg: Ledger, k: Dim, r: Row)
    requires RowOk(h, k, r) && (k in agg ==> agg[k].passed + agg[k].limited > 0)
    ensures RowOk(h + [agg], k, Flushed(r, k, agg, |h| + 1))
  {
    var h' := h + [agg];
    if k in agg {
      if RecentlyActive(h, k) {
        Continues(h, agg, k, r.seen, r.born, r.passed, r.limited);
      } else {
        Begins(h, agg, k);
      }
      assert k in h'[|h|];
    } else if RecentlyActive(h, k) {
      Rests(h, agg, k, r.seen, r.born, r.passed, r.limited);
      AgeDecides(h', k, r.seen);
    } else {
      assert forall i :: 0 <= i < |h| ==> h'[i] == h[i];
    }
  }

  /** A counter vector after an increment; a zero increment does not create the series. */
  function Increased(m: map<Dim, nat>, k: Dim, n: nat): (r: map<Dim, nat>)
    ensures Value(r, k) == Value(m, k) + n && (k in r <==> k in m || n > 0)
    ensures forall j :: j != k ==> Value(r, j) == Value(m, j) && (j in r <==> j in m)
  {
    if n > 0 then m[k := Value(m, k) + n] else m
  }

  class StaticsWorker {
    var rqTotal: map<Dim, nat>
    var rqPass: map<Dim, nat>
    var rqLimit: map<Dim, nat>
    var flushCycle: nat
    var lastSeen: map<Dim, nat>
    ghost var history: History
    /** The flush that created the series of each live dimension. */
    ghost var born: map<Dim, nat>

    ghost function RowOf(k: Dim): Row
      reads this
    {
      Row(k in lastSeen, Value(lastSeen, k), Value(born, k), k in rqTotal, Value(rqTotal, k),
          k in rqPass, Value(rqPass, k), k in rqLimit, Value(rqLimit, k))
    }

    ghost predicate Valid()
      reads this
    {
      flushCycle == |history| && forall k :: RowOk(history, k, RowOf(k))
    }

    constructor ()
      ensures Valid() && history == []
    {
      rqTotal, rqPass, rqLimit, lastSeen, born := map[], map[], map[], map[], map[];
      flushCycle := 0;
      history := [];
    }

    method CountUp(k: Dim, st: Stats)
      requires flushCycle > 0
      modifies this`rqTotal, this`rqPass, this`rqLimit, this`lastSeen, this`born
      ensures RowOf(k) == CountedUp(old(RowOf(k)), st, flushCycle)
      ensures forall j :: j != k ==> RowOf(j) == old(RowOf(j))
      ensures lastSeen.Keys == old(lastSeen.Keys) + {k}
    {
      rqPass := Increased(rqPass, k, st.passed);
      rqLimit := Increased(rqLimit, k, st.limited);
      rqTotal := Increased(rqTotal, k, st.passed + st.limited);
      born := born[k := if k in lastSeen then Value(born, k) else flushCycle - 1];
      lastSeen := lastSeen[k := flushCycle];
    }

    method DeleteSeries(k: Dim)
      modifies this`rqTotal, this`rqPass, this`rqLimit, this`lastSeen, this`born
      ensures RowOf(k) == Gone && forall j :: j != k ==> RowOf(j) == old(RowOf(j))
    {
      rqTotal := rqTotal - {k};
      rqPass := rqPass - {k};
      rqLimit := rqLimit - {k};
      lastSeen := lastSeen - {k};
      born := born - {k};
    }

    /** Deletes the series of every dimension that has been silent for 30 flushes. */
    method EvictStaleSeries()
      modifies this`rqTotal, this`rqPass, this`rqLimit, this`lastSeen, this`born
      ensures forall k :: RowOf(k) == Evicted(old(RowOf(k)), flushCycle)
    {
      var seen := lastSeen;
      var todo := seen.Keys;
      while todo != {}
        invariant todo <= seen.Keys
        invariant forall k :: RowOf(k) == if k in todo then old(RowOf(k)) else Evicted(old(RowOf(k)), flushCycle)
        decreases |todo|
      {
        var k :| k in todo;
        assert old(RowOf(k)).live && old(RowOf(k)).seen == seen[k];
        if flushCycle - seen[k] >= STALE_FLUSH_CYCLES {
          DeleteSeries(k);
        }
        todo := todo - {k};
      }
    }

    method CountUpAll(agg: Ledger)
      requires flushCycle > 0
      modifies this`rqTotal, this`rqPass, this`rqLimit, this`lastSeen, this`born
      ensures forall k :: RowOf(k) == if k in agg then CountedUp(old(RowOf(k)), agg[k], flushCycle) else old(RowOf(k))
    {
      var todo := agg.Keys;
      while todo != {}
        invariant todo <= agg.Keys
        invariant forall k :: RowOf(k) == if k in agg && k !in todo then CountedUp(old(RowOf(k)), agg[k], flushCycle)
                                          else old(RowOf(k))
        decreases |todo|
      {
        var k :| k in todo;
        CountUp(k, agg[k]);
        todo := todo - {k};
      }
    }

    /**
     The metric half of a flush: counts up every aggregated dimension, then evicts the stale ones. Valid says what
     the series are then: exactly the recently active dimensions, each with its increments since creation.
     */
    method FlushMetrics(agg: Ledger)
      requires Valid()
      requires forall k :: k in agg ==> agg[k].passed + agg[k].limited > 0
      modifies this
      ensures Valid() && history == old(history) + [agg]
    {
      ghost var h := history;
      flushCycle := flushCycle + 1;
      CountUpAll(agg);
      EvictStaleSeries();
      history := h + [agg];
      forall k ensures RowOk(history, k, RowOf(k)) {
        FlushKeepsRow(h, agg, k, old(RowOf(k)));
      }
    }
  }
}
