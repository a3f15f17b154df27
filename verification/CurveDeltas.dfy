/**
 One flush, two sinks: the increments taken out of the collectors are aggregated per dimension for the metrics and per
 entry key for the curve log.
 */
module CurveDeltas {
  import opened StatTypes
  import opened Sums
  import opened Wrappers
  import MetricSeries

  /** One increment taken out of a value object; the sample carries its tags and may be missing. */
  datatype Sample = Sample(key: StatKey, dim: Dim)
  datatype Delta = Delta(sample: Option<Sample>, amount: Stats)

  /** A line of the curve log. */
  datatype Row = Row(sample: Sample, amount: Stats)

  /** Empty increments and increments without a sample are skipped. */
  predicate Counted(d: Delta) {
    d.sample.Some? && (d.amount.passed != 0 || d.amount.limited != 0)
  }

  /** The sum of the increments with a given entry key. */
  function KeySum(ds: seq<Delta>, k: StatKey, ch: Channel): nat {
    if ds == [] then 0
    else
      var d := ds[|ds| - 1];
      KeySum(ds[..|ds| - 1], k, ch) + if d.sample.Some? && d.sample.value.key == k then Pick(d.amount, ch) else 0
  }

  /** The sum of the increments of a dimension. */
  function DimSum(ds: seq<Delta>, e: Dim, ch: Channel): nat {
    if ds == [] then 0
    else
      var d := ds[|ds| - 1];
      DimSum(ds[..|ds| - 1], e, ch) + if d.sample.Some? && d.sample.value.dim == e then Pick(d.amount, ch) else 0
  }

  /** The sum of all increments with a sample. */
  function Total(ds: seq<Delta>, ch: Channel): nat {
    if ds == [] then 0
    else
      var d := ds[|ds| - 1];
      Total(ds[..|ds| - 1], ch) + if d.sample.Some? then Pick(d.amount, ch) else 0
  }

  /** Increment i is the first counted one with its key. */
  predicate FirstOfKey(ds: seq<Delta>, i: int) {
    0 <= i < |ds| && Counted(ds[i])
    && forall j :: 0 <= j < i && Counted(ds[j]) ==> ds[j].sample.value.key != ds[i].sample.value.key
  }

  /** The index of the row of a key, or the number of rows. */
  function Find(rows: seq<Row>, k: StatKey): (i: nat)
    ensures i <= |rows|
    ensures i < |rows| ==> rows[i].sample.key == k
    ensures forall j :: 0 <= j < i ==> rows[j].sample.key != k
  {
    if rows == [] then 0
    else if rows[0].sample.key == k then 0
    else 1 + Find(rows[1..], k)
  }

  /** Books one increment into the table of rows. */
  function Book(rows: seq<Row>, d: Delta): seq<Row> {
    if !Counted(d) then rows
    else
      var i := Find(rows, d.sample.value.key);
      if i < |rows| then rows[i := rows[i].(amount := rows[i].amount.Plus(d.amount))]
      else rows + [Row(d.sample.value, d.amount)]
  }

  function Rows(ds: seq<Delta>): seq<Row> {
    if ds == [] then [] else Book(Rows(ds[..|ds| - 1]), ds[|ds| - 1])
  }

  ghost predicate DistinctKeys(rows: seq<Row>) {
    forall i, j :: 0 <= i < j < |rows| ==> rows[i].sample.key != rows[j].sample.key
  }

  /** One row per distinct key, each row the sum of its increments, and every counted increment has a row. */
  lemma {:induction false} RowsExact(ds: seq<Delta>)
    ensures DistinctKeys(Rows(ds))
    ensures forall i, ch | 0 <= i < |Rows(ds)| :: Pick(Rows(ds)[i].amount, ch) == KeySum(ds, Rows(ds)[i].sample.key, ch)
    ensures forall j | 0 <= j < |ds| && Counted(ds[j]) :: Find(Rows(ds), ds[j].sample.value.key) < |Rows(ds)|
  {
    if ds != [] {
      var p, d := ds[..|ds| - 1], ds[|ds| - 1];
      var before, after := Rows(p), Rows(ds);
      RowsExact(p);
      if Counted(d) {
        var i := Find(before, d.sample.value.key);
        if i == |before| {
          NoneCounted(p, d.sample.value.key);
        }
        forall j | 0 <= j < |ds| && Counted(ds[j]) ensures Find(after, ds[j].sample.value.key) < |after| {
          if j < |p| {
            assert p[j] == ds[j];
            assert after[Find(before, ds[j].sample.value.key)].sample.key == ds[j].sample.value.key;
          } else {
            assert after[i].sample.key == d.sample.value.key;
          }
        }
      }
    }
  }

  lemma {:induction false} NoneCounted(ds: seq<Delta>, k: StatKey)
    requires forall j | 0 <= j < |ds| && Counted(ds[j]) :: ds[j].sample.value.key != k
    ensures KeySum(ds, k, Passed) == 0 && KeySum(ds, k, Limited) == 0
  {
    if ds != [] {
      NoneCounted(ds[..|ds| - 1], k);
    }
  }

  /** Rows come in the order in which their keys first occur, and take their tags from that first increment. */
  lemma {:induction false} FirstSeenOrder(ds: seq<Delta>) returns (first: seq<nat>)
    ensures |first| == |Rows(ds)|
    ensures forall i :: 0 <= i < |first| ==> FirstOfKey(ds, first[i]) && ds[first[i]].sample.value == Rows(ds)[i].sample
    ensures forall i, j :: 0 <= i < j < |first| ==> first[i] < first[j]
  {
    if ds == [] {
      first := [];
    } else {
      var n := |ds| - 1;
      var p, d := ds[..n], ds[n];
      first := FirstSeenOrder(p);
      assert p + [d] == ds;
      forall i | 0 <= i < |first|
        ensures FirstOfKey(ds, first[i]) && ds[first[i]].sample.value == Rows(p)[i].sample == Rows(ds)[i].sample {
        assert FirstOfKey(p, first[i]);
        StaysFirst(p, d, first[i]);
        BookKeepsSample(Rows(p), d, i);
      }
      if Counted(d) && Find(Rows(p), d.sample.value.key) == |Rows(p)| {
        FirstWithoutRow(p, d);
        first := first + [n];
      }
    }
  }

  lemma StaysFirst(p: seq<Delta>, d: Delta, i: nat)
    requires FirstOfKey(p, i)
    ensures FirstOfKey(p + [d], i) && (p + [d])[i] == p[i]
  {
    assert forall j :: 0 <= j < |p| ==> (p + [d])[j] == p[j];
  }

  lemma BookKeepsSample(rows: seq<Row>, d: Delta, i: nat)
    requires i < |rows|
    ensures i < |Book(rows, d)| && Book(rows, d)[i].sample == rows[i].sample
  {
  }

  lemma FirstWithoutRow(p: seq<Delta>, d: Delta)
    requires Counted(d) && Find(Rows(p), d.sample.value.key) == |Rows(p)|
    ensures FirstOfKey(p + [d], |p|)
  {
    RowsExact(p);
    forall j | 0 <= j < |p| && Counted((p + [d])[j]) ensures (p + [d])[j].sample.value.key != d.sample.value.key {
      assert (p + [d])[j] == p[j];
    }
  }

  /** The amounts of the rows, restricted to a dimension. */
  function RowDims(rows: seq<Row>, e: Dim, ch: Channel): (s: seq<int>)
    ensures |s| == |rows|
  {
    seq(|rows|, i requires 0 <= i < |rows| => DimPart(rows[i], e, ch))
  }

  function DimPart(r: Row, e: Dim, ch: Channel): nat {
    if r.sample.dim == e then Pick(r.amount, ch) else 0
  }

  function RowTotals(rows: seq<Row>, ch: Channel): (s: seq<int>)
    ensures |s| == |rows|
  {
    seq(|rows|, i requires 0 <= i < |rows| => Pick(rows[i].amount, ch))
  }

  /** The log shows exactly what the increments add up to. */
  lemma {:induction false} RowTotalsExact(ds: seq<Delta>, ch: Channel)
    ensures Sum(RowTotals(Rows(ds), ch)) == Total(ds, ch)
  {
    if ds != [] {
      var p, d := ds[..|ds| - 1], ds[|ds| - 1];
      RowTotalsExact(p, ch);
      BookTotals(Rows(p), d, ch);
    }
  }

  lemma BookTotals(rows: seq<Row>, d: Delta, ch: Channel)
    ensures Sum(RowTotals(Book(rows, d), ch)) == Sum(RowTotals(rows, ch)) + if Counted(d) then Pick(d.amount, ch) else 0
  {
    if Counted(d) {
      var i := Find(rows, d.sample.value.key);
      if i < |rows| {
        var v := Pick(rows[i].amount, ch) + Pick(d.amount, ch);
        assert RowTotals(Book(rows, d), ch) == RowTotals(rows, ch)[i := v];
        SumUpdate(RowTotals(rows, ch), i, v);
      } else {
        assert RowTotals(Book(rows, d), ch) == RowTotals(rows, ch) + [Pick(d.amount, ch)];
        SumAppend(RowTotals(rows, ch), Pick(d.amount, ch));
      }
    }
  }

  /** Within a flush, increments of one entry key carry one dimension. */
  ghost predicate KeyFixesDim(ds: seq<Delta>) {
    forall i, j | 0 <= i < |ds| && 0 <= j < |ds| && Counted(ds[i]) && Counted(ds[j]) ::
      ds[i].sample.value.key == ds[j].sample.value.key ==> ds[i].sample.value.dim == ds[j].sample.value.dim
  }

  /** The dimension under which the log shows a key. */
  function RowDim(rows: seq<Row>, k: StatKey): Option<Dim> {
    var i := Find(rows, k);
    if i < |rows| then Some(rows[i].sample.dim) else None
  }

  /** What the log shows for a key and a dimension. */
  function Cell(rows: seq<Row>, k: StatKey, e: Dim, ch: Channel): nat {
    var i := Find(rows, k);
    if i < |rows| then DimPart(rows[i], e, ch) else 0
  }

  /** The sum of the increments with a given entry key and dimension. */
  function KeyDimSum(ds: seq<Delta>, k: StatKey, e: Dim, ch: Channel): nat {
    if ds == [] then 0
    else
      var d := ds[|ds| - 1];
      KeyDimSum(ds[..|ds| - 1], k, e, ch)
      + if d.sample.Some? && d.sample.value == Sample(k, e) then Pick(d.amount, ch) else 0
  }

  /** All of a key's amounts are of one dimension, if no increment has the key with another one. */
  lemma {:induction false} OneDimension(ds: seq<Delta>, k: StatKey, e: Dim, ch: Channel)
    requires forall i | 0 <= i < |ds| && Counted(ds[i]) && ds[i].sample.value.key == k :: ds[i].sample.value.dim == e
    ensures KeyDimSum(ds, k, e, ch) == KeySum(ds, k, ch)
    ensures forall f :: f != e ==> KeyDimSum(ds, k, f, ch) == 0
  {
    if ds != [] {
      OneDimension(ds[..|ds| - 1], k, e, ch);
    }
  }

  lemma {:induction false} IncrementShows(ds: seq<Delta>, i: nat, ch: Channel)
    requires i < |ds| && Counted(ds[i])
    ensures KeyDimSum(ds, ds[i].sample.value.key, ds[i].sample.value.dim, ch) >= Pick(ds[i].amount, ch)
  {
    if i < |ds| - 1 {
      IncrementShows(ds[..|ds| - 1], i, ch);
      assert ds[..|ds| - 1][i] == ds[i];
    }
  }

  /** The row of a key has the dimension of one of its increments. */
  lemma RowFromIncrement(ds: seq<Delta>, k: StatKey) returns (i: nat)
    requires RowDim(Rows(ds), k).Some?
    ensures i < |ds| && Counted(ds[i]) && ds[i].sample.value == Sample(k, RowDim(Rows(ds), k).value)
  {
    var first := FirstSeenOrder(ds);
    i := first[Find(Rows(ds), k)];
  }

  lemma CellExact(ds: seq<Delta>, k: StatKey, e: Dim, ch: Channel)
    requires KeyFixesDim(ds)
    ensures Cell(Rows(ds), k, e, ch) == KeyDimSum(ds, k, e, ch)
  {
    RowsExact(ds);
    if RowDim(Rows(ds), k).Some? {
      var i := RowFromIncrement(ds, k);
      OneDimension(ds, k, RowDim(Rows(ds), k).value, ch);
    } else {
      OneDimension(ds, k, e, ch);
      NoneCounted(ds, k);
    }
  }

  /** A key with two dimensions loses one of them in the log. */
  lemma CellDiffers(ds: seq<Delta>, i: nat, j: nat) returns (e: Dim, ch: Channel)
    requires i < |ds| && j < |ds| && Counted(ds[i]) && Counted(ds[j])
    requires ds[i].sample.value.key == ds[j].sample.value.key && ds[i].sample.value.dim != ds[j].sample.value.dim
    ensures var k := ds[i].sample.value.key; Cell(Rows(ds), k, e, ch) != KeyDimSum(ds, k, e, ch)
  {
    var m := if RowDim(Rows(ds), ds[i].sample.value.key) == Some(ds[i].sample.value.dim) then j else i;
    e := ds[m].sample.value.dim;
    ch := if ds[m].amount.passed != 0 then Passed else Limited;
    IncrementShows(ds, m, ch);
  }

  /**
   When the log shows every key's amounts under the dimensions that the metrics show them under: exactly if every key has
   one dimension in the flush.
   */
  lemma LogAgreesExactly(ds: seq<Delta>)
    ensures KeyFixesDim(ds) <==> forall k, e, ch :: Cell(Rows(ds), k, e, ch) == KeyDimSum(ds, k, e, ch)
  {
    if KeyFixesDim(ds) {
      forall k, e, ch ensures Cell(Rows(ds), k, e, ch) == KeyDimSum(ds, k, e, ch) {
        CellExact(ds, k, e, ch);
      }
    } else {
      var i, j :| 0 <= i < |ds| && 0 <= j < |ds| && Counted(ds[i]) && Counted(ds[j])
                  && ds[i].sample.value.key == ds[j].sample.value.key && ds[i].sample.value.dim != ds[j].sample.value.dim;
      var e, ch := CellDiffers(ds, i, j);
    }
  }

  /** Whether an increment is shown under another dimension than its own, and comes to e by that or leaves it. */
  predicate Moves(d: Delta, rows: seq<Row>, e: Dim, into: bool) {
    && Counted(d)
    && var own, shown := d.sample.value.dim, RowDim(rows, d.sample.value.key);
    if into then own != e && shown == Some(e) else own == e && shown != Some(e)
  }

  function Moved(ds: seq<Delta>, rows: seq<Row>, e: Dim, ch: Channel, into: bool): nat {
    if ds == [] then 0
    else
      var d := ds[|ds| - 1];
      Moved(ds[..|ds| - 1], rows, e, ch, into) + if Moves(d, rows, e, into) then Pick(d.amount, ch) else 0
  }

  /** Later increments do not change under which dimension an earlier one is shown. */
  lemma {:induction false} MovedStays(ds: seq<Delta>, rows: seq<Row>, d: Delta, e: Dim, ch: Channel, into: bool)
    requires forall j | 0 <= j < |ds| && Counted(ds[j]) :: RowDim(rows, ds[j].sample.value.key).Some?
    ensures Moved(ds, Book(rows, d), e, ch, into) == Moved(ds, rows, e, ch, into)
  {
    if ds != [] {
      var c := ds[|ds| - 1];
      MovedStays(ds[..|ds| - 1], rows, d, e, ch, into);
      if Counted(c) {
        RowDimStays(rows, d, c.sample.value.key);
      }
    }
  }

  lemma RowDimStays(rows: seq<Row>, d: Delta, k: StatKey)
    ensures RowDim(rows, k).Some? ==> RowDim(Book(rows, d), k) == RowDim(rows, k)
    ensures Counted(d) && d.sample.value.key == k && RowDim(rows, k).None? ==>
              RowDim(Book(rows, d), k) == Some(d.sample.value.dim)
    ensures Counted(d) && d.sample.value.key == k ==> RowDim(Book(rows, d), k).Some?
  {
    var rows' := Book(rows, d);
    var i, i' := Find(rows, k), Find(rows', k);
    if i < |rows| {
      assert rows'[i].sample == rows[i].sample;
    } else if Counted(d) && d.sample.value.key == k {
      assert rows'[|rows|].sample == d.sample.value;
    }
  }

  /** One more increment goes to the dimension of its row. */
  lemma BookDims(rows: seq<Row>, d: Delta, e: Dim, ch: Channel)
    requires Counted(d)
    ensures Sum(RowDims(Book(rows, d), e, ch))
         == Sum(RowDims(rows, e, ch))
            + if RowDim(Book(rows, d), d.sample.value.key) == Some(e) then Pick(d.amount, ch) else 0
  {
    var i := Find(rows, d.sample.value.key);
    RowDimStays(rows, d, d.sample.value.key);
    if i < |rows| {
      DimsUpdate(rows, i, rows[i].(amount := rows[i].amount.Plus(d.amount)), e, ch);
    } else {
      DimsAppend(rows, Row(d.sample.value, d.amount), e, ch);
    }
  }

  /** For all increments: log and metrics differ in a dimension by exactly what moves to it and away from it. */
  lemma {:induction false} RowDimsBalance(ds: seq<Delta>, e: Dim, ch: Channel)
    ensures Sum(RowDims(Rows(ds), e, ch)) + Moved(ds, Rows(ds), e, ch, false)
         == DimSum(ds, e, ch) + Moved(ds, Rows(ds), e, ch, true)
  {
    if ds != [] {
      var p, d := ds[..|ds| - 1], ds[|ds| - 1];
      RowDimsBalance(p, e, ch);
      RowsExact(p);
      MovedStays(p, Rows(p), d, e, ch, false);
      MovedStays(p, Rows(p), d, e, ch, true);
      if Counted(d) {
        BookDims(Rows(p), d, e, ch);
      }
    }
  }

  lemma {:induction false} NothingMoves(all: seq<Delta>, n: nat, e: Dim, ch: Channel)
    requires KeyFixesDim(all) && n <= |all|
    ensures Moved(all[..n], Rows(all), e, ch, false) == 0 && Moved(all[..n], Rows(all), e, ch, true) == 0
  {
    if n > 0 {
      NothingMoves(all, n - 1, e, ch);
      assert all[..n][..n - 1] == all[..n - 1];
      var d := all[n - 1];
      if Counted(d) {
        RowsExact(all);
        var i := RowFromIncrement(all, d.sample.value.key);
      }
    }
  }

  /** If every key has one dimension, log and metrics agree in every dimension. */
  lemma RowDimsExact(ds: seq<Delta>, e: Dim, ch: Channel)
    requires KeyFixesDim(ds)
    ensures Sum(RowDims(Rows(ds), e, ch)) == DimSum(ds, e, ch)
  {
    RowDimsBalance(ds, e, ch);
    NothingMoves(ds, |ds|, e, ch);
    assert ds[..|ds|] == ds;
  }

  lemma DimsUpdate(rows: seq<Row>, i: nat, r: Row, e: Dim, ch: Channel)
    requires i < |rows|
    ensures Sum(RowDims(rows[i := r], e, ch)) == Sum(RowDims(rows, e, ch)) - DimPart(rows[i], e, ch) + DimPart(r, e, ch)
  {
    assert RowDims(rows[i := r], e, ch) == RowDims(rows, e, ch)[i := DimPart(r, e, ch)];
    SumUpdate(RowDims(rows, e, ch), i, DimPart(r, e, ch));
  }

  lemma DimsAppend(rows: seq<Row>, r: Row, e: Dim, ch: Channel)
    ensures Sum(RowDims(rows + [r], e, ch)) == Sum(RowDims(rows, e, ch)) + DimPart(r, e, ch)
  {
    assert RowDims(rows + [r], e, ch) == RowDims(rows, e, ch) + [DimPart(r, e, ch)];
    SumAppend(RowDims(rows, e, ch), DimPart(r, e, ch));
  }

  /** Two increments of one recycled key: the metrics show two dimensions, the log books both under the first. */
  lemma RecycledKeyDiverges(k: StatKey, e: Dim, f: Dim)
    requires e != f
    ensures var ds := [Delta(Some(Sample(k, e)), Stats(1, 0)), Delta(Some(Sample(k, f)), Stats(1, 0))];
            Rows(ds) == [Row(Sample(k, e), Stats(2, 0))] && DimSum(ds, e, Passed) == 1 && DimSum(ds, f, Passed) == 1
  {
    var a, b := Delta(Some(Sample(k, e)), Stats(1, 0)), Delta(Some(Sample(k, f)), Stats(1, 0));
    var ds := [a, b];
    assert ds[..1] == [a] && [a][..0] == [];
    assert Rows([a]) == Book([], a) == [Row(Sample(k, e), Stats(1, 0))];
    assert DimSum([a], e, Passed) == 1 && DimSum([a], f, Passed) == 0;
  }

  /** The map and the order list of the merge loop stand for a table of rows. */
  ghost predicate Mirrors(order: seq<StatKey>, merged: map<StatKey, Row>, rows: seq<Row>) {
    && |order| == |rows|
    && (forall j :: 0 <= j < |rows| ==> order[j] in merged && merged[order[j]] == rows[j] && rows[j].sample.key == order[j])
    && (forall k :: k in merged ==> Find(rows, k) < |rows|)
  }

  lemma BookKeepsFound(rows: seq<Row>, d: Delta, k: StatKey)
    requires Counted(d) && (k == d.sample.value.key || Find(rows, k) < |rows|)
    ensures Find(Book(rows, d), k) < |Book(rows, d)|
  {
    assert Book(rows, d)[Find(rows, k)].sample.key == k;
  }

  /** One round of the merge loop books one increment. */
  method MergeDelta(order: seq<StatKey>, merged: map<StatKey, Row>, d: Delta, ghost rows: seq<Row>)
    returns (order': seq<StatKey>, merged': map<StatKey, Row>)
    requires Mirrors(order, merged, rows) && DistinctKeys(rows)
    ensures Mirrors(order', merged', Book(rows, d))
  {
    order', merged' := order, merged;
    if !Counted(d) {
      return;
    }
    var key := d.sample.value.key;
    if key !in merged {
      merged' := merged[key := Row(d.sample.value, Stats(0, 0))];
      order' := order + [key];
    }
    merged' := merged'[key := merged'[key].(amount := merged'[key].amount.Plus(d.amount))];
    ghost var i := Find(rows, key);
    assert i < |rows| ==> rows[i].sample.key == order[i];
    forall k | k in merged' ensures Find(Book(rows, d), k) < |Book(rows, d)| {
      BookKeepsFound(rows, d, k);
    }
  }

  /** The curve log of a flush: merges increments by entry key, remembering the order of first occurrence. */
  method BuildRecordFromDeltas(deltas: seq<Delta>) returns (tags: seq<Row>)
    ensures tags == Rows(deltas)
  {
    var merged: map<StatKey, Row> := map[];
    var order: seq<StatKey> := [];
    for i := 0 to |deltas|
      invariant Mirrors(order, merged, Rows(deltas[..i]))
    {
      assert deltas[..i + 1][..i] == deltas[..i];
      RowsExact(deltas[..i]);
      order, merged := MergeDelta(order, merged, deltas[i], Rows(deltas[..i]));
    }
    assert deltas[..|deltas|] == deltas;
    tags := [];
    for i := 0 to |order|
      invariant tags == Rows(deltas)[..i]
    {
      tags := tags + [merged[order[i]]];
    }
  }

  /** The metric side of the same flush: aggregates the same increments per dimension. */
  method AggregateDeltas(deltas: seq<Delta>) returns (agg: Ledger)
    ensures forall e, ch :: At(agg, e, ch) == DimSum(deltas, e, ch)
    ensures forall e :: e in agg ==> agg[e].passed + agg[e].limited > 0
  {
    agg := map[];
    for i := 0 to |deltas|
      invariant forall e, ch :: At(agg, e, ch) == DimSum(deltas[..i], e, ch)
      invariant forall e :: e in agg ==> agg[e].passed + agg[e].limited > 0
    {
      var d := deltas[i];
      assert deltas[..i + 1][..i] == deltas[..i];
      if Counted(d) {
        forall e, ch ensures At(Credit(agg, d.sample.value.dim, d.amount), e, ch) == DimSum(deltas[..i + 1], e, ch) {
          CreditAt(agg, d.sample.value.dim, d.amount, e, ch);
        }
        agg := Credit(agg, d.sample.value.dim, d.amount);
      }
    }
    assert deltas[..|deltas|] == deltas;
  }

  /**
   The end of a flush: the same increments drive the metrics and, when a file logger is attached, the curve log. Both
   sinks then show the same amounts, dimension by dimension.
   */
  method FlushSinks(worker: MetricSeries.StaticsWorker, deltas: seq<Delta>, fileLogger: bool)
    returns (agg: Ledger, tags: seq<Row>)
    requires worker.Valid()
    modifies worker
    ensures worker.Valid() && worker.history == old(worker.history) + [agg]
    ensures forall e, ch :: At(agg, e, ch) == DimSum(deltas, e, ch)
    ensures tags == if fileLogger then Rows(deltas) else []
    ensures fileLogger ==> forall ch :: Sum(RowTotals(tags, ch)) == Total(deltas, ch)
    ensures fileLogger && KeyFixesDim(deltas) ==> forall e, ch :: Sum(RowDims(tags, e, ch)) == At(agg, e, ch)
    ensures fileLogger ==> forall e, ch :: Sum(RowDims(tags, e, ch)) + Moved(deltas, tags, e, ch, false)
                                        == At(agg, e, ch) + Moved(deltas, tags, e, ch, true)
    ensures fileLogger ==>
              (KeyFixesDim(deltas) <==> forall k, e, ch :: Cell(tags, k, e, ch) == KeyDimSum(deltas, k, e, ch))
  {
    agg := AggregateDeltas(deltas);
    worker.FlushMetrics(agg);
    tags := [];
    if fileLogger {
      tags := BuildRecordFromDeltas(deltas);
    }
    forall ch ensures Sum(RowTotals(Rows(deltas), ch)) == Total(deltas, ch) {
      RowTotalsExact(deltas, ch);
    }
    LogAgreesExactly(deltas);
    forall e, ch ensures Sum(RowDims(Rows(deltas), e, ch)) + Moved(deltas, Rows(deltas), e, ch, false)
                      == DimSum(deltas, e, ch) + Moved(deltas, Rows(deltas), e, ch, true) {
      RowDimsBalance(deltas, e, ch);
    }
    if KeyFixesDim(deltas) {
      forall e, ch ensures Sum(RowDims(Rows(deltas), e, ch)) == DimSum(deltas, e, ch) {
        RowDimsExact(deltas, e, ch);
      }
    }
  }
}
