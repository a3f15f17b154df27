/**
 What a sliding window over a call history is supposed to report, and the facts about rings of
 buckets that make the incremental bookkeeping in SlidingWindow.dfy agree with it.
 */
module WindowSpec {
  import opened Sums
  import opened Wrappers

  /** One report: the time stamped by the client, the server's time, and the amount. */
  datatype Call = Call(clientMs: int, serverMs: nat, count: nat)

  /** The two words of a bucket. */
  datatype Bucket = Bucket(windowStart: int, counterValue: nat)

  /** Go's remainder on signed integers: it has the sign of the dividend. */
  function GoRem(a: int, b: int): int
    requires b > 0
  {
    if a >= 0 then a % b else -((-a) % b)
  }

  /** The start of the sub-window of a time; client times may be negative. */
  function WindowStart(timeMs: int, len: int): int
    requires len > 0
  {
    timeMs - GoRem(timeMs, len)
  }

  /** Whether a report counts: client and server agree on the sub-window. */
  predicate Accepted(c: Call, len: int)
    requires len > 0
  {
    WindowStart(c.clientMs, len) == WindowStart(c.serverMs, len)
  }

  /** The amounts accepted in sub-window number k over the whole history. */
  function WindowSum(h: seq<Call>, len: int, k: int): nat
    requires len > 0
  {
    if h == [] then 0
    else
      var c := h[|h| - 1];
      WindowSum(h[..|h| - 1], len, k) + if Accepted(c, len) && c.serverMs / len == k then c.count else 0
  }

  /** The amounts accepted in the sub-windows lo+1 .. hi over the whole history. */
  function LiveSum(h: seq<Call>, len: int, lo: int, hi: int): nat
    requires len > 0
  {
    if h == [] then 0
    else
      var c := h[|h| - 1];
      LiveSum(h[..|h| - 1], len, lo, hi) + if Accepted(c, len) && lo < c.serverMs / len <= hi then c.count else 0
  }

  /** The sub-window number of the latest report, 0 before the first. */
  function Latest(h: seq<Call>, len: int): nat
    requires len > 0
  {
    if h == [] then 0 else h[|h| - 1].serverMs / len
  }

  /**
   The sizes for which the ring is exact: at least one bucket, at least one millisecond each, and a
   remainder of the interval that does not reach past one further bucket.
   */
  predicate Fits(slideCount: int, windowLengthMs: int, intervalMs: int) {
    && slideCount >= 1 && windowLengthMs >= 1
    && slideCount * windowLengthMs <= intervalMs <= (slideCount + 1) * windowLengthMs
  }

  /** Rules are given in whole seconds and at most ten sub-windows, and all of those sizes qualify. */
  lemma WholeSecondsFit(slideCount: int, seconds: int)
    requires 1 <= slideCount <= 10 && seconds >= 1
    ensures Fits(slideCount, 1000 * seconds / slideCount, 1000 * seconds)
  {
    var len := 1000 * seconds / slideCount;
    assert slideCount * len <= 1000 * seconds < slideCount * len + slideCount;
  }

  /** What one bucket contributes to the stable value of the sub-window that starts at next. */
  function Term(b: Bucket, next: int, intervalMs: int): nat {
    if 0 < next - b.windowStart < intervalMs then b.counterValue else 0
  }

  function Terms(bs: seq<Bucket>, next: int, intervalMs: int): (t: seq<int>)
    ensures |t| == |bs|
  {
    seq(|bs|, i requires 0 <= i < |bs| => Term(bs[i], next, intervalMs))
  }

  /** The full scan over the ring: the reference value for the fast path. */
  function Scan(bs: seq<Bucket>, next: int, intervalMs: int): int {
    Sum(Terms(bs, next, intervalMs))
  }

  /** The scan is a sum of counters, so it is never negative and the source's clamp at 0 is dead. */
  lemma ScanNonNegative(bs: seq<Bucket>, next: int, intervalMs: int)
    ensures Scan(bs, next, intervalMs) >= 0
  {
    SumNonNegative(Terms(bs, next, intervalMs));
  }

  /** The only sub-window among k-n+1 .. k that lands in slot i of a ring of n. */
  function SlotWindow(i: nat, n: nat, k: int): (w: int)
    requires i < n
    ensures k - n < w <= k && w % n == i
  {
    SlotResidue(i, n, k);
    k - (k - i) % n
  }

  lemma SlotResidue(i: nat, n: nat, k: int)
    requires i < n
    ensures (k - (k - i) % n) % n == i
  {
    var q := (k - i) / n;
    assert k - (k - i) % n == q * n + i;
    QuotientUnique(q * n + i, q, i, n);
  }

  /** Two sub-windows in the same slot are at least n apart. */
  lemma SameSlotApart(a: int, b: int, n: nat)
    requires n > 0 && a % n == b % n && a < b
    ensures b - a >= n
  {
    assert b - a == (b / n - a / n) * n;
    if b / n - a / n >= 1 {
      MulMono(1, b / n - a / n, n);
    } else {
      MulMono(b / n - a / n, 0, n);
    }
  }

  lemma MulMono(a: int, b: int, n: nat)
    requires a <= b
    ensures a * n <= b * n
  {
  }

  lemma MulOrder(a: int, b: int, n: nat)
    requires n > 0
    ensures a < b <==> a * n < b * n
    ensures a == b <==> a * n == b * n
  {
    if a < b { MulMono(a + 1, b, n); } else if b < a { MulMono(b + 1, a, n); }
  }

  lemma DivMono(a: nat, b: nat, m: nat)
    requires m > 0 && a <= b
    ensures 0 <= a / m <= b / m
  {
    DivNonNegative(a, m);
    if b / m < a / m { MulMono(b / m + 1, a / m, m); }
  }

  lemma LatestMono(h: seq<Call>, len: nat, serverMs: nat)
    requires len > 0 && (h != [] ==> h[|h| - 1].serverMs <= serverMs)
    ensures Latest(h, len) <= serverMs / len
  {
    DivNonNegative(serverMs, len);
    if h != [] {
      DivMono(h[|h| - 1].serverMs, serverMs, len);
    }
  }

  /** A slot is occupied by exactly one live sub-window. */
  lemma SlotWindowUnique(i: nat, n: nat, k: int, w: int)
    requires i < n
    ensures k - n < w <= k ==> (w % n == i <==> w == SlotWindow(i, n, k))
    ensures w <= k && w % n == i ==> w <= SlotWindow(i, n, k)
  {
    var s := SlotWindow(i, n, k);
    if w % n == i && w < s {
      SameSlotApart(w, s, n);
    } else if w % n == i && s < w {
      SameSlotApart(s, w, n);
    }
  }

  /**
   Slot i tells the truth about the history: it holds the sum of the sub-window it is labelled with, nothing
   newer was accepted for this slot, and an unused slot is labelled 0 and empty.
   */
  ghost predicate Tracks(b: Bucket, i: nat, n: nat, len: nat, h: seq<Call>)
    requires n > 0 && len > 0
  {
    var kb := b.windowStart / len;
    && b.windowStart == kb * len && kb >= 0
    && (forall k :: k > kb && k % n == i ==> WindowSum(h, len, k) == 0)
    && (if kb % n == i then b.counterValue == WindowSum(h, len, kb) % TWO32 else kb == 0 && b.counterValue == 0)
  }

  ghost predicate RingTracks(bs: seq<Bucket>, n: nat, len: nat, h: seq<Call>, k: nat)
    requires n > 0 && len > 0
  {
    && |bs| == n
    && (forall i :: 0 <= i < n ==> Tracks(bs[i], i, n, len, h) && bs[i].windowStart <= k * len)
    && bs[k % n].windowStart == k * len
  }

  lemma DivNonNegative(a: nat, m: nat)
    requires m > 0
    ensures a / m >= 0
  {
  }

  lemma {:induction false} NegativeWindowEmpty(h: seq<Call>, len: nat, k: int)
    requires len > 0 && k < 0
    ensures WindowSum(h, len, k) == 0
  {
    if h != [] {
      var c := h[|h| - 1];
      assert c.serverMs / len >= 0 by { DivNonNegative(c.serverMs, len); }
      NegativeWindowEmpty(h[..|h| - 1], len, k);
    }
  }

  /** How far the label of a slot is behind sub-window k, in sub-windows. */
  lemma Lag(b: Bucket, i: nat, n: nat, len: nat, h: seq<Call>, k: nat)
    requires i < n && len > 0 && Tracks(b, i, n, len, h) && b.windowStart <= k * len
    ensures b.windowStart / len <= k
    ensures k * len - b.windowStart == (k - b.windowStart / len) * len
  {
    var kb := b.windowStart / len;
    if kb > k {
      MulMono(k + 1, kb, len);
    }
  }

  /** Which lags the scan counts: all below n, none above; n itself never occurs off the current slot. */
  lemma LiveLags(d: nat, n: nat, len: nat, intervalMs: nat)
    requires Fits(n, len, intervalMs)
    ensures 1 <= d < n ==> 0 < d * len < intervalMs
    ensures d > n ==> d * len >= intervalMs
  {
    if 1 <= d < n {
      MulMono(1, d, len);
      MulMono(d, n - 1, len);
    } else if d > n {
      MulMono(n + 1, d, len);
    }
  }

  /** Off the current slot, a scan term is the accepted sum of the live sub-window of that slot, or both are empty. */
  lemma TermExact(b: Bucket, i: nat, n: nat, len: nat, intervalMs: nat, h: seq<Call>, k: nat)
    requires Fits(n, len, intervalMs) && i < n && i != k % n
    requires Tracks(b, i, n, len, h) && b.windowStart <= k * len
    ensures Term(b, k * len, intervalMs) == WindowSum(h, len, SlotWindow(i, n, k)) % TWO32
  {
    var kb, w := b.windowStart / len, SlotWindow(i, n, k);
    Lag(b, i, n, len, h, k);
    LiveLags(k - kb, n, len, intervalMs);
    if kb % n != i {
      if w < 0 { NegativeWindowEmpty(h, len, w); }
    } else {
      SlotWindowUnique(i, n, k, kb);
      if kb < w { SameSlotApart(kb, w, n); }
    }
  }

  /** The accepted sums of the live sub-windows, slot by slot. */
  function LiveSlots(h: seq<Call>, len: nat, n: nat, k: int): (s: seq<int>)
    requires n > 0 && len > 0
    ensures |s| == n
  {
    seq(n, i requires 0 <= i < n => WindowSum(h, len, SlotWindow(i, n, k)))
  }

  /** Adding the live sub-windows slot by slot is adding the live part of the history. */
  lemma {:induction false} LiveSlotsExact(h: seq<Call>, len: nat, n: nat, k: int)
    requires n > 0 && len > 0
    ensures Sum(LiveSlots(h, len, n, k)) == LiveSum(h, len, k - n, k)
  {
    if h == [] {
      SumZero(LiveSlots(h, len, n, k));
    } else {
      var p, c := h[..|h| - 1], h[|h| - 1];
      var before, kc := LiveSlots(p, len, n, k), c.serverMs / len;
      LiveSlotsExact(p, len, n, k);
      if Accepted(c, len) && k - n < kc <= k {
        var i := kc % n;
        forall j | 0 <= j < n ensures kc == SlotWindow(j, n, k) <==> j == i {
          SlotWindowUnique(j, n, k, kc);
        }
        assert LiveSlots(h, len, n, k) == before[i := before[i] + c.count];
        SumUpdate(before, i, before[i] + c.count);
      } else {
        assert LiveSlots(h, len, n, k) == before;
      }
    }
  }

  /** The current bucket holds the accepted sum of the current sub-window. */
  lemma CurrentExact(b: Bucket, n: nat, len: nat, h: seq<Call>, k: nat)
    requires n > 0 && len > 0 && Tracks(b, k % n, n, len, h) && b.windowStart == k * len
    ensures b.counterValue % TWO32 == WindowSum(h, len, SlotWindow(k % n, n, k)) % TWO32
  {
    SlotWindowUnique(k % n, n, k, k);
    QuotientUnique(k * len, k, 0, len);
  }

  /** The scan plus the current bucket is the live part of the history, modulo 2^32. */
  lemma ScanExact(bs: seq<Bucket>, n: nat, len: nat, intervalMs: nat, h: seq<Call>, k: nat)
    requires Fits(n, len, intervalMs) && RingTracks(bs, n, len, h, k)
    ensures (Scan(bs, k * len, intervalMs) + bs[k % n].counterValue) % TWO32 == LiveSum(h, len, k - n, k) % TWO32
  {
    var c, terms, slots := k % n, Terms(bs, k * len, intervalMs), LiveSlots(h, len, n, k);
    var all := terms[c := bs[c].counterValue];
    SlotsExact(bs, n, len, intervalMs, h, k);
    SumUpdate(terms, c, bs[c].counterValue);
    SumMod(all, slots, TWO32);
    LiveSlotsExact(h, len, n, k);
  }

  /** Slot by slot, the scan terms with the current bucket in its place are the live sub-windows. */
  lemma SlotsExact(bs: seq<Bucket>, n: nat, len: nat, intervalMs: nat, h: seq<Call>, k: nat)
    requires Fits(n, len, intervalMs) && RingTracks(bs, n, len, h, k)
    ensures var all := Terms(bs, k * len, intervalMs)[k % n := bs[k % n].counterValue];
            forall i | 0 <= i < n :: all[i] % TWO32 == LiveSlots(h, len, n, k)[i] % TWO32
  {
    var c := k % n;
    var all := Terms(bs, k * len, intervalMs)[c := bs[c].counterValue];
    forall i | 0 <= i < n ensures all[i] % TWO32 == LiveSlots(h, len, n, k)[i] % TWO32 {
      if i == c {
        CurrentExact(bs[c], n, len, h, k);
      } else {
        TermExact(bs[i], i, n, len, intervalMs, h, k);
      }
    }
  }

  /** One sub-window later, only the current slot enters the scan and only the recycled slot leaves it. */
  lemma TermStays(b: Bucket, i: nat, n: nat, len: nat, intervalMs: nat, h: seq<Call>, k: nat)
    requires Fits(n, len, intervalMs) && i < n && i != k % n && i != (k + 1) % n
    requires Tracks(b, i, n, len, h) && b.windowStart <= k * len
    ensures Term(b, k * len, intervalMs) == Term(b, (k + 1) * len, intervalMs)
  {
    var d := k - b.windowStart / len;
    Lag(b, i, n, len, h, k);
    MulMono(k, k + 1, len);
    Lag(b, i, n, len, h, k + 1);
    LiveLags(d, n, len, intervalMs);
    LiveLags(d + 1, n, len, intervalMs);
    ModShift(k - n, 1, n);
    ModShift(k + 1 - n, 1, n);
  }

  /** Only the next sub-window is one length away. */
  lemma NextNumber(k: int, next: int, len: nat)
    requires len > 0 && next * len - k * len == len
    ensures next == k + 1
  {
    MulOrder(next, k + 1, len);
  }

  /** The fast path of the source equals the fallback scan. */
  lemma FastPathExact(bs: seq<Bucket>, n: nat, len: nat, intervalMs: nat, h: seq<Call>, k: nat, next: nat)
    requires n > 1 && Fits(n, len, intervalMs) && RingTracks(bs, n, len, h, k) && next == k + 1
    ensures next % n != k % n
    ensures Scan(bs[next % n := Bucket(next * len, 0)], next * len, intervalMs)
         == Scan(bs, k * len, intervalMs) - Term(bs[next % n], k * len, intervalMs) + bs[k % n].counterValue
  {
    var r, c := next % n, k % n;
    if r == c {
      SameSlotApart(k, next, n);
    }
    var bs' := bs[r := Bucket(next * len, 0)];
    var was := Terms(bs, k * len, intervalMs);
    var mid := was[r := 0];
    var now := Terms(bs', next * len, intervalMs);
    var end := mid[c := bs[c].counterValue];
    MulMono(2, n, len);
    forall i | 0 <= i < n ensures now[i] == end[i] {
      if i != c && i != r {
        TermStays(bs[i], i, n, len, intervalMs, h, k);
      }
    }
    assert now == end;
    SumUpdate(was, r, 0);
    SumUpdate(mid, c, bs[c].counterValue);
  }

  /** After a gap of a whole interval nothing in the ring is live. */
  lemma GapExact(bs: seq<Bucket>, r: nat, last: int, next: int, intervalMs: int)
    requires r < |bs| && next - last >= intervalMs
    requires forall i :: 0 <= i < |bs| ==> bs[i].windowStart <= last
    ensures Scan(bs[r := Bucket(next, 0)], next, intervalMs) == 0
  {
    SumZero(Terms(bs[r := Bucket(next, 0)], next, intervalMs));
  }

  /** A ring of one bucket has no stable part. */
  lemma SingleSlot(bs: seq<Bucket>, start: int, intervalMs: int)
    requires |bs| == 1 && bs[0].windowStart == start
    ensures Scan(bs, start, intervalMs) == 0
  {
    SumZero(Terms(bs, start, intervalMs));
  }

  /** Relabelling the slot of a new sub-window keeps the ring truthful. */
  lemma RecycleTracks(bs: seq<Bucket>, n: nat, len: nat, h: seq<Call>, k: nat, next: nat)
    requires n > 0 && len > 0 && RingTracks(bs, n, len, h, k) && k < next
    ensures RingTracks(bs[next % n := Bucket(next * len, 0)], n, len, h, next)
  {
    var r := next % n;
    MulMono(k, next, len);
    QuotientUnique(next * len, next, 0, len);
    Lag(bs[r], r, n, len, h, k);
    assert WindowSum(h, len, next) == 0;
  }

  /** Adding an amount to the current bucket keeps the ring truthful about the longer history. */
  lemma ReportTracks(bs: seq<Bucket>, n: nat, len: nat, h: seq<Call>, c: Call)
    requires n > 0 && len > 0 && RingTracks(bs, n, len, h, c.serverMs / len)
    ensures var k := c.serverMs / len;
            var delta := if Accepted(c, len) then c.count else 0;
            RingTracks(bs[k % n := Bucket(k * len, (bs[k % n].counterValue + delta) % TWO32)], n, len, h + [c], k)
  {
    var k := c.serverMs / len;
    var r := k % n;
    var delta := if Accepted(c, len) then c.count else 0;
    var bs' := bs[r := Bucket(k * len, (bs[r].counterValue + delta) % TWO32)];
    DivNonNegative(c.serverMs, len);
    CurrentTracks(bs[r], n, len, h, c, k);
    forall i | 0 <= i < n ensures Tracks(bs'[i], i, n, len, h + [c]) && bs'[i].windowStart <= k * len {
      if i != r {
        OtherTracks(bs[i], i, n, len, h, c);
      }
    }
  }

  /** A report changes the sum of its own sub-window only. */
  lemma WindowSumAppend(h: seq<Call>, len: nat, c: Call, j: int)
    requires len > 0
    ensures WindowSum(h + [c], len, j)
         == WindowSum(h, len, j) + if Accepted(c, len) && c.serverMs / len == j then c.count else 0
  {
    assert (h + [c])[..|h|] == h;
  }

  lemma CurrentTracks(b: Bucket, n: nat, len: nat, h: seq<Call>, c: Call, k: nat)
    requires n > 0 && len > 0 && k == c.serverMs / len && Tracks(b, k % n, n, len, h) && b.windowStart == k * len
    ensures var delta := if Accepted(c, len) then c.count else 0;
            Tracks(Bucket(k * len, (b.counterValue + delta) % TWO32), k % n, n, len, h + [c])
  {
    var delta := if Accepted(c, len) then c.count else 0;
    QuotientUnique(k * len, k, 0, len);
    WindowSumAppend(h, len, c, k);
    forall j | j > k ensures WindowSum(h + [c], len, j) == WindowSum(h, len, j) {
      WindowSumAppend(h, len, c, j);
    }
    AddMod(b.counterValue, delta, WindowSum(h, len, k), delta, TWO32);
  }

  lemma OtherTracks(b: Bucket, i: nat, n: nat, len: nat, h: seq<Call>, c: Call)
    requires i < n && len > 0 && Tracks(b, i, n, len, h) && i != c.serverMs / len % n
    ensures Tracks(b, i, n, len, h + [c])
  {
    forall j | j % n == i ensures WindowSum(h + [c], len, j) == WindowSum(h, len, j) {
      WindowSumAppend(h, len, c, j);
    }
  }

  /** The start of the sub-window of a server time is a multiple of the sub-window length. */
  lemma ServerWindow(t: nat, len: nat)
    requires len > 0
    ensures t / len >= 0 && WindowStart(t, len) == (t / len) * len
  {
    DivNonNegative(t, len);
  }

  // ---- The usage in plain times ----

  /** Two times lie in one sub-window; that of time 0 reaches back to less than one length before it. */
  predicate SameSubWindow(clientMs: int, serverMs: nat, len: nat)
    requires len > 0
  {
    if serverMs < len then clientMs < len && -clientMs < len else clientMs >= 0 && clientMs / len == serverMs / len
  }

  lemma AcceptedExact(c: Call, len: nat)
    requires len > 0
    ensures Accepted(c, len) <==> SameSubWindow(c.clientMs, c.serverMs, len)
  {
    var k := c.serverMs / len;
    ServerWindow(c.serverMs, len);
    FirstWindow(c.serverMs, len);
    if c.clientMs >= 0 {
      ServerWindow(c.clientMs, len);
      FirstWindow(c.clientMs, len);
      MulOrder(c.clientMs / len, k, len);
    } else {
      var q := (-c.clientMs) / len;
      assert WindowStart(c.clientMs, len) == (-q) * len;
      FirstWindow(-c.clientMs, len);
      MulOrder(-q, k, len);
    }
  }

  lemma FirstWindow(t: nat, len: nat)
    requires len > 0
    ensures t / len >= 0 && (t / len == 0 <==> t < len)
  {
    DivNonNegative(t, len);
    if t < len {
      QuotientUnique(t, 0, t, len);
    }
  }

  /** A report is in the window of n sub-windows that ends with sub-window k, and counts. */
  predicate InWindow(c: Call, len: nat, n: nat, k: nat)
    requires len > 0
  {
    SameSubWindow(c.clientMs, c.serverMs, len) && (k - n + 1) * len <= c.serverMs < (k + 1) * len
  }

  function Shares(h: seq<Call>, len: nat, n: nat, k: nat): (s: seq<int>)
    requires len > 0
    ensures |s| == |h|
  {
    seq(|h|, j requires 0 <= j < |h| => if InWindow(h[j], len, n, k) then h[j].count else 0)
  }

  lemma InWindowExact(c: Call, len: nat, n: nat, k: nat)
    requires len > 0
    ensures InWindow(c, len, n, k) <==> Accepted(c, len) && k - n < c.serverMs / len <= k
  {
    AcceptedExact(c, len);
    DivBound(c.serverMs, k - n + 1, len);
    DivBound(c.serverMs, k + 1, len);
  }

  lemma DivBound(t: nat, a: int, len: nat)
    requires len > 0
    ensures a * len <= t <==> a <= t / len
  {
    var w := t / len;
    if a <= w { MulMono(a, w, len); } else { MulMono(w + 1, a, len); }
  }

  /** The usage is the sum over the whole history of what lies in the window. */
  lemma {:induction false} LiveSumExact(h: seq<Call>, len: nat, n: nat, k: nat)
    requires len > 0
    ensures LiveSum(h, len, k - n, k) == Sum(Shares(h, len, n, k))
  {
    if h != [] {
      var p, c := h[..|h| - 1], h[|h| - 1];
      LiveSumExact(p, len, n, k);
      InWindowExact(c, len, n, k);
      var share := if InWindow(c, len, n, k) then c.count else 0;
      assert Shares(h, len, n, k) == Shares(p, len, n, k) + [share];
      SumAppend(Shares(p, len, n, k), share);
    }
  }

  // ---- One report ----

  /** A report adds to the current bucket only; the scan stands, and with the bucket it is the live history. */
  lemma ReportExact(bs: seq<Bucket>, n: nat, len: nat, intervalMs: nat, h: seq<Call>, c: Call, k: nat, delta: nat)
    requires Fits(n, len, intervalMs) && k == c.serverMs / len
    requires RingTracks(bs, n, len, h, k)
    requires delta == (bs[k % n].counterValue + if Accepted(c, len) then c.count else 0) % TWO32
    ensures var bs', scan := bs[k % n := Bucket(k * len, delta)], Scan(bs, k * len, intervalMs);
            && RingTracks(bs', n, len, h + [c], k)
            && Scan(bs', k * len, intervalMs) == scan >= 0
            && (scan % TWO32 + delta) % TWO32 == Sum(Shares(h + [c], len, n, k)) % TWO32
  {
    var bs', scan := bs[k % n := Bucket(k * len, delta)], Scan(bs, k * len, intervalMs);
    ReportTracks(bs, n, len, h, c);
    assert Terms(bs', k * len, intervalMs) == Terms(bs, k * len, intervalMs);
    ScanExact(bs', n, len, intervalMs, h + [c], k);
    LiveSumExact(h + [c], len, n, k);
    ScanNonNegative(bs, k * len, intervalMs);
    AddMod(scan, delta, scan % TWO32, delta, TWO32);
  }

  /** The ring after one report of amount 1 at time 0 and an empty report n+1 sub-windows later. */
  function OverlapRing(n: nat, len: nat): (bs: seq<Bucket>)
    requires n >= 2
    ensures |bs| == n
  {
    seq(n, i => Bucket(if i == 1 then (n + 1) * len else 0, if i == 0 then 1 else 0))
  }

  /**
   Fits is not only sufficient but necessary: for every larger interval the ring above is truthful, yet its scan
   still counts a report that is n+1 sub-windows old.
   */
  lemma FitsIsNecessary(n: nat, len: nat, intervalMs: nat)
    requires n >= 2 && len >= 1 && intervalMs > (n + 1) * len
    ensures var h, bs, k := [Call(0, 0, 1)], OverlapRing(n, len), n + 1;
            && RingTracks(bs, n, len, h, k)
            && LiveSum(h, len, k - n, k) == 0
            && Scan(bs, k * len, intervalMs) + bs[k % n].counterValue == 1
  {
    var h, bs, k := [Call(0, 0, 1)], OverlapRing(n, len), n + 1;
    MulMono(1, k, len);
    ModShift(1, 1, n);
    QuotientUnique(1, 0, 1, n);
    OverlapRingTracks(n, len);
    var empty := seq(n, i => 0);
    assert Terms(bs, k * len, intervalMs) == empty[0 := 1];
    SumZero(empty);
    SumUpdate(empty, 0, 1);
  }

  lemma OverlapRingTracks(n: nat, len: nat)
    requires n >= 2 && len >= 1
    ensures var h, k := [Call(0, 0, 1)], n + 1;
            RingTracks(OverlapRing(n, len), n, len, h, k) && LiveSum(h, len, k - n, k) == 0
  {
    var h, bs, k := [Call(0, 0, 1)], OverlapRing(n, len), n + 1;
    ModShift(1, 1, n);
    QuotientUnique(1, 0, 1, n);
    QuotientUnique(0, 0, 0, n);
    QuotientUnique(0, 0, 0, len);
    QuotientUnique(k * len, k, 0, len);
    MulMono(0, k, len);
    assert h[..0] == [];
    forall j ensures WindowSum(h, len, j) == if j == 0 then 1 else 0 {}
    forall i | 0 <= i < n ensures Tracks(bs[i], i, n, len, h) && bs[i].windowStart <= k * len {}
  }
}
