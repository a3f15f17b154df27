/** The sliding-window counter of pkg/utils/sliding.go. */
module SlidingWindows {
  import opened Sums
  import opened WindowSpec
  import opened Wrappers

  /** One bucket of the ring. */
  class Window {
    var windowStart: int
    var counterValue: U32

    constructor ()
      ensures windowStart == 0 && counterValue == 0
    {
      windowStart, counterValue := 0, 0;
    }

    /** Relabels the bucket and hands back what it held, provided the label is the expected one. */
    method Reset(oldWindowStart: int, newWindowStart: int) returns (latestValue: U32)
      modifies this
      ensures if old(windowStart) == oldWindowStart
              then windowStart == newWindowStart && counterValue == 0 && latestValue == old(counterValue)
              else unchanged(this) && latestValue == 0
    {
      if windowStart == oldWindowStart {
        windowStart := newWindowStart;
        latestValue := counterValue;
        counterValue := 0;
      } else {
        latestValue := 0;
      }
    }

    /** Adds with the wrap-around of a 32-bit word. */
    method AddAndGet(counter: U32) returns (r: U32)
      modifies this`counterValue
      ensures r == counterValue == (old(counterValue) + counter) % TWO32
    {
      counterValue := (counterValue + counter) % TWO32;
      r := counterValue;
    }
  }

  /** The ring with its incrementally maintained stable value. */
  class SlidingWindow {
    const slideCount: nat
    const intervalMs: nat
    const windowLengthMs: nat
    const windowArray: seq<Window>
    var curStartTimeMs: int
    var value: int
    /** Every report so far, in order. */
    ghost var history: seq<Call>

    ghost predicate Structure()
      reads this
    {
      && Fits(slideCount, windowLengthMs, intervalMs)
      && |windowArray| == slideCount
      && forall i, j :: 0 <= i < j < slideCount ==> windowArray[i] != windowArray[j]
    }

    ghost function Ring(): (bs: seq<Bucket>)
      reads windowArray
      ensures |bs| == |windowArray|
    {
      seq(|windowArray|, i requires 0 <= i < |windowArray| reads windowArray =>
        Bucket(windowArray[i].windowStart, windowArray[i].counterValue))
    }

    /** The ring is truthful about the history up to sub-window k. */
    ghost predicate Coherent(k: nat)
      requires Structure()
      reads this, windowArray
    {
      RingTracks(Ring(), slideCount, windowLengthMs, history, k)
    }

    /** The stable value is exactly what a full scan of the ring would give. */
    ghost predicate Stable(k: nat)
      reads this, windowArray
    {
      && value == Scan(Ring(), k * windowLengthMs, intervalMs)
      && (slideCount > 1 ==> curStartTimeMs == k * windowLengthMs)
    }

    ghost predicate Valid()
      reads this, windowArray
    {
      && Structure()
      && var k := Latest(history, windowLengthMs);
      && Coherent(k)
      && Stable(k)
    }

    /**
     The amounts of the whole history that were accepted in one of the last slideCount sub-windows up to that of
     the latest report, as a 32-bit word.
     */
    ghost function Usage(): U32
      requires windowLengthMs > 0
      reads this
    {
      var k := Latest(history, windowLengthMs);
      Sum(Shares(history, windowLengthMs, slideCount, k)) % TWO32
    }

    constructor (slideCount: nat, intervalMs: nat)
      requires slideCount >= 1 && Fits(slideCount, intervalMs / slideCount, intervalMs)
      ensures Valid() && history == [] && fresh(windowArray)
      ensures this.slideCount == slideCount && this.intervalMs == intervalMs
      ensures windowLengthMs == intervalMs / slideCount
    {
      var windows: seq<Window> := [];
      for i := 0 to slideCount
        invariant |windows| == i && fresh(windows)
        invariant forall j :: 0 <= j < i ==> windows[j].windowStart == 0 && windows[j].counterValue == 0
        invariant forall j, k :: 0 <= j < k < i ==> windows[j] != windows[k]
      {
        var w := new Window();
        windows := windows + [w];
      }
      this.slideCount := slideCount;
      this.intervalMs := intervalMs;
      this.windowLengthMs := intervalMs / slideCount;
      this.windowArray := windows;
      this.curStartTimeMs, this.value := 0, 0;
      this.history := [];
      new;
      QuotientUnique(0, 0, 0, windowLengthMs);
      QuotientUnique(0, 0, 0, slideCount);
      SumZero(Terms(Ring(), 0, intervalMs));
    }

    function CalculateTimeIdx(timeMs: nat): (idx: nat)
      requires slideCount > 0 && windowLengthMs > 0
      reads this
      ensures idx < slideCount
    {
      DivNonNegative(timeMs, windowLengthMs);
      (timeMs / windowLengthMs) % slideCount
    }

    /** The bucket of a time; with reset it is recycled for that time, without it a stale bucket gives null. */
    method CurrentWindow(curTimeMs: nat, reset: bool) returns (w: Window?)
      requires Structure()
      requires reset ==> Valid() && Latest(history, windowLengthMs) <= curTimeMs / windowLengthMs
      modifies if reset then {this as object} + (set x | x in windowArray) else {}
      ensures history == old(history)
      ensures var owner := windowArray[(curTimeMs / windowLengthMs) % slideCount];
              w == if reset || owner.windowStart == WindowStart(curTimeMs, windowLengthMs) then owner else null
      ensures reset ==> Coherent(curTimeMs / windowLengthMs) && Stable(curTimeMs / windowLengthMs)
      decreases if reset then 2 else 0, 0
    {
      var idx := CalculateTimeIdx(curTimeMs);
      var windowStart := WindowStart(curTimeMs, windowLengthMs);
      ghost var k := curTimeMs / windowLengthMs;
      ServerWindow(curTimeMs, windowLengthMs);
      var oldWindow := windowArray[idx];
      var oldWindowStart := oldWindow.windowStart;
      if oldWindowStart == windowStart {
        assert Ring()[idx].windowStart == windowStart;
        MulOrder(Latest(history, windowLengthMs), k, windowLengthMs);
        assert reset ==> k == Latest(history, windowLengthMs);
        return oldWindow;
      } else if !reset {
        return null;
      } else {
        ghost var before := Ring();
        var expiredCount := oldWindow.Reset(oldWindowStart, windowStart);
        assert Ring() == before[idx := Bucket(windowStart, 0)];
        assert k > Latest(history, windowLengthMs);
        Reload(windowStart, oldWindowStart, expiredCount, before, Latest(history, windowLengthMs), k);
        return oldWindow;
      }
    }

    /**
     Brings the stable value forward to a new sub-window: the one-step fast path, the reset after a long gap and
     the full scan all end in the full-scan value.
     */
    method Reload(nextStartMs: int, expiredStartMs: int, expireValue: U32, ghost before: seq<Bucket>, ghost k: nat,
                  ghost next: nat)
      requires Structure()
      requires k < next && nextStartMs == next * windowLengthMs
      requires RingTracks(before, slideCount, windowLengthMs, history, k)
      requires before[next % slideCount] == Bucket(expiredStartMs, expireValue)
      requires Ring() == before[next % slideCount := Bucket(nextStartMs, 0)]
      requires value == Scan(before, k * windowLengthMs, intervalMs)
      requires slideCount > 1 ==> curStartTimeMs == k * windowLengthMs
      modifies this`value, this`curStartTimeMs
      ensures Coherent(next) && Stable(next)
      decreases 1, 1
    {
      RecycleTracks(before, slideCount, windowLengthMs, history, k, next);
      if |windowArray| == 1 {
        QuotientUnique(next, next, 0, 1);
        QuotientUnique(k, k, 0, 1);
        SingleSlot(before, k * windowLengthMs, intervalMs);
        SingleSlot(Ring(), nextStartMs, intervalMs);
        return;
      }
      var timePassed := nextStartMs - curStartTimeMs;
      MulOrder(k, next, windowLengthMs);
      MulMono(0, k, windowLengthMs);
      if timePassed <= 0 || timePassed >= intervalMs {
        GapExact(before, next % slideCount, curStartTimeMs, nextStartMs, intervalMs);
        curStartTimeMs := nextStartMs;
        value := 0;
        return;
      }
      if timePassed == windowLengthMs {
        NextNumber(k, next, windowLengthMs);
        var done := ReloadNext(nextStartMs, expiredStartMs, expireValue, before, k, next);
        if done {
          return;
        }
      }
      value := FullScan(nextStartMs);
      curStartTimeMs := nextStartMs;
    }

    /** The fast path of Reload, one sub-window on: the expired bucket leaves the stable value, the previous one enters. */
    method ReloadNext(nextStartMs: int, expiredStartMs: int, expireValue: U32, ghost before: seq<Bucket>, ghost k: nat,
                      ghost next: nat)
      returns (done: bool)
      requires Structure() && slideCount > 1
      requires next == k + 1 && nextStartMs == next * windowLengthMs && curStartTimeMs == k * windowLengthMs
      requires RingTracks(before, slideCount, windowLengthMs, history, k)
      requires before[next % slideCount] == Bucket(expiredStartMs, expireValue)
      requires Ring() == before[next % slideCount := Bucket(nextStartMs, 0)]
      requires value == Scan(before, k * windowLengthMs, intervalMs)
      modifies this`value, this`curStartTimeMs
      ensures done ==> Stable(next)
      decreases 1, 0
    {
      FastPathExact(before, slideCount, windowLengthMs, intervalMs, history, k, next);
      var expireTimePassed := curStartTimeMs - expiredStartMs;
      if 0 < expireTimePassed < intervalMs {
        value := value - expireValue;
      }
      MulMono(0, k, windowLengthMs);
      QuotientUnique(k * windowLengthMs, k, 0, windowLengthMs);
      var curBucket := CurrentWindow(curStartTimeMs, false);
      if curBucket == null {
        return false;
      }
      assert curBucket.counterValue == Ring()[k % slideCount].counterValue == before[k % slideCount].counterValue;
      value := value + curBucket.counterValue;
      curStartTimeMs := nextStartMs;
      return true;
    }

    /** The fallback of Reload: adds up every bucket that is live for a sub-window. */
    method FullScan(nextStartMs: int) returns (sum: int)
      ensures sum == Scan(Ring(), nextStartMs, intervalMs)
    {
      sum := 0;
      ghost var terms := Terms(Ring(), nextStartMs, intervalMs);
      for i := 0 to |windowArray|
        invariant sum == Sum(terms[..i])
      {
        var bucket := windowArray[i];
        var diffTime := nextStartMs - bucket.windowStart;
        SumAppend(terms[..i], terms[i]);
        assert terms[..i + 1] == terms[..i] + [terms[i]];
        if 0 < diffTime < intervalMs {
          sum := sum + bucket.counterValue;
        }
      }
      assert terms[..|windowArray|] == terms;
    }

    /** The stable value as the source reports it: clamped at 0 and cut to 32 bits. */
    function Value(): U32
      reads this
    {
      if value < 0 then 0 else value % TWO32
    }

    /** The second half of a report: counts it in the current bucket if the client's sub-window agrees. */
    method Count(window: Window, ghost c: Call, clientStartTimeMs: int, counter: U32, ghost k: nat) returns (delta: U32)
      requires Structure() && Coherent(k) && Stable(k)
      requires k == c.serverMs / windowLengthMs && c.count == counter
      requires window == windowArray[k % slideCount] && clientStartTimeMs == WindowStart(c.clientMs, windowLengthMs)
      modifies windowArray, this`history
      ensures history == old(history) + [c] && Valid()
      ensures (Value() + delta) % TWO32 == Usage()
    {
      ghost var before, idx := Ring(), k % slideCount;
      ServerWindow(c.serverMs, windowLengthMs);
      delta := AddToBucket(window, clientStartTimeMs, counter, idx);
      ReportExact(before, slideCount, windowLengthMs, intervalMs, history, c, k, delta);
      history := history + [c];
    }

    /** The answer to a report: stable value and current bucket, as words. */
    method Total(delta: U32) returns (total: U32)
      requires windowLengthMs > 0 && (Value() + delta) % TWO32 == Usage()
      ensures total == Usage()
    {
      var stableCount := Value();
      total := (stableCount + delta) % TWO32;
    }

    /** Adds to a bucket what the client's sub-window allows, and gives back what it holds then. */
    method AddToBucket(window: Window, clientStartTimeMs: int, counter: U32, ghost idx: nat) returns (delta: U32)
      requires Structure() && idx < slideCount && window == windowArray[idx]
      modifies windowArray
      ensures var b := old(Ring())[idx];
              && delta == (b.counterValue + if b.windowStart == clientStartTimeMs then counter else 0) % TWO32
              && Ring() == old(Ring())[idx := Bucket(b.windowStart, delta)]
    {
      ghost var before := Ring();
      assert before[idx] == Bucket(window.windowStart, window.counterValue);
      if window.windowStart == clientStartTimeMs {
        delta := window.AddAndGet(counter);
      } else {
        delta := window.AddAndGet(0);
      }
      assert Ring() == before[idx := Bucket(window.windowStart, delta)];
    }

    /**
     Records a report and returns the usage of the interval that ends with it. Usage is a function of the history
     alone, so the ring, the stable value and the fast path cannot be observed.
     */
    method AddAndGetCurrent(clientTimeMs: int, serverTimeMs: nat, counter: U32) returns (total: U32)
      requires Valid()
      requires history != [] ==> history[|history| - 1].serverMs <= serverTimeMs
      modifies this, windowArray
      ensures Valid()
      ensures history == old(history) + [Call(clientTimeMs, serverTimeMs, counter)]
      ensures total == Usage()
    {
      ghost var c := Call(clientTimeMs, serverTimeMs, counter);
      ghost var k := serverTimeMs / windowLengthMs;
      ServerWindow(serverTimeMs, windowLengthMs);
      LatestMono(history, windowLengthMs, serverTimeMs);
      var window := CurrentWindow(serverTimeMs, true);
      var clientStartTimeMs := WindowStart(clientTimeMs, windowLengthMs);
      var delta := Count(window, c, clientStartTimeMs, counter, k);
      total := Total(delta);
    }
  }
}
