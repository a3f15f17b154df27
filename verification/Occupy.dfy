/** The quota allocator of ratelimitv2/occupy.go: remaining quota and edge-triggered pushes. */
module Occupy {
  import opened WindowSpec
  import opened SlidingWindows
  import opened Wrappers

  /** What a report asked and saw, and whether it scheduled a push to the other clients. */
  datatype Report = Report(used: U32, limited: U32, left: int, pushed: bool) {
    /** A report without consumption is a pure query. */
    predicate Active() {
      used != 0 || limited != 0
    }
  }

  datatype QuotaLeft = QuotaLeft(counterKey: nat, left: int, clientCount: nat)

  datatype Push = NoPush | PushOthers(left: QuotaLeft, excludeClient: string, startTimeMicro: nat)

  /** Report i is the latest active one. */
  predicate LatestActive(h: seq<Report>, i: int) {
    0 <= i < |h| && h[i].Active() && forall j :: i < j < |h| ==> !h[j].Active()
  }

  /** The latest active report saw the quota used up. */
  ghost predicate UsedUp(h: seq<Report>) {
    exists i :: LatestActive(h, i) && h[i].left <= 0
  }

  /** Report n is the first active one to see the quota used up since an active one saw some left. */
  ghost predicate RisingEdge(h: seq<Report>, n: nat)
    requires n < |h|
  {
    h[n].Active() && h[n].left <= 0 && !UsedUp(h[..n])
  }

  /** Pushes happen exactly at the rising edges. */
  ghost predicate EdgeTriggered(h: seq<Report>) {
    forall n :: 0 <= n < |h| ==> (h[n].pushed <==> RisingEdge(h, n))
  }

  /** The latest active report exists as soon as there is an active one. */
  lemma {:induction false} FindLatestActive(h: seq<Report>, i: nat) returns (l: nat)
    requires i < |h| && h[i].Active()
    ensures i <= l && LatestActive(h, l)
  {
    var n := |h| - 1;
    if h[n].Active() {
      l := n;
    } else {
      l := FindLatestActive(h[..n], i);
    }
  }

  /** Only an active report changes whether the quota counts as used up, and then its own view decides. */
  lemma UsedUpStep(h: seq<Report>, r: Report)
    ensures UsedUp(h + [r]) <==> if r.Active() then r.left <= 0 else UsedUp(h)
  {
    if r.Active() {
      assert LatestActive(h + [r], |h|);
    } else {
      forall i ensures LatestActive(h + [r], i) <==> LatestActive(h, i) {
        InactiveStep(h, r, i);
      }
    }
  }

  lemma InactiveStep(h: seq<Report>, r: Report, i: int)
    requires !r.Active()
    ensures LatestActive(h + [r], i) <==> LatestActive(h, i)
  {
    assert forall j :: 0 <= j < |h| ==> (h + [r])[j] == h[j];
  }

  /** A log stays edge-triggered when the next report is pushed exactly at a rising edge. */
  lemma EdgeTriggeredStep(h: seq<Report>, r: Report)
    requires EdgeTriggered(h)
    requires r.pushed <==> r.Active() && r.left <= 0 && !UsedUp(h)
    ensures EdgeTriggered(h + [r]) && (r.pushed <==> RisingEdge(h + [r], |h|))
  {
    var h' := h + [r];
    assert h'[..|h|] == h;
    forall n | 0 <= n < |h'| ensures h'[n].pushed <==> RisingEdge(h', n) {
      if n < |h| {
        assert h'[..n] == h[..n] && h'[n] == h[n];
        assert h[n].pushed <==> RisingEdge(h, n);
      }
    }
  }

  /** Between two pushes some active report saw quota left: no client is told twice about one exhaustion. */
  lemma BetweenPushes(h: seq<Report>, i: nat, j: nat) returns (m: nat)
    requires EdgeTriggered(h) && i < j < |h| && h[i].pushed && h[j].pushed
    ensures i < m < j && h[m].Active() && h[m].left > 0
  {
    m := FindLatestActive(h[..j], i);
    assert h[..j][m] == h[m];
  }

  /**
   Conversely, an exhaustion seen by an active report is announced: at that report, or at an earlier one with no
   active report in between that saw quota left.
   */
  lemma {:induction false} ExhaustionAnnounced(h: seq<Report>, j: nat) returns (p: nat)
    requires EdgeTriggered(h) && j < |h| && h[j].Active() && h[j].left <= 0
    ensures p <= j && h[p].pushed
    ensures forall m :: p <= m <= j && h[m].Active() ==> h[m].left <= 0
    decreases j
  {
    if h[j].pushed {
      p := j;
    } else {
      assert UsedUp(h[..j]);
      var i :| LatestActive(h[..j], i) && h[..j][i].left <= 0;
      p := ExhaustionAnnounced(h, i);
      assert forall m :: i < m < j ==> h[..j][m] == h[m];
    }
  }

  class OccupyAllocator {
    const slidingWindow: SlidingWindow
    /** 1 once the exhaustion of the quota has been announced. */
    var quotaUsedOff: nat
    ghost var reports: seq<Report>

    ghost predicate Valid()
      reads this, slidingWindow, slidingWindow.windowArray
    {
      && slidingWindow.Valid()
      && quotaUsedOff == (if UsedUp(reports) then 1 else 0)
      && EdgeTriggered(reports)
    }

    constructor (slideCount: nat, intervalMs: nat)
      requires slideCount >= 1 && Fits(slideCount, intervalMs / slideCount, intervalMs)
      ensures Valid() && fresh(slidingWindow) && fresh(slidingWindow.windowArray)
      ensures reports == [] && slidingWindow.history == []
      ensures slidingWindow.slideCount == slideCount && slidingWindow.intervalMs == intervalMs
      ensures slidingWindow.windowLengthMs == intervalMs / slideCount
    {
      slidingWindow := new SlidingWindow(slideCount, intervalMs);
      quotaUsedOff := 0;
      reports := [];
      new;
      assert slidingWindow.Valid();
    }

    method CompareAndSwapUsedOff(expected: nat, desired: nat) returns (swapped: bool)
      modifies this`quotaUsedOff
      ensures swapped == (old(quotaUsedOff) == expected)
      ensures quotaUsedOff == if swapped then desired else old(quotaUsedOff)
    {
      swapped := quotaUsedOff == expected;
      if swapped {
        quotaUsedOff := desired;
      }
    }

    /** Counts a report, computes what is left of maxAmount, and pushes exactly at a rising edge. */
    method Allocate(clientId: string, counterKey: nat, sumUsed: U32, sumLimit: U32, timestampMs: int,
                    startTimeMicro: nat, maxAmount: U32, clientCount: nat)
      returns (quotaLeftRet: QuotaLeft, pushed: Push)
      requires Valid()
      requires slidingWindow.history != [] ==>
                 slidingWindow.history[|slidingWindow.history| - 1].serverMs <= startTimeMicro / 1000
      modifies this, slidingWindow, slidingWindow.windowArray
      ensures Valid()
      ensures slidingWindow.history == old(slidingWindow.history) + [Call(timestampMs, startTimeMicro / 1000, sumUsed)]
      ensures quotaLeftRet == QuotaLeft(counterKey, maxAmount - slidingWindow.Usage(), clientCount)
      ensures reports == old(reports) + [Report(sumUsed, sumLimit, quotaLeftRet.left, pushed != NoPush)]
      ensures pushed != NoPush <==> RisingEdge(reports, |reports| - 1)
      ensures pushed != NoPush ==> pushed == PushOthers(quotaLeftRet, clientId, startTimeMicro)
      ensures pushed != NoPush <==> (sumUsed != 0 || sumLimit != 0) && quotaLeftRet.left <= 0 && old(quotaUsedOff) == 0
      ensures quotaUsedOff == if sumUsed == 0 && sumLimit == 0 then old(quotaUsedOff) else if quotaLeftRet.left <= 0 then 1 else 0
    {
      var serverTimeMs := startTimeMicro / 1000;
      var totalUsed := slidingWindow.AddAndGetCurrent(timestampMs, serverTimeMs, sumUsed);
      var quotaLeft := maxAmount - totalUsed;
      quotaLeftRet := QuotaLeft(counterKey, quotaLeft, clientCount);
      var push := DetectEdge(sumUsed, sumLimit, quotaLeft);
      pushed := if push then PushOthers(quotaLeftRet, clientId, startTimeMicro) else NoPush;
    }

    /** The flag protocol: pure queries leave the flag alone, otherwise it follows left <= 0 and its rise is the push. */
    method DetectEdge(sumUsed: U32, sumLimit: U32, quotaLeft: int) returns (push: bool)
      requires EdgeTriggered(reports) && quotaUsedOff == (if UsedUp(reports) then 1 else 0)
      modifies this`quotaUsedOff, this`reports
      ensures EdgeTriggered(reports) && quotaUsedOff == (if UsedUp(reports) then 1 else 0)
      ensures reports == old(reports) + [Report(sumUsed, sumLimit, quotaLeft, push)]
      ensures push <==> RisingEdge(reports, |reports| - 1)
      ensures push <==> (sumUsed != 0 || sumLimit != 0) && quotaLeft <= 0 && old(quotaUsedOff) == 0
      ensures quotaUsedOff == if sumUsed == 0 && sumLimit == 0 then old(quotaUsedOff) else if quotaLeft <= 0 then 1 else 0
    {
      push := false;
      if sumUsed != 0 || sumLimit != 0 {
        var swapped := false;
        if quotaLeft <= 0 {
          swapped := CompareAndSwapUsedOff(0, 1);
        }
        if swapped {
          push := true;
        } else if quotaLeft > 0 {
          var _ := CompareAndSwapUsedOff(1, 0);
        }
      }
      ghost var r := Report(sumUsed, sumLimit, quotaLeft, push);
      EdgeTriggeredStep(reports, r);
      UsedUpStep(reports, r);
      reports := reports + [r];
    }
  }
}
