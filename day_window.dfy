/**
 * The calendar's list of displayed days and the two loaders that extend it
 * (src/components/calendar-view.tsx, lines 49-90). Days are integers; `today` is a parameter.
 */
module DayWindow {

  const DaysBefore := 5
  const DaysAfter := 45
  const PastChunk := 7
  const FutureChunk := 14

  /** Every day from `start` to `end`, both included, in order (empty when start > end). */
  function DayRange(start: int, end: int): (r: seq<int>)
    decreases end - start
    ensures |r| == if end < start then 0 else end - start + 1
    ensures forall i :: 0 <= i < |r| ==> r[i] == start + i
    ensures forall d :: d in r <==> start <= d <= end
  {
    if end < start then [] else [start] + DayRange(start + 1, end)
  }

  /** Each day is the day after the one before it. */
  predicate Consecutive(days: seq<int>)
  {
    forall i :: 0 <= i < |days| ==> days[i] == days[0] + i
  }

  /** The first render: from five days before today through 45 days after it. */
  function InitialDays(today: int): (r: seq<int>)
    ensures |r| == 51 && Consecutive(r)
    ensures r[0] == today - 5 && r[|r| - 1] == today + 45
    ensures forall d :: d in r <==> today - 5 <= d <= today + 45
  {
    DayRange(today - DaysBefore, today + DaysAfter)
  }

  /** The seven days ending the day before `first`. */
  function PastDays(first: int): (r: seq<int>)
    ensures |r| == PastChunk && Consecutive(r) && r[|r| - 1] == first - 1
  {
    var end := first - 1;
    DayRange(end - (PastChunk - 1), end)
  }

  /** The fourteen days starting the day after `last`. */
  function FutureDays(last: int): (r: seq<int>)
    ensures |r| == FutureChunk && Consecutive(r) && r[0] == last + 1
  {
    var start := last + 1;
    DayRange(start, start + (FutureChunk - 1))
  }

  /** Two consecutive runs, the second starting the day after the first ends, make one. */
  lemma ConsecutiveJoin(a: seq<int>, b: seq<int>)
    requires Consecutive(a) && Consecutive(b) && |a| > 0 && |b| > 0
    requires b[0] == a[|a| - 1] + 1
    ensures Consecutive(a + b)
  {
  }

  /** Prepending the past block to a non-empty consecutive list keeps it consecutive. */
  lemma PastExtendsConsecutive(days: seq<int>)
    requires Consecutive(days) && |days| > 0
    ensures Consecutive(PastDays(days[0]) + days)
    ensures (PastDays(days[0]) + days)[PastChunk..] == days
    ensures (PastDays(days[0]) + days)[0] == days[0] - PastChunk
  {
    ConsecutiveJoin(PastDays(days[0]), days);
  }

  /** Appending the future block to a non-empty consecutive list keeps it consecutive. */
  lemma FutureExtendsConsecutive(days: seq<int>)
    requires Consecutive(days) && |days| > 0
    ensures Consecutive(days + FutureDays(days[|days| - 1]))
    ensures (days + FutureDays(days[|days| - 1]))[..|days|] == days
    ensures var r := days + FutureDays(days[|days| - 1]); r[|r| - 1] == days[|days| - 1] + FutureChunk
  {
    ConsecutiveJoin(days, FutureDays(days[|days| - 1]));
  }

  /**
   * The component's day state. A loader runs in two halves split by its `await`: the first
   * checks the guard, raises the flag and fixes the block to add (kept in `pendingPast` /
   * `pendingFuture`, the loader's locals across the wait); the second adds it and lowers the flag.
   */
  class Calendar {
    var displayedDays: seq<int>
    var isLoadingPrev: bool
    var isLoadingNext: bool
    var pendingPast: seq<int>
    var pendingFuture: seq<int>

    /** The list is consecutive, and a loader in flight holds the block that fits its end of it. */
    ghost predicate Valid()
      reads this
    {
      && Consecutive(displayedDays)
      && (isLoadingPrev ==> |displayedDays| > 0 && pendingPast == PastDays(displayedDays[0]))
      && (isLoadingNext ==> |displayedDays| > 0
                            && pendingFuture == FutureDays(displayedDays[|displayedDays| - 1]))
    }

    constructor (today: int)
      ensures Valid()
      ensures displayedDays == InitialDays(today)
      ensures !isLoadingPrev && !isLoadingNext
    {
      displayedDays := InitialDays(today);
      isLoadingPrev, isLoadingNext := false, false;
      pendingPast, pendingFuture := [], [];
    }

    /** loadPastDays up to its `await` (lines 58-65). */
    method BeginLoadPastDays() returns (started: bool)
      requires Valid()
      modifies this
      ensures Valid()
      ensures started <==> !old(isLoadingPrev) && |old(displayedDays)| > 0
      ensures !started ==> unchanged(this)
      ensures started ==> isLoadingPrev && pendingPast == PastDays(displayedDays[0])
      ensures displayedDays == old(displayedDays) && isLoadingNext == old(isLoadingNext)
      ensures pendingFuture == old(pendingFuture)
    {
      if isLoadingPrev || |displayedDays| == 0 {
        return false;
      }
      isLoadingPrev := true;
      var firstDay := displayedDays[0];
      pendingPast := PastDays(firstDay);
      started := true;
    }

    /** loadPastDays after its `await` (lines 70-72): prepend the block, lower the flag. */
    method FinishLoadPastDays()
      requires Valid() && isLoadingPrev
      modifies this
      ensures Valid()
      ensures displayedDays == old(pendingPast) + old(displayedDays)
      ensures |displayedDays| == |old(displayedDays)| + PastChunk
      ensures displayedDays[PastChunk..] == old(displayedDays)
      ensures displayedDays[PastChunk - 1] == old(displayedDays)[0] - 1
      ensures !isLoadingPrev && isLoadingNext == old(isLoadingNext) && pendingFuture == old(pendingFuture)
    {
      PastExtendsConsecutive(displayedDays);
      displayedDays := pendingPast + displayedDays;
      isLoadingPrev := false;
    }

    /** loadfutureDays up to its `await` (lines 75-82). */
    method BeginLoadFutureDays() returns (started: bool)
      requires Valid()
      modifies this
      ensures Valid()
      ensures started <==> !old(isLoadingNext) && |old(displayedDays)| > 0
      ensures !started ==> unchanged(this)
      ensures started ==> isLoadingNext && pendingFuture == FutureDays(displayedDays[|displayedDays| - 1])
      ensures displayedDays == old(displayedDays) && isLoadingPrev == old(isLoadingPrev)
      ensures pendingPast == old(pendingPast)
    {
      if isLoadingNext || |displayedDays| == 0 {
        return false;
      }
      isLoadingNext := true;
      var lastDay := displayedDays[|displayedDays| - 1];
      pendingFuture := FutureDays(lastDay);
      started := true;
    }

    /** loadfutureDays after its `await` (lines 87-89): append the block, lower the flag. */
    method FinishLoadFutureDays()
      requires Valid() && isLoadingNext
      modifies this
      ensures Valid()
      ensures displayedDays == old(displayedDays) + old(pendingFuture)
      ensures |displayedDays| == |old(displayedDays)| + FutureChunk
      ensures displayedDays[..|old(displayedDays)|] == old(displayedDays)
      ensures displayedDays[|old(displayedDays)|] == old(displayedDays)[|old(displayedDays)| - 1] + 1
      ensures isLoadingNext == false && isLoadingPrev == old(isLoadingPrev) && pendingPast == old(pendingPast)
    {
      FutureExtendsConsecutive(displayedDays);
      displayedDays := displayedDays + pendingFuture;
      isLoadingNext := false;
    }

    /** loadPastDays as one step: seven days prepended, or nothing when guarded off. */
    method LoadPastDays()
      requires Valid()
      modifies this
      ensures Valid()
      ensures old(isLoadingPrev) || |old(displayedDays)| == 0 ==> unchanged(this)
      ensures !old(isLoadingPrev) && |old(displayedDays)| > 0 ==>
                && displayedDays == PastDays(old(displayedDays)[0]) + old(displayedDays)
                && !isLoadingPrev
      ensures isLoadingNext == old(isLoadingNext)
    {
      var started := BeginLoadPastDays();
      if started {
        FinishLoadPastDays();
      }
    }

    /** loadfutureDays as one step: fourteen days appended, or nothing when guarded off. */
    method LoadFutureDays()
      requires Valid()
      modifies this
      ensures Valid()
      ensures old(isLoadingNext) || |old(displayedDays)| == 0 ==> unchanged(this)
      ensures !old(isLoadingNext) && |old(displayedDays)| > 0 ==>
                && displayedDays == old(displayedDays) + FutureDays(old(displayedDays)[|old(displayedDays)| - 1])
                && !isLoadingNext
      ensures isLoadingPrev == old(isLoadingPrev)
    {
      var started := BeginLoadFutureDays();
      if started {
        FinishLoadFutureDays();
      }
    }
  }

  /**
   * Both loaders in flight at once (each click raises its flag, then both waits end, the
   * past one first): the list is still one run of days, now three weeks longer.
   */
  method OverlappingLoads(today: int) returns (days: seq<int>)
    ensures |days| == 51 + PastChunk + FutureChunk && Consecutive(days)
    ensures days[0] == today - DaysBefore - PastChunk
    ensures days[|days| - 1] == today + DaysAfter + FutureChunk
  {
    var c := new Calendar(today);
    var startedPast := c.BeginLoadPastDays();
    var startedFuture := c.BeginLoadFutureDays();
    c.FinishLoadPastDays();
    c.FinishLoadFutureDays();
    days := c.displayedDays;
  }
}
