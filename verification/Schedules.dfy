/** The request schedules of comparison arms: intervals, bursts, profiles and daily offers. */
module Schedules {
  import opened DailyOffers

  datatype Pair = Pair(origin: string, destination: string)

  datatype Request = Request(tick: nat, origin: string, destination: string, departure: bool)

  type Schedule = seq<Request>

  /** Requests come in tick order, inside the arrival window. */
  ghost predicate Fits(schedule: Schedule, window: nat) {
    && (forall k :: 0 <= k < |schedule| ==> 1 <= schedule[k].tick < window)
    && forall j, k :: 0 <= j <= k < |schedule| ==> schedule[j].tick <= schedule[k].tick
  }

  /** The number of whole intervals that end before the window does. */
  function IntervalCount(window: nat, interval: nat): nat
    requires window >= 1 && interval >= 1
  {
    (window - 1) / interval
  }

  /** The tick of request i: its own interval, or the first one of its burst. */
  function IntervalTick(interval: nat, burst: nat, bursty: bool, i: nat): nat
    requires burst >= 1
  {
    if bursty then interval + i / burst * burst * interval else (i + 1) * interval
  }

  lemma FloorMultiple(i: nat, burst: nat)
    requires burst >= 1
    ensures i / burst * burst <= i < i / burst * burst + burst
  {
    assert i == i / burst * burst + i % burst;
  }

  lemma ScaleMonotone(a: nat, b: nat, factor: nat)
    requires a <= b
    ensures a * factor <= b * factor
  {
  }

  /** Ticks do not decrease. A burst shares the tick that its first request would have alone. */
  lemma TicksInOrder(interval: nat, burst: nat, bursty: bool, i: nat, j: nat)
    requires burst >= 1 && i <= j
    ensures IntervalTick(interval, burst, bursty, i) <= IntervalTick(interval, burst, bursty, j)
    ensures bursty && i / burst == j / burst ==>
      IntervalTick(interval, burst, true, i) == IntervalTick(interval, burst, true, j)
    ensures IntervalTick(interval, burst, true, i / burst * burst)
      == IntervalTick(interval, burst, false, i / burst * burst)
  {
    QuotientOrder(i, j, burst);
    ScaleMonotone(i / burst, j / burst, burst);
    ScaleMonotone(i / burst * burst, j / burst * burst, interval);
    ScaleMonotone(i + 1, j + 1, interval);
    QuotientIs(i / burst * burst, burst, i / burst);
    assert (i / burst * burst + 1) * interval == i / burst * burst * interval + interval;
  }

  lemma QuotientOrder(i: nat, j: nat, burst: nat)
    requires burst >= 1 && i <= j
    ensures i / burst <= j / burst
  {
    FloorMultiple(i, burst);
    FloorMultiple(j, burst);
    Ordered(j / burst + 1, i / burst, burst);
    assert (j / burst + 1) * burst == j / burst * burst + burst;
  }

  /** Every counted request is inside the window. */
  lemma TicksInWindow(window: nat, interval: nat, burst: nat, bursty: bool, i: nat)
    requires window >= 1 && interval >= 1 && burst >= 1 && i < IntervalCount(window, interval)
    ensures 1 <= IntervalTick(interval, burst, bursty, i) <= (i + 1) * interval < window
  {
    FloorMultiple(i, burst);
    ScaleMonotone(i / burst * burst, i, interval);
    assert (i + 1) * interval == i * interval + interval;
    ScaleMonotone(i + 1, IntervalCount(window, interval), interval);
    FloorMultiple(window - 1, interval);
  }

  /** The count is the greatest: its last interval ends inside the window, and one more would leave it. */
  lemma CountIsGreatest(window: nat, interval: nat)
    requires window >= 1 && interval >= 1
    ensures var count := IntervalCount(window, interval); count * interval < window <= (count + 1) * interval
  {
    var count := IntervalCount(window, interval);
    FloorMultiple(window - 1, interval);
    assert (count + 1) * interval == count * interval + interval;
  }

  /** The synthetic and the profile schedules. The draws give the pairs. */
  method IntervalSchedule(window: nat, interval: nat, burst: nat, bursty: bool, draws: nat -> Pair)
    returns (requests: Schedule)
    requires window >= 1 && interval >= 1 && burst >= 1
    ensures Fits(requests, window) && |requests| == IntervalCount(window, interval)
    ensures forall i :: 0 <= i < |requests| ==>
      requests[i] == Request(IntervalTick(interval, burst, bursty, i), draws(i).origin, draws(i).destination, false)
  {
    requests := [];
    var count := IntervalCount(window, interval);
    for i := 0 to count
      invariant |requests| == i
      invariant forall k :: 0 <= k < i ==>
        requests[k] == Request(IntervalTick(interval, burst, bursty, k), draws(k).origin, draws(k).destination, false)
    {
      var tick := (i + 1) * interval;
      if bursty {
        tick := interval + i / burst * burst * interval;
      }
      requests := requests + [Request(tick, draws(i).origin, draws(i).destination, false)];
    }
    forall k | 0 <= k < |requests| ensures 1 <= requests[k].tick < window {
      TicksInWindow(window, interval, burst, bursty, k);
    }
    forall j, k | 0 <= j <= k < |requests| ensures requests[j].tick <= requests[k].tick {
      TicksInOrder(interval, burst, bursty, j, k);
    }
  }

  /** The daily schedule: one request for each offer of the budget, with the pair of its band and draw. */
  method DailySchedule(daily: DailyProfile, window: nat, draws: (nat, int) -> Pair) returns (requests: Schedule)
    requires WellFormed(daily) && window >= 1
    ensures Fits(requests, window)
    ensures var offers := TickBudget(daily, window - 1).offers;
      |requests| == |offers| && forall k :: 0 <= k < |offers| ==>
        requests[k] == Request(offers[k].tick, draws(k, offers[k].band).origin, draws(k, offers[k].band).destination,
                               false)
  {
    var count, _ := DailyOfferTicks(daily, window, false);
    var recorded, offers := DailyOfferTicks(daily, window, true);
    assert count == recorded;
    requests := [];
    for k := 0 to |offers|
      invariant |requests| == k
      invariant forall j :: 0 <= j < k ==>
        requests[j] == Request(offers[j].tick, draws(j, offers[j].band).origin, draws(j, offers[j].band).destination,
                               false)
    {
      var pair := draws(k, offers[k].band);
      requests := requests + [Request(offers[k].tick, pair.origin, pair.destination, false)];
    }
    OffersInOrder(daily, window - 1);
  }
}
