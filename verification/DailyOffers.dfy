/** The offer ticks of a daily profile: a closed form of the budget that grows at every tick. */
module DailyOffers {

  const MINUTES_PER_DAY: nat := 1440
  const TICKS_PER_MINUTE: nat := 3600

  /** The band of each minute of the day, or -1, and the rate of each band. */
  datatype DailyProfile = DailyProfile(startMinute: nat, minutes: seq<int>, rates: seq<nat>)

  predicate WellFormed(d: DailyProfile) {
    d.startMinute < MINUTES_PER_DAY && |d.minutes| == MINUTES_PER_DAY
  }

  function Band(d: DailyProfile, tick: nat): int
    requires WellFormed(d)
  {
    var minute := ((if tick < 1 then 1 else tick) - 1) / TICKS_PER_MINUTE % MINUTES_PER_DAY;
    d.minutes[(minute + d.startMinute) % MINUTES_PER_DAY]
  }

  /** The ticks 1 to 3600 of a minute have the band of that minute of the day, counted from the start minute. */
  lemma BandHolds(d: DailyProfile, minute: nat, tick: nat)
    requires WellFormed(d) && minute * 3600 < tick <= (minute + 1) * 3600
    ensures Band(d, tick) == d.minutes[(minute + d.startMinute) % 1440]
  {
    assert (tick - 1) / TICKS_PER_MINUTE == minute;
    WrapsTwice(minute, d.startMinute);
  }

  lemma WrapsTwice(minute: nat, start: nat)
    ensures (minute % 1440 + start) % 1440 == (minute + start) % 1440
  {
  }

  function Rate(d: DailyProfile, band: int): nat {
    if band < 0 || band >= |d.rates| then 0 else d.rates[band]
  }

  datatype Offer = Offer(tick: nat, band: int)

  // ----- the budget at every tick -----

  datatype Budget = Budget(offers: seq<Offer>, units: nat)

  function Repeat(offer: Offer, count: nat): seq<Offer> {
    seq(count, _ => offer)
  }

  /** Adds the rate of the tick, and releases an offer for each full minute of units. */
  function Step(d: DailyProfile, tick: nat, before: Budget): Budget
    requires WellFormed(d)
  {
    var band := Band(d, tick);
    var units := before.units + Rate(d, band);
    Budget(before.offers + Repeat(Offer(tick, band), units / TICKS_PER_MINUTE), units % TICKS_PER_MINUTE)
  }

  /** The budget after the ticks 1 to n. */
  function TickBudget(d: DailyProfile, n: nat): Budget
    requires WellFormed(d)
  {
    if n == 0 then Budget([], 0) else Step(d, n, TickBudget(d, n - 1))
  }

  // ----- the closed form of one minute -----

  /** The tick of an offer: the first one at which the budget holds that many full minutes of units. */
  function OfferTick(base: nat, rate: nat, passenger: nat): nat
    requires rate > 0
  {
    base + (passenger * TICKS_PER_MINUTE + rate - 1) / rate
  }

  function MinuteOffers(base: nat, rate: nat, band: int, count: nat): seq<Offer>
    requires rate > 0
  {
    seq(count, k requires 0 <= k < count => Offer(OfferTick(base, rate, k + 1), band))
  }

  lemma MinuteBand(d: DailyProfile, base: nat, tick: nat)
    requires WellFormed(d) && base % TICKS_PER_MINUTE == 0 && base < tick <= base + TICKS_PER_MINUTE
    ensures Band(d, tick) == Band(d, base + 1)
  {
    assert (tick - 1) / TICKS_PER_MINUTE == base / TICKS_PER_MINUTE;
  }

  /** Passenger p is due at tick k + 1 when k ticks give fewer than p full minutes of units and k + 1 ticks give p. */
  lemma DueAt(base: nat, rate: nat, passenger: nat, k: nat)
    requires rate > 0 && k * rate < passenger * TICKS_PER_MINUTE <= (k + 1) * rate
    ensures OfferTick(base, rate, passenger) == base + k + 1
  {
    assert (k + 1) * rate == k * rate + rate;
    QuotientIs(passenger * TICKS_PER_MINUTE + rate - 1, rate, k + 1);
  }

  lemma QuotientIs(n: nat, divisor: nat, q: nat)
    requires divisor > 0 && q * divisor <= n < (q + 1) * divisor
    ensures n / divisor == q
  {
    var p := n / divisor;
    assert n == divisor * p + n % divisor;
    Ordered(p + 1, q, divisor);
    Ordered(q + 1, p, divisor);
    assert (p + 1) * divisor == p * divisor + divisor;
  }

  lemma Ordered(a: nat, b: nat, factor: nat)
    ensures a <= b ==> a * factor <= b * factor
  {
  }

  lemma UnitsDivide(k: nat, rate: nat)
    ensures ((k * rate) % TICKS_PER_MINUTE + rate) / TICKS_PER_MINUTE
      == (k + 1) * rate / TICKS_PER_MINUTE - k * rate / TICKS_PER_MINUTE
    ensures ((k * rate) % TICKS_PER_MINUTE + rate) % TICKS_PER_MINUTE == (k + 1) * rate % TICKS_PER_MINUTE
  {
    var units := k * rate;
    assert (k + 1) * rate == units + rate;
    assert units == TICKS_PER_MINUTE * (units / TICKS_PER_MINUTE) + units % TICKS_PER_MINUTE;
  }

  /** One more tick releases the offers that are due at it. */
  lemma MinuteGrows(base: nat, rate: nat, band: int, k: nat)
    requires rate > 0
    ensures k * rate / TICKS_PER_MINUTE <= (k + 1) * rate / TICKS_PER_MINUTE
    ensures MinuteOffers(base, rate, band, (k + 1) * rate / TICKS_PER_MINUTE) ==
      MinuteOffers(base, rate, band, k * rate / TICKS_PER_MINUTE)
      + Repeat(Offer(base + k + 1, band), (k + 1) * rate / TICKS_PER_MINUTE - k * rate / TICKS_PER_MINUTE)
  {
    assert (k + 1) * rate == k * rate + rate;
    var before, after := k * rate / TICKS_PER_MINUTE, (k + 1) * rate / TICKS_PER_MINUTE;
    assert before <= after;
    forall p: nat | before < p <= after ensures OfferTick(base, rate, p) == base + k + 1 {
      assert p * TICKS_PER_MINUTE <= (k + 1) * rate;
      assert p * TICKS_PER_MINUTE > k * rate;
      DueAt(base, rate, p, k);
    }
  }

  /** The offers of the first k ticks of the minute after `base`. */
  function MinuteDone(d: DailyProfile, base: nat, k: nat): seq<Offer>
    requires WellFormed(d)
  {
    var band := Band(d, base + 1);
    var rate := Rate(d, band);
    if rate == 0 then [] else MinuteOffers(base, rate, band, k * rate / TICKS_PER_MINUTE)
  }

  /** The units that the first k ticks of that minute leave. */
  function MinuteLeft(d: DailyProfile, base: nat, k: nat): nat
    requires WellFormed(d)
  {
    k * Rate(d, Band(d, base + 1)) % TICKS_PER_MINUTE
  }

  lemma MinuteStep(d: DailyProfile, base: nat, k: nat, earlier: seq<Offer>)
    requires WellFormed(d) && base % TICKS_PER_MINUTE == 0 && k < TICKS_PER_MINUTE
    ensures Step(d, base + k + 1, Budget(earlier + MinuteDone(d, base, k), MinuteLeft(d, base, k)))
         == Budget(earlier + MinuteDone(d, base, k + 1), MinuteLeft(d, base, k + 1))
  {
    MinuteBand(d, base, base + k + 1);
    var band := Band(d, base + 1);
    var rate := Rate(d, band);
    UnitsDivide(k, rate);
    if rate > 0 {
      MinuteGrows(base, rate, band, k);
    }
  }

  /** The first k ticks of a minute that starts with no units. */
  lemma MinuteBudget(d: DailyProfile, base: nat, k: nat)
    requires WellFormed(d) && base % TICKS_PER_MINUTE == 0 && k <= TICKS_PER_MINUTE && TickBudget(d, base).units == 0
    ensures TickBudget(d, base + k)
      == Budget(TickBudget(d, base).offers + MinuteDone(d, base, k), MinuteLeft(d, base, k))
  {
    var earlier := TickBudget(d, base).offers;
    var after := seq(k + 1, j requires 0 <= j <= k => Budget(earlier + MinuteDone(d, base, j), MinuteLeft(d, base, j)));
    MinuteStarts(d, base, earlier);
    forall j: nat | j < k ensures Step(d, base + j + 1, after[j]) == after[j + 1] {
      MinuteStep(d, base, j, earlier);
    }
    TicksFollow(d, base, after, k);
  }

  /** Budgets that follow each other tick by tick are those of the ticks. */
  lemma {:induction false} TicksFollow(d: DailyProfile, base: nat, after: seq<Budget>, k: nat)
    requires WellFormed(d) && k < |after| && after[0] == TickBudget(d, base)
    requires forall j: nat :: j < k ==> Step(d, base + j + 1, after[j]) == after[j + 1]
    ensures TickBudget(d, base + k) == after[k]
  {
    if k > 0 {
      TicksFollow(d, base, after, k - 1);
      NextTick(d, base + k - 1);
    }
  }

  lemma MinuteStarts(d: DailyProfile, base: nat, earlier: seq<Offer>)
    requires WellFormed(d)
    ensures Budget(earlier + MinuteDone(d, base, 0), MinuteLeft(d, base, 0)) == Budget(earlier, 0)
  {
  }

  lemma NextTick(d: DailyProfile, n: nat)
    requires WellFormed(d)
    ensures TickBudget(d, n + 1) == Step(d, n + 1, TickBudget(d, n))
  {
  }

  lemma NextMinute(d: DailyProfile, base: nat)
    requires WellFormed(d) && base % TICKS_PER_MINUTE == 0 && TickBudget(d, base).units == 0
    ensures TickBudget(d, base + TICKS_PER_MINUTE).units == 0
  {
    MinuteBudget(d, base, TICKS_PER_MINUTE);
    WholeMultiple(Rate(d, Band(d, base + 1)));
  }

  /** Every complete minute ends with no units. */
  lemma {:induction false} WholeMinutes(d: DailyProfile, minutes: nat)
    requires WellFormed(d)
    ensures TickBudget(d, minutes * TICKS_PER_MINUTE).units == 0
  {
    if minutes > 0 {
      WholeMinutes(d, minutes - 1);
      WholeMultiple(minutes - 1);
      NextMinute(d, (minutes - 1) * TICKS_PER_MINUTE);
    }
  }

  lemma WholeMultiple(rate: nat)
    ensures TICKS_PER_MINUTE * rate % TICKS_PER_MINUTE == 0 && TICKS_PER_MINUTE * rate / TICKS_PER_MINUTE == rate
  {
  }

  // ----- the loop over minutes -----

  /** The offers of one minute, passenger by passenger. */
  method MinuteLoop(base: nat, rate: nat, band: int, volume: nat) returns (offers: seq<Offer>)
    requires rate > 0
    ensures offers == MinuteOffers(base, rate, band, volume)
  {
    offers := [];
    var passenger := 1;
    while passenger <= volume
      invariant 1 <= passenger <= volume + 1 && offers == MinuteOffers(base, rate, band, passenger - 1)
    {
      offers := offers + [Offer(base + (passenger * TICKS_PER_MINUTE + rate - 1) / rate, band)];
      passenger := passenger + 1;
    }
  }

  function Before(end: nat): nat {
    if end == 0 then 0 else end - 1
  }

  /** The number of offers at the ticks below `end`, and the offers themselves when they are recorded. */
  method DailyOfferTicks(d: DailyProfile, end: nat, record: bool) returns (count: nat, offers: seq<Offer>)
    requires WellFormed(d)
    ensures count == |TickBudget(d, Before(end)).offers|
    ensures offers == if record then TickBudget(d, Before(end)).offers else []
  {
    count, offers := 0, [];
    var base := 0;
    ghost var done := 0;
    while base + 1 < end
      invariant base % TICKS_PER_MINUTE == 0 && done == if base < end then base else Before(end)
      invariant base < end ==> TickBudget(d, base).units == 0
      invariant count == |TickBudget(d, done).offers|
      invariant offers == if record then TickBudget(d, done).offers else []
    {
      var left := end - 1 - base;
      var available := if left < TICKS_PER_MINUTE then left else TICKS_PER_MINUTE;
      var volume, more := OneMinute(d, base, available, record);
      MinuteBudget(d, base, available);
      WholeMultiple(Rate(d, Band(d, base + 1)));
      count, offers := count + volume, offers + more;
      done := base + available;
      base := base + TICKS_PER_MINUTE;
    }
  }

  /** The offers at the first ticks of the minute after `base`. A gap has none. */
  method OneMinute(d: DailyProfile, base: nat, available: nat, record: bool) returns (volume: nat, offers: seq<Offer>)
    requires WellFormed(d)
    ensures volume == |MinuteDone(d, base, available)|
    ensures offers == if record then MinuteDone(d, base, available) else []
  {
    var band := Band(d, base + 1);
    var rate := Rate(d, band);
    if rate == 0 {
      return 0, [];
    }
    volume, offers := available * rate / TICKS_PER_MINUTE, [];
    if record {
      offers := MinuteLoop(base, rate, band, volume);
    }
  }

  // ----- what the budget gives -----

  predicate InOrder(offers: seq<Offer>) {
    forall j, k :: 0 <= j < k < |offers| ==> offers[j].tick <= offers[k].tick
  }

  /** The offers are in tick order, at the ticks 1 to n, each in the band of its tick. */
  lemma {:induction false} OffersInOrder(d: DailyProfile, n: nat)
    requires WellFormed(d)
    ensures var offers := TickBudget(d, n).offers;
      InOrder(offers) && forall k :: 0 <= k < |offers| ==>
        1 <= offers[k].tick <= n && offers[k].band == Band(d, offers[k].tick)
  {
    if n > 0 {
      OffersInOrder(d, n - 1);
    }
  }

  /** Each offer takes a full minute of units: the offers and the units left account for every rate that was added. */
  lemma {:induction false} UnitsConserved(d: DailyProfile, n: nat)
    requires WellFormed(d)
    ensures TICKS_PER_MINUTE * |TickBudget(d, n).offers| + TickBudget(d, n).units == RateSum(d, n)
    ensures TickBudget(d, n).units < TICKS_PER_MINUTE
  {
    if n > 0 {
      UnitsConserved(d, n - 1);
    }
  }

  function RateSum(d: DailyProfile, n: nat): nat
    requires WellFormed(d)
  {
    if n == 0 then 0 else RateSum(d, n - 1) + Rate(d, Band(d, n))
  }

  /** The live stream clears its units where a band starts. */
  function ClearedBudget(d: DailyProfile, starts: nat -> bool, n: nat): Budget
    requires WellFormed(d)
  {
    if n == 0 then Budget([], 0)
    else
      var before := ClearedBudget(d, starts, n - 1);
      Step(d, n, if starts((n - 1) / TICKS_PER_MINUTE) && (n - 1) % TICKS_PER_MINUTE == 0 then before.(units := 0)
           else before)
  }

  /** Bands start at whole minutes, so clearing the units changes nothing. */
  lemma {:induction false} ClearingChangesNothing(d: DailyProfile, starts: nat -> bool, n: nat)
    requires WellFormed(d)
    ensures ClearedBudget(d, starts, n) == TickBudget(d, n)
  {
    if n > 0 {
      ClearingChangesNothing(d, starts, n - 1);
      if (n - 1) % TICKS_PER_MINUTE == 0 {
        WholeMinutes(d, (n - 1) / TICKS_PER_MINUTE);
      }
    }
  }

  /** At a rate of at most one offer a tick no tick has two offers. */
  lemma {:induction false} OneOfferATick(d: DailyProfile, n: nat)
    requires WellFormed(d) && forall band :: Rate(d, band) <= TICKS_PER_MINUTE
    ensures TickBudget(d, n).units < TICKS_PER_MINUTE
    ensures var offers := TickBudget(d, n).offers;
            forall j, k :: 0 <= j < k < |offers| ==> offers[j].tick < offers[k].tick
  {
    if n > 0 {
      OneOfferATick(d, n - 1);
      OffersInOrder(d, n - 1);
      var before := TickBudget(d, n - 1);
      assert before.units + Rate(d, Band(d, n)) < 2 * TICKS_PER_MINUTE;
    }
  }
}
