/** The `PriceData` model object (app/.../prijswijs/Model/PriceData.kt): a nullable,
    insertion-ordered map from timestamps to prices plus the series' peak and trough,
    the in-place removal of stale entries, and the companion's `lastPrice` tracker. */
module PriceModel {
  import opened Series

  /** The value held by a PriceData object. */
  datatype Prices = Prices(priceTimeMap: Option<seq<Entry>>, peakPrice: real, troughPrice: real)

  const HourMillis: int := 3_600_000

  /** `Calendar.add(HOUR_OF_DAY, -1)` applied to `now`: anything strictly earlier is stale. */
  function Cutoff(now: int): int {
    now - HourMillis
  }

  /** The condition an entry must meet to survive the filter. */
  function Current(now: int): Entry -> bool {
    (x: Entry) => x.time >= Cutoff(now)
  }

  /** `priceTimeMap?.entries?.removeIf { it.key.before(cutoff) }` as a value. */
  function FilterTimes(m: Option<seq<Entry>>, now: int): (r: Option<seq<Entry>>)
    ensures r.None? <==> m.None?
    ensures r.Some? ==> forall x :: x in r.value <==> x in m.value && x.time >= Cutoff(now)
  {
    match m
    case None => None
    case Some(s) => Some(Filter(s, Current(now)))
  }

  /** Filtering twice with the same clock reading changes nothing more. */
  lemma FilterTimesIdempotent(m: Option<seq<Entry>>, now: int)
    ensures FilterTimes(FilterTimes(m, now), now) == FilterTimes(m, now)
  {
    if m.Some? {
      FilterIdempotent(m.value, Current(now));
    }
  }

  /** The surviving entries keep their relative order: filtering a map made of two
      parts is filtering each part. */
  lemma FilterTimesKeepsOrder(a: seq<Entry>, b: seq<Entry>, now: int)
    ensures FilterTimes(Some(a + b), now) ==
            Some(FilterTimes(Some(a), now).value + FilterTimes(Some(b), now).value)
  {
    FilterAppend(a, b, Current(now));
  }

  /** A map with no stale entry is left exactly as it was. */
  lemma FilterTimesCurrent(s: seq<Entry>, now: int)
    requires forall x :: x in s ==> x.time >= Cutoff(now)
    ensures FilterTimes(Some(s), now) == Some(s)
  {
    FilterAll(s, Current(now));
  }

  class PriceData {
    var priceTimeMap: Option<seq<Entry>>
    const peakPrice: real
    const troughPrice: real

    constructor (m: Option<seq<Entry>>, peak: real, trough: real)
      ensures priceTimeMap == m && peakPrice == peak && troughPrice == trough
    {
      priceTimeMap := m;
      peakPrice := peak;
      troughPrice := trough;
    }

    function View(): Prices
      reads this
    {
      Prices(priceTimeMap, peakPrice, troughPrice)
    }

    /** Removes, in place, every entry older than one hour before `now`, and returns `this`. */
    method FilterMapTimes(now: int) returns (self: PriceData)
      modifies this
      ensures self == this
      ensures priceTimeMap == FilterTimes(old(priceTimeMap), now)
    {
      priceTimeMap := FilterTimes(priceTimeMap, now);
      return this;
    }
  }

  /** The companion object of PriceData, holding `lastPrice`. */
  class PriceChangeTracker {
    var lastPrice: real

    constructor ()
      ensures lastPrice == -99.0
    {
      lastPrice := -99.0;
    }

    /** True, and the first price remembered, iff the first price differs from the one
        remembered; otherwise false and nothing changes. On an empty map `elementAt(0)`
        throws; on a null one the safe call yields null, which differs from any price,
        and `!!` throws. Neither failure changes `lastPrice`. */
    method DidPriceChange(data: PriceData) returns (r: Result<bool>)
      modifies this
      ensures data.priceTimeMap.None? ==> r == Failure(NullPointer) && lastPrice == old(lastPrice)
      ensures data.priceTimeMap == Some([]) ==> r == Failure(IndexOutOfBounds) && lastPrice == old(lastPrice)
      ensures data.priceTimeMap.Some? && data.priceTimeMap.value != [] ==>
                && r.Success?
                && (r.value <==> old(lastPrice) != data.priceTimeMap.value[0].price)
                && lastPrice == data.priceTimeMap.value[0].price
    {
      if data.priceTimeMap.None? {
        return Failure(NullPointer);
      }
      if data.priceTimeMap.value == [] {
        return Failure(IndexOutOfBounds);
      }
      var first := data.priceTimeMap.value[0].price;
      if lastPrice != first {
        lastPrice := first;
        r := Success(true);
      } else {
        r := Success(false);
      }
    }
  }

  /** Two calls in a row on the same data: the first reports a change from the initial
      -99.0 (for any other first price), the second does not. */
  method RepeatedCheck(data: PriceData) returns (first: Result<bool>, second: Result<bool>)
    requires data.priceTimeMap.Some? && data.priceTimeMap.value != []
    requires data.priceTimeMap.value[0].price != -99.0
    ensures first == Success(true) && second == Success(false)
  {
    var tracker := new PriceChangeTracker();
    first := tracker.DidPriceChange(data);
    second := tracker.DidPriceChange(data);
  }
}
