/** The feed of app/src/test/.../EnergyPriceAPITest.kt: twelve hourly readings, the i-th
    costing i, run through `processPrices` and `getTodaysEnergyPrices`. */
module EnergyPriceApiTest {
  import opened Series
  import opened PriceModel
  import opened PersistenceModel
  import opened EnergyPriceApi

  const Hour: int := 3_600_000

  /** `generateFakeResponse(12)` once parsed: the reading `k + 1` hours after `t0` (the
      clock truncated to whole seconds by the date format) costs `k + 1`. */
  function FakeFeed(t0: int): seq<Entry> {
    seq(12, k => Entry(t0 + (k + 1) * Hour, (k + 1) as real))
  }

  /** The readings come one hour apart, so the feed is already a chronological map. */
  lemma FakeFeedSorted(t0: int)
    ensures Chronological(FakeFeed(t0)) && UniqueTimes(FakeFeed(t0))
    ensures Collect(FakeFeed(t0)) == FakeFeed(t0)
    ensures Sorted(FakeFeed(t0)) == FakeFeed(t0)
  {
    var s := FakeFeed(t0);
    assert Chronological(s);
    AssociateUnique(s);
    assert Elements(Sorted(s)) == Elements(s);
    ChronologicalSame(Sorted(s), s);
  }

  /** An entry of the feed is the one whose price it carries. */
  lemma FakeFeedMember(t0: int, x: Entry)
    requires x in FakeFeed(t0)
    ensures 1.0 <= x.price <= 12.0
    ensures forall k :: 0 <= k < 12 && x.price == (k + 1) as real ==> x == FakeFeed(t0)[k]
  {
  }

  /** A filter every position passes keeps the list. */
  lemma FilterKeepsEach(s: seq<Entry>, p: Entry -> bool)
    requires forall k :: 0 <= k < |s| ==> p(s[k])
    ensures Filter(s, p) == s
  {
    forall x | x in s
      ensures p(x)
    {
      var k :| 0 <= k < |s| && s[k] == x;
    }
    FilterAll(s, p);
  }

  /** A filter no position passes empties the list. */
  lemma FilterDropsEach(s: seq<Entry>, p: Entry -> bool)
    requires forall k :: 0 <= k < |s| ==> !p(s[k])
    ensures Filter(s, p) == []
  {
    forall x | x in s
      ensures !p(x)
    {
      var k :| 0 <= k < |s| && s[k] == x;
    }
    FilterNone(s, p);
  }

  /** The midpoint falls half an hour after the sixth reading. */
  lemma FakeFeedMedian(t0: int)
    ensures Median(FakeFeed(t0)) == t0 + 6 * Hour + Hour / 2
  {
    var s := FakeFeed(t0);
    assert s[0].time == t0 + Hour && s[11].time == t0 + 12 * Hour;
  }

  /** Six readings fall before the midpoint and six after it. */
  lemma FakeFeedHalves(t0: int)
    ensures Early(FakeFeed(t0)) == FakeFeed(t0)[..6]
    ensures Late(FakeFeed(t0)) == FakeFeed(t0)[6..]
  {
    var s := FakeFeed(t0);
    var m := Median(s);
    FakeFeedMedian(t0);
    var a, b := s[..6], s[6..];
    assert s == a + b;
    assert forall k :: 0 <= k < |a| ==> a[k].time < m;
    assert forall k :: 0 <= k < |b| ==> b[k].time >= m;
    FilterAppend(a, b, Before(m));
    FilterAppend(a, b, NotBefore(m));
    FilterKeepsEach(a, Before(m));
    FilterDropsEach(b, Before(m));
    FilterDropsEach(a, NotBefore(m));
    FilterKeepsEach(b, NotBefore(m));
  }

  /** The entry of a run of the feed that no other entry of the run exceeds is its last. */
  lemma HighestOfRun(t0: int, lo: nat, hi: nat, v: Entry)
    requires lo < hi <= 12 && v in FakeFeed(t0)[lo..hi]
    requires forall x :: x in FakeFeed(t0)[lo..hi] ==> x.price <= v.price
    ensures v == FakeFeed(t0)[hi - 1]
  {
    var run := FakeFeed(t0)[lo..hi];
    var j :| 0 <= j < |run| && run[j] == v;
    assert run[hi - 1 - lo] in run;
  }

  /** The entry of a run of the feed that no other entry of the run undercuts is its first. */
  lemma LowestOfRun(t0: int, lo: nat, hi: nat, v: Entry)
    requires lo < hi <= 12 && v in FakeFeed(t0)[lo..hi]
    requires forall x :: x in FakeFeed(t0)[lo..hi] ==> v.price <= x.price
    ensures v == FakeFeed(t0)[lo]
  {
    var run := FakeFeed(t0)[lo..hi];
    var j :| 0 <= j < |run| && run[j] == v;
    assert run[0] in run;
  }

  lemma OptionSetOne(e: Entry)
    ensures OptionSet(Some(e)) == {e}
  {
  }

  /** In a run of the feed the prices rise, so its earliest highest reading is its last
      and its earliest lowest reading its first. */
  lemma RunExtremes(t0: int, lo: nat, hi: nat)
    requires lo < hi <= 12
    ensures FirstMax(FakeFeed(t0)[lo..hi]) == Some(FakeFeed(t0)[hi - 1])
    ensures FirstMin(FakeFeed(t0)[lo..hi]) == Some(FakeFeed(t0)[lo])
  {
    var run := FakeFeed(t0)[lo..hi];
    assert run[0] in run;
    HighestOfRun(t0, lo, hi, FirstMax(run).value);
    LowestOfRun(t0, lo, hi, FirstMin(run).value);
  }

  /** The earliest highest and lowest readings of the two halves. */
  lemma FakeFeedExtremes(t0: int)
    ensures FirstMax(Early(FakeFeed(t0))) == Some(FakeFeed(t0)[5])
    ensures FirstMax(Late(FakeFeed(t0))) == Some(FakeFeed(t0)[11])
    ensures FirstMin(Early(FakeFeed(t0))) == Some(FakeFeed(t0)[0])
    ensures FirstMin(Late(FakeFeed(t0))) == Some(FakeFeed(t0)[6])
  {
    var s := FakeFeed(t0);
    FakeFeedHalves(t0);
    assert s[6..] == s[6..12];
    RunExtremes(t0, 0, 6);
    RunExtremes(t0, 6, 12);
  }

  /** The specials are the four extremes the halves pick. */
  lemma PeaksAndTroughsAre(sorted: seq<Entry>, hiE: Entry, hiL: Entry, loE: Entry, loL: Entry)
    requires sorted != []
    requires FirstMax(Early(sorted)) == Some(hiE) && FirstMax(Late(sorted)) == Some(hiL)
    requires FirstMin(Early(sorted)) == Some(loE) && FirstMin(Late(sorted)) == Some(loL)
    ensures PeaksAndTroughs(sorted) == {loE, hiE, loL, hiL}
  {
    OptionSetOne(hiE);
    OptionSetOne(hiL);
    OptionSetOne(loE);
    OptionSetOne(loL);
  }

  /** The specials: the first and sixth readings of the early half, the seventh and
      twelfth of the late half. */
  lemma FakeFeedSpecials(t0: int)
    ensures PeaksAndTroughs(FakeFeed(t0)) == {FakeFeed(t0)[0], FakeFeed(t0)[5], FakeFeed(t0)[6], FakeFeed(t0)[11]}
  {
    var s := FakeFeed(t0);
    FakeFeedExtremes(t0);
    PeaksAndTroughsAre(s, s[5], s[11], s[0], s[6]);
  }

  /** The first four readings, as a set. */
  lemma FakeFeedFirstFour(t0: int)
    ensures Elements(Take(FakeFeed(t0), 4)) == {FakeFeed(t0)[0], FakeFeed(t0)[1], FakeFeed(t0)[2], FakeFeed(t0)[3]}
  {
    var s := FakeFeed(t0);
    assert Take(s, 4) == [s[0], s[1], s[2], s[3]];
  }

  /** The readings the initial selection holds, in order. */
  function Picked(t0: int): seq<Entry> {
    var s := FakeFeed(t0);
    [s[0], s[1], s[2], s[3], s[5], s[6], s[11]]
  }

  /** Seven readings with distinct timestamps: the specials and the first four. */
  lemma PickedApart(t0: int)
    ensures |Elements(Picked(t0))| == 7
    ensures Elements(Picked(t0)) == {FakeFeed(t0)[0], FakeFeed(t0)[5], FakeFeed(t0)[6], FakeFeed(t0)[11]}
                                    + {FakeFeed(t0)[0], FakeFeed(t0)[1], FakeFeed(t0)[2], FakeFeed(t0)[3]}
  {
    assert UniqueTimes(Picked(t0));
    DistinctSize(Picked(t0));
  }

  /** The initial selection: the first four readings and the specials, seven in all. */
  lemma FakeFeedInitial(t0: int)
    ensures Initial(FakeFeed(t0)) == Elements(Picked(t0))
    ensures |Initial(FakeFeed(t0))| == 7
  {
    var s := FakeFeed(t0);
    FakeFeedSpecials(t0);
    FakeFeedFirstFour(t0);
    PickedApart(t0);
    assert Initial(s) == PeaksAndTroughs(s) + Elements(Take(s, 4));
  }

  /** Which readings the initial selection holds. */
  lemma PickedHolds(t0: int, k: nat)
    requires k < 12
    ensures FakeFeed(t0)[k] in Elements(Picked(t0)) <==> k <= 3 || k == 5 || k == 6 || k == 11
  {
    var p := Picked(t0);
    assert p[0] == FakeFeed(t0)[0] && p[4] == FakeFeed(t0)[5] && p[5] == FakeFeed(t0)[6] && p[6] == FakeFeed(t0)[11];
  }

  /** `remaining` of a chronological list is the chronological list of exactly the
      unselected entries. */
  lemma RemainingIs(s: seq<Entry>, sel: set<Entry>, rest: seq<Entry>)
    requires Chronological(s) && Chronological(rest)
    requires forall x :: x in rest <==> x in s && x !in sel
    ensures Remaining(s, sel) == rest
  {
    var left := Remaining(s, sel);
    assert Elements(left) == Elements(rest);
    ChronologicalSame(left, rest);
  }

  /** The readings the initial selection leaves. */
  function Unpicked(t0: int): seq<Entry> {
    var s := FakeFeed(t0);
    [s[4], s[7], s[8], s[9], s[10]]
  }

  /** A reading is left exactly when it is not picked. */
  lemma UnpickedApart(t0: int)
    ensures Chronological(Unpicked(t0))
    ensures forall x :: x in Unpicked(t0) <==> x in FakeFeed(t0) && x !in Elements(Picked(t0))
  {
    var s := FakeFeed(t0);
    forall x
      ensures x in Unpicked(t0) <==> x in s && x !in Elements(Picked(t0))
    {
      if x in s {
        var k :| 0 <= k < 12 && s[k] == x;
        PickedHolds(t0, k);
      }
    }
  }

  /** What is left to draw from: the fifth and the eighth to eleventh readings. */
  lemma FakeFeedLeftover(t0: int)
    ensures Leftover(FakeFeed(t0)) == Unpicked(t0)
  {
    FakeFeedSorted(t0);
    FakeFeedInitial(t0);
    UnpickedApart(t0);
    RemainingIs(FakeFeed(t0), Elements(Picked(t0)), Unpicked(t0));
  }

  /** With three draws from five entries the curve is evaluated at 0, 0.5 and 1: the
      positions are 0, `(4 * curve(0.5)).toInt()` and 4, which differ exactly when
      `curve(0.5)` lies in [0.25, 1) (for `0.5.pow(1.8)`, about 0.287, they do). */
  lemma FakeFeedDraws(curve: real -> real)
    requires CurveOk(curve) && 0.25 <= curve(0.5) < 1.0
    ensures DrawIndex(0, 3, 5, curve) == 0 && DrawIndex(2, 3, 5, curve) == 4
    ensures 1 <= DrawIndex(1, 3, 5, curve) <= 3
    ensures DrawsDistinct(3, 5, curve)
  {
    assert Fraction(1, 3) == 0.5;
    ScaleIsProduct(curve(0.0), 4);
    ScaleIsProduct(curve(0.5), 4);
    ScaleIsProduct(curve(1.0), 4);
    TruncBounds(4.0 * curve(0.5));
    assert Trunc(0.0) == 0 && Trunc(4.0) == 4;
  }

  /** The feed's highest price is 12.0 and its lowest 1.0. */
  lemma FakeFeedPrices(t0: int)
    ensures MaxPrice(FakeFeed(t0)) == 12.0 && MinPrice(FakeFeed(t0)) == 1.0
  {
    var s := FakeFeed(t0);
    assert s[11] in s && s[0] in s;
    var max, min := MaxPrice(s), MinPrice(s);
    var hi :| hi in s && hi.price == max;
    var lo :| lo in s && lo.price == min;
    FakeFeedMember(t0, hi);
    FakeFeedMember(t0, lo);
  }

  /** A chronological feed whose selection starts with seven entries and leaves five,
      drawn from at distinct positions, is curated to ten points bounded by its own
      extremes. */
  lemma CurateSevenAndFive(raw: seq<Entry>, curve: real -> real)
    requires CurveOk(curve) && raw != [] && Sorted(raw) != []
    requires |Initial(Sorted(raw))| == 7 && |Leftover(Sorted(raw))| == 5
    requires DrawsDistinct(3, 5, curve)
    ensures Curate(raw, curve).Success? && Curate(raw, curve).value.priceTimeMap.Some?
    ensures |Curate(raw, curve).value.priceTimeMap.value| == 10
    ensures Curate(raw, curve).value.peakPrice == MaxPrice(Collect(raw))
    ensures Curate(raw, curve).value.troughPrice == MinPrice(Collect(raw))
  {
    CurateExactlyTen(raw, curve);
    CurateShape(raw, curve, false);
  }

  /** `testGetTodaysEnergyPricesSuccess`, on `processPrices`: exactly ten points, peak 12.0
      and trough 1.0. */
  lemma FakeFeedCurated(t0: int, curve: real -> real)
    requires CurveOk(curve) && 0.25 <= curve(0.5) < 1.0
    ensures Curate(FakeFeed(t0), curve).Success?
    ensures Curate(FakeFeed(t0), curve).value.priceTimeMap.Some?
    ensures |Curate(FakeFeed(t0), curve).value.priceTimeMap.value| == 10
    ensures Curate(FakeFeed(t0), curve).value.peakPrice == 12.0
    ensures Curate(FakeFeed(t0), curve).value.troughPrice == 1.0
  {
    FakeFeedDraws(curve);
    FakeFeedSorted(t0);
    FakeFeedInitial(t0);
    FakeFeedLeftover(t0);
    FakeFeedPrices(t0);
    CurateSevenAndFive(FakeFeed(t0), curve);
  }

  /** A first response whose curation succeeds with a non-empty map is what
      `getTodaysEnergyPrices` returns, after one call. */
  lemma GetFirstResponse(raw: seq<Entry>, rest: seq<Attempt>, store: Store, now: int, curve: real -> real)
    requires CacheTyped(store)
    requires Curate(raw, curve).Success? && Curate(raw, curve).value.priceTimeMap.Some?
    requires Curate(raw, curve).value.priceTimeMap.value != []
    ensures GetSpec([Response(raw)] + rest, store, now, curve) == Done(Curate(raw, curve).value, 1)
  {
    RetryFirstSuccess([Response(raw)] + rest, CacheFallback(store, now), Processor(curve));
  }

  /** The same response after two IOExceptions is returned after three calls. */
  lemma GetThirdResponse(raw: seq<Entry>, rest: seq<Attempt>, store: Store, now: int, curve: real -> real)
    requires CacheTyped(store)
    requires Curate(raw, curve).Success? && Curate(raw, curve).value.priceTimeMap.Some?
    requires Curate(raw, curve).value.priceTimeMap.value != []
    ensures GetSpec([IOFailure, IOFailure, Response(raw)] + rest, store, now, curve) == Done(Curate(raw, curve).value, 3)
  {
    RetryTwoFailuresThenSuccess(raw, rest, CacheFallback(store, now), Processor(curve));
  }

  /** `testGetTodaysEnergyPricesSuccess`: the first call answers, the loop ends after it
      with ten points, peak 12.0 and trough 1.0. */
  lemma FakeFeedFirstCall(t0: int, rest: seq<Attempt>, store: Store, now: int, curve: real -> real)
    requires CacheTyped(store) && CurveOk(curve) && 0.25 <= curve(0.5) < 1.0
    ensures var r := GetSpec([Response(FakeFeed(t0))] + rest, store, now, curve);
      && r.Done? && r.calls == 1 && r.prices.priceTimeMap.Some?
      && |r.prices.priceTimeMap.value| == 10
      && r.prices.peakPrice == 12.0 && r.prices.troughPrice == 1.0
  {
    FakeFeedCurated(t0, curve);
    GetFirstResponse(FakeFeed(t0), rest, store, now, curve);
  }

  /** `testGetTodaysEnergyPricesRetryLogic` with its two failed calls raised as IOExceptions,
      the failures this revision retries: three calls in all, and the same ten points, peak
      and trough. */
  lemma FakeFeedThirdCall(t0: int, rest: seq<Attempt>, store: Store, now: int, curve: real -> real)
    requires CacheTyped(store) && CurveOk(curve) && 0.25 <= curve(0.5) < 1.0
    ensures var r := GetSpec([IOFailure, IOFailure, Response(FakeFeed(t0))] + rest, store, now, curve);
      && r.Done? && r.calls == 3 && r.prices.priceTimeMap.Some?
      && |r.prices.priceTimeMap.value| == 10
      && r.prices.peakPrice == 12.0 && r.prices.troughPrice == 1.0
  {
    FakeFeedCurated(t0, curve);
    GetThirdResponse(FakeFeed(t0), rest, store, now, curve);
  }

  /** A plain `Exception` from the first call, the failure both retry tests mock, is caught
      by neither clause: it leaves `getTodaysEnergyPrices` after that one call, with no
      retry, no fallback to the cache and nothing saved. */
  lemma PlainExceptionEscapes(rest: seq<Attempt>, store: Store, now: int, curve: real -> real)
    requires CacheTyped(store)
    ensures GetSpec([OtherFailure] + rest, store, now, curve) == Escaped(1)
  {
    var a := [OtherFailure] + rest;
    assert a[0] == OtherFailure;
  }

  /** `testGetTodaysEnergyPricesRetryLogic` as its mock behaves, throwing `Exception` on
      the first two calls: the first one escapes, so neither three calls nor the feed's
      prices are reached. */
  lemma FakeFeedRetryAsMocked(t0: int, rest: seq<Attempt>, store: Store, now: int, curve: real -> real)
    requires CacheTyped(store)
    ensures GetSpec([OtherFailure, OtherFailure, Response(FakeFeed(t0))] + rest, store, now, curve) == Escaped(1)
  {
    var tail := [OtherFailure, Response(FakeFeed(t0))] + rest;
    assert [OtherFailure, OtherFailure, Response(FakeFeed(t0))] + rest == [OtherFailure] + tail;
    PlainExceptionEscapes(tail, store, now, curve);
  }
}
