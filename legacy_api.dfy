/** The older price source (app/.../prijswijs/EnergyPriceAPI.kt): `processPrices` drops
    points more than an hour old, keeps a peak and a trough per half of the period (with a
    fallback when a half is empty), the first four points and squared-fraction draws, and
    trims back to ten; `getTodaysEnergyPrices` retries up to four calls and otherwise
    throws PricesUnavailableException with the last series it ever fetched. */
module LegacyApi {
  import opened Series
  import opened PriceModel
  import opened EnergyPriceApi

  /** `Triple<Map<Date, Double>, Double, Double>`: the map, the peak and the trough. */
  datatype Triple = Triple(priceTimeMap: seq<Entry>, peakPrice: real, troughPrice: real)

  // ---------------------------------------------------------------- collecting

  /** `datesAndPrices`: the points not before the cutoff, written in feed order. */
  function CollectFresh(raw: seq<Entry>, now: int): (r: seq<Entry>)
    ensures UniqueTimes(r)
  {
    Collect(Filter(raw, Current(now)))
  }

  /** Filtering on time keeps every write of a timestamp that passes. */
  lemma {:induction false} LastWriteFiltered(raw: seq<Entry>, now: int, t: int)
    ensures LastWrite(Filter(raw, Current(now)), t) == if t < Cutoff(now) then None else LastWrite(raw, t)
  {
    if raw != [] {
      LastWriteFiltered(raw[1..], now, t);
      var tail := Filter(raw[1..], Current(now));
      if Current(now)(raw[0]) {
        assert Filter(raw, Current(now)) == [raw[0]] + tail;
        assert ([raw[0]] + tail)[1..] == tail;
      } else {
        assert Filter(raw, Current(now)) == tail;
      }
    }
  }

  /** A stale point is gone, and a repeated timestamp holds the price written last. */
  lemma CollectFreshLookup(raw: seq<Entry>, now: int, t: int)
    ensures Lookup(CollectFresh(raw, now), t) == if t < Cutoff(now) then None else LastWrite(raw, t)
  {
    LookupPutAll([], Filter(raw, Current(now)), t);
    LastWriteFiltered(raw, now, t);
  }

  // ---------------------------------------------------------------- ranking by price

  /** `x` goes strictly before `y` in `sortedByDescending { it.value }` (`desc`) or in
      `sortedBy { it.value }`. */
  predicate Ahead(x: Entry, y: Entry, desc: bool) {
    if desc then x.price > y.price else x.price < y.price
  }

  predicate Ranked(s: seq<Entry>, desc: bool) {
    forall i, j :: 0 <= i < j < |s| ==> !Ahead(s[j], s[i], desc)
  }

  /** Inserts `e` after every entry it does not beat, which keeps the sort stable. */
  function InsertRanked(s: seq<Entry>, e: Entry, desc: bool): (r: seq<Entry>)
    requires Ranked(s, desc)
    ensures Ranked(r, desc) && |r| == |s| + 1
    ensures forall x :: x in r <==> x == e || x in s
  {
    if s == [] then [e]
    else if Ahead(e, s[0], desc) then
      assert forall x :: x in s ==> !Ahead(x, s[0], desc);
      [e] + s
    else
      var tail := InsertRanked(s[1..], e, desc);
      assert forall x :: x in s[1..] ==> x in s;
      assert forall x :: x in s[1..] ==> !Ahead(x, s[0], desc) by {
        forall x | x in s[1..] ensures !Ahead(x, s[0], desc) {
          var j :| 0 <= j < |s[1..]| && s[1..][j] == x;
          assert s[j + 1] == x;
        }
      }
      var r := [s[0]] + tail;
      forall i, j | 0 <= i < j < |r| ensures !Ahead(r[j], r[i], desc) {
        assert r[j] == tail[j - 1] && r[j] in tail;
        if i > 0 {
          assert r[i] == tail[i - 1];
        }
      }
      r
  }

  /** The stable sort of the entries by price, highest first (`desc`) or lowest first. */
  function SortByPrice(s: seq<Entry>, desc: bool): (r: seq<Entry>)
    ensures Ranked(r, desc) && |r| == |s|
    ensures forall x :: x in r <==> x in s
  {
    if s == [] then []
    else
      var init := s[..|s| - 1];
      assert s == init + [s[|s| - 1]];
      InsertRanked(SortByPrice(init, desc), s[|s| - 1], desc)
  }

  /** The first candidate is an entry of highest price (or of lowest, ascending). */
  lemma RankedHead(s: seq<Entry>, desc: bool)
    requires s != []
    ensures var c := SortByPrice(s, desc);
      && c[0] in s
      && (desc ==> c[0].price == MaxPrice(s))
      && (!desc ==> c[0].price == MinPrice(s))
  {
    var c := SortByPrice(s, desc);
    assert c[0] in c;
    forall x | x in s ensures !Ahead(x, c[0], desc) {
      var j :| 0 <= j < |c| && c[j] == x;
    }
    var hi :| hi in s && hi.price == MaxPrice(s);
    var lo :| lo in s && lo.price == MinPrice(s);
    assert !Ahead(hi, c[0], desc) && !Ahead(lo, c[0], desc);
  }

  // ---------------------------------------------------------------- peaks and troughs

  function Abs(x: int): nat {
    if x >= 0 then x else -x
  }

  /** `totalDuration / 3`, a Long division that rounds toward zero. */
  function MinGap(sorted: seq<Entry>): int
    requires sorted != []
  {
    var d := sorted[|sorted| - 1].time - sorted[0].time;
    if d >= 0 then d / 3 else -((-d) / 3)
  }

  /** `firstOrNull { abs(it.key.time - t) >= gap }` */
  function FirstApart(s: seq<Entry>, t: int, gap: int): (r: Option<Entry>)
    ensures r.Some? ==> r.value in s && Abs(r.value.time - t) >= gap
    ensures r.None? ==> forall x :: x in s ==> Abs(x.time - t) < gap
  {
    if s == [] then None
    else if Abs(s[0].time - t) >= gap then Some(s[0])
    else
      assert forall x :: x in s ==> x == s[0] || x in s[1..];
      FirstApart(s[1..], t, gap)
  }

  /** The fallback's second choice: the best-ranked later candidate at least `gap` away
      from the first, else the second candidate, else none. */
  function SecondPick(c: seq<Entry>, gap: int): (r: Option<Entry>)
    requires c != []
    ensures r.Some? ==> r.value in c[1..]
    ensures r.None? <==> |c| == 1
  {
    match FirstApart(c[1..], c[0].time, gap)
    case Some(x) => Some(x)
    case None => if |c| > 1 then assert c[1] in c[1..]; Some(c[1]) else None
  }

  /** The two peaks (`desc`) or the two troughs: the extreme of each half when both
      halves have one, otherwise the fallback on the entries ranked by price. */
  function Picks(sorted: seq<Entry>, desc: bool): (r: (Option<Entry>, Option<Entry>))
    requires sorted != []
    ensures r.0.Some? ==> r.0.value in sorted
    ensures r.1.Some? ==> r.1.value in sorted
  {
    var early := Early(sorted);
    var late := Late(sorted);
    var p1 := if desc then FirstMax(early) else FirstMin(early);
    var p2 := if desc then FirstMax(late) else FirstMin(late);
    if p1.None? || p2.None? then
      var c := SortByPrice(sorted, desc);
      assert c[0] in c;
      var second := SecondPick(c, MinGap(sorted));
      assert second.Some? ==> second.value in c by {
        assert forall x :: x in c[1..] ==> x in c;
      }
      (Some(c[0]), second)
    else
      (p1, p2)
  }

  /** `specialSet`: the peaks and troughs chosen. */
  function Specials(sorted: seq<Entry>): (r: set<Entry>)
    requires sorted != []
    ensures |r| <= 4
    ensures forall x :: x in r ==> x in sorted
  {
    var peaks := Picks(sorted, true);
    var troughs := Picks(sorted, false);
    OptionSetsSize(peaks.0, peaks.1, troughs.0, troughs.1);
    PickedIn(peaks.0, sorted, sorted);
    PickedIn(peaks.1, sorted, sorted);
    PickedIn(troughs.0, sorted, sorted);
    PickedIn(troughs.1, sorted, sorted);
    OptionSet(peaks.0) + OptionSet(peaks.1) + OptionSet(troughs.0) + OptionSet(troughs.1)
  }

  /** The later half always holds the last entry. */
  lemma LateNonEmpty(sorted: seq<Entry>)
    requires sorted != [] && Chronological(sorted)
    ensures Late(sorted) != []
  {
    var last := sorted[|sorted| - 1];
    assert last.time >= Median(sorted) by {
      assert sorted[0].time <= last.time;
    }
    assert last in sorted;
  }

  /** The fallback runs exactly when the earlier half is empty, which happens exactly
      when the whole series spans at most one millisecond. */
  lemma FallbackOnlyForTinySpan(sorted: seq<Entry>)
    requires sorted != [] && Chronological(sorted)
    ensures Late(sorted) != []
    ensures Early(sorted) == [] <==> sorted[|sorted| - 1].time - sorted[0].time <= 1
  {
    LateNonEmpty(sorted);
    var d := sorted[|sorted| - 1].time - sorted[0].time;
    assert d >= 0 by {
      if |sorted| > 1 {
        assert sorted[0].time < sorted[|sorted| - 1].time;
      }
    }
    if d <= 1 {
      assert Median(sorted) == sorted[0].time;
      forall x | x in sorted ensures !Before(Median(sorted))(x) {
        var j :| 0 <= j < |sorted| && sorted[j] == x;
        if j > 0 {
          assert sorted[0].time < x.time;
        }
      }
      FilterNone(sorted, Before(Median(sorted)));
    } else {
      assert sorted[0] in Early(sorted);
    }
  }

  /** Whichever way they were chosen, the specials hold an entry of the highest and one of
      the lowest price. */
  lemma SpecialsHoldExtremes(sorted: seq<Entry>)
    requires sorted != []
    ensures exists x :: x in Specials(sorted) && x.price == MaxPrice(sorted)
    ensures exists x :: x in Specials(sorted) && x.price == MinPrice(sorted)
  {
    PeakPicked(sorted);
    TroughPicked(sorted);
  }

  lemma PeakPicked(sorted: seq<Entry>)
    requires sorted != []
    ensures Picks(sorted, true).0.Some? || Picks(sorted, true).1.Some?
    ensures (Picks(sorted, true).0.Some? && Picks(sorted, true).0.value.price == MaxPrice(sorted))
         || (Picks(sorted, true).1.Some? && Picks(sorted, true).1.value.price == MaxPrice(sorted))
  {
    var early := Early(sorted);
    var late := Late(sorted);
    if FirstMax(early).None? || FirstMax(late).None? {
      RankedHead(sorted, true);
    } else {
      var hi :| hi in sorted && hi.price == MaxPrice(sorted);
      if hi.time < Median(sorted) {
        assert hi in early;
      } else {
        assert hi in late;
      }
    }
  }

  lemma TroughPicked(sorted: seq<Entry>)
    requires sorted != []
    ensures Picks(sorted, false).0.Some? || Picks(sorted, false).1.Some?
    ensures (Picks(sorted, false).0.Some? && Picks(sorted, false).0.value.price == MinPrice(sorted))
         || (Picks(sorted, false).1.Some? && Picks(sorted, false).1.value.price == MinPrice(sorted))
  {
    var early := Early(sorted);
    var late := Late(sorted);
    if FirstMin(early).None? || FirstMin(late).None? {
      RankedHead(sorted, false);
    } else {
      var lo :| lo in sorted && lo.price == MinPrice(sorted);
      if lo.time < Median(sorted) {
        assert lo in early;
      } else {
        assert lo in late;
      }
    }
  }

  // ---------------------------------------------------------------- selection

  /** `for (entry in first) if (finalSelection.size < 10) finalSelection.add(entry)` */
  function AddInitial(sel: set<Entry>, first: seq<Entry>): set<Entry>
    decreases |first|
  {
    if first == [] then sel
    else AddInitial(if |sel| < 10 then sel + {first[0]} else sel, first[1..])
  }

  /** With room for all of them the size test never refuses an entry. */
  lemma {:induction false} AddInitialAll(sel: set<Entry>, first: seq<Entry>)
    requires |sel| + |first| <= 10
    ensures AddInitial(sel, first) == sel + Elements(first)
    decreases |first|
  {
    if first != [] {
      UnionSize(sel, {first[0]});
      AddInitialAll(sel + {first[0]}, first[1..]);
      assert Elements(first) == {first[0]} + Elements(first[1..]) by {
        assert forall x :: x in first <==> x == first[0] || x in first[1..];
      }
    }
  }

  /** The initial selection: the specials and the first four entries. */
  function LegacyInitial(sorted: seq<Entry>): (r: set<Entry>)
    requires sorted != []
    ensures r == Specials(sorted) + Elements(Take(sorted, 4))
    ensures |r| <= 8
    ensures forall x :: x in r ==> x in sorted
    ensures forall k :: 0 <= k < 4 && k < |sorted| ==> sorted[k] in r
  {
    assert forall k :: 0 <= k < 4 && k < |sorted| ==> Take(sorted, 4)[k] in Elements(Take(sorted, 4));
    AddInitialAll(Specials(sorted), Take(sorted, 4));
    ElementsSize(Take(sorted, 4));
    UnionSize(Specials(sorted), Elements(Take(sorted, 4)));
    AddInitial(Specials(sorted), Take(sorted, 4))
  }

  /** `x.pow(2.0)`, exact on reals. */
  function Square(): real -> real {
    (x: real) => x * x
  }

  lemma SquareOk()
    ensures CurveOk(Square())
  {
    forall x, y | 0.0 <= x <= y <= 1.0
      ensures Square()(x) <= Square()(y)
    {
      MulMono(x, y, x);
      MulMono(x, y, y);
    }
    forall x | 0.0 <= x <= 1.0
      ensures 0.0 <= Square()(x) <= 1.0
    {
      MulMono(x, 1.0, x);
      MulMono(0.0, x, x);
    }
  }

  lemma MulMono(a: real, b: real, c: real)
    requires 0.0 <= a <= b && 0.0 <= c
    ensures a * c <= b * c
  {
    assert b * c - a * c == (b - a) * c;
  }

  /** `sortedFinal.firstOrNull { !specialSet.contains(it) }`, as a position. */
  function FirstOrdinary(s: seq<Entry>, specials: set<Entry>): (r: Option<nat>)
    ensures r.Some? ==> r.value < |s| && s[r.value] !in specials
    ensures r.Some? ==> forall k :: 0 <= k < r.value ==> s[k] in specials
    ensures r.None? ==> forall x :: x in s ==> x in specials
  {
    if s == [] then None
    else if s[0] !in specials then Some(0)
    else
      match FirstOrdinary(s[1..], specials)
      case None => assert forall x :: x in s ==> x == s[0] || x in s[1..]; None
      case Some(k) => Some(k + 1)
  }

  /** `sortedFinal.remove(candidate)` for the candidate at position `k`: the others stay,
      in order. */
  function RemoveAt(s: seq<Entry>, k: nat): (r: seq<Entry>)
    requires Chronological(s) && k < |s|
    ensures Chronological(r) && |r| == |s| - 1
    ensures forall x :: x in r ==> x in s
    ensures forall x :: x in s && x != s[k] ==> x in r
  {
    var t := s[..k] + s[k + 1..];
    assert forall x :: x in t ==> x in s;
    RemoveAtKeeps(s, k);
    RemoveAtOrdered(s, k);
    t
  }

  lemma RemoveAtKeeps(s: seq<Entry>, k: nat)
    requires k < |s|
    ensures forall x :: x in s && x != s[k] ==> x in s[..k] + s[k + 1..]
  {
    var t := s[..k] + s[k + 1..];
    forall x | x in s && x != s[k] ensures x in t {
      var j :| 0 <= j < |s| && s[j] == x;
      if j < k {
        assert t[j] == x;
      } else {
        assert t[j - 1] == x;
      }
    }
  }

  lemma RemoveAtOrdered(s: seq<Entry>, k: nat)
    requires Chronological(s) && k < |s|
    ensures Chronological(s[..k] + s[k + 1..])
  {
    var t := s[..k] + s[k + 1..];
    forall i, j | 0 <= i < j < |t| ensures t[i].time < t[j].time {
      var i' := if i < k then i else i + 1;
      var j' := if j < k then j else j + 1;
      assert t[i] == s[i'] && t[j] == s[j'];
    }
  }

  /** The trim loop: while more than ten entries are left, remove the earliest one that
      is not special; stop when every entry left is special. */
  function LegacyTrim(s: seq<Entry>, specials: set<Entry>): (r: seq<Entry>)
    requires Chronological(s)
    ensures Chronological(r)
    ensures forall x :: x in r ==> x in s
    ensures forall x :: x in s && x in specials ==> x in r
    ensures |r| <= 10 || forall x :: x in r ==> x in specials
    ensures |s| <= 10 ==> r == s
    decreases |s|
  {
    if |s| > 10 then
      match FirstOrdinary(s, specials)
      case None => s
      case Some(k) => LegacyTrim(RemoveAt(s, k), specials)
    else s
  }

  /** The returned triple once the fill has chosen `sel`: the selected points in order,
      trimmed, with the peak and trough of the whole map. */
  function LegacyAssemble(current: seq<Entry>, sel: set<Entry>): Triple
    requires current != [] && UniqueTimes(current)
  {
    var sorted := SortByTime(current);
    assert sorted[0] in Elements(sorted);
    var kept := LegacyTrim(Keep(sorted, sel), Specials(sorted));
    ChronologicalUnique(kept);
    Triple(Associate(kept), MaxOrZero(current), MinOrZero(current))
  }

  /** `processPrices` once the map `current` holds at least one point. */
  function LegacySelect(current: seq<Entry>): Result<Triple>
    requires current != [] && UniqueTimes(current)
  {
    var sorted := SortByTime(current);
    assert sorted[0] in Elements(sorted);
    match Fill(sorted, LegacyInitial(sorted), Square(), false)
    case Failure(c) => Failure(c)
    case Success(sel) => Success(LegacyAssemble(current, sel))
  }

  /** The older `processPrices` on the parsed feed at time `now`. An empty array gives an
      empty map; a feed whose points are all stale reaches `first()` on an empty list. */
  function LegacyCurate(raw: seq<Entry>, now: int): Result<Triple> {
    if raw == [] then Success(Triple([], 0.0, 0.0))
    else
      var current := CollectFresh(raw, now);
      if current == [] then Failure(NoSuchElement) else LegacySelect(current)
  }

  // ---------------------------------------------------------------- properties

  /** What is left to draw from after the initial selection. */
  function LegacyLeftover(sorted: seq<Entry>): seq<Entry>
    requires sorted != []
  {
    Remaining(sorted, LegacyInitial(sorted))
  }

  /** The selection is the fill of the sorted map followed by the assembly. */
  lemma LegacySelectViaFill(current: seq<Entry>)
    requires current != [] && UniqueTimes(current)
    ensures SortByTime(current) != []
    ensures var f := Fill(SortByTime(current), LegacyInitial(SortByTime(current)), Square(), false);
      && (f.Failure? ==> LegacySelect(current) == Failure(f.crash))
      && (f.Success? ==> LegacySelect(current) == Success(LegacyAssemble(current, f.value)))
  {
    assert SortByTime(current)[0] in Elements(SortByTime(current));
  }

  /** The selection fails exactly when nothing is left to draw from, and then with
      IndexOutOfBoundsException. */
  lemma LegacySelectFails(current: seq<Entry>)
    requires current != [] && UniqueTimes(current)
    ensures SortByTime(current) != []
    ensures LegacySelect(current).Failure? <==> LegacyLeftover(SortByTime(current)) == []
    ensures LegacySelect(current).Failure? ==> LegacySelect(current) == Failure(IndexOutOfBounds)
  {
    LegacySelectViaFill(current);
    var sorted := SortByTime(current);
    SquareOk();
    FillFailsFor(sorted, LegacyInitial(sorted), Square());
  }

  /** Crashes of the older `processPrices`: NoSuchElementException when every point is
      stale, IndexOutOfBoundsException when the first four and the specials already take
      every point; otherwise it succeeds. */
  lemma LegacyCrashes(raw: seq<Entry>, now: int)
    ensures raw == [] ==> LegacyCurate(raw, now) == Success(Triple([], 0.0, 0.0))
    ensures raw != [] && CollectFresh(raw, now) == [] ==> LegacyCurate(raw, now) == Failure(NoSuchElement)
    ensures raw != [] && CollectFresh(raw, now) != [] ==>
      && SortByTime(CollectFresh(raw, now)) != []
      && (LegacyCurate(raw, now).Failure? <==> LegacyLeftover(SortByTime(CollectFresh(raw, now))) == [])
      && (LegacyCurate(raw, now).Failure? ==> LegacyCurate(raw, now) == Failure(IndexOutOfBounds))
  {
    if raw != [] && CollectFresh(raw, now) != [] {
      LegacySelectFails(CollectFresh(raw, now));
    }
  }

  /** A non-empty feed of only stale points crashes on `first()`. */
  lemma AllStaleCrash(raw: seq<Entry>, now: int)
    requires raw != [] && forall x :: x in raw ==> x.time < Cutoff(now)
    ensures LegacyCurate(raw, now) == Failure(NoSuchElement)
  {
    forall x | x in raw ensures !Current(now)(x) {
    }
    FilterNone(raw, Current(now));
  }

  /** One to four current points: all of them are in the initial selection, nothing is
      left to draw from, and the fill crashes. */
  lemma LegacyFewPointsCrash(current: seq<Entry>)
    requires UniqueTimes(current) && 1 <= |current| <= 4
    ensures LegacySelect(current) == Failure(IndexOutOfBounds)
  {
    var sorted := SortByTime(current);
    forall x | x in sorted
      ensures !NotIn(LegacyInitial(sorted))(x)
    {
      var k :| 0 <= k < |sorted| && sorted[k] == x;
      assert Take(sorted, 4)[k] == x;
    }
    FilterNone(sorted, NotIn(LegacyInitial(sorted)));
    LegacySelectFails(current);
  }

  /** On success the map is the selected entries in order: the fill keeps the selection
      within ten, so the trim loop does nothing. */
  lemma LegacyKept(sorted: seq<Entry>)
    requires sorted != [] && Chronological(sorted)
    requires Fill(sorted, LegacyInitial(sorted), Square(), false).Success?
    ensures var sel := Fill(sorted, LegacyInitial(sorted), Square(), false).value;
      && LegacyInitial(sorted) <= sel
      && (forall x :: x in sel ==> x in sorted)
      && |Keep(sorted, sel)| == |sel| <= 10
      && LegacyTrim(Keep(sorted, sel), Specials(sorted)) == Keep(sorted, sel)
  {
    var sel := Fill(sorted, LegacyInitial(sorted), Square(), false).value;
    FillBounds(sorted, LegacyInitial(sorted), Square(), false);
    ChronologicalUnique(sorted);
    KeepAll(sorted, sel);
  }

  /** What the assembly of a successful fill returns: at most ten chronological points
      of the map, among them the first four and every special, with the peak and trough
      of the whole map, each attained by a returned point. */
  lemma LegacyAssembleShape(current: seq<Entry>, sorted: seq<Entry>)
    requires current != [] && UniqueTimes(current) && sorted == SortByTime(current) && sorted != []
    requires Fill(sorted, LegacyInitial(sorted), Square(), false).Success?
    ensures var t := LegacyAssemble(current, Fill(sorted, LegacyInitial(sorted), Square(), false).value);
      && 1 <= |t.priceTimeMap| <= 10
      && Chronological(t.priceTimeMap)
      && (forall x :: x in t.priceTimeMap ==> x in current)
      && (forall k :: 0 <= k < 4 && k < |sorted| ==> sorted[k] in t.priceTimeMap)
      && (forall x :: x in Specials(sorted) ==> x in t.priceTimeMap)
      && t.peakPrice == MaxPrice(current) && t.troughPrice == MinPrice(current)
      && (forall x :: x in t.priceTimeMap ==> t.troughPrice <= x.price <= t.peakPrice)
      && (exists x :: x in t.priceTimeMap && x.price == t.peakPrice)
      && (exists x :: x in t.priceTimeMap && x.price == t.troughPrice)
  {
    LegacyKept(sorted);
    var sel := Fill(sorted, LegacyInitial(sorted), Square(), false).value;
    var kept := Keep(sorted, sel);
    assert LegacyAssemble(current, sel).priceTimeMap == kept;
    assert forall x :: x in sorted <==> x in Elements(sorted);
    assert forall x :: x in current <==> x in Elements(current);
    assert sorted[0] in kept;
    SpecialsHoldExtremes(sorted);
    ExtremesSameElements(sorted, current);
  }

  /** The same, stated for the selection. */
  lemma LegacySelectShape(current: seq<Entry>)
    requires current != [] && UniqueTimes(current) && LegacySelect(current).Success?
    ensures var t := LegacySelect(current).value;
      && 1 <= |t.priceTimeMap| <= 10
      && Chronological(t.priceTimeMap)
      && (forall x :: x in t.priceTimeMap ==> x in current)
      && (forall k :: 0 <= k < 4 && k < |current| ==> SortByTime(current)[k] in t.priceTimeMap)
      && t.peakPrice == MaxPrice(current) && t.troughPrice == MinPrice(current)
      && (forall x :: x in t.priceTimeMap ==> t.troughPrice <= x.price <= t.peakPrice)
      && (exists x :: x in t.priceTimeMap && x.price == t.peakPrice)
      && (exists x :: x in t.priceTimeMap && x.price == t.troughPrice)
  {
    LegacySelectViaFill(current);
    LegacySelectFails(current);
    LegacyAssembleShape(current, SortByTime(current));
  }

  /** Every returned point was read from the feed at or after the cutoff. */
  lemma LegacyCurrentOnly(raw: seq<Entry>, now: int, x: Entry)
    requires x in CollectFresh(raw, now)
    ensures x.time >= Cutoff(now) && x.time in Times(raw)
  {
    assert x.time in Times(CollectFresh(raw, now));
    assert x.time in Times(Filter(raw, Current(now)));
    var y :| y in Filter(raw, Current(now)) && y.time == x.time;
  }

  // ---------------------------------------------------------------- processPrices

  /** The collecting loop: skip points before the cutoff, write the others. */
  method CollectCurrent(raw: seq<Entry>, now: int) returns (datesAndPrices: seq<Entry>)
    ensures datesAndPrices == CollectFresh(raw, now)
  {
    datesAndPrices := [];
    var i := 0;
    assert raw[0..] == raw;
    while i < |raw|
      invariant 0 <= i <= |raw| && UniqueTimes(datesAndPrices)
      invariant PutAll(datesAndPrices, Filter(raw[i..], Current(now))) == CollectFresh(raw, now)
    {
      CollectCurrentStep(datesAndPrices, raw, i, now);
      if raw[i].time >= Cutoff(now) {
        datesAndPrices := Put(datesAndPrices, raw[i]);
      }
      i := i + 1;
    }
    assert raw[i..] == [];
  }

  /** One pass of the collecting loop: a point before the cutoff is skipped, any other
      is written. */
  lemma CollectCurrentStep(acc: seq<Entry>, raw: seq<Entry>, i: nat, now: int)
    requires UniqueTimes(acc) && i < |raw|
    ensures var next := if raw[i].time < Cutoff(now) then acc else Put(acc, raw[i]);
      PutAll(next, Filter(raw[i + 1..], Current(now))) == PutAll(acc, Filter(raw[i..], Current(now)))
  {
    assert raw[i..][1..] == raw[i + 1..];
    var tail := Filter(raw[i + 1..], Current(now));
    if raw[i].time < Cutoff(now) {
      assert Filter(raw[i..], Current(now)) == tail;
    } else {
      assert Filter(raw[i..], Current(now)) == [raw[i]] + tail;
      PutAllCons(acc, raw[i], tail);
    }
  }

  /** `for (entry in sortedEntries.take(4)) if (finalSelection.size < 10) finalSelection.add(entry)` */
  method AddInitialLoop(specialSet: set<Entry>, first: seq<Entry>) returns (finalSelection: set<Entry>)
    ensures finalSelection == AddInitial(specialSet, first)
  {
    finalSelection := specialSet;
    var i := 0;
    assert first[0..] == first;
    while i < |first|
      invariant 0 <= i <= |first|
      invariant AddInitial(finalSelection, first[i..]) == AddInitial(specialSet, first)
    {
      assert first[i..][1..] == first[i + 1..];
      if |finalSelection| < 10 {
        finalSelection := finalSelection + {first[i]};
      }
      i := i + 1;
    }
  }

  /** The trim loop with its `break`. */
  method LegacyTrimLoop(s: seq<Entry>, specialSet: set<Entry>) returns (sortedFinal: seq<Entry>)
    requires Chronological(s)
    ensures sortedFinal == LegacyTrim(s, specialSet)
  {
    sortedFinal := s;
    while |sortedFinal| > 10
      invariant Chronological(sortedFinal)
      invariant LegacyTrim(sortedFinal, specialSet) == LegacyTrim(s, specialSet)
      decreases |sortedFinal|
    {
      var candidate := FirstOrdinary(sortedFinal, specialSet);
      if candidate.Some? {
        sortedFinal := RemoveAt(sortedFinal, candidate.value);
      } else {
        break;
      }
    }
  }

  /** The unguarded fill from the initial selection decides the older `processPrices`. */
  lemma LegacyCurateFromFill(raw: seq<Entry>, now: int, current: seq<Entry>, sorted: seq<Entry>,
                             sel: set<Entry>, rem: seq<Entry>, filled: Result<set<Entry>>)
    requires raw != [] && current == CollectFresh(raw, now) && current != []
    requires sorted == SortByTime(current) && sorted != [] && sel == LegacyInitial(sorted)
    requires rem == Remaining(sorted, sel) && filled == FillFrom(sel, rem, 10 - |sel|, 0, Square())
    ensures filled.Failure? ==> LegacyCurate(raw, now) == Failure(filled.crash)
    ensures filled.Success? ==> LegacyCurate(raw, now) == Success(LegacyAssemble(current, filled.value))
  {
    FillIs(sorted, sel, rem, filled, Square());
    LegacySelectViaFill(current);
  }

  /** The steps after the fill build what `LegacyAssemble` describes. */
  lemma LegacyAssembleIs(current: seq<Entry>, sorted: seq<Entry>, sel: set<Entry>, trimmed: seq<Entry>)
    requires current != [] && UniqueTimes(current) && sorted == SortByTime(current) && sorted != []
    requires trimmed == LegacyTrim(Keep(sorted, sel), Specials(sorted))
    ensures UniqueTimes(trimmed)
    ensures LegacyAssemble(current, sel) == Triple(Associate(trimmed), MaxOrZero(current), MinOrZero(current))
  {
    ChronologicalUnique(trimmed);
  }

  /** The older `processPrices`, step by step. */
  method LegacyProcessPrices(raw: seq<Entry>, now: int) returns (r: Result<Triple>)
    ensures r == LegacyCurate(raw, now)
  {
    if raw == [] {
      return Success(Triple([], 0.0, 0.0));
    }
    var datesAndPrices := CollectCurrent(raw, now);
    if datesAndPrices == [] {
      return Failure(NoSuchElement);
    }
    var sortedEntries := SortByTime(datesAndPrices);
    assert sortedEntries[0] in Elements(sortedEntries);
    var specialSet := Specials(sortedEntries);
    var finalSelection := AddInitialLoop(specialSet, Take(sortedEntries, 4));
    assert finalSelection == LegacyInitial(sortedEntries);
    // At most eight are selected so far, so the fill always runs.
    if |finalSelection| < 10 {
      var remainingEntries := Remaining(sortedEntries, finalSelection);
      var filled := FillSelection(finalSelection, remainingEntries, Square());
      LegacyCurateFromFill(raw, now, datesAndPrices, sortedEntries, finalSelection, remainingEntries, filled);
      if filled.Failure? {
        return Failure(filled.crash);
      }
      finalSelection := filled.value;
    }
    var sortedFinal := LegacyTrimLoop(Keep(sortedEntries, finalSelection), specialSet);
    LegacyAssembleIs(datesAndPrices, sortedEntries, finalSelection, sortedFinal);
    r := Success(Triple(Associate(sortedFinal), MaxOrZero(datesAndPrices), MinOrZero(datesAndPrices)));
  }
  // ---------------------------------------------------------------- getTodaysEnergyPrices

  /** What one `sendGet` plus `getJSONArray("Prices")` gives: the parsed points, or any
      exception (all of them are caught). */
  datatype Fetch = Fetched(raw: seq<Entry>) | Thrown

  /** How the older `getTodaysEnergyPrices` ends after `calls` calls: with the processed
      fresh series, with PricesUnavailableException carrying the processed `lastPrices`,
      with an uncaught exception, or not within the fetches given. */
  datatype LegacyOutcome =
    | Returned(prices: Triple, calls: nat)
    | Unavailable(oldPrices: Triple, calls: nat)
    | Threw(crash: Crash)
    | NotEnded

  /** The older `processPrices` at time `now`, as the retry loop sees it. */
  function LegacyProcessor(now: int): seq<Entry> -> Result<Triple> {
    (raw: seq<Entry>) => LegacyCurate(raw, now)
  }

  /** The retry loop from call `k` on, with `countdown` retries left and `last` the
      companion's `lastPrices` (None while uninitialised); `process` stands for
      `processPrices`. The result is the outcome and the new `lastPrices`. The zero test
      precedes the decrement, so a countdown of 3 allows four calls; reading an
      uninitialised `lastPrices` throws. */
  function LegacyRetryFrom(attempts: seq<Fetch>, k: nat, countdown: nat, last: Option<seq<Entry>>,
                           process: seq<Entry> -> Result<Triple>): (LegacyOutcome, Option<seq<Entry>>)
    requires k <= |attempts|
    decreases |attempts| - k
  {
    if k == |attempts| then (NotEnded, last)
    else match attempts[k]
      case Fetched(raw) =>
        (match process(raw)
         case Failure(c) => Threw(c)
         case Success(t) => Returned(t, k + 1), Some(raw))
      case Thrown =>
        if countdown == 0 then
          if last.None? then (Threw(UninitializedProperty), last)
          else
            (match process(last.value)
             case Failure(c) => Threw(c)
             case Success(t) => Unavailable(t, k + 1), last)
        else LegacyRetryFrom(attempts, k + 1, countdown - 1, last, process)
  }

  /** The loop makes at most `countdown + 1` further calls: it returns the series of the
      first call that succeeds, and otherwise ends on the last of them with the processed
      `lastPrices`, which it leaves as they were. Given enough fetches it always ends. */
  lemma {:induction false} LegacyRetryBounds(attempts: seq<Fetch>, k: nat, countdown: nat,
                                             last: Option<seq<Entry>>, process: seq<Entry> -> Result<Triple>)
    requires k <= |attempts|
    ensures var (r, last') := LegacyRetryFrom(attempts, k, countdown, last, process);
      && (|attempts| > k + countdown ==> r != NotEnded)
      && (r.Returned? ==>
           && k < r.calls <= k + countdown + 1 && r.calls <= |attempts|
           && attempts[r.calls - 1].Fetched?
           && last' == Some(attempts[r.calls - 1].raw)
           && process(attempts[r.calls - 1].raw) == Success(r.prices))
      && (r.Unavailable? ==>
           && r.calls == k + countdown + 1
           && last' == last && last.Some?
           && process(last.value) == Success(r.oldPrices))
      && (r.Threw? ==>
           || (last' == last && (if last.None? then r.crash == UninitializedProperty
                                 else process(last.value) == Failure(r.crash)))
           || (last'.Some? && process(last'.value) == Failure(r.crash)))
    decreases |attempts| - k
  {
    if k < |attempts| && attempts[k].Thrown? && countdown > 0 {
      LegacyRetryBounds(attempts, k + 1, countdown - 1, last, process);
    }
  }

  /** The older `processPrices` never reads `lastPrices`: an UninitializedPropertyAccessException
      comes only from the companion never having fetched anything. */
  lemma LegacyUninitializedOnlyUnfetched(attempts: seq<Fetch>, last: Option<seq<Entry>>, now: int)
    ensures LegacyRetryFrom(attempts, 0, 3, last, LegacyProcessor(now)).0 == Threw(UninitializedProperty) ==> last.None?
  {
    var (r, last') := LegacyRetryFrom(attempts, 0, 3, last, LegacyProcessor(now));
    LegacyRetryBounds(attempts, 0, 3, last, LegacyProcessor(now));
    if last.Some? {
      LegacyCrashes(last.value, now);
    }
    if last'.Some? {
      LegacyCrashes(last'.value, now);
    }
  }

  /** Two failures and then a good response: three calls, the fresh series, which the
      companion keeps. */
  lemma LegacyTwoFailuresThenSuccess(raw: seq<Entry>, rest: seq<Fetch>, last: Option<seq<Entry>>,
                                     process: seq<Entry> -> Result<Triple>)
    requires process(raw).Success?
    ensures LegacyRetryFrom([Thrown, Thrown, Fetched(raw)] + rest, 0, 3, last, process)
         == (Returned(process(raw).value, 3), Some(raw))
  {
    var a := [Thrown, Thrown, Fetched(raw)] + rest;
    assert a[0] == Thrown && a[1] == Thrown && a[2] == Fetched(raw);
    assert LegacyRetryFrom(a, 1, 2, last, process) == LegacyRetryFrom(a, 2, 1, last, process);
  }

  /** Four failures in a row: PricesUnavailableException with the last series ever
      fetched, or, if nothing was ever fetched, the read of the uninitialised property. */
  lemma LegacyFourFailures(rest: seq<Fetch>, last: Option<seq<Entry>>, process: seq<Entry> -> Result<Triple>)
    ensures var r := LegacyRetryFrom([Thrown, Thrown, Thrown, Thrown] + rest, 0, 3, last, process);
      && r.1 == last
      && (last.None? ==> r.0 == Threw(UninitializedProperty))
      && (last.Some? && process(last.value).Success? ==> r.0 == Unavailable(process(last.value).value, 4))
  {
    var a := [Thrown, Thrown, Thrown, Thrown] + rest;
    assert a[0] == Thrown && a[1] == Thrown && a[2] == Thrown && a[3] == Thrown;
    assert LegacyRetryFrom(a, 2, 1, last, process) == LegacyRetryFrom(a, 3, 0, last, process);
    assert LegacyRetryFrom(a, 1, 2, last, process) == LegacyRetryFrom(a, 2, 1, last, process);
  }

  /** A good run followed by a run in which every call fails reports the first run's
      series again, through the companion's `lastPrices`. */
  lemma LegacyFailureAfterSuccess(first: seq<Fetch>, rest: seq<Fetch>, last: Option<seq<Entry>>,
                                  process: seq<Entry> -> Result<Triple>)
    requires LegacyRetryFrom(first, 0, 3, last, process).0.Returned?
    ensures var (r1, last1) := LegacyRetryFrom(first, 0, 3, last, process);
      LegacyRetryFrom([Thrown, Thrown, Thrown, Thrown] + rest, 0, 3, last1, process).0 == Unavailable(r1.prices, 4)
  {
    LegacyRetryBounds(first, 0, 3, last, process);
    LegacyFourFailures(rest, LegacyRetryFrom(first, 0, 3, last, process).1, process);
  }

  /** The companion object of the older EnergyPriceAPI. */
  class LegacyCompanion {
    /** `lateinit var lastPrices`: None until the first successful fetch. */
    var lastPrices: Option<seq<Entry>>

    constructor ()
      ensures lastPrices.None?
    {
      lastPrices := None;
    }

    /** The older `getTodaysEnergyPrices`: the calls the network would answer are
        `attempts`, read in order, and `now` is the clock. */
    method GetTodaysEnergyPrices(attempts: seq<Fetch>, now: int) returns (r: LegacyOutcome)
      modifies this
      ensures (r, lastPrices) == LegacyRetryFrom(attempts, 0, 3, old(lastPrices), LegacyProcessor(now))
    {
      ghost var spec := LegacyRetryFrom(attempts, 0, 3, lastPrices, LegacyProcessor(now));
      var prices: Option<seq<Entry>> := None;
      var retryCountdown := 3;
      var k := 0;
      while k < |attempts|
        invariant 0 <= k <= |attempts|
        invariant spec == LegacyRetryFrom(attempts, k, retryCountdown, lastPrices, LegacyProcessor(now))
        decreases |attempts| - k
      {
        match attempts[k]
        case Fetched(raw) =>
          prices := Some(raw);
          lastPrices := prices;
          break;
        case Thrown =>
          if retryCountdown == 0 {
            if lastPrices.None? {
              return Threw(UninitializedProperty);
            }
            var oldPrices := LegacyProcessPrices(lastPrices.value, now);
            assert LegacyProcessor(now)(lastPrices.value) == oldPrices;
            if oldPrices.Failure? {
              return Threw(oldPrices.crash);
            }
            return Unavailable(oldPrices.value, k + 1);
          }
          retryCountdown := retryCountdown - 1;
          k := k + 1;
      }
      if prices.None? {
        return NotEnded;
      }
      var processed := LegacyProcessPrices(prices.value, now);
      assert LegacyProcessor(now)(prices.value) == processed;
      if processed.Failure? {
        return Threw(processed.crash);
      }
      r := Returned(processed.value, k + 1);
    }
  }
}
