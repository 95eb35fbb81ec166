/** The current price source (app/.../prijswijs/EnergyPriceDataSource/EnergyPriceAPI.kt):
    `processPrices` turns the parsed feed into at most ten chronological points (the first
    four, the earliest peak and trough of each half of the period, and power-law draws
    from what is left) plus the global peak and trough; `getTodaysEnergyPrices` retries
    the fetch, falls back on the cache and saves whatever it ends with. */
module EnergyPriceApi {
  import opened Series
  import opened PriceModel
  import opened PersistenceModel

  // ---------------------------------------------------------------- selection

  /** `datesAndPrices[date] = price` for every parsed point, in feed order. */
  function Collect(raw: seq<Entry>): (r: seq<Entry>)
    ensures UniqueTimes(r)
    ensures Times(r) == Times(raw)
  {
    PutAll([], raw)
  }

  /** A non-empty feed gives a non-empty map. */
  lemma CollectNonEmpty(raw: seq<Entry>)
    requires raw != []
    ensures Collect(raw) != []
  {
    assert raw[0].time in Times(raw);
  }

  /** Kotlin's `Long / 2`, which rounds toward zero. */
  function HalfTowardZero(x: int): int {
    if x >= 0 then x / 2 else -((-x) / 2)
  }

  /** `start + (end - start) / 2` over the chronological entries. */
  function Median(sorted: seq<Entry>): int
    requires sorted != []
  {
    sorted[0].time + HalfTowardZero(sorted[|sorted| - 1].time - sorted[0].time)
  }

  function Before(t: int): Entry -> bool {
    (x: Entry) => x.time < t
  }

  function NotBefore(t: int): Entry -> bool {
    (x: Entry) => x.time >= t
  }

  function NotIn(sel: set<Entry>): Entry -> bool {
    (x: Entry) => x !in sel
  }

  function Early(sorted: seq<Entry>): seq<Entry>
    requires sorted != []
  {
    Filter(sorted, Before(Median(sorted)))
  }

  function Late(sorted: seq<Entry>): seq<Entry>
    requires sorted != []
  {
    Filter(sorted, NotBefore(Median(sorted)))
  }

  /** `getPeaksAndTroughs`: the earliest highest and the earliest lowest entry of each
      half, as a set (an empty half contributes nothing). */
  function PeaksAndTroughs(sorted: seq<Entry>): (r: set<Entry>)
    requires sorted != []
    ensures forall x :: x in r ==> x in sorted
    ensures |r| <= 4
  {
    var early := Early(sorted);
    var late := Late(sorted);
    var a, b, c, d := OptionSet(FirstMax(early)), OptionSet(FirstMax(late)), OptionSet(FirstMin(early)), OptionSet(FirstMin(late));
    OptionSetsSize(FirstMax(early), FirstMax(late), FirstMin(early), FirstMin(late));
    PickedIn(FirstMax(early), early, sorted);
    PickedIn(FirstMax(late), late, sorted);
    PickedIn(FirstMin(early), early, sorted);
    PickedIn(FirstMin(late), late, sorted);
    a + b + c + d
  }

  /** Both halves' extremes are kept, so the set holds an entry of the highest and one of
      the lowest price overall. */
  lemma PeaksAndTroughsHoldExtremes(sorted: seq<Entry>)
    requires sorted != []
    ensures exists x :: x in PeaksAndTroughs(sorted) && x.price == MaxPrice(sorted)
    ensures exists x :: x in PeaksAndTroughs(sorted) && x.price == MinPrice(sorted)
  {
    var m := Median(sorted);
    var early := Early(sorted);
    var late := Late(sorted);
    var hi :| hi in sorted && hi.price == MaxPrice(sorted);
    var lo :| lo in sorted && lo.price == MinPrice(sorted);
    if hi.time < m {
      assert hi in early;
      assert FirstMax(early).value in PeaksAndTroughs(sorted);
    } else {
      assert hi in late;
      assert FirstMax(late).value in PeaksAndTroughs(sorted);
    }
    if lo.time < m {
      assert lo in early;
      assert FirstMin(early).value in PeaksAndTroughs(sorted);
    } else {
      assert lo in late;
      assert FirstMin(late).value in PeaksAndTroughs(sorted);
    }
  }

  /** The specials plus the first four entries. */
  function Initial(sorted: seq<Entry>): (r: set<Entry>)
    requires sorted != []
    ensures forall x :: x in r ==> x in sorted
    ensures forall k :: 0 <= k < 4 && k < |sorted| ==> sorted[k] in r
    ensures |r| <= 8
  {
    var first := Elements(Take(sorted, 4));
    assert |first| <= 4 by {
      ElementsSize(Take(sorted, 4));
    }
    assert forall k :: 0 <= k < 4 && k < |sorted| ==> Take(sorted, 4)[k] in first;
    PeaksAndTroughs(sorted) + first
  }

  /** `sortedEntries.filter { !finalSelection.contains(it) }` */
  function Remaining(sorted: seq<Entry>, sel: set<Entry>): seq<Entry> {
    Filter(sorted, NotIn(sel))
  }

  /** `(fraction.pow(1.8) * (remaining.size - 1)).toInt()` for the i-th of `needed` draws
      from a remainder of `m` entries, with `curve` standing for `x.pow(1.8)`. */
  function DrawIndex(i: nat, needed: nat, m: nat, curve: real -> real): int
    requires i < needed
  {
    Trunc(Scale(curve(Fraction(i, needed)), m - 1))
  }

  /** Every draw lands inside a non-empty remainder. */
  lemma DrawInRange(i: nat, needed: nat, m: nat, curve: real -> real)
    requires CurveOk(curve) && i < needed && m >= 1
    ensures 0 <= DrawIndex(i, needed, m, curve) < m
  {
    var c := curve(Fraction(i, needed));
    ScaleBounds(c, m - 1);
    TruncMonotone(Scale(c, m - 1), (m - 1) as real);
    TruncBounds(Scale(c, m - 1));
    TruncBounds((m - 1) as real);
  }

  /** The first draw is the first remaining entry, the last draw the last one. */
  lemma DrawEnds(needed: nat, m: nat, curve: real -> real)
    requires CurveOk(curve) && needed >= 1 && m >= 1
    ensures DrawIndex(0, needed, m, curve) == 0
    ensures needed >= 2 ==> DrawIndex(needed - 1, needed, m, curve) == m - 1
  {
    ScaleOne(m - 1);
    TruncBounds((m - 1) as real);
  }

  /** Later draws never land earlier. */
  lemma DrawMonotone(i: nat, j: nat, needed: nat, m: nat, curve: real -> real)
    requires CurveOk(curve) && i <= j < needed && m >= 1
    ensures DrawIndex(i, needed, m, curve) <= DrawIndex(j, needed, m, curve)
  {
    FractionMonotone(i, j, needed);
    var ci := curve(Fraction(i, needed));
    var cj := curve(Fraction(j, needed));
    ScaleMonotone(ci, cj, m - 1);
    ScaleBounds(ci, m - 1);
    TruncMonotone(Scale(ci, m - 1), Scale(cj, m - 1));
  }

  /** The fill loop from its i-th draw on: each draw adds `rem[index]` to the set; an
      index outside the remainder throws IndexOutOfBoundsException. */
  function FillFrom(sel: set<Entry>, rem: seq<Entry>, needed: nat, i: nat, curve: real -> real): Result<set<Entry>>
    requires i <= needed
    decreases needed - i
  {
    if i == needed then Success(sel)
    else
      var index := DrawIndex(i, needed, |rem|, curve);
      if 0 <= index < |rem| then FillFrom(sel + {rem[index]}, rem, needed, i + 1, curve)
      else Failure(IndexOutOfBounds)
  }

  /** A successful fill only adds remaining entries, at most one per draw. */
  lemma {:induction false} FillFromBounds(sel: set<Entry>, rem: seq<Entry>, needed: nat, i: nat, curve: real -> real)
    requires i <= needed && FillFrom(sel, rem, needed, i, curve).Success?
    ensures sel <= FillFrom(sel, rem, needed, i, curve).value
    ensures forall x :: x in FillFrom(sel, rem, needed, i, curve).value ==> x in sel || x in rem
    ensures |FillFrom(sel, rem, needed, i, curve).value| <= |sel| + (needed - i)
    decreases needed - i
  {
    if i < needed {
      var index := DrawIndex(i, needed, |rem|, curve);
      FillFromBounds(sel + {rem[index]}, rem, needed, i + 1, curve);
    }
  }

  /** With a genuine power curve the fill fails exactly when there is nothing to draw
      from, and then with IndexOutOfBoundsException. */
  lemma {:induction false} FillFromFails(sel: set<Entry>, rem: seq<Entry>, needed: nat, i: nat, curve: real -> real)
    requires CurveOk(curve) && i < needed
    ensures FillFrom(sel, rem, needed, i, curve).Failure? <==> |rem| == 0
    ensures |rem| == 0 ==> FillFrom(sel, rem, needed, i, curve) == Failure(IndexOutOfBounds)
    decreases needed - i
  {
    if |rem| > 0 {
      DrawInRange(i, needed, |rem|, curve);
      if i + 1 < needed {
        FillFromFails(sel + {rem[DrawIndex(i, needed, |rem|, curve)]}, rem, needed, i + 1, curve);
      }
    }
  }

  /** After draw `i` is added, the later draws still pick entries not selected yet. */
  lemma LaterDrawsFresh(sel: set<Entry>, rem: seq<Entry>, needed: nat, i: nat, curve: real -> real)
    requires i < needed && rem != [] && UniqueTimes(rem)
    requires forall a :: i <= a < needed ==>
      0 <= DrawIndex(a, needed, |rem|, curve) < |rem| && rem[DrawIndex(a, needed, |rem|, curve)] !in sel
    requires forall a, b :: i <= a < b < needed ==> DrawIndex(a, needed, |rem|, curve) != DrawIndex(b, needed, |rem|, curve)
    ensures forall a :: i + 1 <= a < needed ==>
      rem[DrawIndex(a, needed, |rem|, curve)] !in sel + {rem[DrawIndex(i, needed, |rem|, curve)]}
  {
    var index := DrawIndex(i, needed, |rem|, curve);
    forall a | i + 1 <= a < needed
      ensures rem[DrawIndex(a, needed, |rem|, curve)] !in sel + {rem[index]}
    {
      var other := DrawIndex(a, needed, |rem|, curve);
      assert other != index;
      assert rem[other].time != rem[index].time;
    }
  }

  /** Draws whose entries are not selected yet and pairwise distinct each add a new
      entry: the fill then grows the selection by exactly one per draw. */
  lemma {:induction false} FillFromExact(sel: set<Entry>, rem: seq<Entry>, needed: nat, i: nat, curve: real -> real)
    requires CurveOk(curve) && i <= needed && rem != [] && UniqueTimes(rem)
    requires forall a :: i <= a < needed ==>
      0 <= DrawIndex(a, needed, |rem|, curve) < |rem| && rem[DrawIndex(a, needed, |rem|, curve)] !in sel
    requires forall a, b :: i <= a < b < needed ==> DrawIndex(a, needed, |rem|, curve) != DrawIndex(b, needed, |rem|, curve)
    ensures FillFrom(sel, rem, needed, i, curve).Success?
    ensures |FillFrom(sel, rem, needed, i, curve).value| == |sel| + (needed - i)
    decreases needed - i
  {
    if i < needed {
      var index := DrawIndex(i, needed, |rem|, curve);
      var sel' := sel + {rem[index]};
      LaterDrawsFresh(sel, rem, needed, i, curve);
      FillFromExact(sel', rem, needed, i + 1, curve);
    }
  }

  /** The fill step of `processPrices`: top up a selection of fewer than ten entries. With
      `guarded`, the corrected form that skips the fill when nothing remains to draw. */
  function Fill(sorted: seq<Entry>, sel: set<Entry>, curve: real -> real, guarded: bool): Result<set<Entry>> {
    if |sel| < 10 && !(guarded && Remaining(sorted, sel) == []) then
      FillFrom(sel, Remaining(sorted, sel), 10 - |sel|, 0, curve)
    else Success(sel)
  }

  /** `while (sortedFinal.size > 10) sortedFinal.removeIf { !specialSet.contains(it) }` */
  function TrimLoop(s: seq<Entry>, specials: set<Entry>): (r: seq<Entry>)
    requires Chronological(s) && |specials| <= 4
    ensures Chronological(r) && |r| <= 10
    ensures forall x :: x in r ==> x in s
    ensures forall x :: x in s && x in specials ==> x in r
    ensures |s| <= 10 ==> r == s
    decreases |s|
  {
    if |s| > 10 then
      ChronologicalUnique(s);
      KeepSize(s, specials);
      TrimLoop(Keep(s, specials), specials)
    else s
  }

  lemma AssociateUnique(s: seq<Entry>)
    requires UniqueTimes(s)
    ensures PutAll([], s) == s
  {
    assert [] + s == s;
    PutAllFresh([], s);
  }

  lemma AssociateAscending(s: seq<Entry>)
    requires Ascending(s)
    ensures Chronological(PutAll([], s)) && Elements(PutAll([], s)) == Elements(s)
  {
    PutAllAscending([], s);
  }

  /** `associate { it.key to it.value }` on distinct keys gives back the same entries (an
      ordered list with repeats is covered by `AssociateAscending`). */
  function Associate(s: seq<Entry>): (r: seq<Entry>)
    requires UniqueTimes(s)
    ensures r == s
  {
    AssociateUnique(s);
    PutAll([], s)
  }

  function Sorted(raw: seq<Entry>): (r: seq<Entry>)
    ensures Chronological(r) && |r| == |Collect(raw)|
    ensures forall x :: x in r <==> x in Collect(raw)
  {
    var r := SortByTime(Collect(raw));
    assert forall x :: x in r <==> x in Elements(r);
    assert forall x :: x in Collect(raw) <==> x in Elements(Collect(raw));
    r
  }

  /** What `processPrices` returns once the fill has chosen `sel`: the selected entries in
      chronological order, trimmed and re-associated, with the peak and trough of all
      parsed points. */
  function Assemble(raw: seq<Entry>, sel: set<Entry>): Prices
    requires raw != []
  {
    CollectNonEmpty(raw);
    var collected := Collect(raw);
    var sorted := Sorted(raw);
    var kept := TrimLoop(Keep(sorted, sel), PeaksAndTroughs(sorted));
    ChronologicalUnique(kept);
    Prices(Some(Associate(kept)), MaxOrZero(collected), MinOrZero(collected))
  }

  /** `processPrices` on the parsed feed (`guarded` = false), or its corrected form. An
      empty feed gives a null map and zero peak and trough. */
  function CurateWith(raw: seq<Entry>, curve: real -> real, guarded: bool): Result<Prices> {
    if raw == [] then Success(Prices(None, 0.0, 0.0))
    else
      CollectNonEmpty(raw);
      match Fill(Sorted(raw), Initial(Sorted(raw)), curve, guarded)
      case Failure(c) => Failure(c)
      case Success(sel) => Success(Assemble(raw, sel))
  }

  /** `processPrices` as written. */
  function Curate(raw: seq<Entry>, curve: real -> real): Result<Prices> {
    CurateWith(raw, curve, false)
  }

  /** `processPrices` with the fill skipped when every entry is selected already. */
  function CurateFixed(raw: seq<Entry>, curve: real -> real): Result<Prices> {
    CurateWith(raw, curve, true)
  }

  /** A successful fill keeps the selection, adds only parsed entries, and stops at ten. */
  lemma FillBounds(sorted: seq<Entry>, sel: set<Entry>, curve: real -> real, guarded: bool)
    requires Fill(sorted, sel, curve, guarded).Success?
    ensures sel <= Fill(sorted, sel, curve, guarded).value
    ensures forall x :: x in Fill(sorted, sel, curve, guarded).value ==> x in sel || x in sorted
    ensures |sel| <= 10 ==> |Fill(sorted, sel, curve, guarded).value| <= 10
  {
    var rem := Remaining(sorted, sel);
    if |sel| < 10 && !(guarded && rem == []) {
      FillFromBounds(sel, rem, 10 - |sel|, 0, curve);
    }
  }

  /** On success the returned map is the parsed entries the fill selected, in order:
      with ten or fewer of them the trim loop has nothing to do. */
  lemma CurateKept(raw: seq<Entry>, curve: real -> real, guarded: bool)
    requires raw != [] && CurateWith(raw, curve, guarded).Success?
    ensures Sorted(raw) != []
    ensures Fill(Sorted(raw), Initial(Sorted(raw)), curve, guarded).Success?
    ensures var sel := Fill(Sorted(raw), Initial(Sorted(raw)), curve, guarded).value;
      && (forall x :: x in Initial(Sorted(raw)) ==> x in sel)
      && (forall x :: x in sel ==> x in Sorted(raw))
      && CurateWith(raw, curve, guarded).value.priceTimeMap == Some(Keep(Sorted(raw), sel))
      && |Keep(Sorted(raw), sel)| == |sel|
  {
    CollectNonEmpty(raw);
    var sorted := Sorted(raw);
    var sel := Fill(sorted, Initial(sorted), curve, guarded).value;
    FillBounds(sorted, Initial(sorted), curve, guarded);
    ChronologicalUnique(sorted);
    KeepAll(sorted, sel);
    var kept := Keep(sorted, sel);
    assert TrimLoop(kept, PeaksAndTroughs(sorted)) == kept;
  }

  /** What a successful run returns: at most ten chronological parsed entries, among them
      the first four and every special; the global peak and trough over all parsed
      points, and entries attaining both. */
  lemma CurateShape(raw: seq<Entry>, curve: real -> real, guarded: bool)
    requires raw != [] && CurateWith(raw, curve, guarded).Success?
    ensures var p := CurateWith(raw, curve, guarded).value;
      && p.priceTimeMap.Some?
      && 1 <= |p.priceTimeMap.value| <= 10
      && Chronological(p.priceTimeMap.value)
      && (forall x :: x in p.priceTimeMap.value ==> x in Collect(raw))
      && (forall k :: 0 <= k < 4 && k < |Sorted(raw)| ==> Sorted(raw)[k] in p.priceTimeMap.value)
      && (forall x :: x in PeaksAndTroughs(Sorted(raw)) ==> x in p.priceTimeMap.value)
      && p.peakPrice == MaxPrice(Collect(raw)) && p.troughPrice == MinPrice(Collect(raw))
      && (forall x :: x in p.priceTimeMap.value ==> p.troughPrice <= x.price <= p.peakPrice)
      && (exists x :: x in p.priceTimeMap.value && x.price == p.peakPrice)
      && (exists x :: x in p.priceTimeMap.value && x.price == p.troughPrice)
  {
    CurateKept(raw, curve, guarded);
    CollectNonEmpty(raw);
    var sorted := Sorted(raw);
    var sel := Fill(sorted, Initial(sorted), curve, guarded).value;
    var s := Keep(sorted, sel);
    FillBounds(sorted, Initial(sorted), curve, guarded);
    assert sorted[0] in s;
    PeaksAndTroughsHoldExtremes(sorted);
    ExtremesSameElements(sorted, Collect(raw));
  }

  /** A non-empty feed goes through the fill. */
  lemma CurateViaFill(raw: seq<Entry>, curve: real -> real, guarded: bool)
    requires raw != []
    ensures Sorted(raw) != []
    ensures CurateWith(raw, curve, guarded) ==
      if Fill(Sorted(raw), Initial(Sorted(raw)), curve, guarded).Failure?
      then Failure(Fill(Sorted(raw), Initial(Sorted(raw)), curve, guarded).crash)
      else Success(Assemble(raw, Fill(Sorted(raw), Initial(Sorted(raw)), curve, guarded).value))
  {
    CollectNonEmpty(raw);
  }

  /** What is left to draw from once the first four and the specials are chosen. */
  function Leftover(sorted: seq<Entry>): seq<Entry>
    requires sorted != []
  {
    Remaining(sorted, Initial(sorted))
  }

  /** Without the guard the fill always draws: the initial selection never reaches ten. */
  lemma FillUnguarded(sorted: seq<Entry>, curve: real -> real)
    requires sorted != []
    ensures |Initial(sorted)| <= 8
    ensures Fill(sorted, Initial(sorted), curve, false)
         == FillFrom(Initial(sorted), Leftover(sorted), 10 - |Initial(sorted)|, 0, curve)
  {
    var sel := Initial(sorted);
    assert |sel| < 10;
    assert Leftover(sorted) == Remaining(sorted, sel);
  }

  /** With a genuine curve, the fill of fewer than ten fails exactly when nothing is
      left to draw from, and then with IndexOutOfBoundsException. */
  lemma FillFailsFor(sorted: seq<Entry>, sel: set<Entry>, curve: real -> real)
    requires CurveOk(curve) && |sel| < 10
    ensures Fill(sorted, sel, curve, false).Failure? <==> Remaining(sorted, sel) == []
    ensures Remaining(sorted, sel) == [] ==> Fill(sorted, sel, curve, false) == Failure(IndexOutOfBounds)
  {
    FillFromFails(sel, Remaining(sorted, sel), 10 - |sel|, 0, curve);
  }

  /** The unguarded fill crashes exactly when nothing is left to draw from, with
      IndexOutOfBoundsException. */
  lemma FillFails(sorted: seq<Entry>, curve: real -> real)
    requires CurveOk(curve) && sorted != []
    ensures Fill(sorted, Initial(sorted), curve, false).Failure? <==> Leftover(sorted) == []
    ensures Leftover(sorted) == [] ==> Fill(sorted, Initial(sorted), curve, false) == Failure(IndexOutOfBounds)
  {
    FillFailsFor(sorted, Initial(sorted), curve);
  }

  /** The fill crashes exactly when the first four and the specials already cover every
      parsed entry, with IndexOutOfBoundsException. */
  lemma CurateFails(raw: seq<Entry>, curve: real -> real)
    requires CurveOk(curve) && raw != []
    ensures Sorted(raw) != []
    ensures Curate(raw, curve).Failure? <==> Leftover(Sorted(raw)) == []
    ensures Curate(raw, curve).Failure? ==> Curate(raw, curve) == Failure(IndexOutOfBounds)
  {
    CurateViaFill(raw, curve, false);
    FillFails(Sorted(raw), curve);
  }

  /** Nothing left to draw from: the first draw is out of bounds, whatever the curve. */
  lemma FillEmptyFails(sel: set<Entry>, needed: nat, curve: real -> real)
    requires needed > 0
    ensures FillFrom(sel, [], needed, 0, curve) == Failure(IndexOutOfBounds)
  {
  }

  /** With at most four entries the first four take them all. */
  lemma FewLeftNothing(sorted: seq<Entry>)
    requires sorted != [] && |sorted| <= 4
    ensures Leftover(sorted) == []
  {
    forall x | x in sorted
      ensures !NotIn(Initial(sorted))(x)
    {
      var k :| 0 <= k < |sorted| && sorted[k] == x;
    }
    FilterNone(sorted, NotIn(Initial(sorted)));
  }

  /** A feed of at most four distinct dates always crashes, whatever the curve. */
  lemma FewPointsCrash(raw: seq<Entry>, curve: real -> real)
    requires raw != [] && |Collect(raw)| <= 4
    ensures Curate(raw, curve) == Failure(IndexOutOfBounds)
  {
    CurateViaFill(raw, curve, false);
    FewLeftNothing(Sorted(raw));
    FillUnguarded(Sorted(raw), curve);
    FillEmptyFails(Initial(Sorted(raw)), 10 - |Initial(Sorted(raw))|, curve);
  }

  /** One price point is enough to crash the fill. */
  lemma SinglePointCrash(curve: real -> real)
    ensures Curate([Entry(0, 0.25)], curve) == Failure(IndexOutOfBounds)
  {
    assert [Entry(0, 0.25)][1..] == [];
    assert Collect([Entry(0, 0.25)]) == PutAll(Put([], Entry(0, 0.25)), []);
    FewPointsCrash([Entry(0, 0.25)], curve);
  }

  /** The guard only matters when nothing is left to draw. */
  lemma FillGuard(sorted: seq<Entry>, curve: real -> real)
    requires sorted != []
    ensures Leftover(sorted) != [] ==> Fill(sorted, Initial(sorted), curve, true) == Fill(sorted, Initial(sorted), curve, false)
    ensures Leftover(sorted) == [] ==> Fill(sorted, Initial(sorted), curve, true) == Success(Initial(sorted))
  {
  }

  /** With the guard the fill never crashes, and wherever the unguarded fill succeeds the
      two agree. */
  lemma FillFixedTotal(sorted: seq<Entry>, curve: real -> real)
    requires CurveOk(curve) && sorted != []
    ensures Fill(sorted, Initial(sorted), curve, true).Success?
    ensures Fill(sorted, Initial(sorted), curve, false).Success? ==>
      Fill(sorted, Initial(sorted), curve, false) == Fill(sorted, Initial(sorted), curve, true)
  {
    FillGuard(sorted, curve);
    FillFails(sorted, curve);
  }

  /** The corrected form never crashes, and wherever the original succeeds the two agree. */
  lemma CurateFixedTotal(raw: seq<Entry>, curve: real -> real)
    requires CurveOk(curve)
    ensures CurateFixed(raw, curve).Success?
    ensures Curate(raw, curve).Success? ==> Curate(raw, curve) == CurateFixed(raw, curve)
  {
    if raw != [] {
      CurateViaFill(raw, curve, false);
      CurateViaFill(raw, curve, true);
      FillFixedTotal(Sorted(raw), curve);
    }
  }

  /** No two of the `needed` draws from `m` entries land on the same position. */
  predicate DrawsDistinct(needed: nat, m: nat, curve: real -> real) {
    forall a, b :: 0 <= a < b < needed ==> DrawIndex(a, needed, m, curve) != DrawIndex(b, needed, m, curve)
  }

  /** Pairwise distinct draws from a remainder disjoint from the selection top it up to
      exactly ten. */
  lemma FillFromTen(sel: set<Entry>, rem: seq<Entry>, curve: real -> real)
    requires CurveOk(curve) && |sel| <= 10 && rem != [] && UniqueTimes(rem)
    requires forall x :: x in rem ==> x !in sel
    requires DrawsDistinct(10 - |sel|, |rem|, curve)
    ensures FillFrom(sel, rem, 10 - |sel|, 0, curve).Success?
    ensures |FillFrom(sel, rem, 10 - |sel|, 0, curve).value| == 10
  {
    SelectedApart(sel, rem, 10 - |sel|, curve);
    FillFromExact(sel, rem, 10 - |sel|, 0, curve);
  }

  /** Draws that land on pairwise distinct positions of a non-empty remainder fill the
      selection up to exactly ten. */
  lemma FillExactlyTen(sorted: seq<Entry>, curve: real -> real)
    requires CurveOk(curve) && sorted != [] && Chronological(sorted) && Leftover(sorted) != []
    requires DrawsDistinct(10 - |Initial(sorted)|, |Leftover(sorted)|, curve)
    ensures Fill(sorted, Initial(sorted), curve, false).Success?
    ensures |Fill(sorted, Initial(sorted), curve, false).value| == 10
  {
    FillUnguarded(sorted, curve);
    ChronologicalUnique(sorted);
    FillFromTen(Initial(sorted), Leftover(sorted), curve);
  }

  /** Every draw lands inside the remainder, on an entry not selected yet. */
  lemma SelectedApart(sel: set<Entry>, rem: seq<Entry>, needed: nat, curve: real -> real)
    requires CurveOk(curve) && rem != [] && forall x :: x in rem ==> x !in sel
    ensures forall a :: 0 <= a < needed ==>
      0 <= DrawIndex(a, needed, |rem|, curve) < |rem| && rem[DrawIndex(a, needed, |rem|, curve)] !in sel
  {
    forall a | 0 <= a < needed
      ensures 0 <= DrawIndex(a, needed, |rem|, curve) < |rem| && rem[DrawIndex(a, needed, |rem|, curve)] !in sel
    {
      DrawInRange(a, needed, |rem|, curve);
    }
  }

  /** When the draws land on pairwise distinct remaining entries, exactly ten points are
      returned. */
  lemma CurateExactlyTen(raw: seq<Entry>, curve: real -> real)
    requires CurveOk(curve) && raw != [] && Sorted(raw) != [] && Leftover(Sorted(raw)) != []
    requires DrawsDistinct(10 - |Initial(Sorted(raw))|, |Leftover(Sorted(raw))|, curve)
    ensures Curate(raw, curve).Success? && Curate(raw, curve).value.priceTimeMap.Some?
    ensures |Curate(raw, curve).value.priceTimeMap.value| == 10
  {
    TenOfFill(raw, curve, Sorted(raw), Curate(raw, curve));
  }

  lemma TenOfFill(raw: seq<Entry>, curve: real -> real, sorted: seq<Entry>, r: Result<Prices>)
    requires CurveOk(curve) && raw != [] && sorted == Sorted(raw) && sorted != [] && Leftover(sorted) != []
    requires DrawsDistinct(10 - |Initial(sorted)|, |Leftover(sorted)|, curve)
    requires r == Curate(raw, curve)
    ensures r.Success? && r.value.priceTimeMap.Some? && |r.value.priceTimeMap.value| == 10
  {
    FillExactlyTen(sorted, curve);
    CurateSize(raw, curve, false);
    CurateUnguarded(raw, curve, r);
  }

  lemma CurateUnguarded(raw: seq<Entry>, curve: real -> real, r: Result<Prices>)
    requires r == Curate(raw, curve)
    ensures r == CurateWith(raw, curve, false)
  {
  }

  /** A successful fill gives a successful run returning as many points as were selected,
      when that is at most ten. */
  lemma CurateSize(raw: seq<Entry>, curve: real -> real, guarded: bool)
    requires raw != [] && Sorted(raw) != []
    requires Fill(Sorted(raw), Initial(Sorted(raw)), curve, guarded).Success?
    ensures CurateWith(raw, curve, guarded).Success? && CurateWith(raw, curve, guarded).value.priceTimeMap.Some?
    ensures |Fill(Sorted(raw), Initial(Sorted(raw)), curve, guarded).value| <= 10
    ensures |CurateWith(raw, curve, guarded).value.priceTimeMap.value| == |Fill(Sorted(raw), Initial(Sorted(raw)), curve, guarded).value|
  {
    CurateViaFill(raw, curve, guarded);
    CurateKept(raw, curve, guarded);
  }

  // ---------------------------------------------------------------- processPrices

  /** `processPrices` as written is the unguarded fill from the initial selection,
      followed by the assembly of what it selects. */
  lemma CurateFromFill(raw: seq<Entry>, curve: real -> real, sorted: seq<Entry>, sel: set<Entry>,
                       rem: seq<Entry>, filled: Result<set<Entry>>)
    requires raw != [] && sorted == Sorted(raw) && sel == Initial(sorted) && rem == Remaining(sorted, sel)
    requires |sel| < 10 && filled == FillFrom(sel, rem, 10 - |sel|, 0, curve)
    ensures filled.Failure? ==> Curate(raw, curve) == Failure(filled.crash)
    ensures filled.Success? ==> Curate(raw, curve) == Success(Assemble(raw, filled.value))
  {
    FillIs(sorted, sel, rem, filled, curve);
    CurateViaFill(raw, curve, false);
    assert Curate(raw, curve) == CurateWith(raw, curve, false);
  }

  /** The unguarded fill of fewer than ten is the fill loop on the remainder. */
  lemma FillIs(sorted: seq<Entry>, sel: set<Entry>, rem: seq<Entry>, filled: Result<set<Entry>>, curve: real -> real)
    requires |sel| < 10 && rem == Remaining(sorted, sel) && filled == FillFrom(sel, rem, 10 - |sel|, 0, curve)
    ensures Fill(sorted, sel, curve, false) == filled
  {
  }

  /** The collecting loop of `processPrices`: every parsed point is put into the
      LinkedHashMap in feed order. */
  method CollectPoints(raw: seq<Entry>) returns (datesAndPrices: seq<Entry>)
    ensures datesAndPrices == Collect(raw)
  {
    datesAndPrices := [];
    var i := 0;
    while i < |raw|
      invariant 0 <= i <= |raw|
      invariant UniqueTimes(datesAndPrices)
      invariant PutAll(datesAndPrices, raw[i..]) == Collect(raw)
    {
      CollectStep(datesAndPrices, raw, i);
      datesAndPrices := Put(datesAndPrices, raw[i]);
      i := i + 1;
    }
    assert raw[i..] == [];
  }

  /** One pass of the collecting loop keeps what is still to be written consistent. */
  lemma CollectStep(acc: seq<Entry>, raw: seq<Entry>, i: nat)
    requires UniqueTimes(acc) && i < |raw|
    ensures PutAll(Put(acc, raw[i]), raw[i + 1..]) == PutAll(acc, raw[i..])
  {
    assert raw[i..] == [raw[i]] + raw[i + 1..];
    PutAllCons(acc, raw[i], raw[i + 1..]);
  }

  /** The fill loop of `processPrices`: `additionalNeeded` draws from the remainder. */
  method FillSelection(selection: set<Entry>, remainingEntries: seq<Entry>, curve: real -> real)
    returns (r: Result<set<Entry>>)
    requires |selection| < 10
    ensures r == FillFrom(selection, remainingEntries, 10 - |selection|, 0, curve)
  {
    var finalSelection := selection;
    var additionalNeeded := 10 - |selection|;
    var k := 0;
    while k < additionalNeeded
      invariant 0 <= k <= additionalNeeded
      invariant FillFrom(selection, remainingEntries, additionalNeeded, 0, curve)
             == FillFrom(finalSelection, remainingEntries, additionalNeeded, k, curve)
    {
      var index := DrawIndex(k, additionalNeeded, |remainingEntries|, curve);
      if index < 0 || index >= |remainingEntries| {
        return Failure(IndexOutOfBounds);
      }
      finalSelection := finalSelection + {remainingEntries[index]};
      k := k + 1;
    }
    r := Success(finalSelection);
  }

  /** The trim loop of `processPrices`: while more than ten entries are left, drop all
      but the specials. */
  method TrimSelection(sortedFinal: seq<Entry>, specialSet: set<Entry>) returns (t: seq<Entry>)
    requires Chronological(sortedFinal) && |specialSet| <= 4
    ensures t == TrimLoop(sortedFinal, specialSet)
  {
    t := sortedFinal;
    while |t| > 10
      invariant Chronological(t)
      invariant TrimLoop(sortedFinal, specialSet) == TrimLoop(t, specialSet)
      decreases |t|
    {
      ChronologicalUnique(t);
      KeepSize(t, specialSet);
      t := Keep(t, specialSet);
    }
  }

  /** The specials and the initial selection of `processPrices`: the peaks and troughs
      of both halves, and the first four entries. */
  method SelectInitial(sortedEntries: seq<Entry>) returns (specialSet: set<Entry>, initial: set<Entry>)
    requires sortedEntries != []
    ensures specialSet == PeaksAndTroughs(sortedEntries) && initial == Initial(sortedEntries)
    ensures |initial| < 10
  {
    specialSet := PeaksAndTroughs(sortedEntries);
    initial := specialSet + Elements(Take(sortedEntries, 4));
  }

  /** The steps of `processPrices` after the fill build what `Assemble` describes. */
  lemma AssembleIs(raw: seq<Entry>, sorted: seq<Entry>, sel: set<Entry>, trimmed: seq<Entry>)
    requires raw != [] && sorted == Sorted(raw) && sorted != []
    requires trimmed == TrimLoop(Keep(sorted, sel), PeaksAndTroughs(sorted))
    ensures UniqueTimes(trimmed)
    ensures Assemble(raw, sel) == Prices(Some(Associate(trimmed)), MaxOrZero(Collect(raw)), MinOrZero(Collect(raw)))
  {
    ChronologicalUnique(trimmed);
  }

  /** `processPrices`, step by step: the collecting loop, the sort, the specials, the
      fill loop and the trim loop. */
  method ProcessPrices(raw: seq<Entry>, curve: real -> real) returns (r: Result<Prices>)
    ensures r == Curate(raw, curve)
  {
    if raw == [] {
      return Success(Prices(None, 0.0, 0.0));
    }
    var datesAndPrices := CollectPoints(raw);
    var sortedEntries := SortByTime(datesAndPrices);
    assert sortedEntries == Sorted(raw);
    var specialSet, initial := SelectInitial(sortedEntries);
    var remainingEntries := Remaining(sortedEntries, initial);
    var filled := FillSelection(initial, remainingEntries, curve);
    CurateFromFill(raw, curve, sortedEntries, initial, remainingEntries, filled);
    if filled.Failure? {
      return Failure(filled.crash);
    }
    var sortedFinal := TrimSelection(Keep(sortedEntries, filled.value), specialSet);
    AssembleIs(raw, sortedEntries, filled.value, sortedFinal);
    r := Success(Prices(Some(Associate(sortedFinal)), MaxOrZero(datesAndPrices), MinOrZero(datesAndPrices)));
  }

  /** The fill can only fail by drawing outside the remainder. */
  lemma FillCrash(sorted: seq<Entry>, sel: set<Entry>, curve: real -> real, guarded: bool)
    ensures Fill(sorted, sel, curve, guarded).Failure? ==> Fill(sorted, sel, curve, guarded).crash == IndexOutOfBounds
  {
    if |sel| < 10 {
      FillFromCrash(sel, Remaining(sorted, sel), 10 - |sel|, 0, curve);
    }
  }

  /** `processPrices` can only fail by drawing outside the remainder. */
  lemma CurateNoNull(raw: seq<Entry>, curve: real -> real)
    ensures Curate(raw, curve).Failure? ==> Curate(raw, curve).crash == IndexOutOfBounds
  {
    if raw != [] {
      CurateViaFill(raw, curve, false);
      FillCrash(Sorted(raw), Initial(Sorted(raw)), curve, false);
    }
  }

  /** The fill fails, if at all, with IndexOutOfBoundsException. */
  lemma {:induction false} FillFromCrash(sel: set<Entry>, rem: seq<Entry>, needed: nat, i: nat, curve: real -> real)
    requires i <= needed
    ensures FillFrom(sel, rem, needed, i, curve).Failure? ==> FillFrom(sel, rem, needed, i, curve).crash == IndexOutOfBounds
    decreases needed - i
  {
    if i < needed {
      var index := DrawIndex(i, needed, |rem|, curve);
      if 0 <= index < |rem| {
        FillFromCrash(sel + {rem[index]}, rem, needed, i + 1, curve);
      }
    }
  }

  // ---------------------------------------------------------------- retry loop

  /** What one call of `sendGet` under `withTimeout(15_000)` gives: the parsed `Prices`
      array, an IOException, a timeout, or any other exception, which neither `catch`
      clause handles. */
  datatype Attempt = Response(raw: seq<Entry>) | IOFailure | TimedOut | OtherFailure

  /** How `getTodaysEnergyPrices` ends: with the prices it returns and the number of
      calls made, with an exception of its own, with an exception of `sendGet` that
      escapes on call number `calls`, or not within the attempts given. */
  datatype Outcome = Done(prices: Prices, calls: nat) | Crashed(crash: Crash) | Escaped(calls: nat) | Unfinished

  /** The retry loop from call `k` on, with `countdown` retries left and `prices` the
      value of the variable so far; `cache` is the filtered cached PriceData and
      `process` stands for `processPrices`. An empty map is thrown as an IOException; a
      crash of `process` is no IOException and leaves the loop. */
  function RetryFrom(attempts: seq<Attempt>, k: nat, countdown: nat, prices: Option<Prices>,
                     cache: Prices, process: seq<Entry> -> Result<Prices>): Outcome
    requires k <= |attempts|
    decreases |attempts| - k
  {
    if countdown == 0 then
      (if prices.Some? then Done(prices.value, k) else Crashed(NullPointer))
    else if k == |attempts| then Unfinished
    else match attempts[k]
      case Response(raw) =>
        (match process(raw)
         case Failure(c) => Crashed(c)
         case Success(p) =>
           if p.priceTimeMap == Some([]) then
             RetryFrom(attempts, k + 1, countdown - 1, if countdown == 1 then Some(cache) else Some(p), cache, process)
           else Done(p, k + 1))
      case IOFailure =>
        RetryFrom(attempts, k + 1, countdown - 1, if countdown == 1 then Some(cache) else prices, cache, process)
      case TimedOut =>
        RetryFrom(attempts, k + 1, countdown, Some(cache), cache, process)
      case OtherFailure =>
        Escaped(k + 1)
  }

  /** `loadCachedPrices(context).filterMapTimes()` */
  function CacheFallback(store: Store, now: int): Prices
    requires CacheTyped(store)
  {
    var loaded := LoadSpec(store);
    Prices(FilterTimes(loaded.priceTimeMap, now), loaded.peakPrice, loaded.troughPrice)
  }

  /** `processPrices` as the retry loop sees it. */
  function Processor(curve: real -> real): seq<Entry> -> Result<Prices> {
    (raw: seq<Entry>) => Curate(raw, curve)
  }

  /** The whole of `getTodaysEnergyPrices`: the loop, then `saveCachedPrices`, which throws
      on a null map. */
  function GetSpec(attempts: seq<Attempt>, store: Store, now: int, curve: real -> real): Outcome
    requires CacheTyped(store)
  {
    var r := RetryFrom(attempts, 0, 3, None, CacheFallback(store, now), Processor(curve));
    if r.Done? && r.prices.priceTimeMap.None? then Crashed(NullPointer) else r
  }

  /** A successful first call ends the loop at once. */
  lemma RetryFirstSuccess(attempts: seq<Attempt>, cache: Prices, process: seq<Entry> -> Result<Prices>)
    requires attempts != [] && attempts[0].Response?
    requires process(attempts[0].raw).Success? && process(attempts[0].raw).value.priceTimeMap != Some([])
    ensures RetryFrom(attempts, 0, 3, None, cache, process) == Done(process(attempts[0].raw).value, 1)
  {
  }

  /** Two IOExceptions and then a good response: three calls, the response's prices. */
  lemma RetryTwoFailuresThenSuccess(raw: seq<Entry>, rest: seq<Attempt>, cache: Prices,
                                    process: seq<Entry> -> Result<Prices>)
    requires process(raw).Success? && process(raw).value.priceTimeMap != Some([])
    ensures RetryFrom([IOFailure, IOFailure, Response(raw)] + rest, 0, 3, None, cache, process)
         == Done(process(raw).value, 3)
  {
    var a := [IOFailure, IOFailure, Response(raw)] + rest;
    assert a[0] == IOFailure && a[1] == IOFailure && a[2] == Response(raw);
    assert RetryFrom(a, 2, 1, None, cache, process) == Done(process(raw).value, 3);
    assert RetryFrom(a, 1, 2, None, cache, process) == RetryFrom(a, 2, 1, None, cache, process);
  }

  /** Three IOExceptions: the cached prices after three calls. */
  lemma RetryExhausted(rest: seq<Attempt>, cache: Prices, process: seq<Entry> -> Result<Prices>)
    ensures RetryFrom([IOFailure, IOFailure, IOFailure] + rest, 0, 3, None, cache, process) == Done(cache, 3)
  {
    var a := [IOFailure, IOFailure, IOFailure] + rest;
    assert a[0] == IOFailure && a[1] == IOFailure && a[2] == IOFailure;
    assert RetryFrom(a, 3, 0, Some(cache), cache, process) == Done(cache, 3);
    assert RetryFrom(a, 2, 1, None, cache, process) == RetryFrom(a, 3, 0, Some(cache), cache, process);
    assert RetryFrom(a, 1, 2, None, cache, process) == RetryFrom(a, 2, 1, None, cache, process);
  }

  /** Timeouts never use up a retry: a run of them alone never ends the loop. */
  lemma {:induction false} RetryTimeoutsNeverEnd(attempts: seq<Attempt>, k: nat, countdown: nat,
                                                 prices: Option<Prices>, cache: Prices,
                                                 process: seq<Entry> -> Result<Prices>)
    requires k <= |attempts| && countdown > 0
    requires forall j :: k <= j < |attempts| ==> attempts[j] == TimedOut
    ensures RetryFrom(attempts, k, countdown, prices, cache, process) == Unfinished
    decreases |attempts| - k
  {
    if k < |attempts| {
      RetryTimeoutsNeverEnd(attempts, k + 1, countdown, Some(cache), cache, process);
    }
  }

  /** The loop only ends by a response with a non-empty or null map, whose prices it
      returns, or by running out of retries, with the cache: `prices!!` never meets a
      null unless `process` itself throws one. An exception escapes only on a call that
      raised one that is not caught. */
  lemma {:induction false} RetryEndsWith(attempts: seq<Attempt>, k: nat, countdown: nat,
                                         prices: Option<Prices>, cache: Prices,
                                         process: seq<Entry> -> Result<Prices>)
    requires k <= |attempts| && countdown > 0
    requires forall raw :: process(raw).Failure? ==> process(raw).crash != NullPointer
    ensures var r := RetryFrom(attempts, k, countdown, prices, cache, process);
      && r != Crashed(NullPointer)
      && (r.Done? ==>
        && k < r.calls <= |attempts|
        && (r.prices == cache ||
            (&& attempts[r.calls - 1].Response?
             && process(attempts[r.calls - 1].raw) == Success(r.prices)
             && r.prices.priceTimeMap != Some([]))))
      && (r.Escaped? ==> k < r.calls <= |attempts| && attempts[r.calls - 1] == OtherFailure)
    decreases |attempts| - k
  {
    if k < |attempts| {
      match attempts[k]
      case Response(raw) =>
        if process(raw).Success? && process(raw).value.priceTimeMap == Some([]) && countdown > 1 {
          RetryEndsWith(attempts, k + 1, countdown - 1, Some(process(raw).value), cache, process);
        }
      case IOFailure =>
        if countdown > 1 {
          RetryEndsWith(attempts, k + 1, countdown - 1, prices, cache, process);
        }
      case TimedOut =>
        RetryEndsWith(attempts, k + 1, countdown, Some(cache), cache, process);
      case OtherFailure =>
    }
  }

  /** `getTodaysEnergyPrices` throws a NullPointerException exactly when the loop ends
      with a null map, which `saveCachedPrices` then dereferences. */
  lemma GetNullOnlyOnSave(attempts: seq<Attempt>, store: Store, now: int, curve: real -> real)
    requires CacheTyped(store)
    ensures var r := RetryFrom(attempts, 0, 3, None, CacheFallback(store, now), Processor(curve));
      GetSpec(attempts, store, now, curve) == Crashed(NullPointer) <==> r.Done? && r.prices.priceTimeMap.None?
  {
    forall raw
      ensures Processor(curve)(raw).Failure? ==> Processor(curve)(raw).crash != NullPointer
    {
      CurateNoNull(raw, curve);
    }
    RetryEndsWith(attempts, 0, 3, None, CacheFallback(store, now), Processor(curve));
  }

  /** An empty `Prices` array gives a null map, which is not `isEmpty()`: the loop ends at
      once and saving it throws. */
  lemma EmptyFeedCrashesOnSave(rest: seq<Attempt>, store: Store, now: int, curve: real -> real)
    requires CacheTyped(store)
    ensures GetSpec([Response([])] + rest, store, now, curve) == Crashed(NullPointer)
  {
    var a := [Response([])] + rest;
    assert a[0] == Response([]);
    assert Processor(curve)([]) == Success(Prices(None, 0.0, 0.0));
  }

  // ---------------------------------------------------------------- getTodaysEnergyPrices

  /** The filtered cache, read as the fallback inside the loop. */
  method LoadFallback(persistence: Persistence, context: Context, now: int) returns (prices: PriceData)
    requires CacheTyped(context.Prefs("cachedPrices"))
    ensures fresh(prices) && prices.View() == CacheFallback(context.Prefs("cachedPrices"), now)
  {
    var loaded := persistence.LoadCachedPrices(context);
    prices := loaded.FilterMapTimes(now);
  }

  /** The value held by a nullable PriceData variable. */
  function Held(prices: PriceData?): Option<Prices>
    reads prices
  {
    if prices == null then None else Some(prices.View())
  }

  /** One pass of the loop body of `getTodaysEnergyPrices` on the `k`-th call: `stop` is
      how the whole loop ends when this pass leaves it (a thrown non-IO exception or the
      `break`), and otherwise the loop goes on with the new countdown and `prices`. */
  method RetryOnce(persistence: Persistence, context: Context, attempts: seq<Attempt>, k: nat,
                   countdown: nat, prices: PriceData?, now: int, curve: real -> real)
    returns (stop: Option<Outcome>, countdown': nat, prices': PriceData?)
    requires k < |attempts| && countdown > 0 && CacheTyped(context.Prefs("cachedPrices"))
    ensures var before := RetryFrom(attempts, k, countdown, Held(prices), CacheFallback(context.Prefs("cachedPrices"), now), Processor(curve));
      && (stop.Some? ==> before == stop.value)
      && (stop.None? ==> before == RetryFrom(attempts, k + 1, countdown', Held(prices'), CacheFallback(context.Prefs("cachedPrices"), now), Processor(curve)))
    ensures stop.Some? && stop.value.Done? ==> prices' != null && prices'.View() == stop.value.prices
  {
    stop, countdown', prices' := None, countdown, prices;
    match attempts[k]
    case Response(raw) =>
      stop, countdown', prices' := OnResponse(persistence, context, attempts, k, countdown, prices, now, curve);
    case IOFailure =>
      countdown' := countdown - 1;
      if countdown' == 0 {
        prices' := LoadFallback(persistence, context, now);
      }
    case TimedOut =>
      prices' := LoadFallback(persistence, context, now);
    case OtherFailure =>
      stop := Some(Escaped(k + 1));
  }

  /** How the loop goes on after a response that `process` turns into `result`: a crash,
      the `break`, or the next call with one retry fewer and `next` held. */
  lemma ResponseStep(attempts: seq<Attempt>, k: nat, countdown: nat, prices: Option<Prices>,
                     cache: Prices, process: seq<Entry> -> Result<Prices>, result: Result<Prices>,
                     countdown': nat, next: Option<Prices>)
    requires k < |attempts| && countdown > 0 && attempts[k].Response? && process(attempts[k].raw) == result
    requires result.Success? && result.value.priceTimeMap == Some([]) ==>
      countdown' == countdown - 1 && next == (if countdown == 1 then Some(cache) else Some(result.value))
    ensures result.Failure? ==> RetryFrom(attempts, k, countdown, prices, cache, process) == Crashed(result.crash)
    ensures result.Success? && result.value.priceTimeMap != Some([]) ==>
      RetryFrom(attempts, k, countdown, prices, cache, process) == Done(result.value, k + 1)
    ensures result.Success? && result.value.priceTimeMap == Some([]) ==>
      RetryFrom(attempts, k, countdown, prices, cache, process) == RetryFrom(attempts, k + 1, countdown', next, cache, process)
  {
  }

  /** The `try` block on a response: `processPrices`, then the `isEmpty()` check that
      throws an IOException, or the `break`. */
  method OnResponse(persistence: Persistence, context: Context, attempts: seq<Attempt>, k: nat,
                    countdown: nat, prices: PriceData?, now: int, curve: real -> real)
    returns (stop: Option<Outcome>, countdown': nat, prices': PriceData?)
    requires k < |attempts| && attempts[k].Response? && countdown > 0 && CacheTyped(context.Prefs("cachedPrices"))
    ensures var before := RetryFrom(attempts, k, countdown, Held(prices), CacheFallback(context.Prefs("cachedPrices"), now), Processor(curve));
      && (stop.Some? ==> before == stop.value)
      && (stop.None? ==> before == RetryFrom(attempts, k + 1, countdown', Held(prices'), CacheFallback(context.Prefs("cachedPrices"), now), Processor(curve)))
    ensures stop.Some? && stop.value.Done? ==> prices' != null && prices'.View() == stop.value.prices
  {
    ghost var cache := CacheFallback(context.Prefs("cachedPrices"), now);
    ghost var held := Held(prices);
    var processed := ProcessPrices(attempts[k].raw, curve);
    assert Processor(curve)(attempts[k].raw) == processed;
    stop, countdown', prices' := None, countdown, prices;
    if processed.Failure? {
      ResponseStep(attempts, k, countdown, held, cache, Processor(curve), processed, countdown', Held(prices'));
      return Some(Crashed(processed.crash)), countdown, prices;
    }
    prices' := new PriceData(processed.value.priceTimeMap, processed.value.peakPrice, processed.value.troughPrice);
    if prices'.priceTimeMap == Some([]) {
      countdown' := countdown - 1;
      if countdown' == 0 {
        prices' := LoadFallback(persistence, context, now);
      }
    } else {
      stop := Some(Done(prices'.View(), k + 1));
    }
    ResponseStep(attempts, k, countdown, held, cache, Processor(curve), processed, countdown', Held(prices'));
  }

  /** The `while (retryCountdown > 0)` loop of `getTodaysEnergyPrices` and the `prices!!`
      after it: the calls the network would answer are `attempts`, read in order, and
      `now` is the clock. A loop that ends normally also hands back the object held by
      `prices`. */
  method RetryLoop(persistence: Persistence, context: Context, attempts: seq<Attempt>, now: int,
                   curve: real -> real) returns (r: Outcome, prices: PriceData?)
    requires CacheTyped(context.Prefs("cachedPrices"))
    ensures r == RetryFrom(attempts, 0, 3, None, CacheFallback(context.Prefs("cachedPrices"), now), Processor(curve))
    ensures r.Done? ==> prices != null && prices.View() == r.prices
  {
    ghost var cache := CacheFallback(context.Prefs("cachedPrices"), now);
    ghost var spec := RetryFrom(attempts, 0, 3, None, cache, Processor(curve));
    prices := null;
    var retryCountdown := 3;
    var k := 0;
    while retryCountdown > 0
      invariant 0 <= k <= |attempts|
      invariant spec == RetryFrom(attempts, k, retryCountdown, Held(prices), cache, Processor(curve))
      decreases |attempts| - k
    {
      if k == |attempts| {
        return Unfinished, prices;
      }
      var stop;
      stop, retryCountdown, prices := RetryOnce(persistence, context, attempts, k, retryCountdown, prices, now, curve);
      k := k + 1;
      if stop.Some? {
        return stop.value, prices;
      }
    }
    if prices == null {
      return Crashed(NullPointer), prices;
    }
    r := Done(prices.View(), k);
  }

  /** `getTodaysEnergyPrices`: the retry loop, then `saveCachedPrices` on what it ends
      with; `toFloat` is the narrowing to Float on save. */
  method GetTodaysEnergyPrices(context: Context, attempts: seq<Attempt>, now: int,
                               curve: real -> real, toFloat: real -> real) returns (r: Outcome)
    requires CacheTyped(context.Prefs("cachedPrices"))
    modifies context
    ensures r == GetSpec(attempts, old(context.Prefs("cachedPrices")), now, curve)
    ensures r.Done? ==> r.prices.priceTimeMap.Some? && context.files == old(context.files)["cachedPrices" :=
      Saved(old(context.Prefs("cachedPrices")), r.prices, r.prices.priceTimeMap.value, toFloat)]
    ensures !r.Done? ==> context.files == old(context.files)
  {
    var persistence := new Persistence();
    var prices: PriceData?;
    r, prices := RetryLoop(persistence, context, attempts, now, curve);
    if !r.Done? {
      return;
    }
    var crash := persistence.SaveCachedPrices(context, prices, toFloat);
    if crash.Some? {
      return Crashed(crash.value);
    }
  }
}
