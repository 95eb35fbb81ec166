/** The earliest price source (app/.../enerfy/EnergyPriceAPI.kt): `getTodaysEnergyPrices`
    parses the whole feed into a map, returns it whole when it has at most ten points and
    otherwise keeps the first four points and six draws from the rest at squared-fraction
    positions; the peak and trough are those of every parsed point. */
module EarliestApi {
  import opened Series
  import opened EnergyPriceApi
  import opened LegacyApi

  /** Draw `i` of the six from a remainder of `m` entries: `floor((i / 5)^2 * (m - 1))`
      in exact arithmetic, written out per draw. */
  function Draw(i: nat, m: nat): int
    requires i < 6 && m >= 1
  {
    var n := m - 1;
    if i == 0 then 0
    else if i == 1 then n / 25
    else if i == 2 then 4 * n / 25
    else if i == 3 then 9 * n / 25
    else if i == 4 then 16 * n / 25
    else n
  }

  /** The closed form of the draws. */
  lemma DrawFormula(i: nat, m: nat)
    requires i < 6 && m >= 1
    ensures Draw(i, m) == i * i * (m - 1) / 25
  {
    var n := m - 1;
    if i == 2 {
      assert 2 * 2 * n == 4 * n;
    } else if i == 3 {
      assert 3 * 3 * n == 9 * n;
    } else if i == 4 {
      assert 4 * 4 * n == 16 * n;
    } else if i == 5 {
      assert 5 * 5 * n == 25 * n;
    }
  }

  /** `(Math.pow(fraction, 2.0) * (remainingEntries.size - 1)).toInt()`, read on reals, is
      that draw. */
  lemma DrawExact(i: nat, m: nat)
    requires i < 6 && m >= 1
    ensures DrawIndex(i, 6, m, Square()) == Draw(i, m)
  {
    var n := m - 1;
    var f := Fraction(i, 6);
    assert f == (i as real) / 5.0;
    if i == 0 {
      assert Square()(f) == 0.0;
      ScaleOfTwentyFifths(0, n);
    } else if i == 1 {
      assert Square()(f) == 1.0 / 25.0;
      ScaleOfTwentyFifths(1, n);
      FloorOfQuotient(n);
    } else if i == 2 {
      assert Square()(f) == 4.0 / 25.0;
      ScaleOfTwentyFifths(4, n);
      FloorOfQuotient(4 * n);
    } else if i == 3 {
      assert Square()(f) == 9.0 / 25.0;
      ScaleOfTwentyFifths(9, n);
      FloorOfQuotient(9 * n);
    } else if i == 4 {
      assert Square()(f) == 16.0 / 25.0;
      ScaleOfTwentyFifths(16, n);
      FloorOfQuotient(16 * n);
    } else {
      assert Square()(f) == 25.0 / 25.0;
      ScaleOfTwentyFifths(25, n);
      FloorOfQuotient(25 * n);
    }
  }

  /** `n` times `p / 25` is `p * n / 25`. */
  lemma {:induction false} ScaleOfTwentyFifths(p: nat, n: nat)
    ensures Scale((p as real) / 25.0, n) == ((p * n) as real) / 25.0
  {
    if n > 0 {
      ScaleOfTwentyFifths(p, n - 1);
      assert p * n == p * (n - 1) + p;
    }
  }

  /** The floor of `q / 25` on reals is the integer quotient. */
  lemma FloorOfQuotient(q: nat)
    ensures Trunc((q as real) / 25.0) == q / 25
  {
    var d := q / 25;
    assert q == 25 * d + q % 25 && 0 <= q % 25 < 25;
    assert (q as real) / 25.0 == (d as real) + ((q % 25) as real) / 25.0;
    var x := (q as real) / 25.0;
    assert d as real <= x < (d + 1) as real;
    assert x.Floor == d;
  }

  /** The draws stay inside the remainder, never go back, start at its first entry and end
      at its last one. */
  lemma DrawsInRange(m: nat)
    requires m >= 1
    ensures Draw(0, m) == 0 && Draw(5, m) == m - 1
    ensures forall i, j :: 0 <= i <= j < 6 ==> 0 <= Draw(i, m) <= Draw(j, m) < m
  {
    SquareOk();
    DrawEnds(6, m, Square());
    DrawExact(0, m);
    DrawExact(5, m);
    forall i, j | 0 <= i <= j < 6
      ensures 0 <= Draw(i, m) <= Draw(j, m) < m
    {
      DrawExact(i, m);
      DrawExact(j, m);
      DrawInRange(i, 6, m, Square());
      DrawInRange(j, 6, m, Square());
      DrawMonotone(i, j, 6, m, Square());
    }
  }

  /** The first `n` entries the `for` loop appends: draw `k` is the entry at `Draw(k, m)`
      of the remainder. */
  function Drawn(rem: seq<Entry>, n: nat): (r: seq<Entry>)
    requires |rem| >= 1 && n <= 6
    ensures |r| == n
    ensures forall k :: 0 <= k < n ==> 0 <= Draw(k, |rem|) < |rem| && r[k] == rem[Draw(k, |rem|)]
  {
    if n == 0 then []
    else
      DrawsInRange(|rem|);
      Drawn(rem, n - 1) + [rem[Draw(n - 1, |rem|)]]
  }

  /** `selectedEntries`: the sorted entries when there are at most ten, otherwise the first
      four followed by the six draws from the other entries. */
  function Selected(sorted: seq<Entry>): (r: seq<Entry>)
    requires Chronological(sorted)
  {
    if |sorted| <= 10 then sorted
    else Take(sorted, 4) + Drawn(sorted[4..], 6)
  }

  /** `getTodaysEnergyPrices` on the parsed feed: the selection re-associated into a map
      (`associate` writes the list in order, so a repeated draw keeps its first place),
      with the highest and lowest of all parsed prices. */
  function EarliestCurate(raw: seq<Entry>): Triple {
    var collected := Collect(raw);
    Triple(PutAll([], Selected(Sorted(raw))), MaxOrZero(collected), MinOrZero(collected))
  }

  // ---- Properties ----

  /** Draws taken in order from a chronological remainder never go back in time, and two
      draws at one timestamp are the same entry. */
  lemma DrawnAscending(rem: seq<Entry>)
    requires |rem| >= 1 && Chronological(rem)
    ensures Ascending(Drawn(rem, 6))
  {
    var d := Drawn(rem, 6);
    DrawsInRange(|rem|);
    forall i, j | 0 <= i < j < 6
      ensures d[i].time <= d[j].time && (d[i].time == d[j].time ==> d[i] == d[j])
    {
      assert Draw(i, |rem|) <= Draw(j, |rem|);
    }
  }

  /** Above ten points the selection is ascending, ten long, and made of the first four
      entries and the six drawn ones. */
  lemma SelectedAscending(sorted: seq<Entry>)
    requires Chronological(sorted) && |sorted| > 10
    ensures Ascending(Selected(sorted)) && |Selected(sorted)| == 10
    ensures Elements(Selected(sorted)) == Elements(Take(sorted, 4)) + Elements(Drawn(sorted[4..], 6))
  {
    var rem := sorted[4..];
    var head := Take(sorted, 4);
    var d := Drawn(rem, 6);
    DrawnAscending(rem);
    var s := head + d;
    forall i, j | 0 <= i < j < |s|
      ensures s[i].time <= s[j].time && (s[i].time == s[j].time ==> s[i] == s[j])
    {
      if j < 4 {
        assert s[i] == sorted[i] && s[j] == sorted[j];
      } else if i < 4 {
        assert s[j] == rem[Draw(j - 4, |rem|)] == sorted[4 + Draw(j - 4, |rem|)];
        assert s[i] == sorted[i];
      } else {
        assert s[i] == d[i - 4] && s[j] == d[j - 4];
      }
    }
    assert forall x :: x in s <==> x in head || x in d;
  }

  /** At most ten points: all of them, in chronological order. */
  lemma EarliestSmall(raw: seq<Entry>)
    requires |Collect(raw)| <= 10
    ensures EarliestCurate(raw).priceTimeMap == Sorted(raw)
    ensures forall x :: x in EarliestCurate(raw).priceTimeMap <==> x in Collect(raw)
  {
    ChronologicalUnique(Sorted(raw));
    AssociateUnique(Sorted(raw));
  }

  /** Above ten sorted points the map is chronological, has at most ten entries, and holds
      exactly the first four points and the drawn ones. */
  lemma SelectedMap(sorted: seq<Entry>, out: seq<Entry>)
    requires Chronological(sorted) && |sorted| > 10 && out == PutAll([], Selected(sorted))
    ensures Chronological(out) && |out| <= 10
    ensures Elements(out) == Elements(Take(sorted, 4)) + Elements(Drawn(sorted[4..], 6))
  {
    var sel := Selected(sorted);
    SelectedAscending(sorted);
    AssociateAscending(sel);
    ChronologicalUnique(out);
    DistinctSize(out);
    ElementsSize(sel);
  }

  /** Such a map keeps the first four points and, as the last draw, the latest point. */
  lemma SelectedKeeps(sorted: seq<Entry>, out: seq<Entry>)
    requires Chronological(sorted) && |sorted| > 10
    requires Elements(out) == Elements(Take(sorted, 4)) + Elements(Drawn(sorted[4..], 6))
    ensures forall k :: 0 <= k < 4 ==> sorted[k] in out
    ensures sorted[|sorted| - 1] in out
  {
    var rem := sorted[4..];
    DrawsInRange(|rem|);
    var d := Drawn(rem, 6);
    assert d[5] == sorted[|sorted| - 1];
    assert d[5] in Elements(d);
    forall k | 0 <= k < 4 ensures sorted[k] in out {
      assert Take(sorted, 4)[k] == sorted[k];
      assert sorted[k] in Elements(Take(sorted, 4));
      assert sorted[k] in Elements(out);
    }
    assert sorted[|sorted| - 1] in Elements(out);
  }

  /** More than ten points: a chronological map of at most ten parsed entries, holding
      exactly the first four points and the drawn ones, the latest point among them. */
  lemma EarliestLarge(raw: seq<Entry>)
    requires |Collect(raw)| > 10
    ensures var out := EarliestCurate(raw).priceTimeMap;
      var sorted := Sorted(raw);
      && Chronological(out) && |out| <= 10
      && (forall x :: x in out ==> x in Collect(raw))
      && Elements(out) == Elements(Take(sorted, 4)) + Elements(Drawn(sorted[4..], 6))
      && (forall k :: 0 <= k < 4 ==> sorted[k] in out)
      && sorted[|sorted| - 1] in out
  {
    var sorted := Sorted(raw);
    var out := EarliestCurate(raw).priceTimeMap;
    SelectedMap(sorted, out);
    SelectedKeeps(sorted, out);
    SelectedWithin(sorted, out);
  }

  /** Everything in the map is a sorted point. */
  lemma SelectedWithin(sorted: seq<Entry>, out: seq<Entry>)
    requires Chronological(sorted) && |sorted| > 10
    requires Elements(out) == Elements(Take(sorted, 4)) + Elements(Drawn(sorted[4..], 6))
    ensures forall x :: x in out ==> x in sorted
  {
    var rem := sorted[4..];
    forall x | x in out ensures x in sorted {
      assert x in Elements(out);
      if x in Elements(Drawn(rem, 6)) {
        var k :| 0 <= k < 6 && Drawn(rem, 6)[k] == x;
        assert x in rem;
      } else {
        var k :| 0 <= k < 4 && Take(sorted, 4)[k] == x;
      }
    }
  }

  /** For twelve points the six draws are the points at positions 4, 4, 5, 6, 8 and 11. */
  lemma DrawnTwelve(s: seq<Entry>)
    requires |s| == 12
    ensures Drawn(s[4..], 6) == [s[4], s[4], s[5], s[6], s[8], s[11]]
  {
    var d := Drawn(s[4..], 6);
    assert d[0] == s[4] && d[1] == s[4] && d[2] == s[5];
    assert d[3] == s[6] && d[4] == s[8] && d[5] == s[11];
  }

  /** The nine points the example keeps, in order. */
  function NineOfTwelve(s: seq<Entry>): seq<Entry>
    requires |s| == 12
  {
    [s[0], s[1], s[2], s[3], s[4], s[5], s[6], s[8], s[11]]
  }

  lemma NineChronological(s: seq<Entry>)
    requires Chronological(s) && |s| == 12
    ensures Chronological(NineOfTwelve(s))
  {
    var pos := [0, 1, 2, 3, 4, 5, 6, 8, 11];
    assert forall i :: 0 <= i < 9 ==> NineOfTwelve(s)[i] == s[pos[i]];
  }

  lemma NineElements(s: seq<Entry>)
    requires |s| == 12
    ensures Elements(Take(s, 4)) + Elements([s[4], s[4], s[5], s[6], s[8], s[11]]) == Elements(NineOfTwelve(s))
  {
    assert Take(s, 4) == [s[0], s[1], s[2], s[3]];
    assert Elements([s[0], s[1], s[2], s[3]]) == {s[0], s[1], s[2], s[3]};
    assert Elements([s[4], s[4], s[5], s[6], s[8], s[11]]) == {s[4], s[5], s[6], s[8], s[11]};
    assert Elements(NineOfTwelve(s)) == {s[0], s[1], s[2], s[3], s[4], s[5], s[6], s[8], s[11]};
  }

  /** Twelve sorted points: draws 0 and 1 both land on the fifth point, so the map holds
      nine entries, the points at positions 0-6, 8 and 11. */
  lemma TwelveMap(s: seq<Entry>, out: seq<Entry>)
    requires Chronological(s) && |s| == 12 && out == PutAll([], Selected(s))
    ensures out == NineOfTwelve(s)
  {
    DrawnTwelve(s);
    SelectedMap(s, out);
    NineElements(s);
    NineChronological(s);
    ChronologicalSame(out, NineOfTwelve(s));
  }

  /** Twelve parsed points give a map of nine. */
  lemma EarliestTwelve(raw: seq<Entry>)
    requires |Collect(raw)| == 12
    ensures var s := Sorted(raw);
      && EarliestCurate(raw).priceTimeMap == NineOfTwelve(s)
      && |EarliestCurate(raw).priceTimeMap| == 9
  {
    TwelveMap(Sorted(raw), EarliestCurate(raw).priceTimeMap);
  }

  /** The peak and trough bound every parsed price and are attained by one; an empty feed
      gives an empty map with both at zero. */
  lemma EarliestExtremes(raw: seq<Entry>)
    ensures raw == [] ==> EarliestCurate(raw) == Triple([], 0.0, 0.0)
    ensures raw != [] ==>
      var r := EarliestCurate(raw);
      && (forall x :: x in Collect(raw) ==> r.troughPrice <= x.price <= r.peakPrice)
      && (exists x :: x in Collect(raw) && x.price == r.peakPrice)
      && (exists x :: x in Collect(raw) && x.price == r.troughPrice)
  {
    if raw == [] {
      assert Collect(raw) == [];
      assert Sorted(raw) == [];
      AssociateUnique([]);
    } else {
      CollectNonEmpty(raw);
    }
  }

  /** An entry of the parsed map carries the price written last for its timestamp. */
  lemma CollectedLastWrite(raw: seq<Entry>, collected: seq<Entry>, x: Entry)
    requires collected == Collect(raw) && x in collected
    ensures LastWrite(raw, x.time) == Some(x.price)
  {
    var i :| 0 <= i < |collected| && collected[i] == x;
    LookupAt(collected, i);
    LookupPutAll([], raw, x.time);
  }

  /** A timestamp repeated in the feed keeps the price written last. */
  lemma EarliestLastWrite(raw: seq<Entry>, x: Entry)
    requires x in EarliestCurate(raw).priceTimeMap
    ensures LastWrite(raw, x.time) == Some(x.price)
  {
    if |Collect(raw)| <= 10 {
      EarliestSmall(raw);
    } else {
      EarliestLarge(raw);
    }
    CollectedLastWrite(raw, Collect(raw), x);
  }

  // ---- getTodaysEnergyPrices ----

  /** The floating formula of one pass of the `for` loop gives draw `i`, inside the remainder. */
  lemma DrawStep(i: nat, neededEntries: nat, m: nat, fraction: real, indexInRemaining: int)
    requires i < neededEntries == 6 && m >= 1 && fraction == Fraction(i, neededEntries)
    requires indexInRemaining == Trunc(Scale(Square()(fraction), m - 1))
    ensures indexInRemaining == Draw(i, m) && 0 <= indexInRemaining < m
  {
    DrawExact(i, m);
    DrawsInRange(m);
  }

  /** Appending draw `i` extends the drawn list by one. */
  lemma DrawnGrow(rem: seq<Entry>, i: nat, index: int, head: seq<Entry>, selected: seq<Entry>)
    requires i < 6 && |rem| >= 1 && selected == head + Drawn(rem, i)
    requires index == Draw(i, |rem|) && 0 <= index < |rem|
    ensures selected + [rem[index]] == head + Drawn(rem, i + 1)
  {
    assert Drawn(rem, i + 1) == Drawn(rem, i) + [rem[index]];
  }

  /** The body of the `for` loop up to the index: `fraction`, then the squared fraction
      scaled to the remainder and truncated. */
  method IndexInRemaining(i: nat, neededEntries: nat, m: nat) returns (indexInRemaining: int)
    requires i < neededEntries == 6 && m >= 1
    ensures indexInRemaining == Draw(i, m) && 0 <= indexInRemaining < m
  {
    var fraction := Fraction(i, neededEntries);
    indexInRemaining := Trunc(Scale(Square()(fraction), m - 1));
    DrawStep(i, neededEntries, m, fraction, indexInRemaining);
  }

  /** The selection of `getTodaysEnergyPrices`, with the list `selected` grown in the loop. */
  method SelectEntries(sortedEntries: seq<Entry>) returns (selectedEntries: seq<Entry>)
    requires Chronological(sortedEntries)
    ensures selectedEntries == Selected(sortedEntries)
  {
    var totalEntries := |sortedEntries|;
    var desiredMaxEntries := 10;
    if totalEntries <= desiredMaxEntries {
      selectedEntries := sortedEntries;
    } else {
      var keepInitialEntries := 4;
      ghost var head := Take(sortedEntries, keepInitialEntries);
      var selected := Take(sortedEntries, keepInitialEntries);
      var remainingEntries := sortedEntries[keepInitialEntries..];
      var neededEntries := desiredMaxEntries - keepInitialEntries;
      for i := 0 to neededEntries
        invariant selected == head + Drawn(remainingEntries, i)
      {
        var indexInRemaining := IndexInRemaining(i, neededEntries, |remainingEntries|);
        DrawnGrow(remainingEntries, i, indexInRemaining, head, selected);
        selected := selected + [remainingEntries[indexInRemaining]];
      }
      selectedEntries := selected;
    }
  }

  /** `getTodaysEnergyPrices` once the response is parsed into `raw`. */
  method GetTodaysEnergyPrices(raw: seq<Entry>) returns (r: Triple)
    ensures r == EarliestCurate(raw)
  {
    var datesAndPrices := CollectPoints(raw);
    var sortedEntries := SortByTime(datesAndPrices);
    assert sortedEntries == Sorted(raw);
    var selectedEntries := SelectEntries(sortedEntries);
    var maxPrice := MaxOrZero(datesAndPrices);
    var minPrice := MinOrZero(datesAndPrices);
    r := Triple(PutAll([], selectedEntries), maxPrice, minPrice);
  }
}
