/** The hourly notification of the first revision (app/.../enerfy/EnergyNotificationService.kt):
    a suffix per price computed up front, then one line per point whose icon says
    whether the price rose, fell or stayed level since the previous point. */
module EarliestNotifications {
  import opened Series
  import opened LegacyApi
  import opened Messages

  const Star: string := "\U{2B50}"
  const DoubleBang: string := "\U{203C}\U{FE0F}"
  const Bang: string := "\U{2757}"
  const Seedling: string := "\U{1F331}"

  const NowIcon: string := "\U{1F4A1}"
  const Rising: string := "\U{1F4C8}"
  const Falling: string := "\U{1F4C9}"
  const Level: string := "\U{2B1C}"

  /** The `when` ladder; `lowest` and `highest` are the map's smallest and largest value.
      In `price == max || price > peakThreshold2 && range > 0.10` the `&&` binds first. */
  function Suffix(price: real, lowest: real, highest: real, peakPrice: real, troughPrice: real): (s: string)
    ensures s in {Star, DoubleBang, Bang, Seedling, ""}
  {
    var range := peakPrice - troughPrice;
    if range > 0.0 then
      var peakThreshold1 := peakPrice - 0.1 * range;
      var peakThreshold2 := peakPrice - 0.4 * range;
      var troughThreshold1 := troughPrice + 0.1 * range;
      var troughThreshold2 := troughPrice + 0.3 * range;
      if range < 0.06 then ""
      else if price > peakThreshold1 && range > 0.15 then DoubleBang
      else if price == highest || (price > peakThreshold2 && range > 0.10) then Bang
      else if price == lowest || price < troughThreshold1 then Star
      else if price < troughThreshold2 && range > 0.10 then Seedling
      else ""
    else ""
  }

  /** Below a spread of 0.06 nothing is marked; from 0.06 on the highest price is always
      marked high, and the lowest price is starred unless it is also the highest or
      lies above the middle threshold. */
  lemma SuffixExtremes(price: real, lowest: real, highest: real, peakPrice: real, troughPrice: real)
    ensures peakPrice - troughPrice < 0.06 ==> Suffix(price, lowest, highest, peakPrice, troughPrice) == ""
    ensures peakPrice - troughPrice >= 0.06 && price == highest ==>
      Suffix(price, lowest, highest, peakPrice, troughPrice) in {DoubleBang, Bang}
    ensures peakPrice - troughPrice >= 0.06 && price == lowest && price != highest
            && price <= peakPrice - 0.4 * (peakPrice - troughPrice) ==>
      Suffix(price, lowest, highest, peakPrice, troughPrice) == Star
  {
  }

  /** Between spreads of 0.06 and 0.10 the middle threshold marks nothing: only the
      highest price, and prices in the top tenth on a spread above 0.15, get a bang. */
  lemma BangOnModerateSpread(price: real, lowest: real, highest: real, peakPrice: real, troughPrice: real)
    requires 0.06 <= peakPrice - troughPrice <= 0.10
    ensures Suffix(price, lowest, highest, peakPrice, troughPrice) == Bang <==> price == highest
  {
  }

  /** `compareTo` against the previous price. */
  function Trend(price: real, lastPrice: real): (icon: string)
    ensures icon == Rising <==> price > lastPrice
    ensures icon == Falling <==> price < lastPrice
    ensures icon == Level <==> price == lastPrice
  {
    if price > lastPrice then Rising else if price < lastPrice then Falling else Level
  }

  /** The suffix of one price of `t`'s map. */
  function SuffixOf(t: Triple, price: real): string {
    Suffix(price, MinOrZero(t.priceTimeMap), MaxOrZero(t.priceTimeMap), t.peakPrice, t.troughPrice)
  }

  /** A point's line: "Now" first, then the trend since the previous point. */
  function EarliestLine(t: Triple): (nat, Entry, Entry) -> Line {
    (i: nat, prev: Entry, e: Entry) =>
      if i == 0 then Now(e.time, e.price, SuffixOf(t, e.price))
      else Hourly(e.time, Trend(e.price, prev.price), e.price, SuffixOf(t, e.price))
  }

  /** This revision writes no day separators. */
  function NoSeparator(): (nat, int, int) -> bool {
    (i: nat, prevTime: int, time: int) => false
  }

  /** `generateHourlyNotificationMessage` as a value: the lines and the text, not trimmed. */
  function EarliestMessage(t: Triple, render: Line -> string): (seq<Line>, string) {
    var lines := Layout(t.priceTimeMap, |t.priceTimeMap|, EarliestLine(t), NoSeparator());
    (lines, Joined(lines, render))
  }

  /** Point `j`'s line spelled out. */
  lemma EarliestPoint(t: Triple, j: nat)
    requires j < |t.priceTimeMap|
    ensures var e := t.priceTimeMap[j];
      PointLine(t.priceTimeMap, j, EarliestLine(t)) ==
        if j == 0 then Now(e.time, e.price, SuffixOf(t, e.price))
        else Hourly(e.time, Trend(e.price, t.priceTimeMap[j - 1].price), e.price, SuffixOf(t, e.price))
  {
  }

  /** With no separators, line `j` is point `j`'s. */
  lemma EarliestLinesAt(t: Triple, lines: seq<Line>)
    requires lines == Layout(t.priceTimeMap, |t.priceTimeMap|, EarliestLine(t), NoSeparator())
    ensures |lines| == |t.priceTimeMap|
    ensures forall j :: 0 <= j < |lines| ==> lines[j] == PointLine(t.priceTimeMap, j, EarliestLine(t))
  {
    LayoutWithoutSeparators(t.priceTimeMap, |t.priceTimeMap|, EarliestLine(t), NoSeparator());
  }

  /** The lines point by point, with the lambda applied. */
  lemma EarliestLinesSpelled(t: Triple, lines: seq<Line>)
    requires |lines| == |t.priceTimeMap|
    requires forall j :: 0 <= j < |lines| ==> lines[j] == PointLine(t.priceTimeMap, j, EarliestLine(t))
    ensures forall j :: 0 <= j < |lines| ==>
      && !lines[j].Separator? && lines[j].price == t.priceTimeMap[j].price
      && lines[j].suffix == SuffixOf(t, t.priceTimeMap[j].price)
      && (j == 0 <==> lines[j].Now?)
    ensures forall j :: 0 < j < |lines| ==>
      lines[j].icon == Trend(t.priceTimeMap[j].price, t.priceTimeMap[j - 1].price)
  {
    forall j | 0 <= j < |lines|
      ensures && !lines[j].Separator? && lines[j].price == t.priceTimeMap[j].price
              && lines[j].suffix == SuffixOf(t, t.priceTimeMap[j].price)
              && (j == 0 <==> lines[j].Now?)
              && (j > 0 ==> lines[j].icon == Trend(t.priceTimeMap[j].price, t.priceTimeMap[j - 1].price))
    {
      EarliestPoint(t, j);
    }
  }

  /** Each line after the first shows how its price compares with the line before. */
  lemma EarliestTrends(t: Triple, lines: seq<Line>)
    requires |lines| == |t.priceTimeMap|
    requires forall j :: 0 <= j < |lines| ==> !lines[j].Separator? && lines[j].price == t.priceTimeMap[j].price && (j == 0 <==> lines[j].Now?)
    requires forall j :: 0 < j < |lines| ==> lines[j].icon == Trend(t.priceTimeMap[j].price, t.priceTimeMap[j - 1].price)
    ensures forall j :: 0 <= j < |lines| ==> !lines[j].Separator?
    ensures forall j :: 0 < j < |lines| ==>
      && lines[j].Hourly?
      && (lines[j].icon == Rising <==> lines[j].price > lines[j - 1].price)
      && (lines[j].icon == Falling <==> lines[j].price < lines[j - 1].price)
      && (lines[j].icon == Level <==> lines[j].price == lines[j - 1].price)
  {
  }

  /** One line per point in map order and no separators, the first being "Now", each
      with the suffix of its price. */
  lemma {:induction false} EarliestMessageLines(t: Triple, render: Line -> string, lines: seq<Line>)
    requires lines == EarliestMessage(t, render).0
    ensures |lines| == |t.priceTimeMap| && Shown(lines) == t.priceTimeMap
    ensures forall j :: 0 <= j < |lines| ==> !lines[j].Separator? && lines[j].suffix == SuffixOf(t, t.priceTimeMap[j].price)
    ensures t.priceTimeMap != [] ==>
      lines[0] == Now(t.priceTimeMap[0].time, t.priceTimeMap[0].price, SuffixOf(t, t.priceTimeMap[0].price))
  {
    var entries := t.priceTimeMap;
    assert LinesFaithful(EarliestLine(t));
    LayoutShown(entries, |entries|, EarliestLine(t), NoSeparator());
    assert entries[..|entries|] == entries;
    EarliestLinesAt(t, lines);
    EarliestLinesSpelled(t, lines);
    if entries != [] {
      EarliestPoint(t, 0);
    }
  }

  /** Every line after the first shows a rise, fall or level price exactly as its price
      compares with the line before. */
  lemma EarliestMessageTrends(t: Triple, render: Line -> string, lines: seq<Line>)
    requires lines == EarliestMessage(t, render).0
    ensures forall j :: 0 <= j < |lines| ==> !lines[j].Separator?
    ensures forall j :: 0 < j < |lines| ==>
      && lines[j].Hourly?
      && (lines[j].icon == Rising <==> lines[j].price > lines[j - 1].price)
      && (lines[j].icon == Falling <==> lines[j].price < lines[j - 1].price)
      && (lines[j].icon == Level <==> lines[j].price == lines[j - 1].price)
  {
    EarliestLinesAt(t, lines);
    EarliestLinesSpelled(t, lines);
    EarliestTrends(t, lines);
  }

  /** Below a spread of 0.06 no line carries a suffix. */
  lemma EarliestNarrowSpread(t: Triple, render: Line -> string, lines: seq<Line>)
    requires lines == EarliestMessage(t, render).0
    requires t.peakPrice - t.troughPrice < 0.06
    ensures forall l :: l in lines ==> !l.Separator? && l.suffix == ""
  {
    var entries := t.priceTimeMap;
    EarliestMessageLines(t, render, lines);
    forall l | l in lines
      ensures !l.Separator? && l.suffix == ""
    {
      var j :| 0 <= j < |lines| && lines[j] == l;
      SuffixExtremes(entries[j].price, MinOrZero(entries), MaxOrZero(entries), t.peakPrice, t.troughPrice);
    }
  }

  /** The first loop: one suffix per value, in map order. */
  method FillSuffixList(t: Triple) returns (suffixList: seq<string>)
    ensures |suffixList| == |t.priceTimeMap|
    ensures forall k :: 0 <= k < |suffixList| ==> suffixList[k] == SuffixOf(t, t.priceTimeMap[k].price)
  {
    var entries := t.priceTimeMap;
    suffixList := [];
    var k := 0;
    while k < |entries|
      invariant 0 <= k <= |entries| && |suffixList| == k
      invariant forall j :: 0 <= j < k ==> suffixList[j] == SuffixOf(t, entries[j].price)
    {
      suffixList := suffixList + [Suffix(entries[k].price, MinPrice(entries), MaxPrice(entries), t.peakPrice, t.troughPrice)];
      k := k + 1;
    }
  }

  /** What one point adds, as the second loop writes it. */
  lemma EarliestBlock(t: Triple, index: nat, suffix: string, lastPrice: real)
    requires index < |t.priceTimeMap|
    requires suffix == SuffixOf(t, t.priceTimeMap[index].price)
    requires index > 0 ==> lastPrice == t.priceTimeMap[index - 1].price
    ensures var e := t.priceTimeMap[index];
      Block(t.priceTimeMap, index, EarliestLine(t), NoSeparator()) ==
        [if index == 0 then Now(e.time, e.price, suffix) else Hourly(e.time, Trend(e.price, lastPrice), e.price, suffix)]
  {
  }

  /** The line for key `date`, the `k`-th key: its position and price are looked up in
      the map. */
  method KeyLine(t: Triple, suffixList: seq<string>, date: int, lastPrice: real, ghost k: nat)
    returns (l: Line, price: real)
    requires UniqueTimes(t.priceTimeMap) && k < |t.priceTimeMap| && date == t.priceTimeMap[k].time
    requires |suffixList| == |t.priceTimeMap|
    requires forall j :: 0 <= j < |suffixList| ==> suffixList[j] == SuffixOf(t, t.priceTimeMap[j].price)
    requires k > 0 ==> lastPrice == t.priceTimeMap[k - 1].price
    ensures price == t.priceTimeMap[k].price
    ensures Block(t.priceTimeMap, k, EarliestLine(t), NoSeparator()) == [l]
  {
    var entries := t.priceTimeMap;
    IndexOfAt(entries, k);
    LookupAt(entries, k);
    var position := IndexOf(entries, date);
    price := Lookup(entries, date).value;
    EarliestBlock(t, k, suffixList[position], lastPrice);
    if position == 0 {
      l := Now(date, price, suffixList[0]);
    } else {
      l := Hourly(date, Trend(price, lastPrice), price, suffixList[position]);
    }
  }

  /** The message: the suffix list, then a loop over the keys. A Kotlin map's keys are
      distinct. */
  method GenerateHourlyNotificationMessage(t: Triple, render: Line -> string)
    returns (lines: seq<Line>, returnString: string)
    requires UniqueTimes(t.priceTimeMap)
    ensures (lines, returnString) == EarliestMessage(t, render)
  {
    var entries := t.priceTimeMap;
    var line := EarliestLine(t);
    var sep := NoSeparator();
    var suffixList := FillSuffixList(t);
    var lastPrice := 0.0;
    lines := [];
    returnString := "";
    var k := 0;
    while k < |entries|
      invariant 0 <= k <= |entries|
      invariant k > 0 ==> lastPrice == entries[k - 1].price
      invariant lines == Layout(entries, k, line, sep)
      invariant returnString == Joined(lines, render)
    {
      lines, returnString, lastPrice := WriteKey(t, suffixList, k, lastPrice, render, lines, returnString);
      k := k + 1;
    }
  }

  /** One pass of the loop: the key's line appended to the message and the string. */
  method WriteKey(t: Triple, suffixList: seq<string>, k: nat, lastPrice: real, render: Line -> string,
                  lines: seq<Line>, returnString: string)
    returns (lines': seq<Line>, returnString': string, price: real)
    requires UniqueTimes(t.priceTimeMap) && k < |t.priceTimeMap| && |suffixList| == |t.priceTimeMap|
    requires forall j :: 0 <= j < |suffixList| ==> suffixList[j] == SuffixOf(t, t.priceTimeMap[j].price)
    requires k > 0 ==> lastPrice == t.priceTimeMap[k - 1].price
    requires lines == Layout(t.priceTimeMap, k, EarliestLine(t), NoSeparator())
    requires returnString == Joined(lines, render)
    ensures price == t.priceTimeMap[k].price
    ensures lines' == Layout(t.priceTimeMap, k + 1, EarliestLine(t), NoSeparator())
    ensures returnString' == Joined(lines', render)
  {
    var l;
    l, price := KeyLine(t, suffixList, t.priceTimeMap[k].time, lastPrice, k);
    lines', returnString' := AppendLine(lines, returnString, l, render);
  }
}
