/** The hourly notification of the earlier prijswijs revision
    (app/.../prijswijs/EnergyNotificationService.kt): a suffix ladder that also looks at
    the series' own lowest and highest price, an emoji table with six entries that the
    hour walks forward through, and day separators only among the first ten points. */
module OlderNotifications {
  import opened Series
  import opened LegacyApi
  import opened Messages

  // ---- Suffixes ----

  const Star: string := "\U{2B50}"
  const DoubleBang: string := "\U{203C}\U{FE0F}"
  const Bang: string := "\U{2757}"
  const Seedling: string := "\U{1F331}"

  /** The `when` ladder for one price; `lowest` and `highest` are the smallest and
      largest value of the map. */
  function Suffix(price: real, lowest: real, highest: real, peakPrice: real, troughPrice: real): (s: string)
    ensures s in {Star, DoubleBang, Bang, Seedling, ""}
  {
    var range := peakPrice - troughPrice;
    if range > 0.0 then
      var peakThreshold1 := peakPrice - 0.1 * range;
      var peakThreshold2 := peakPrice - 0.4 * range;
      var troughThreshold1 := troughPrice + 0.1 * range;
      var troughThreshold2 := troughPrice + 0.3 * range;
      if price == lowest then Star
      else if range < 0.06 then ""
      else if price > peakThreshold1 && range > 0.15 then DoubleBang
      else if price == highest || price > peakThreshold2 then Bang
      else if price < troughThreshold1 then Star
      else if price < troughThreshold2 && range > 0.10 then Seedling
      else ""
    else ""
  }

  /** No spread, no suffix; with a spread the lowest price of the map is always starred. */
  lemma SuffixExtremes(price: real, lowest: real, highest: real, peakPrice: real, troughPrice: real)
    ensures peakPrice - troughPrice <= 0.0 ==> Suffix(price, lowest, highest, peakPrice, troughPrice) == ""
    ensures peakPrice - troughPrice > 0.0 && price == lowest ==> Suffix(price, lowest, highest, peakPrice, troughPrice) == Star
    ensures peakPrice - troughPrice >= 0.06 && price == highest && price != lowest ==>
      Suffix(price, lowest, highest, peakPrice, troughPrice) in {DoubleBang, Bang}
  {
  }

  /** On a spread below 0.06 only the lowest price is marked. */
  lemma NarrowSpread(price: real, lowest: real, highest: real, peakPrice: real, troughPrice: real)
    requires 0.0 < peakPrice - troughPrice < 0.06
    ensures Suffix(price, lowest, highest, peakPrice, troughPrice) != "" <==> price == lowest
  {
  }

  /** The double bang needs a spread above 0.15 and a price in the top tenth. */
  lemma DoubleBangNeeds(price: real, lowest: real, highest: real, peakPrice: real, troughPrice: real)
    requires Suffix(price, lowest, highest, peakPrice, troughPrice) == DoubleBang
    ensures peakPrice - troughPrice > 0.15
    ensures price > peakPrice - 0.1 * (peakPrice - troughPrice) && price != lowest
  {
  }

  // ---- Emoji per hour ----

  const NewMoon: string := "\U{1F311}"
  const Sunrise: string := "\U{1F305}"
  const SunriseOverMountains: string := "\U{1F304}"
  const Sun: string := "\U{2600}\U{FE0F}"
  const CitySunset: string := "\U{1F306}"
  const CrescentMoon: string := "\U{1F319}"
  const NowIcon: string := "\U{1F4A1}"

  const DateTimeEmojiTable: map<int, string> :=
    map[4 := NewMoon, 6 := Sunrise, 8 := SunriseOverMountains, 16 := Sun, 19 := CitySunset, 23 := CrescentMoon]

  /** Kotlin's `%` on `Int`: the remainder takes the sign of the dividend. */
  function KotlinRem(a: int, b: int): (r: int)
    requires b > 0
    ensures -b < r < b
  {
    if a >= 0 then a % b else -((-a) % b)
  }

  /** For an hour of the day: the first table key at or after it. */
  function NextKey(h: int): (k: int)
    requires h <= 23
  {
    if h <= 4 then 4
    else if h <= 6 then 6
    else if h <= 8 then 8
    else if h <= 16 then 16
    else if h <= 19 then 19
    else 23
  }

  /** The key the walk `hourValue = (hourValue + 1) % 24` stops at. */
  function TableHour(h: int): (k: int)
    ensures k in DateTimeEmojiTable
  {
    if h < 0 then 4 else if h <= 23 then NextKey(h) else NextKey((h + 1) % 24)
  }

  /** For an hour of the day the walk stops at the first key at or after it, at most
      seven hours later. */
  lemma TableHourNearest(h: int)
    requires 0 <= h <= 23
    ensures h <= TableHour(h) <= h + 7
    ensures forall j :: h <= j < TableHour(h) ==> j !in DateTimeEmojiTable
  {
  }

  /** The walk itself. */
  method EmojiHour(hourValue: int) returns (h: int)
    ensures h == TableHour(hourValue)
  {
    h := hourValue;
    while h !in DateTimeEmojiTable
      invariant TableHour(h) == TableHour(hourValue)
      decreases if h >= 24 then 24 else if h >= 0 then 23 - h else 47 - h
    {
      h := KotlinRem(h + 1, 24);
    }
  }

  // ---- The message ----

  /** A point's line; the suffix compares with the map's own extremes. */
  function OlderLine(t: Triple, hourOf: int -> int): (nat, Entry, Entry) -> Line {
    var m := t.priceTimeMap;
    (i: nat, prev: Entry, e: Entry) =>
      var suffix := Suffix(e.price, MinOrZero(m), MaxOrZero(m), t.peakPrice, t.troughPrice);
      if i == 0 then Now(e.time, e.price, suffix)
      else Hourly(e.time, DateTimeEmojiTable[TableHour(hourOf(e.time))], e.price, suffix)
  }

  /** A separator goes before the second to the tenth point when the day changes. */
  function OlderSeparator(dayOf: int -> Day): (nat, int, int) -> bool {
    (i: nat, prevTime: int, time: int) => 1 <= i <= 9 && IsNewDay(dayOf, prevTime, time)
  }

  /** `generateHourlyNotificationMessage` as a value: the lines and the text, not trimmed. */
  function OlderMessage(t: Triple, hourOf: int -> int, dayOf: int -> Day, render: Line -> string): (seq<Line>, string)
  {
    var lines := Layout(t.priceTimeMap, |t.priceTimeMap|, OlderLine(t, hourOf), OlderSeparator(dayOf));
    (lines, Joined(lines, render))
  }

  /** The message shows every point once in map order, opening with "Now"; a separator
      appears only before the second to the tenth point and exactly where that point
      starts a new day, so no separator follows the tenth point. */
  lemma {:induction false} OlderMessageShape(t: Triple, hourOf: int -> int, dayOf: int -> Day, render: Line -> string)
    ensures var lines := OlderMessage(t, hourOf, dayOf, render).0;
      var entries := t.priceTimeMap;
      && Shown(lines) == entries
      && (entries != [] ==> lines[0].Now? && lines[0].time == entries[0].time)
      && SeparatorsWhere(lines, OlderSeparator(dayOf))
      && (forall j :: 0 <= j < |lines| && lines[j].Separator? ==> 1 <= |Shown(lines[..j])| <= 9)
  {
    var entries := t.priceTimeMap;
    var line := OlderLine(t, hourOf);
    var sep := OlderSeparator(dayOf);
    var lines := OlderMessage(t, hourOf, dayOf, render).0;
    assert LinesFaithful(line);
    LayoutShown(entries, |entries|, line, sep);
    assert entries[..|entries|] == entries;
    if entries != [] {
      LayoutFirst(entries, |entries|, line, sep);
    }
    LayoutSeparators(entries, |entries|, line, sep);
    forall j | 0 <= j < |lines| && lines[j].Separator?
      ensures 1 <= |Shown(lines[..j])| <= 9
    {
      assert sep(|Shown(lines[..j])|, lines[j - 1].time, lines[j + 1].time);
    }
  }

  /** When the map has a spread, every line showing its lowest price is starred. */
  lemma OlderLowestStarred(t: Triple, hourOf: int -> int, dayOf: int -> Day, render: Line -> string)
    ensures forall l :: (l in OlderMessage(t, hourOf, dayOf, render).0 && !l.Separator? &&
                         t.peakPrice - t.troughPrice > 0.0 && l.price == MinOrZero(t.priceTimeMap)) ==> l.suffix == Star
  {
    var entries := t.priceTimeMap;
    var line := OlderLine(t, hourOf);
    var sep := OlderSeparator(dayOf);
    var p := (l: Line) => !l.Separator? && t.peakPrice - t.troughPrice > 0.0 && l.price == MinOrZero(entries) ==> l.suffix == Star;
    forall i, prev, e
      ensures p(line(i, prev, e))
    {
      SuffixExtremes(e.price, MinOrZero(entries), MaxOrZero(entries), t.peakPrice, t.troughPrice);
    }
    LayoutAll(entries, |entries|, line, sep, p);
  }

  /** What one point adds, as the loop writes it. */
  lemma OlderBlock(t: Triple, index: nat, hourOf: int -> int, dayOf: int -> Day, suffix: string, key: int)
    requires index < |t.priceTimeMap|
    requires suffix == Suffix(t.priceTimeMap[index].price, MinOrZero(t.priceTimeMap), MaxOrZero(t.priceTimeMap), t.peakPrice, t.troughPrice)
    requires key == TableHour(hourOf(t.priceTimeMap[index].time))
    ensures var e := t.priceTimeMap[index];
      Block(t.priceTimeMap, index, OlderLine(t, hourOf), OlderSeparator(dayOf)) ==
        (if index > 0 && index <= 9 && IsNewDay(dayOf, t.priceTimeMap[index - 1].time, e.time) then [Separator(e.time)] else [])
          + [if index == 0 then Now(e.time, e.price, suffix) else Hourly(e.time, DateTimeEmojiTable[key], e.price, suffix)]
  {
  }

  /** The loop over the map's entries, appending to the result string. */
  method GenerateHourlyNotificationMessage(t: Triple, hourOf: int -> int, dayOf: int -> Day, render: Line -> string)
    returns (lines: seq<Line>, returnString: string)
    ensures (lines, returnString) == OlderMessage(t, hourOf, dayOf, render)
  {
    var entries := t.priceTimeMap;
    var line := OlderLine(t, hourOf);
    var sep := OlderSeparator(dayOf);
    lines := [];
    returnString := "";
    var index := 0;
    while index < |entries|
      invariant 0 <= index <= |entries|
      invariant lines == Layout(entries, index, line, sep)
      invariant returnString == Joined(lines, render)
    {
      var date := entries[index].time;
      var price := entries[index].price;
      var suffix := Suffix(price, MinPrice(entries), MaxPrice(entries), t.peakPrice, t.troughPrice);
      var hourValue := EmojiHour(hourOf(date));
      lines, returnString := WritePoint(t, index, hourOf, dayOf, render, suffix, hourValue, lines, returnString);
      index := index + 1;
    }
  }

  /** The lines one point adds: a separator before the second to the tenth point when the
      day changes, then "Now" for the first point and the hourly line for the others. */
  method WritePoint(t: Triple, index: nat, hourOf: int -> int, dayOf: int -> Day, render: Line -> string,
                    suffix: string, hourValue: int, lines: seq<Line>, returnString: string)
    returns (lines': seq<Line>, returnString': string)
    requires index < |t.priceTimeMap| && returnString == Joined(lines, render)
    requires suffix == Suffix(t.priceTimeMap[index].price, MinOrZero(t.priceTimeMap), MaxOrZero(t.priceTimeMap), t.peakPrice, t.troughPrice)
    requires hourValue == TableHour(hourOf(t.priceTimeMap[index].time))
    ensures lines' == lines + Block(t.priceTimeMap, index, OlderLine(t, hourOf), OlderSeparator(dayOf))
    ensures returnString' == Joined(lines', render)
  {
    var entries := t.priceTimeMap;
    var date := entries[index].time;
    var price := entries[index].price;
    OlderBlock(t, index, hourOf, dayOf, suffix, hourValue);
    lines', returnString' := lines, returnString;
    if index > 0 && index <= 9 {
      var prevDate := entries[index - 1].time;
      if IsNewDay(dayOf, prevDate, date) {
        lines', returnString' := AppendLine(lines', returnString', Separator(date), render);
      }
    }
    if index == 0 {
      lines', returnString' := AppendLine(lines', returnString', Now(date, price, suffix), render);
    } else {
      lines', returnString' := AppendLine(lines', returnString', Hourly(date, DateTimeEmojiTable[hourValue], price, suffix), render);
    }
  }

}
