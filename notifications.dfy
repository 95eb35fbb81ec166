/** The hourly notification of the current revision
    (app/.../prijswijs/Notifications/EnergyNotificationService.kt): a suffix grading each
    price against the day's peak and trough, an emoji per hour of the day, a separator
    line at each change of day, and the vibration decision taken from the previously
    shown prices. */
module Notifications {
  import opened Series
  import opened PriceModel
  import opened Messages

  // ---- Suffixes ----

  const Star: string := " |\U{2B50}"
  const Plain: string := " |"
  const Bang: string := " |\U{2757}"
  const DoubleBang: string := " |\U{203C}\U{FE0F}"
  const Seedling: string := " |\U{1F331}"

  /** The thresholds derived from a peak and a trough. */
  datatype PriceRange = PriceRange(peak: real, trough: real) {
    function Range(): real { peak - trough }
    function Peak1(): real { peak - 0.1 * Range() }
    function Peak2(): real { peak - 0.4 * Range() }
    function Low1(): real { trough + 0.1 * Range() }
    function Low2(): real { trough + 0.3 * Range() }
  }

  /** `generateSuffix`: the first rule of the ladder that applies. Only prices below the
      lowest threshold get a star. */
  function GenerateSuffix(price: real, range: PriceRange): (s: string)
    ensures s in {Star, Plain, Bang, DoubleBang, Seedling}
    ensures s == Star <==> price < range.Low1()
    ensures |s| >= 2 && s[..2] == " |"
  {
    if price < range.Low1() then Star
    else if range.Range() < 0.06 && price < range.Low2() then Plain
    else if range.Range() < 0.06 && price > range.Peak1() then Bang
    else if price > range.Peak1() then DoubleBang
    else if price > range.Peak2() && range.Range() > 0.10 then Bang
    else if price < range.Low2() && range.Range() > 0.10 then Seedling
    else Plain
  }

  /** The seedling marks exactly the prices between the two low thresholds on a day
      whose spread exceeds 0.10. */
  lemma SeedlingIff(price: real, range: PriceRange)
    ensures GenerateSuffix(price, range) == Seedling <==>
      range.Range() > 0.10 && range.Low1() <= price < range.Low2()
  {
  }

  /** On a day with a positive spread the trough is starred and the peak draws the
      strongest mark the spread allows: a double bang from 0.06 on, a bang below. */
  lemma ExtremesMarked(range: PriceRange)
    requires range.Range() > 0.0
    ensures GenerateSuffix(range.trough, range) == Star
    ensures GenerateSuffix(range.peak, range) == (if range.Range() < 0.06 then Bang else DoubleBang)
  {
  }

  /** The double bang needs a spread of at least 0.06. */
  lemma DoubleBangNeedsSpread(price: real, range: PriceRange)
    requires GenerateSuffix(price, range) == DoubleBang
    ensures range.Range() >= 0.06 && price > range.Peak1()
  {
  }

  /** The marks in increasing order of alarm. */
  function Rank(s: string): (k: nat)
    ensures k <= 4
  {
    if s == Star then 0
    else if s == Seedling then 1
    else if s == Plain then 2
    else if s == Bang then 3
    else 4
  }

  /** A higher price never gets a milder mark, whatever the peak and trough. */
  lemma SuffixMonotone(p: real, q: real, range: PriceRange)
    requires p <= q
    ensures Rank(GenerateSuffix(p, range)) <= Rank(GenerateSuffix(q, range))
  {
    var r := range.Range();
    assert range.Low2() - range.Low1() == 0.2 * r;
    assert range.Peak2() - range.Low2() == 0.3 * r;
    assert range.Peak1() - range.Peak2() == 0.3 * r;
    assert range.Peak1() - range.Low1() == 0.8 * r;
  }

  /** The suffix a price gets in the message: none at all when the spread is not positive. */
  function SuffixFor(price: real, d: Prices): (s: string)
    ensures s == "" <==> d.peakPrice - d.troughPrice <= 0.0
    ensures s != "" ==> s in {Star, Plain, Bang, DoubleBang, Seedling}
    ensures s == Star <==> d.peakPrice - d.troughPrice > 0.0 && price < PriceRange(d.peakPrice, d.troughPrice).Low1()
  {
    if d.peakPrice - d.troughPrice > 0.0 then GenerateSuffix(price, PriceRange(d.peakPrice, d.troughPrice)) else ""
  }

  // ---- Emoji per hour ----

  const NowIcon: string := "\U{1F4A1}"
  const MorningCity: string := "\U{1F305}"
  const DaytimeCity: string := "\U{1F3D9}\U{FE0F}"
  const SunsetCity: string := "\U{1F306}"
  const NightCity: string := "\U{1F303}"

  function HourEmoji(h: int): string {
    if 6 <= h <= 11 then MorningCity
    else if 12 <= h <= 17 then DaytimeCity
    else if 18 <= h <= 22 then SunsetCity
    else NightCity
  }

  /** `dateTimeEmojiTable`: the hours 0 to 23 mapped to their emoji. */
  const DateTimeEmojiTable: map<int, string> := map h | 0 <= h < 24 :: HourEmoji(h)

  /** `dateTimeEmojiTable[hourValue] ?: "🌃"`. */
  function EmojiFor(hourValue: int): (e: string)
    ensures e in {MorningCity, DaytimeCity, SunsetCity, NightCity}
  {
    if hourValue in DateTimeEmojiTable then DateTimeEmojiTable[hourValue] else NightCity
  }

  /** The night city covers every hour outside 6 to 22, the table's default included,
      and the emoji changes from one hour to the next exactly at 6, 12, 18 and 23. */
  lemma EmojiByHour(h: int)
    ensures EmojiFor(h) == NightCity <==> !(6 <= h <= 22)
    ensures 0 <= h < 23 ==> (EmojiFor(h) != EmojiFor(h + 1) <==> h + 1 in {6, 12, 18, 23})
  {
    assert h in DateTimeEmojiTable <==> 0 <= h < 24;
    assert h + 1 in DateTimeEmojiTable <==> 0 <= h + 1 < 24;
  }

  // ---- Vibration ----

  /** The two marks the vibration check is meant to react to, as the check spells them:
      without the " |" every suffix begins with. */
  const AlarmMarksAsWritten: seq<string> := ["\U{2757}", "\U{203C}\U{FE0F}"]

  /** Whether the notification vibrates, as written: with stored prices (peak not -99.0)
      the first stored price's suffix is looked up among marks that lack the " |". */
  function VibrationAsWritten(lastPrice: Prices, vibrate: bool): (r: Result<bool>)
    ensures r.Failure? ==> lastPrice.peakPrice != -99.0
  {
    if lastPrice.peakPrice != -99.0 then
      match lastPrice.priceTimeMap
      case None => Failure(NullPointer)
      case Some(m) =>
        if m == [] then Failure(NoSuchElement)
        else
          var lastSuffix := GenerateSuffix(m[0].price, PriceRange(lastPrice.peakPrice, lastPrice.troughPrice));
          Success(if lastSuffix in AlarmMarksAsWritten then vibrate else false)
    else Success(vibrate)
  }

  /** As written, a notification never vibrates once prices have been stored, even when
      the previous price was at its peak and the user asked for vibration. */
  lemma NeverVibratesAfterStoredPrices(lastPrice: Prices, vibrate: bool)
    requires lastPrice.peakPrice != -99.0
    requires VibrationAsWritten(lastPrice, vibrate).Success?
    ensures VibrationAsWritten(lastPrice, vibrate) == Success(false)
  {
    var m := lastPrice.priceTimeMap.value;
    var s := GenerateSuffix(m[0].price, PriceRange(lastPrice.peakPrice, lastPrice.troughPrice));
    assert s[..2] == " |";
    assert s != AlarmMarksAsWritten[0] by {
      assert AlarmMarksAsWritten[0][0] != ' ';
    }
    assert s != AlarmMarksAsWritten[1] by {
      assert AlarmMarksAsWritten[1][0] != ' ';
    }
  }

  /** A concrete case: a stored price at its peak on a wide day, vibration wanted. */
  lemma PeakDoesNotVibrateAsWritten()
    ensures VibrationAsWritten(Prices(Some([Entry(0, 1.0)]), 1.0, 0.0), true) == Success(false)
  {
    NeverVibratesAfterStoredPrices(Prices(Some([Entry(0, 1.0)]), 1.0, 0.0), true);
  }

  /** The intended decision: compare with the marks as `generateSuffix` produces them. */
  function Vibration(lastPrice: Prices, vibrate: bool): (r: Result<bool>)
    ensures r.Failure? ==> lastPrice.peakPrice != -99.0
    ensures r.Success? && r.value ==> vibrate
  {
    if lastPrice.peakPrice != -99.0 then
      match lastPrice.priceTimeMap
      case None => Failure(NullPointer)
      case Some(m) =>
        if m == [] then Failure(NoSuchElement)
        else
          var lastSuffix := GenerateSuffix(m[0].price, PriceRange(lastPrice.peakPrice, lastPrice.troughPrice));
          Success(if lastSuffix in [Bang, DoubleBang] then vibrate else false)
    else Success(vibrate)
  }

  /** With the intended comparison, a stored first price above the upper threshold on a
      day with a positive spread vibrates when the user asked for it, one at or below
      the middle threshold never does, and without stored prices the setting decides. */
  lemma VibratesAtPeaks(lastPrice: Prices, vibrate: bool)
    requires lastPrice.priceTimeMap.Some? && lastPrice.priceTimeMap.value != []
    requires lastPrice.peakPrice - lastPrice.troughPrice > 0.0
    ensures var range := PriceRange(lastPrice.peakPrice, lastPrice.troughPrice);
      var p := lastPrice.priceTimeMap.value[0].price;
      && (p > range.Peak1() ==> Vibration(lastPrice, vibrate) == Success(vibrate))
      && (lastPrice.peakPrice != -99.0 && p <= range.Peak2() ==> Vibration(lastPrice, vibrate) == Success(false))
  {
  }

  lemma VibratesBySetting(lastPrice: Prices, vibrate: bool)
    requires lastPrice.peakPrice == -99.0
    ensures Vibration(lastPrice, vibrate) == Success(vibrate)
  {
  }

  /** The vibration decision as written (`corrected` false) or with the intended
      comparison (`corrected` true). Both crash in the same cases. */
  function VibrationCheck(lastPrice: Prices, vibrate: bool, corrected: bool): (r: Result<bool>)
    ensures r.Failure? <==> VibrationAsWritten(lastPrice, vibrate).Failure?
    ensures r.Failure? ==> r == VibrationAsWritten(lastPrice, vibrate)
    ensures lastPrice.peakPrice == -99.0 ==> r == Success(vibrate)
  {
    if corrected then Vibration(lastPrice, vibrate) else VibrationAsWritten(lastPrice, vibrate)
  }

  // ---- The message ----

  /** A point's line: the "Now" line for the first point, otherwise the hour's emoji. */
  function LatestLine(d: Prices, hourOf: int -> int): (nat, Entry, Entry) -> Line {
    (i: nat, prev: Entry, e: Entry) =>
      if i == 0 then Now(e.time, e.price, SuffixFor(e.price, d))
      else Hourly(e.time, EmojiFor(hourOf(e.time)), e.price, SuffixFor(e.price, d))
  }

  /** A separator goes before every point on a new calendar day. */
  function LatestSeparator(dayOf: int -> Day): (nat, int, int) -> bool {
    (i: nat, prevTime: int, time: int) => IsNewDay(dayOf, prevTime, time)
  }

  /** The notification: whether it vibrates, its lines and its text. */
  datatype Message = Message(vibrate: bool, lines: seq<Line>, text: string)

  /** `generateHourlyNotificationMessage` as a value, with the vibration decided as
      written or (`corrected`) as intended. `hourOf` is the hour that `HH:mm` formatting
      shows, `dayOf` the calendar, `render` the formatting of one line and `lastPrice`
      what the store returns for the previously shown prices. */
  function HourlyMessageWith(d: Prices, lastPrice: Prices, vibrate: bool,
                             hourOf: int -> int, dayOf: int -> Day, render: Line -> string,
                             corrected: bool): Result<Message>
  {
    match d.priceTimeMap
    case None => Failure(NullPointer)
    case Some(entries) =>
      match VibrationCheck(lastPrice, vibrate, corrected)
      case Failure(c) => Failure(c)
      case Success(v) =>
        if entries == [] then Failure(NoSuchElement)
        else
          var lines := Layout(entries, |entries|, LatestLine(d, hourOf), LatestSeparator(dayOf));
          Success(Message(v, lines, TrimEnd(Joined(lines, render))))
  }

  /** `generateHourlyNotificationMessage` as written. */
  function HourlyMessage(d: Prices, lastPrice: Prices, vibrate: bool,
                         hourOf: int -> int, dayOf: int -> Day, render: Line -> string): Result<Message>
  {
    HourlyMessageWith(d, lastPrice, vibrate, hourOf, dayOf, render, false)
  }

  /** `generateHourlyNotificationMessage` with the vibration check comparing against the
      marks `generateSuffix` produces. */
  function HourlyMessageFixed(d: Prices, lastPrice: Prices, vibrate: bool,
                              hourOf: int -> int, dayOf: int -> Day, render: Line -> string): Result<Message>
  {
    HourlyMessageWith(d, lastPrice, vibrate, hourOf, dayOf, render, true)
  }

  /** What a line of the message says about its point. */
  ghost predicate LatestLineOk(d: Prices, hourOf: int -> int, l: Line) {
    l.Separator? || (l.suffix == SuffixFor(l.price, d) && (l.Hourly? ==> l.icon == EmojiFor(hourOf(l.time))))
  }

  /** A message that is built holds the layout of the map, its trimmed text and the
      vibration decision. */
  lemma HourlyMessageParts(d: Prices, lastPrice: Prices, vibrate: bool,
                           hourOf: int -> int, dayOf: int -> Day, render: Line -> string, corrected: bool)
    requires HourlyMessageWith(d, lastPrice, vibrate, hourOf, dayOf, render, corrected).Success?
    ensures d.priceTimeMap.Some? && d.priceTimeMap.value != []
    ensures var m := HourlyMessageWith(d, lastPrice, vibrate, hourOf, dayOf, render, corrected).value;
      var entries := d.priceTimeMap.value;
      && m.lines == Layout(entries, |entries|, LatestLine(d, hourOf), LatestSeparator(dayOf))
      && m.text == TrimEnd(Joined(m.lines, render))
      && VibrationCheck(lastPrice, vibrate, corrected) == Success(m.vibrate)
  {
  }

  /** The message shows every price point once, in map order, opening with the "Now"
      line for the first; separators stand exactly before the points that start a new
      calendar day; the text ends in no whitespace; and the vibration is the one decided
      from the previous run's prices. */
  lemma {:induction false} HourlyMessageShape(d: Prices, lastPrice: Prices, vibrate: bool,
                                             hourOf: int -> int, dayOf: int -> Day, render: Line -> string,
                                             corrected: bool)
    requires HourlyMessageWith(d, lastPrice, vibrate, hourOf, dayOf, render, corrected).Success?
    ensures var m := HourlyMessageWith(d, lastPrice, vibrate, hourOf, dayOf, render, corrected).value;
      var entries := d.priceTimeMap.value;
      && Shown(m.lines) == entries
      && m.lines[0] == Now(entries[0].time, entries[0].price, SuffixFor(entries[0].price, d))
      && SeparatorsWhere(m.lines, LatestSeparator(dayOf))
      && (m.text == [] || !IsWhitespace(m.text[|m.text| - 1]))
      && VibrationCheck(lastPrice, vibrate, corrected) == Success(m.vibrate)
  {
    HourlyMessageParts(d, lastPrice, vibrate, hourOf, dayOf, render, corrected);
    var entries := d.priceTimeMap.value;
    var line := LatestLine(d, hourOf);
    var sep := LatestSeparator(dayOf);
    assert LinesFaithful(line);
    LayoutShown(entries, |entries|, line, sep);
    assert entries[..|entries|] == entries;
    LayoutFirst(entries, |entries|, line, sep);
    LayoutSeparators(entries, |entries|, line, sep);
  }

  /** Every point's line carries the suffix of its price (none when peak and trough leave
      no spread), and every line after the first its hour's emoji. */
  lemma HourlyMessageLines(d: Prices, lastPrice: Prices, vibrate: bool,
                           hourOf: int -> int, dayOf: int -> Day, render: Line -> string, corrected: bool)
    requires HourlyMessageWith(d, lastPrice, vibrate, hourOf, dayOf, render, corrected).Success?
    ensures forall l :: l in HourlyMessageWith(d, lastPrice, vibrate, hourOf, dayOf, render, corrected).value.lines ==>
      LatestLineOk(d, hourOf, l)
  {
    HourlyMessageParts(d, lastPrice, vibrate, hourOf, dayOf, render, corrected);
    var entries := d.priceTimeMap.value;
    var p := (l: Line) => LatestLineOk(d, hourOf, l);
    LayoutAll(entries, |entries|, LatestLine(d, hourOf), LatestSeparator(dayOf), p);
  }

  /** The crash cases: a null map, then a failing vibration lookup, then an empty map. */
  lemma HourlyMessageFailures(d: Prices, lastPrice: Prices, vibrate: bool,
                              hourOf: int -> int, dayOf: int -> Day, render: Line -> string, corrected: bool)
    ensures var r := HourlyMessageWith(d, lastPrice, vibrate, hourOf, dayOf, render, corrected);
      var v := VibrationAsWritten(lastPrice, vibrate);
      && (d.priceTimeMap.None? ==> r == Failure(NullPointer))
      && (d.priceTimeMap.Some? && v.Failure? ==> r == Failure(v.crash))
      && (d.priceTimeMap == Some([]) && v.Success? ==> r == Failure(NoSuchElement))
      && (d.priceTimeMap.Some? && d.priceTimeMap.value != [] && v.Success? ==> r.Success?)
  {
  }

  /** As written, a message built after prices were stored never vibrates; without
      stored prices it vibrates exactly as the user set, in either form. */
  lemma MessageNeverVibratesAfterStoredPrices(d: Prices, lastPrice: Prices, vibrate: bool,
                                              hourOf: int -> int, dayOf: int -> Day, render: Line -> string)
    requires HourlyMessage(d, lastPrice, vibrate, hourOf, dayOf, render).Success?
    ensures lastPrice.peakPrice != -99.0 ==> !HourlyMessage(d, lastPrice, vibrate, hourOf, dayOf, render).value.vibrate
    ensures lastPrice.peakPrice == -99.0 ==> HourlyMessage(d, lastPrice, vibrate, hourOf, dayOf, render).value.vibrate == vibrate
  {
    HourlyMessageParts(d, lastPrice, vibrate, hourOf, dayOf, render, false);
    if lastPrice.peakPrice != -99.0 {
      NeverVibratesAfterStoredPrices(lastPrice, vibrate);
    }
  }

  /** The corrected message differs from the one as written in its vibration alone: both
      crash alike and carry the same lines and text. */
  lemma FixedMessageSameLines(d: Prices, lastPrice: Prices, vibrate: bool,
                              hourOf: int -> int, dayOf: int -> Day, render: Line -> string)
    ensures var r := HourlyMessage(d, lastPrice, vibrate, hourOf, dayOf, render);
      var f := HourlyMessageFixed(d, lastPrice, vibrate, hourOf, dayOf, render);
      && (r.Failure? <==> f.Failure?)
      && (r.Failure? ==> r == f)
      && (r.Success? ==> f.value.lines == r.value.lines && f.value.text == r.value.text)
  {
  }

  /** With the corrected check, a message after a stored first price above the upper
      threshold of a day with a positive spread vibrates as the user set; one after a
      stored first price at or below the middle threshold does not. */
  lemma FixedMessageVibratesAtPeaks(d: Prices, lastPrice: Prices, vibrate: bool,
                                    hourOf: int -> int, dayOf: int -> Day, render: Line -> string)
    requires HourlyMessageFixed(d, lastPrice, vibrate, hourOf, dayOf, render).Success?
    requires lastPrice.priceTimeMap.Some? && lastPrice.priceTimeMap.value != []
    requires lastPrice.peakPrice - lastPrice.troughPrice > 0.0
    ensures var range := PriceRange(lastPrice.peakPrice, lastPrice.troughPrice);
      var p := lastPrice.priceTimeMap.value[0].price;
      var m := HourlyMessageFixed(d, lastPrice, vibrate, hourOf, dayOf, render).value;
      && (p > range.Peak1() ==> m.vibrate == vibrate)
      && (lastPrice.peakPrice != -99.0 && p <= range.Peak2() ==> !m.vibrate)
  {
    HourlyMessageParts(d, lastPrice, vibrate, hourOf, dayOf, render, true);
    VibratesAtPeaks(lastPrice, vibrate);
  }

  /** The layout handled up to the first point is its "Now" line. */
  lemma LatestFirstLine(entries: seq<Entry>, d: Prices, hourOf: int -> int, dayOf: int -> Day, suffix: string)
    requires entries != [] && suffix == SuffixFor(entries[0].price, d)
    ensures Layout(entries, 1, LatestLine(d, hourOf), LatestSeparator(dayOf)) == [Now(entries[0].time, entries[0].price, suffix)]
  {
    assert Layout(entries, 1, LatestLine(d, hourOf), LatestSeparator(dayOf))
        == [] + Block(entries, 0, LatestLine(d, hourOf), LatestSeparator(dayOf));
  }

  /** The lines a further point adds, as the second pass writes them. */
  lemma LatestBlock(entries: seq<Entry>, index: nat, d: Prices, hourOf: int -> int, dayOf: int -> Day,
                    emoji: string, suffix: string)
    requires 0 < index < |entries|
    requires emoji == EmojiFor(hourOf(entries[index].time)) && suffix == SuffixFor(entries[index].price, d)
    ensures Block(entries, index, LatestLine(d, hourOf), LatestSeparator(dayOf)) ==
      (if IsNewDay(dayOf, entries[index - 1].time, entries[index].time) then [Separator(entries[index].time)] else [])
        + [Hourly(entries[index].time, emoji, entries[index].price, suffix)]
  {
  }

  /** The first pass: the emoji that opens each point's line. */
  method BaseLineIcons(entries: seq<Entry>, hourOf: int -> int) returns (icons: seq<string>)
    ensures |icons| == |entries|
    ensures entries != [] ==> icons[0] == NowIcon
    ensures forall k :: 0 < k < |entries| ==> icons[k] == EmojiFor(hourOf(entries[k].time))
  {
    icons := [];
    var index := 0;
    while index < |entries|
      invariant 0 <= index <= |entries| && |icons| == index
      invariant index > 0 ==> icons[0] == NowIcon
      invariant forall k :: 0 < k < index ==> icons[k] == EmojiFor(hourOf(entries[k].time))
    {
      var emoji := if index == 0 then NowIcon else EmojiFor(hourOf(entries[index].time));
      icons := icons + [emoji];
      index := index + 1;
    }
  }

  /** The second pass: the "Now" line, then each further point's line, after a separator
      when the day changes; `text` is what the string builder holds. */
  method WriteLines(entries: seq<Entry>, icons: seq<string>, d: Prices,
                    hourOf: int -> int, dayOf: int -> Day, render: Line -> string)
    returns (lines: seq<Line>, text: string)
    requires entries != [] && |icons| == |entries|
    requires forall k :: 0 < k < |entries| ==> icons[k] == EmojiFor(hourOf(entries[k].time))
    ensures lines == Layout(entries, |entries|, LatestLine(d, hourOf), LatestSeparator(dayOf))
    ensures text == Joined(lines, render)
  {
    var range := d.peakPrice - d.troughPrice;
    var line := LatestLine(d, hourOf);
    var sep := LatestSeparator(dayOf);
    var suffix := if range > 0.0 then GenerateSuffix(entries[0].price, PriceRange(d.peakPrice, d.troughPrice)) else "";
    LatestFirstLine(entries, d, hourOf, dayOf, suffix);
    lines, text := AppendLine([], "", Now(entries[0].time, entries[0].price, suffix), render);
    var index := 1;
    while index < |entries|
      invariant 1 <= index <= |entries|
      invariant suffix == SuffixFor(entries[index - 1].price, d)
      invariant lines == Layout(entries, index, line, sep)
      invariant text == Joined(lines, render)
    {
      var price := entries[index].price;
      if range > 0.0 {
        suffix := GenerateSuffix(price, PriceRange(d.peakPrice, d.troughPrice));
      }
      lines, text := WritePoint(entries, index, icons[index], suffix, d, hourOf, dayOf, render, lines, text);
      index := index + 1;
    }
  }

  /** The lines one further point adds: a separator when its day differs from the
      previous point's, then its hourly line. */
  method WritePoint(entries: seq<Entry>, index: nat, emoji: string, suffix: string, d: Prices,
                    hourOf: int -> int, dayOf: int -> Day, render: Line -> string,
                    lines: seq<Line>, text: string)
    returns (lines': seq<Line>, text': string)
    requires 0 < index < |entries| && text == Joined(lines, render)
    requires emoji == EmojiFor(hourOf(entries[index].time)) && suffix == SuffixFor(entries[index].price, d)
    ensures lines' == lines + Block(entries, index, LatestLine(d, hourOf), LatestSeparator(dayOf))
    ensures text' == Joined(lines', render)
  {
    var date := entries[index].time;
    var prevDate := entries[index - 1].time;
    LatestBlock(entries, index, d, hourOf, dayOf, emoji, suffix);
    lines', text' := lines, text;
    if IsNewDay(dayOf, prevDate, date) {
      lines', text' := AppendLine(lines', text', Separator(date), render);
    }
    lines', text' := AppendLine(lines', text', Hourly(date, emoji, entries[index].price, suffix), render);
  }

  /** `generateHourlyNotificationMessage`: the first pass, the vibration decision, the
      second pass and the trimmed text, crashing where the Kotlin code throws. */
  method GenerateHourlyNotificationMessage(d: Prices, lastPrice: Prices, vibrate: bool,
                                           hourOf: int -> int, dayOf: int -> Day, render: Line -> string)
    returns (r: Result<Message>)
    ensures r == HourlyMessage(d, lastPrice, vibrate, hourOf, dayOf, render)
  {
    if d.priceTimeMap.None? {
      return Failure(NullPointer);
    }
    var entries := d.priceTimeMap.value;
    var icons := BaseLineIcons(entries, hourOf);
    var v := VibrationAsWritten(lastPrice, vibrate);
    if v.Failure? {
      return Failure(v.crash);
    }
    if entries == [] {
      return Failure(NoSuchElement);
    }
    var lines, text := WriteLines(entries, icons, d, hourOf, dayOf, render);
    r := Success(Message(v.value, lines, TrimEnd(text)));
  }
}
