/** What the three notification services have in common: a message is a list of lines,
    one per price point, each possibly preceded by a day-separator line; a calendar day
    check; and Kotlin's `trimEnd`. */
module Messages {
  import opened Series

  /** One line of the notification text. `Now` is the first price point's line, `Hourly`
      any other point's line with its leading icon, `Separator` the "—— day month ——"
      line announcing a new day. The formatted date, price and padding are not modelled. */
  datatype Line =
    | Now(time: int, price: real, suffix: string)
    | Hourly(time: int, icon: string, price: real, suffix: string)
    | Separator(time: int)

  /** The price points the lines display, in order. */
  function Shown(lines: seq<Line>): (r: seq<Entry>)
    ensures |r| <= |lines|
  {
    if lines == [] then []
    else
      var last := lines[|lines| - 1];
      Shown(lines[..|lines| - 1]) + (if last.Separator? then [] else [Entry(last.time, last.price)])
  }

  lemma {:induction false} ShownAppend(a: seq<Line>, b: seq<Line>)
    ensures Shown(a + b) == Shown(a) + Shown(b)
    decreases |b|
  {
    if b == [] {
      assert a + b == a;
    } else {
      var b' := b[..|b| - 1];
      assert (a + b)[..|a + b| - 1] == a + b';
      ShownAppend(a, b');
    }
  }

  /** A line for point `i`, given the previous point (the point itself for `i == 0`). */
  ghost predicate LinesFaithful(line: (nat, Entry, Entry) -> Line) {
    forall i, prev, e :: !line(i, prev, e).Separator? && line(i, prev, e).time == e.time && line(i, prev, e).price == e.price
  }

  /** The lines written for point `i`: a separator when `sep` says so for this point and
      the previous one's timestamp, then the point's own line. */
  function Block(entries: seq<Entry>, i: nat, line: (nat, Entry, Entry) -> Line, sep: (nat, int, int) -> bool): seq<Line>
    requires i < |entries|
  {
    var prev := if i == 0 then entries[0] else entries[i - 1];
    (if i > 0 && sep(i, prev.time, entries[i].time) then [Separator(entries[i].time)] else [])
      + [line(i, prev, entries[i])]
  }

  /** The lines after the loop has handled the first `n` points. */
  function Layout(entries: seq<Entry>, n: nat, line: (nat, Entry, Entry) -> Line, sep: (nat, int, int) -> bool): seq<Line>
    requires n <= |entries|
  {
    if n == 0 then [] else Layout(entries, n - 1, line, sep) + Block(entries, n - 1, line, sep)
  }

  /** One line per point, in order, and the last line is the last handled point's. */
  lemma {:induction false} LayoutShown(entries: seq<Entry>, n: nat, line: (nat, Entry, Entry) -> Line, sep: (nat, int, int) -> bool)
    requires n <= |entries| && LinesFaithful(line)
    ensures Shown(Layout(entries, n, line, sep)) == entries[..n]
    ensures n > 0 ==>
      && Layout(entries, n, line, sep) != []
      && Layout(entries, n, line, sep)[|Layout(entries, n, line, sep)| - 1]
           == line(n - 1, if n == 1 then entries[0] else entries[n - 2], entries[n - 1])
  {
    if n > 0 {
      LayoutShown(entries, n - 1, line, sep);
      var b := Block(entries, n - 1, line, sep);
      ShownAppend(Layout(entries, n - 1, line, sep), b);
      var l := line(n - 1, if n == 1 then entries[0] else entries[n - 2], entries[n - 1]);
      assert Shown([Separator(entries[n - 1].time)] + [l]) == [entries[n - 1]] by {
        ShownAppend([Separator(entries[n - 1].time)], [l]);
        assert [l][..0] == [];
        assert [Separator(entries[n - 1].time)][..0] == [];
      }
      assert Shown([l]) == [entries[n - 1]] by {
        assert [l][..0] == [];
      }
      assert entries[..n] == entries[..n - 1] + [entries[n - 1]];
    }
  }

  /** The first line belongs to the first point. */
  lemma {:induction false} LayoutFirst(entries: seq<Entry>, n: nat, line: (nat, Entry, Entry) -> Line, sep: (nat, int, int) -> bool)
    requires 0 < n <= |entries|
    ensures |Layout(entries, n, line, sep)| >= n
    ensures Layout(entries, n, line, sep)[0] == line(0, entries[0], entries[0])
  {
    if n > 1 {
      LayoutFirst(entries, n - 1, line, sep);
    } else {
      assert Layout(entries, 1, line, sep) == [] + Block(entries, 0, line, sep);
    }
  }

  /** Every separator stands between the line of point `k - 1` and the line of point
      `k`, where `k` counts the points shown before it, for a `k` where `sep` holds of
      the two points' timestamps. */
  ghost predicate SeparatorsJustified(lines: seq<Line>, sep: (nat, int, int) -> bool) {
    forall j :: 0 <= j < |lines| && lines[j].Separator? ==>
      && 0 < j < |lines| - 1
      && !lines[j - 1].Separator? && !lines[j + 1].Separator?
      && lines[j + 1].time == lines[j].time
      && sep(|Shown(lines[..j])|, lines[j - 1].time, lines[j + 1].time)
  }

  /** Two point lines that follow each other directly are points `k - 1` and `k` for
      which `sep` does not hold. */
  ghost predicate NoSeparatorNeeded(lines: seq<Line>, sep: (nat, int, int) -> bool) {
    forall j :: 0 <= j < |lines| - 1 && !lines[j].Separator? && !lines[j + 1].Separator? ==>
      !sep(|Shown(lines[..j + 1])|, lines[j].time, lines[j + 1].time)
  }

  /** Separators sit exactly where `sep` holds. */
  ghost predicate SeparatorsWhere(lines: seq<Line>, sep: (nat, int, int) -> bool) {
    SeparatorsJustified(lines, sep) && NoSeparatorNeeded(lines, sep)
  }

  /** The lines of one more point: its own line, after a separator when `sep` holds for
      it (`k` points are shown so far, the last at `prevTime`). */
  ghost predicate NextBlock(before: seq<Line>, b: seq<Line>, sep: (nat, int, int) -> bool, k: nat, prevTime: int) {
    && |Shown(before)| == k
    && (before != [] ==> !before[|before| - 1].Separator? && before[|before| - 1].time == prevTime)
    && (|b| == 1 || |b| == 2)
    && !b[|b| - 1].Separator?
    && (|b| == 2 ==> before != [] && b[0] == Separator(b[1].time) && sep(k, prevTime, b[1].time))
    && (|b| == 1 && before != [] ==> !sep(k, prevTime, b[0].time))
  }

  lemma JustifiedAppend(before: seq<Line>, b: seq<Line>, sep: (nat, int, int) -> bool, k: nat, prevTime: int)
    requires SeparatorsJustified(before, sep) && NextBlock(before, b, sep, k, prevTime)
    ensures SeparatorsJustified(before + b, sep)
  {
    var all := before + b;
    var m := |before|;
    forall j | 0 <= j < |all| && all[j].Separator?
      ensures && 0 < j < |all| - 1
              && !all[j - 1].Separator? && !all[j + 1].Separator?
              && all[j + 1].time == all[j].time
              && sep(|Shown(all[..j])|, all[j - 1].time, all[j + 1].time)
    {
      if j < m {
        assert before[j] == all[j];
        assert all[..j] == before[..j];
        if j + 1 < m {
          assert all[j + 1] == before[j + 1];
        }
      } else {
        assert j == m && |b| == 2;
        assert all[..j] == before;
        assert all[j - 1] == before[m - 1];
      }
    }
  }

  lemma AdjacentAppend(before: seq<Line>, b: seq<Line>, sep: (nat, int, int) -> bool, k: nat, prevTime: int)
    requires NoSeparatorNeeded(before, sep) && NextBlock(before, b, sep, k, prevTime)
    ensures NoSeparatorNeeded(before + b, sep)
  {
    var all := before + b;
    var m := |before|;
    forall j | 0 <= j < |all| - 1 && !all[j].Separator? && !all[j + 1].Separator?
      ensures !sep(|Shown(all[..j + 1])|, all[j].time, all[j + 1].time)
    {
      if j + 1 < m {
        assert all[j] == before[j] && all[j + 1] == before[j + 1];
        assert all[..j + 1] == before[..j + 1];
      } else {
        assert j + 1 == m && |b| == 1;
        assert all[..j + 1] == before;
      }
    }
  }

  /** Appending the next block keeps the separators where `sep` puts them. */
  lemma LayoutStep(entries: seq<Entry>, n: nat, line: (nat, Entry, Entry) -> Line, sep: (nat, int, int) -> bool)
    requires 1 < n <= |entries| && LinesFaithful(line)
    requires SeparatorsWhere(Layout(entries, n - 1, line, sep), sep)
    ensures SeparatorsWhere(Layout(entries, n, line, sep), sep)
  {
    var before := Layout(entries, n - 1, line, sep);
    var b := Block(entries, n - 1, line, sep);
    LayoutShown(entries, n - 1, line, sep);
    assert NextBlock(before, b, sep, n - 1, entries[n - 2].time);
    JustifiedAppend(before, b, sep, n - 1, entries[n - 2].time);
    AdjacentAppend(before, b, sep, n - 1, entries[n - 2].time);
  }

  /** The whole layout puts separators exactly where `sep` says. */
  lemma {:induction false} LayoutSeparators(entries: seq<Entry>, n: nat, line: (nat, Entry, Entry) -> Line, sep: (nat, int, int) -> bool)
    requires n <= |entries| && LinesFaithful(line)
    ensures SeparatorsWhere(Layout(entries, n, line, sep), sep)
  {
    if n == 1 {
      assert Layout(entries, 1, line, sep) == [] + Block(entries, 0, line, sep);
    } else if n > 1 {
      LayoutSeparators(entries, n - 1, line, sep);
      LayoutStep(entries, n, line, sep);
    }
  }

  /** Every line of the layout satisfies `p` when every point line and every separator does. */
  lemma {:induction false} LayoutAll(entries: seq<Entry>, n: nat, line: (nat, Entry, Entry) -> Line,
                                     sep: (nat, int, int) -> bool, p: Line -> bool)
    requires n <= |entries|
    requires forall i, prev, e :: p(line(i, prev, e))
    requires forall t :: p(Separator(t))
    ensures forall l :: l in Layout(entries, n, line, sep) ==> p(l)
  {
    if n > 0 {
      LayoutAll(entries, n - 1, line, sep, p);
    }
  }

  /** The line `line` gives point `i`. */
  function PointLine(entries: seq<Entry>, i: nat, line: (nat, Entry, Entry) -> Line): Line
    requires i < |entries|
  {
    line(i, if i == 0 then entries[0] else entries[i - 1], entries[i])
  }

  /** Where `sep` never holds, line `j` is point `j`'s. */
  lemma {:induction false} LayoutWithoutSeparators(entries: seq<Entry>, n: nat, line: (nat, Entry, Entry) -> Line, sep: (nat, int, int) -> bool)
    requires n <= |entries|
    requires forall i, prevTime, time :: !sep(i, prevTime, time)
    ensures |Layout(entries, n, line, sep)| == n
    ensures forall j :: 0 <= j < n ==> Layout(entries, n, line, sep)[j] == PointLine(entries, j, line)
  {
    if n > 0 {
      LayoutWithoutSeparators(entries, n - 1, line, sep);
      assert Block(entries, n - 1, line, sep) == [PointLine(entries, n - 1, line)];
    }
  }

  // ---- Calendar days ----

  /** `Calendar.DAY_OF_YEAR` and `Calendar.YEAR` of an instant in the device's time zone. */
  datatype Day = Day(year: int, dayOfYear: int)

  /** `isNewDay(date1, date2)`, with `dayOf` standing for the calendar. */
  function IsNewDay(dayOf: int -> Day, date1: int, date2: int): bool {
    dayOf(date1).dayOfYear != dayOf(date2).dayOfYear || dayOf(date1).year != dayOf(date2).year
  }

  /** Two instants are on a new day exactly when their calendar days differ, so the check
      is symmetric and false within one day. */
  lemma IsNewDayIff(dayOf: int -> Day, date1: int, date2: int)
    ensures IsNewDay(dayOf, date1, date2) <==> dayOf(date1) != dayOf(date2)
    ensures IsNewDay(dayOf, date1, date2) == IsNewDay(dayOf, date2, date1)
    ensures dayOf(date1) == dayOf(date2) ==> !IsNewDay(dayOf, date1, date2)
  {
  }

  // ---- trimEnd ----

  /** `Char.isWhitespace` on the JVM (`Character.isWhitespace` or `Character.isSpaceChar`):
      the controls from tab to carriage return and from U+001C to U+001F, and the space,
      line and paragraph separators of Unicode. */
  predicate IsWhitespace(c: char) {
    || ('\t' <= c <= '\r') || ('\U{001C}' <= c <= '\U{001F}')
    || c == ' ' || c == '\U{00A0}' || c == '\U{1680}' || ('\U{2000}' <= c <= '\U{200A}')
    || c == '\U{2028}' || c == '\U{2029}' || c == '\U{202F}' || c == '\U{205F}' || c == '\U{3000}'
  }

  /** `trimEnd()`: drop trailing whitespace. */
  function TrimEnd(s: string): (r: string)
    ensures |r| <= |s| && r == s[..|r|]
    ensures r == [] || !IsWhitespace(r[|r| - 1])
    ensures forall k :: |r| <= k < |s| ==> IsWhitespace(s[k])
  {
    if s != [] && IsWhitespace(s[|s| - 1]) then
      var r := TrimEnd(s[..|s| - 1]);
      assert s[..|s| - 1][..|r|] == s[..|r|];
      r
    else s
  }

  /** Trimming twice trims no more than once. */
  lemma TrimEndIdempotent(s: string)
    ensures TrimEnd(TrimEnd(s)) == TrimEnd(s)
  {
  }

  /** `appendLine` for every line: the rendered lines, each followed by a newline. */
  function Joined(lines: seq<Line>, render: Line -> string): string {
    if lines == [] then [] else Joined(lines[..|lines| - 1], render) + render(lines[|lines| - 1]) + "\n"
  }

  /** One line appended to the message and its rendering to the string builder. */
  method AppendLine(lines: seq<Line>, text: string, l: Line, render: Line -> string)
    returns (lines': seq<Line>, text': string)
    requires text == Joined(lines, render)
    ensures lines' == lines + [l]
    ensures text' == Joined(lines', render)
    ensures text' == text + render(l) + "\n"
  {
    lines' := lines + [l];
    text' := text + render(l) + "\n";
    assert lines'[..|lines'| - 1] == lines;
  }
}
