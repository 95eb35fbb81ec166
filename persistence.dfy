/** The on-device store (app/.../prijswijs/Persistence/Persistence.kt): settings and the
    last fetched prices kept in two named SharedPreferences files, each a map from string
    keys to typed values. Prices are written one key per entry, `date<i>` and `price<i>`,
    and read back by walking the indices until a sentinel turns up. */
module PersistenceModel {
  import opened Series
  import opened PriceModel

  /** A value held by SharedPreferences, tagged with the getter/putter pair that wrote it.
      Longs and ints are both unbounded here; floats are reals already narrowed. */
  datatype Value = BoolV(b: bool) | IntV(i: int) | LongV(l: int) | FloatV(f: real)

  type Store = map<string, Value>

  /** User settings (vibrate on notification, bed time hour, wake-up hour). */
  datatype Settings = Settings(vibrate: bool, bedTime: int, wakeUpTime: int)

  // ---------------------------------------------------------------- decimal keys

  function Digit(d: nat): (c: char)
    requires d < 10
    ensures '0' <= c <= '9' && c as int - '0' as int == d
  {
    "0123456789"[d]
  }

  /** Kotlin's string template `"$index"` for a non-negative index: its decimal digits. */
  function Decimal(n: nat): (s: string)
    ensures |s| >= 1
    ensures forall i :: 0 <= i < |s| ==> '0' <= s[i] <= '9'
    decreases n
  {
    if n < 10 then [Digit(n)] else Decimal(n / 10) + [Digit(n % 10)]
  }

  /** The number a string of decimal digits spells (inverse of `Decimal`). */
  function ParseDecimal(s: string): int
    decreases |s|
  {
    if s == [] then 0 else ParseDecimal(s[..|s| - 1]) * 10 + (s[|s| - 1] as int - '0' as int)
  }

  lemma {:induction false} ParseDecimalInverse(n: nat)
    ensures ParseDecimal(Decimal(n)) == n
    decreases n
  {
    if n >= 10 {
      var s := Decimal(n);
      assert s[..|s| - 1] == Decimal(n / 10);
      ParseDecimalInverse(n / 10);
    }
  }

  /** Different indices give different key suffixes. */
  lemma DecimalInjective(m: nat, n: nat)
    requires Decimal(m) == Decimal(n)
    ensures m == n
  {
    ParseDecimalInverse(m);
    ParseDecimalInverse(n);
  }

  function DateKey(i: nat): string {
    "date" + Decimal(i)
  }

  function PriceKey(i: nat): string {
    "price" + Decimal(i)
  }

  /** The index a `price<i>` key carries, or -1 for any key not of that shape. */
  function PriceIndex(k: string): int {
    if |k| >= 5 && k[..5] == "price" then ParseDecimal(k[5..]) else -1
  }

  lemma PriceIndexOfKey(i: nat)
    ensures PriceIndex(PriceKey(i)) == i
  {
    assert PriceKey(i)[..5] == "price";
    assert PriceKey(i)[5..] == Decimal(i);
    ParseDecimalInverse(i);
  }

  /** The keys of the price cache never collide: the two header keys and the indexed
      date and price keys are pairwise distinct. */
  lemma KeysDistinct(i: nat, j: nat)
    ensures DateKey(i) != PriceKey(j)
    ensures DateKey(i) != "peakPrice" && DateKey(i) != "troughPrice"
    ensures PriceKey(j) != "peakPrice" && PriceKey(j) != "troughPrice"
    ensures DateKey(i) == DateKey(j) <==> i == j
    ensures PriceKey(i) == PriceKey(j) <==> i == j
  {
    assert DateKey(i)[0] == 'd' && PriceKey(j)[0] == 'p';
    assert PriceKey(j)[1] == 'r';
    if DateKey(i) == DateKey(j) {
      assert DateKey(i)[4..] == Decimal(i) && DateKey(j)[4..] == Decimal(j);
      DecimalInjective(i, j);
    }
    if PriceKey(i) == PriceKey(j) {
      assert PriceKey(i)[5..] == Decimal(i) && PriceKey(j)[5..] == Decimal(j);
      DecimalInjective(i, j);
    }
  }

  // ---------------------------------------------------------------- typed getters

  /** `Long.toInt()`: keeps the low 32 bits, read as a two's complement number. */
  function ToInt32(x: int): (r: int)
    ensures -0x8000_0000 <= r < 0x8000_0000
    ensures (r - x) % 0x1_0000_0000 == 0
    ensures -0x8000_0000 <= x < 0x8000_0000 ==> r == x
  {
    (x + 0x8000_0000) % 0x1_0000_0000 - 0x8000_0000
  }

  /** Reading a key with the wrong getter throws ClassCastException; a store written
      only by this class holds each key under one type, stated by these predicates. */
  predicate FloatOrAbsent(e: Store, k: string) {
    k in e ==> e[k].FloatV?
  }

  predicate LongOrAbsent(e: Store, k: string) {
    k in e ==> e[k].LongV?
  }

  ghost predicate CacheTyped(e: Store) {
    && FloatOrAbsent(e, "peakPrice")
    && FloatOrAbsent(e, "troughPrice")
    && (forall i: nat :: FloatOrAbsent(e, PriceKey(i)))
    && (forall i: nat :: LongOrAbsent(e, DateKey(i)))
  }

  predicate SettingsTyped(e: Store) {
    && ("vibrate" in e ==> e["vibrate"].BoolV?)
    && ("bedTime" in e ==> e["bedTime"].IntV?)
    && ("wakeUpTime" in e ==> e["wakeUpTime"].IntV?)
  }

  function GetFloat(e: Store, k: string, default: real): (r: real)
    requires FloatOrAbsent(e, k)
    ensures k in e ==> FloatV(r) == e[k]
    ensures k !in e ==> r == default
  {
    if k in e then e[k].f else default
  }

  function GetLong(e: Store, k: string, default: int): (r: int)
    requires LongOrAbsent(e, k)
    ensures k in e ==> LongV(r) == e[k]
    ensures k !in e ==> r == default
  {
    if k in e then e[k].l else default
  }

  // ---------------------------------------------------------------- settings

  /** `saveSettings`: the three settings keys are overwritten, nothing else changes. */
  function SaveSettingsSpec(e: Store, s: Settings): (r: Store)
    ensures r.Keys == e.Keys + {"vibrate", "bedTime", "wakeUpTime"}
    ensures forall k :: k in e && k !in {"vibrate", "bedTime", "wakeUpTime"} ==> r[k] == e[k]
  {
    e["vibrate" := BoolV(s.vibrate)]["bedTime" := IntV(s.bedTime)]["wakeUpTime" := IntV(s.wakeUpTime)]
  }

  /** `loadSettings`: each setting read with its default (false, 21, 6) when absent. */
  function LoadSettingsSpec(e: Store): (s: Settings)
    requires SettingsTyped(e)
    ensures "vibrate" in e ==> BoolV(s.vibrate) == e["vibrate"]
    ensures "bedTime" in e ==> IntV(s.bedTime) == e["bedTime"]
    ensures "wakeUpTime" in e ==> IntV(s.wakeUpTime) == e["wakeUpTime"]
  {
    Settings(
      if "vibrate" in e then e["vibrate"].b else false,
      if "bedTime" in e then e["bedTime"].i else 21,
      if "wakeUpTime" in e then e["wakeUpTime"].i else 6)
  }

  /** Loading what was saved gives the same settings back, whatever the file held before. */
  lemma SettingsRoundTrip(e: Store, s: Settings)
    ensures SettingsTyped(SaveSettingsSpec(e, s))
    ensures LoadSettingsSpec(SaveSettingsSpec(e, s)) == s
  {
  }

  /** A fresh install reads: no vibration, bed time 21, wake-up 6. */
  lemma SettingsDefaults()
    ensures LoadSettingsSpec(map[]) == Settings(false, 21, 6)
  {
  }

  // ---------------------------------------------------------------- cached prices

  /** The prices as stored: each narrowed to a float by `toFloat`. */
  function Narrowed(s: seq<Entry>, toFloat: real -> real): (r: seq<Entry>)
    ensures |r| == |s|
    ensures forall i :: 0 <= i < |s| ==> r[i] == Entry(s[i].time, toFloat(s[i].price))
  {
    seq(|s|, i requires 0 <= i < |s| => Entry(s[i].time, toFloat(s[i].price)))
  }

  /** The `date<i>` keys written by the first loop of `saveCachedPrices`. */
  function WithDates(e: Store, s: seq<Entry>): Store
    decreases |s|
  {
    if s == [] then e
    else WithDates(e, s[..|s| - 1])[DateKey(|s| - 1) := LongV(s[|s| - 1].time)]
  }

  /** The `price<i>` keys written by the second loop of `saveCachedPrices`. */
  function WithPrices(e: Store, s: seq<Entry>, toFloat: real -> real): Store
    decreases |s|
  {
    if s == [] then e
    else WithPrices(e, s[..|s| - 1], toFloat)[PriceKey(|s| - 1) := FloatV(toFloat(s[|s| - 1].price))]
  }

  lemma {:induction false} WithDatesHit(e: Store, s: seq<Entry>, i: nat)
    requires i < |s|
    ensures DateKey(i) in WithDates(e, s) && WithDates(e, s)[DateKey(i)] == LongV(s[i].time)
    decreases |s|
  {
    if i < |s| - 1 {
      KeysDistinct(i, |s| - 1);
      WithDatesHit(e, s[..|s| - 1], i);
    }
  }

  lemma {:induction false} WithDatesMiss(e: Store, s: seq<Entry>, k: string)
    requires forall i :: 0 <= i < |s| ==> k != DateKey(i)
    ensures k in WithDates(e, s) <==> k in e
    ensures k in e ==> WithDates(e, s)[k] == e[k]
    decreases |s|
  {
    if s != [] {
      WithDatesMiss(e, s[..|s| - 1], k);
    }
  }

  lemma {:induction false} WithPricesHit(e: Store, s: seq<Entry>, toFloat: real -> real, i: nat)
    requires i < |s|
    ensures PriceKey(i) in WithPrices(e, s, toFloat)
    ensures WithPrices(e, s, toFloat)[PriceKey(i)] == FloatV(toFloat(s[i].price))
    decreases |s|
  {
    if i < |s| - 1 {
      KeysDistinct(i, |s| - 1);
      WithPricesHit(e, s[..|s| - 1], toFloat, i);
    }
  }

  lemma {:induction false} WithPricesMiss(e: Store, s: seq<Entry>, toFloat: real -> real, k: string)
    requires forall i :: 0 <= i < |s| ==> k != PriceKey(i)
    ensures k in WithPrices(e, s, toFloat) <==> k in e
    ensures k in e ==> WithPrices(e, s, toFloat)[k] == e[k]
    decreases |s|
  {
    if s != [] {
      WithPricesMiss(e, s[..|s| - 1], toFloat, k);
    }
  }

  /** The header written first by `saveCachedPrices`: peak and trough, narrowed. */
  function WithHeader(e: Store, d: Prices, toFloat: real -> real): Store {
    e["peakPrice" := FloatV(toFloat(d.peakPrice))]["troughPrice" := FloatV(toFloat(d.troughPrice))]
  }

  /** The cache file after `saveCachedPrices`: peak and trough, then the dates, then the
      prices, all written over the file's old contents without clearing it. */
  function Saved(e: Store, d: Prices, s: seq<Entry>, toFloat: real -> real): Store {
    WithPrices(WithDates(WithHeader(e, d, toFloat), s), s, toFloat)
  }

  /** A saved file holds the narrowed peak and trough. */
  lemma SavedHeader(e: Store, d: Prices, s: seq<Entry>, toFloat: real -> real)
    ensures "peakPrice" in Saved(e, d, s, toFloat) && "troughPrice" in Saved(e, d, s, toFloat)
    ensures Saved(e, d, s, toFloat)["peakPrice"] == FloatV(toFloat(d.peakPrice))
    ensures Saved(e, d, s, toFloat)["troughPrice"] == FloatV(toFloat(d.troughPrice))
  {
    forall i | 0 <= i < |s|
      ensures "peakPrice" != DateKey(i) && "peakPrice" != PriceKey(i)
      ensures "troughPrice" != DateKey(i) && "troughPrice" != PriceKey(i)
    {
      KeysDistinct(i, i);
    }
    var h := WithHeader(e, d, toFloat);
    WithDatesMiss(h, s, "peakPrice");
    WithDatesMiss(h, s, "troughPrice");
    WithPricesMiss(WithDates(h, s), s, toFloat, "peakPrice");
    WithPricesMiss(WithDates(h, s), s, toFloat, "troughPrice");
  }

  /** A saved file holds, at each index below |s|, the entry's date and narrowed price. */
  lemma SavedHit(e: Store, d: Prices, s: seq<Entry>, toFloat: real -> real, i: nat)
    requires i < |s|
    ensures DateKey(i) in Saved(e, d, s, toFloat) && Saved(e, d, s, toFloat)[DateKey(i)] == LongV(s[i].time)
    ensures PriceKey(i) in Saved(e, d, s, toFloat)
    ensures Saved(e, d, s, toFloat)[PriceKey(i)] == FloatV(toFloat(s[i].price))
  {
    var h := WithHeader(e, d, toFloat);
    WithDatesHit(h, s, i);
    forall j | 0 <= j < |s| ensures DateKey(i) != PriceKey(j) {
      KeysDistinct(i, j);
    }
    WithPricesMiss(WithDates(h, s), s, toFloat, DateKey(i));
    WithPricesHit(WithDates(h, s), s, toFloat, i);
  }

  /** At each index from |s| on, a saved file holds what the old file held. */
  lemma SavedMiss(e: Store, d: Prices, s: seq<Entry>, toFloat: real -> real, i: nat)
    requires i >= |s|
    ensures DateKey(i) in Saved(e, d, s, toFloat) <==> DateKey(i) in e
    ensures DateKey(i) in e ==> Saved(e, d, s, toFloat)[DateKey(i)] == e[DateKey(i)]
    ensures PriceKey(i) in Saved(e, d, s, toFloat) <==> PriceKey(i) in e
    ensures PriceKey(i) in e ==> Saved(e, d, s, toFloat)[PriceKey(i)] == e[PriceKey(i)]
  {
    KeysDistinct(i, i);
    forall j | 0 <= j < |s|
      ensures DateKey(i) != DateKey(j) && DateKey(i) != PriceKey(j)
      ensures PriceKey(i) != PriceKey(j) && PriceKey(i) != DateKey(j)
    {
      KeysDistinct(i, j);
      KeysDistinct(j, i);
    }
    var h := WithHeader(e, d, toFloat);
    WithDatesMiss(h, s, DateKey(i));
    WithDatesMiss(h, s, PriceKey(i));
    WithPricesMiss(WithDates(h, s), s, toFloat, DateKey(i));
    WithPricesMiss(WithDates(h, s), s, toFloat, PriceKey(i));
  }

  /** Saving keeps the file well typed. */
  lemma SavedTyped(e: Store, d: Prices, s: seq<Entry>, toFloat: real -> real)
    requires CacheTyped(e)
    ensures CacheTyped(Saved(e, d, s, toFloat))
  {
    SavedHeader(e, d, s, toFloat);
    forall i: nat
      ensures FloatOrAbsent(Saved(e, d, s, toFloat), PriceKey(i))
      ensures LongOrAbsent(Saved(e, d, s, toFloat), DateKey(i))
    {
      if i < |s| {
        SavedHit(e, d, s, toFloat, i);
      } else {
        SavedMiss(e, d, s, toFloat, i);
      }
    }
  }

  /** The sentinel both getters default to. */
  const Sentinel: int := -9999

  /** The set of `price<i>` keys with index at least `i`: shrinks at every step of the
      reading loop. */
  function PriceKeysFrom(e: Store, i: nat): set<string> {
    set k | k in e.Keys && PriceIndex(k) >= i
  }

  /** Whether `loadCachedPrices` stops at index `i`: the price reads as -9999.0 or the
      date, truncated to an Int, as -9999 (both are the defaults for missing keys). */
  predicate StopsAt(e: Store, i: nat)
    requires CacheTyped(e)
  {
    GetFloat(e, PriceKey(i), Sentinel as real) == Sentinel as real
    || ToInt32(GetLong(e, DateKey(i), Sentinel)) == Sentinel
  }

  /** The entry the reading loop builds at index `i`. */
  function ReadAt(e: Store, i: nat): Entry
    requires CacheTyped(e)
  {
    Entry(GetLong(e, DateKey(i), Sentinel), GetFloat(e, PriceKey(i), Sentinel as real))
  }

  lemma ContinueShrinks(e: Store, i: nat)
    requires PriceKey(i) in e
    ensures |PriceKeysFrom(e, i + 1)| < |PriceKeysFrom(e, i)|
  {
    PriceIndexOfKey(i);
    var k := PriceKey(i);
    assert k in PriceKeysFrom(e, i) && k !in PriceKeysFrom(e, i + 1);
    SubsetSize(PriceKeysFrom(e, i + 1), PriceKeysFrom(e, i) - {k});
  }

  /** The entries the reading loop visits from index `i` on, in index order. */
  function ReadFrom(e: Store, i: nat): seq<Entry>
    requires CacheTyped(e)
    decreases |PriceKeysFrom(e, i)|
  {
    if StopsAt(e, i) then []
    else
      ContinueShrinks(e, i);
      [ReadAt(e, i)] + ReadFrom(e, i + 1)
  }

  /** The PriceData that `loadCachedPrices` builds from a cache file; the loaded map is
      a LinkedHashMap, so a date read twice keeps its first position and its last price. */
  function LoadSpec(e: Store): Prices
    requires CacheTyped(e)
  {
    Prices(Some(PutAll([], ReadFrom(e, 0))),
           GetFloat(e, "peakPrice", 0.0), GetFloat(e, "troughPrice", 0.0))
  }

  /** An entry that survives the load: its stored price is not -9999.0 and its date does
      not truncate to -9999. */
  predicate NoSentinel(s: seq<Entry>, toFloat: real -> real) {
    forall i :: 0 <= i < |s| ==> toFloat(s[i].price) != Sentinel as real && ToInt32(s[i].time) != Sentinel
  }

  /** The file `w` holds the entries `n` at indices below |n| and agrees with `e` on
      every indexed key from |n| on. */
  ghost predicate Agrees(w: Store, e: Store, n: seq<Entry>) {
    && (forall j :: 0 <= j < |n| ==>
          && DateKey(j) in w && w[DateKey(j)] == LongV(n[j].time)
          && PriceKey(j) in w && w[PriceKey(j)] == FloatV(n[j].price))
    && (forall j: nat :: j >= |n| ==>
          && (DateKey(j) in w <==> DateKey(j) in e)
          && (PriceKey(j) in w <==> PriceKey(j) in e)
          && (DateKey(j) in e ==> w[DateKey(j)] == e[DateKey(j)])
          && (PriceKey(j) in e ==> w[PriceKey(j)] == e[PriceKey(j)]))
  }

  lemma SavedAgrees(e: Store, d: Prices, s: seq<Entry>, toFloat: real -> real)
    ensures Agrees(Saved(e, d, s, toFloat), e, Narrowed(s, toFloat))
  {
    forall j | 0 <= j < |s| ensures
          && DateKey(j) in Saved(e, d, s, toFloat) && Saved(e, d, s, toFloat)[DateKey(j)] == LongV(s[j].time)
          && PriceKey(j) in Saved(e, d, s, toFloat)
          && Saved(e, d, s, toFloat)[PriceKey(j)] == FloatV(toFloat(s[j].price))
    {
      SavedHit(e, d, s, toFloat, j);
    }
    forall j: nat | j >= |s| ensures
          && (DateKey(j) in Saved(e, d, s, toFloat) <==> DateKey(j) in e)
          && (PriceKey(j) in Saved(e, d, s, toFloat) <==> PriceKey(j) in e)
          && (DateKey(j) in e ==> Saved(e, d, s, toFloat)[DateKey(j)] == e[DateKey(j)])
          && (PriceKey(j) in e ==> Saved(e, d, s, toFloat)[PriceKey(j)] == e[PriceKey(j)])
    {
      SavedMiss(e, d, s, toFloat, j);
    }
  }

  /** Two files that agree on every indexed key from `i` on read the same from `i`. */
  lemma {:induction false} ReadSameBeyond(w: Store, e: Store, n: seq<Entry>, i: nat)
    requires CacheTyped(w) && CacheTyped(e) && Agrees(w, e, n) && i >= |n|
    ensures ReadFrom(w, i) == ReadFrom(e, i)
    decreases |PriceKeysFrom(e, i)|
  {
    assert StopsAt(w, i) == StopsAt(e, i);
    if !StopsAt(e, i) {
      ContinueShrinks(e, i);
      ReadSameBeyond(w, e, n, i + 1);
    }
  }

  /** A file agreeing with `e` beyond the entries `n` reads back `n` (up to the first
      sentinel, of which there is none) followed by what `e` holds beyond them. */
  lemma {:induction false} ReadAgrees(w: Store, e: Store, n: seq<Entry>, i: nat)
    requires CacheTyped(w) && CacheTyped(e) && Agrees(w, e, n) && i <= |n|
    requires forall j :: 0 <= j < |n| ==> n[j].price != Sentinel as real && ToInt32(n[j].time) != Sentinel
    ensures ReadFrom(w, i) == n[i..] + ReadFrom(e, |n|)
    decreases |n| - i
  {
    if i < |n| {
      assert !StopsAt(w, i);
      assert ReadAt(w, i) == n[i];
      ReadAgrees(w, e, n, i + 1);
      assert n[i..] == [n[i]] + n[i + 1..];
    } else {
      ReadSameBeyond(w, e, n, i);
    }
  }

  /** What saving over an old file and reading back gives: the saved entries, narrowed,
      followed by whatever the old file still holds beyond them. */
  lemma ReadSavedFrom(e: Store, d: Prices, s: seq<Entry>, toFloat: real -> real, i: nat)
    requires CacheTyped(e) && NoSentinel(s, toFloat) && i <= |s|
    ensures CacheTyped(Saved(e, d, s, toFloat))
    ensures ReadFrom(Saved(e, d, s, toFloat), i) == Narrowed(s, toFloat)[i..] + ReadFrom(e, |s|)
  {
    SavedTyped(e, d, s, toFloat);
    SavedAgrees(e, d, s, toFloat);
    ReadAgrees(Saved(e, d, s, toFloat), e, Narrowed(s, toFloat), i);
  }

  /** A file with no price at index `n` reads nothing from `n`. */
  lemma ReadEmptyBeyond(e: Store, n: nat)
    requires CacheTyped(e) && PriceKey(n) !in e
    ensures ReadFrom(e, n) == []
  {
  }

  /** Round trip: saving non-sentinel prices into a file holding no longer list and
      loading gives back the saved entries with their prices narrowed to floats, and
      the narrowed peak and trough. */
  lemma LoadAfterSave(e: Store, d: Prices, toFloat: real -> real)
    requires CacheTyped(e) && d.priceTimeMap.Some?
    requires UniqueTimes(d.priceTimeMap.value) && NoSentinel(d.priceTimeMap.value, toFloat)
    requires PriceKey(|d.priceTimeMap.value|) !in e
    ensures CacheTyped(Saved(e, d, d.priceTimeMap.value, toFloat))
    ensures LoadSpec(Saved(e, d, d.priceTimeMap.value, toFloat))
         == Prices(Some(Narrowed(d.priceTimeMap.value, toFloat)), toFloat(d.peakPrice), toFloat(d.troughPrice))
  {
    var s := d.priceTimeMap.value;
    var n := Narrowed(s, toFloat);
    var w := Saved(e, d, s, toFloat);
    assert ReadFrom(w, 0) == n by {
      ReadSavedFrom(e, d, s, toFloat, 0);
      ReadEmptyBeyond(e, |s|);
      assert n[0..] + [] == n;
    }
    SavedHeader(e, d, s, toFloat);
    NarrowedUnique(s, toFloat);
    assert [] + n == n;
    PutAllFresh([], n);
  }

  /** Narrowing leaves the dates, so distinct dates stay distinct. */
  lemma NarrowedUnique(s: seq<Entry>, toFloat: real -> real)
    requires UniqueTimes(s)
    ensures UniqueTimes(Narrowed(s, toFloat))
  {
    var n := Narrowed(s, toFloat);
    forall i, j | 0 <= i < j < |n| ensures n[i].time != n[j].time {
      assert n[i].time == s[i].time && n[j].time == s[j].time;
    }
  }

  /** Clearing the file before writing, as the round trip needs: only the saved map is
      read back, whatever the file held. */
  function SavedCleared(d: Prices, s: seq<Entry>, toFloat: real -> real): Store {
    Saved(map[], d, s, toFloat)
  }

  lemma LoadAfterClearedSave(d: Prices, toFloat: real -> real)
    requires d.priceTimeMap.Some?
    requires UniqueTimes(d.priceTimeMap.value) && NoSentinel(d.priceTimeMap.value, toFloat)
    ensures CacheTyped(SavedCleared(d, d.priceTimeMap.value, toFloat))
    ensures LoadSpec(SavedCleared(d, d.priceTimeMap.value, toFloat))
         == Prices(Some(Narrowed(d.priceTimeMap.value, toFloat)), toFloat(d.peakPrice), toFloat(d.troughPrice))
  {
    LoadAfterSave(map[], d, toFloat);
  }

  /** When a shorter map is saved over a longer one, the leftover entries of the longer
      one are read back after the new ones: two entries saved, then one, load as two. */
  lemma StaleEntriesSurvive(toFloat: real -> real, d0: Prices, d1: Prices)
    requires d0.priceTimeMap == Some([Entry(0, 1.0), Entry(3_600_000, 2.0)])
    requires d1.priceTimeMap == Some([Entry(7_200_000, 3.0)])
    requires toFloat(1.0) == 1.0 && toFloat(2.0) == 2.0 && toFloat(3.0) == 3.0
    ensures CacheTyped(Saved(Saved(map[], d0, d0.priceTimeMap.value, toFloat), d1, d1.priceTimeMap.value, toFloat))
    ensures ReadFrom(Saved(Saved(map[], d0, d0.priceTimeMap.value, toFloat), d1, d1.priceTimeMap.value, toFloat), 0)
         == [Entry(7_200_000, 3.0), Entry(3_600_000, 2.0)]
  {
    var s0 := d0.priceTimeMap.value;
    var s1 := d1.priceTimeMap.value;
    var e0 := Saved(map[], d0, s0, toFloat);
    FirstSaveTail(toFloat, d0);
    assert NoSentinel(s1, toFloat);
    SavedTyped(e0, d1, s1, toFloat);
    ReadSavedFrom(e0, d1, s1, toFloat, 0);
    assert Narrowed(s1, toFloat)[0..] == [Entry(7_200_000, 3.0)];
  }

  /** After the first save, the second entry is all that is read from index 1 on. */
  lemma FirstSaveTail(toFloat: real -> real, d0: Prices)
    requires d0.priceTimeMap == Some([Entry(0, 1.0), Entry(3_600_000, 2.0)])
    requires toFloat(1.0) == 1.0 && toFloat(2.0) == 2.0
    ensures CacheTyped(Saved(map[], d0, d0.priceTimeMap.value, toFloat))
    ensures ReadFrom(Saved(map[], d0, d0.priceTimeMap.value, toFloat), 1) == [Entry(3_600_000, 2.0)]
  {
    var s0 := d0.priceTimeMap.value;
    assert NoSentinel(s0, toFloat);
    SavedTyped(map[], d0, s0, toFloat);
    ReadSavedFrom(map[], d0, s0, toFloat, 1);
    ReadEmptyBeyond(map[], 2);
    assert Narrowed(s0, toFloat)[1..] == [Entry(3_600_000, 2.0)];
  }

  /** A price list holding the sentinel price is read back only up to it. */
  lemma {:induction false} SentinelCutsOff(e: Store, d: Prices, s: seq<Entry>, toFloat: real -> real, k: nat, i: nat)
    requires CacheTyped(e) && k < |s| && i <= k && NoSentinel(s[..k], toFloat)
    requires toFloat(s[k].price) == Sentinel as real
    ensures CacheTyped(Saved(e, d, s, toFloat))
    ensures ReadFrom(Saved(e, d, s, toFloat), i) == Narrowed(s[..k], toFloat)[i..]
    decreases k - i
  {
    SavedTyped(e, d, s, toFloat);
    var w := Saved(e, d, s, toFloat);
    SavedHit(e, d, s, toFloat, i);
    if i < k {
      assert s[..k][i] == s[i];
      assert !StopsAt(w, i);
      SentinelCutsOff(e, d, s, toFloat, k, i + 1);
      assert Narrowed(s[..k], toFloat)[i..] == [Narrowed(s[..k], toFloat)[i]] + Narrowed(s[..k], toFloat)[i + 1..];
    } else {
      assert StopsAt(w, i);
    }
  }

  // ---------------------------------------------------------------- the classes

  /** An Android context: its named SharedPreferences files. */
  class Context {
    var files: map<string, Store>

    constructor ()
      ensures files == map[]
    {
      files := map[];
    }

    /** `getSharedPreferences(name, MODE_PRIVATE)`: an absent file reads as empty. */
    function Prefs(name: string): Store
      reads this
    {
      if name in files then files[name] else map[]
    }
  }

  class Persistence {
    constructor ()
    {
    }

    method SaveSettings(context: Context, settings: Settings)
      modifies context
      ensures context.files == old(context.files)["settings" := SaveSettingsSpec(old(context.Prefs("settings")), settings)]
    {
      var editor := context.Prefs("settings");
      editor := editor["vibrate" := BoolV(settings.vibrate)];
      editor := editor["bedTime" := IntV(settings.bedTime)];
      editor := editor["wakeUpTime" := IntV(settings.wakeUpTime)];
      context.files := context.files["settings" := editor];
    }

    method LoadSettings(context: Context) returns (settings: Settings)
      requires SettingsTyped(context.Prefs("settings"))
      ensures settings == LoadSettingsSpec(context.Prefs("settings"))
    {
      var prefs := context.Prefs("settings");
      var vibrate := if "vibrate" in prefs then prefs["vibrate"].b else false;
      var bedTime := if "bedTime" in prefs then prefs["bedTime"].i else 21;
      var wakeUpTime := if "wakeUpTime" in prefs then prefs["wakeUpTime"].i else 6;
      settings := Settings(vibrate, bedTime, wakeUpTime);
    }

    /** Writes the cache file; a null map throws at `priceTimeMap!!` before the edit is
        applied, so nothing is written. */
    method SaveCachedPrices(context: Context, priceData: PriceData, toFloat: real -> real)
      returns (crash: Option<Crash>)
      modifies context
      ensures priceData.priceTimeMap.None? ==> crash == Some(NullPointer) && context.files == old(context.files)
      ensures priceData.priceTimeMap.Some? ==>
                crash == None &&
                context.files == old(context.files)["cachedPrices" :=
                  Saved(old(context.Prefs("cachedPrices")), priceData.View(), priceData.priceTimeMap.value, toFloat)]
    {
      var editor := context.Prefs("cachedPrices");
      editor := editor["peakPrice" := FloatV(toFloat(priceData.peakPrice))];
      editor := editor["troughPrice" := FloatV(toFloat(priceData.troughPrice))];
      ghost var header := editor;
      if priceData.priceTimeMap.None? {
        return Some(NullPointer);
      }
      var entries := priceData.priceTimeMap.value;
      var index := 0;
      while index < |entries|
        invariant 0 <= index <= |entries|
        invariant editor == WithDates(header, entries[..index])
      {
        assert entries[..index + 1][..index] == entries[..index];
        editor := editor[DateKey(index) := LongV(entries[index].time)];
        index := index + 1;
      }
      assert entries[..index] == entries;
      ghost var dated := editor;
      index := 0;
      while index < |entries|
        invariant 0 <= index <= |entries|
        invariant editor == WithPrices(dated, entries[..index], toFloat)
      {
        assert entries[..index + 1][..index] == entries[..index];
        editor := editor[PriceKey(index) := FloatV(toFloat(entries[index].price))];
        index := index + 1;
      }
      assert entries[..index] == entries;
      context.files := context.files["cachedPrices" := editor];
      crash := None;
    }

    /** Reads the cache file into a fresh PriceData, walking `price<i>`/`date<i>` until a
        sentinel turns up. */
    method LoadCachedPrices(context: Context) returns (data: PriceData)
      requires CacheTyped(context.Prefs("cachedPrices"))
      ensures fresh(data) && data.View() == LoadSpec(context.Prefs("cachedPrices"))
    {
      var prefs := context.Prefs("cachedPrices");
      var peakPrice := GetFloat(prefs, "peakPrice", 0.0);
      var troughPrice := GetFloat(prefs, "troughPrice", 0.0);
      var priceMap: seq<Entry> := [];
      var index: nat := 0;
      while true
        invariant UniqueTimes(priceMap)
        invariant PutAll([], ReadFrom(prefs, 0)) == PutAll(priceMap, ReadFrom(prefs, index))
        decreases |PriceKeysFrom(prefs, index)|
      {
        var price := GetFloat(prefs, PriceKey(index), Sentinel as real);
        var date := GetLong(prefs, DateKey(index), Sentinel);
        if price == Sentinel as real || ToInt32(date) == Sentinel {
          assert ReadFrom(prefs, index) == [];
          break;
        }
        ContinueShrinks(prefs, index);
        assert ReadFrom(prefs, index) == [Entry(date, price)] + ReadFrom(prefs, index + 1);
        PutAllCons(priceMap, Entry(date, price), ReadFrom(prefs, index + 1));
        priceMap := Put(priceMap, Entry(date, price));
        index := index + 1;
      }
      data := new PriceData(Some(priceMap), peakPrice, troughPrice);
    }
  }

  /** The companion object holding the lazily created singleton. */
  class PersistenceHolder {
    var instance: Persistence?

    constructor ()
      ensures instance == null
    {
      instance := null;
    }

    /** The same instance on every call; created on the first. */
    method GetInstance() returns (p: Persistence)
      modifies this
      ensures old(instance) != null ==> p == old(instance)
      ensures old(instance) == null ==> fresh(p)
      ensures instance == p
    {
      if instance == null {
        instance := new Persistence();
      }
      p := instance;
    }
  }
}
