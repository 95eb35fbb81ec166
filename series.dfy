/** Value types and sequence helpers shared by every revision of the price pipeline.

    A Kotlin `MutableMap<Date, Double>` (a LinkedHashMap: keys unique, iteration in
    insertion order) is modelled as a `seq<Entry>` whose timestamps are unique. */
module Series {

  datatype Option<T> = None | Some(value: T)

  /** Runtime exceptions the Kotlin code can raise by itself (I/O errors are modelled elsewhere). */
  datatype Crash =
    | IndexOutOfBounds        // `list[index]` with index outside 0 until size
    | NoSuchElement           // `first()` / `last()` on an empty collection
    | NullPointer             // `!!` applied to null
    | UninitializedProperty   // a `lateinit var` read before it was ever assigned

  datatype Result<T> = Success(value: T) | Failure(crash: Crash)

  /** One price point: a timestamp in milliseconds and the price at that time. */
  datatype Entry = Entry(time: int, price: real)

  /** What a map keyed by timestamp guarantees: no timestamp twice. */
  predicate UniqueTimes(s: seq<Entry>) {
    forall i, j :: 0 <= i < j < |s| ==> s[i].time != s[j].time
  }

  /** Strictly increasing timestamps (`sortedBy { it.key }` on a map's entries). */
  predicate Chronological(s: seq<Entry>) {
    forall i, j :: 0 <= i < j < |s| ==> s[i].time < s[j].time
  }

  function Times(s: seq<Entry>): set<int> {
    set e | e in s :: e.time
  }

  function Prices(s: seq<Entry>): seq<real> {
    seq(|s|, i requires 0 <= i < |s| => s[i].price)
  }

  /** `map[key]` on the modelled map. */
  function Lookup(s: seq<Entry>, t: int): (r: Option<real>)
    ensures r.Some? <==> t in Times(s)
    ensures r.Some? ==> Entry(t, r.value) in s
  {
    if s == [] then None
    else if s[0].time == t then Some(s[0].price)
    else Lookup(s[1..], t)
  }

  /** The position of timestamp `t` in the map. */
  function IndexOf(s: seq<Entry>, t: int): (i: nat)
    requires t in Times(s)
    ensures i < |s| && s[i].time == t
  {
    if s[0].time == t then 0
    else
      assert t in Times(s[1..]) by {
        var x :| x in s && x.time == t;
        assert x != s[0];
      }
      IndexOf(s[1..], t) + 1
  }

  /** `map[e.time] = e.price` on an insertion-ordered map: an existing key keeps its
      place and takes the new value, a new key is appended. */
  function Put(s: seq<Entry>, e: Entry): (r: seq<Entry>)
    requires UniqueTimes(s)
    ensures UniqueTimes(r)
    ensures e.time !in Times(s) ==> r == s + [e]
    ensures forall i :: 0 <= i < |s| && s[i].time == e.time ==> r == s[i := e]
    ensures Times(r) == Times(s) + {e.time}
  {
    if e.time in Times(s) then
      var k := IndexOf(s, e.time);
      var r := s[k := e];
      forall x | x in s ensures x.time in Times(r) {
        var j :| 0 <= j < |s| && s[j] == x;
        assert r[j].time == x.time && r[j] in r;
      }
      forall x | x in r ensures x.time in Times(s) {
        var j :| 0 <= j < |r| && r[j] == x;
        assert s[j].time == x.time && s[j] in s;
      }
      r
    else
      assert forall x :: x in s + [e] ==> x == e || x in s;
      s + [e]
  }

  /** Where a timestamp sits in a map with distinct timestamps, `map[key]` finds its
      price. */
  lemma {:induction false} LookupAt(s: seq<Entry>, i: nat)
    requires UniqueTimes(s) && i < |s|
    ensures Lookup(s, s[i].time) == Some(s[i].price)
  {
    if i > 0 {
      LookupAt(s[1..], i - 1);
    }
  }

  /** In a map with distinct timestamps, `keys.indexOf(key)` is the key's position. */
  lemma {:induction false} IndexOfAt(s: seq<Entry>, i: nat)
    requires UniqueTimes(s) && i < |s|
    ensures s[i].time in Times(s) && IndexOf(s, s[i].time) == i
  {
    assert s[i] in s;
    if i > 0 {
      assert s[1..][i - 1] == s[i];
      IndexOfAt(s[1..], i - 1);
    }
  }

  /** A loop of `map[date] = price` over `es`, starting from `acc`. */
  function PutAll(acc: seq<Entry>, es: seq<Entry>): (r: seq<Entry>)
    requires UniqueTimes(acc)
    ensures UniqueTimes(r)
    ensures Times(r) == Times(acc) + Times(es)
    decreases |es|
  {
    if es == [] then acc
    else
      assert Times(es) == {es[0].time} + Times(es[1..]) by {
        assert forall x :: x in es ==> x == es[0] || x in es[1..];
      }
      PutAll(Put(acc, es[0]), es[1..])
  }

  /** The price written last for timestamp `t` in `es`, if any. */
  function LastWrite(es: seq<Entry>, t: int): (r: Option<real>)
    ensures r.Some? <==> exists i :: 0 <= i < |es| && es[i].time == t
    ensures r.Some? ==> exists i :: 0 <= i < |es| && es[i] == Entry(t, r.value) &&
                                    forall j :: i < j < |es| ==> es[j].time != t
  {
    if es == [] then None
    else
      var rest := LastWrite(es[1..], t);
      if rest.Some? then
        var i :| 0 <= i < |es[1..]| && es[1..][i] == Entry(t, rest.value) &&
                 forall j :: i < j < |es[1..]| ==> es[1..][j].time != t;
        assert es[i + 1] == Entry(t, rest.value);
        rest
      else if es[0].time == t then Some(es[0].price)
      else None
  }

  lemma LookupPut(s: seq<Entry>, e: Entry, t: int)
    requires UniqueTimes(s)
    ensures Lookup(Put(s, e), t) == if t == e.time then Some(e.price) else Lookup(s, t)
  {
    var r := Put(s, e);
    if t == e.time {
      if e.time in Times(s) {
        LookupAt(r, IndexOf(s, e.time));
      } else {
        LookupAt(r, |s|);
      }
    } else if t in Times(s) {
      var k := IndexOf(s, t);
      assert r[k] == s[k];
      LookupAt(r, k);
      LookupAt(s, k);
    }
  }

  /** Last write wins: the map built by writing `es` in order holds, for every
      timestamp written, the price written last, and is otherwise `acc`. */
  lemma {:induction false} LookupPutAll(acc: seq<Entry>, es: seq<Entry>, t: int)
    requires UniqueTimes(acc)
    ensures Lookup(PutAll(acc, es), t) == if LastWrite(es, t).Some? then LastWrite(es, t) else Lookup(acc, t)
    decreases |es|
  {
    if es != [] {
      LookupPutAll(Put(acc, es[0]), es[1..], t);
      LookupPut(acc, es[0], t);
    }
  }

  /** One step of the fold: the first entry is written, then the rest. */
  lemma PutAllCons(acc: seq<Entry>, e: Entry, rest: seq<Entry>)
    requires UniqueTimes(acc)
    ensures PutAll(acc, [e] + rest) == PutAll(Put(acc, e), rest)
  {
    assert ([e] + rest)[1..] == rest;
  }

  /** Writing entries with fresh, distinct timestamps appends them in order. */
  lemma {:induction false} PutAllFresh(acc: seq<Entry>, es: seq<Entry>)
    requires UniqueTimes(acc) && UniqueTimes(acc + es)
    ensures PutAll(acc, es) == acc + es
    decreases |es|
  {
    if es != [] {
      assert es[0].time !in Times(acc) by {
        forall x | x in acc ensures x.time != es[0].time {
          var i :| 0 <= i < |acc| && acc[i] == x;
          assert (acc + es)[i] == x && (acc + es)[|acc|] == es[0];
        }
      }
      assert Put(acc, es[0]) == acc + [es[0]];
      assert (acc + [es[0]]) + es[1..] == acc + es;
      assert UniqueTimes(acc + [es[0]]) by {
        var a := acc + [es[0]];
        forall i, j | 0 <= i < j < |a| ensures a[i].time != a[j].time {
          assert a[i] == (acc + es)[i] && a[j] == (acc + es)[j];
        }
      }
      PutAllFresh(acc + [es[0]], es[1..]);
    }
  }

  /** Keeps, in order, the entries that satisfy `p` (`filter`, `removeIf` of the complement). */
  function Filter(s: seq<Entry>, p: Entry -> bool): (r: seq<Entry>)
    ensures forall x :: x in r <==> x in s && p(x)
    ensures |r| <= |s|
    ensures Chronological(s) ==> Chronological(r)
    ensures UniqueTimes(s) ==> UniqueTimes(r)
  {
    if s == [] then []
    else
      var tail := Filter(s[1..], p);
      assert forall x :: x in s <==> x == s[0] || x in s[1..];
      if p(s[0]) then
        FilterConsOrdered(s, tail);
        [s[0]] + tail
      else tail
  }
  /** Nothing passes the test: nothing is kept. */
  lemma {:induction false} FilterNone(s: seq<Entry>, p: Entry -> bool)
    requires forall x :: x in s ==> !p(x)
    ensures Filter(s, p) == []
  {
    if s != [] {
      assert s[0] in s;
      FilterNone(s[1..], p);
    }
  }


  lemma FilterConsOrdered(s: seq<Entry>, tail: seq<Entry>)
    requires s != []
    requires forall x :: x in tail ==> x in s[1..]
    requires Chronological(s) ==> Chronological(tail)
    requires UniqueTimes(s) ==> UniqueTimes(tail)
    ensures Chronological(s) ==> Chronological([s[0]] + tail)
    ensures UniqueTimes(s) ==> UniqueTimes([s[0]] + tail)
  {
    var r := [s[0]] + tail;
    forall k | 0 <= k < |tail|
      ensures exists m :: 1 <= m < |s| && s[m] == tail[k]
    {
      assert tail[k] in s[1..];
      var m :| 0 <= m < |s[1..]| && s[1..][m] == tail[k];
      assert s[m + 1] == tail[k];
    }
    if Chronological(s) {
      forall i, j | 0 <= i < j < |r| ensures r[i].time < r[j].time {
        if i > 0 {
          assert r[i] == tail[i - 1] && r[j] == tail[j - 1];
        } else {
          var m :| 1 <= m < |s| && s[m] == tail[j - 1];
        }
      }
    }
    if UniqueTimes(s) {
      forall i, j | 0 <= i < j < |r| ensures r[i].time != r[j].time {
        if i > 0 {
          assert r[i] == tail[i - 1] && r[j] == tail[j - 1];
        } else {
          var m :| 1 <= m < |s| && s[m] == tail[j - 1];
        }
      }
    }
  }

  /** Filtering distributes over concatenation: kept entries stay in their relative order. */
  lemma {:induction false} FilterAppend(a: seq<Entry>, b: seq<Entry>, p: Entry -> bool)
    ensures Filter(a + b, p) == Filter(a, p) + Filter(b, p)
  {
    if a == [] {
      assert a + b == b;
    } else {
      var ab := a + b;
      assert ab[0] == a[0] && ab[1..] == a[1..] + b;
      FilterAppend(a[1..], b, p);
      var x := Filter(a[1..], p);
      var y := Filter(b, p);
      if p(a[0]) {
        calc {
          Filter(ab, p);
          [a[0]] + Filter(ab[1..], p);
          [a[0]] + (x + y);
          { assert [a[0]] + (x + y) == ([a[0]] + x) + y; }
          ([a[0]] + x) + y;
          Filter(a, p) + y;
        }
      } else {
        calc {
          Filter(ab, p);
          Filter(ab[1..], p);
          x + y;
          Filter(a, p) + y;
        }
      }
    }
  }

  /** Filtering twice by the same condition is filtering once. */
  lemma {:induction false} FilterIdempotent(s: seq<Entry>, p: Entry -> bool)
    ensures Filter(Filter(s, p), p) == Filter(s, p)
  {
    if s != [] {
      FilterIdempotent(s[1..], p);
    }
  }

  /** Nothing to drop: filtering returns the sequence itself. */
  lemma {:induction false} FilterAll(s: seq<Entry>, p: Entry -> bool)
    requires forall x :: x in s ==> p(x)
    ensures Filter(s, p) == s
  {
    if s != [] {
      assert forall x :: x in s[1..] ==> p(x) by {
        assert forall x :: x in s[1..] ==> x in s;
      }
      FilterAll(s[1..], p);
      assert p(s[0]) by {
        assert s[0] in s;
      }
      assert Filter(s, p) == [s[0]] + s[1..];
      assert [s[0]] + s[1..] == s;
    }
  }

  /** The entries of `s` that belong to `sel`, in the order of `s`. */
  function Keep(s: seq<Entry>, sel: set<Entry>): (r: seq<Entry>)
    ensures forall x :: x in r <==> x in s && x in sel
    ensures |r| <= |s|
    ensures Chronological(s) ==> Chronological(r)
  {
    Filter(s, x => x in sel)
  }

  function Elements(s: seq<Entry>): set<Entry> {
    set x | x in s
  }

  /** The first `n` entries (`take(n)`). */
  function Take(s: seq<Entry>, n: nat): (r: seq<Entry>)
    ensures |r| == if n <= |s| then n else |s|
    ensures forall k :: 0 <= k < |r| ==> r[k] == s[k]
  {
    if n <= |s| then s[..n] else s
  }

  /** An entry with unique timestamps appears once, so a sequence of them counts as its set. */
  lemma {:induction false} DistinctSize(s: seq<Entry>)
    requires UniqueTimes(s)
    ensures |Elements(s)| == |s|
  {
    if s != [] {
      DistinctSize(s[1..]);
      assert Elements(s) == {s[0]} + Elements(s[1..]) by {
        assert forall x :: x in s ==> x == s[0] || x in s[1..];
      }
      assert s[0] !in Elements(s[1..]) by {
        forall k | 0 <= k < |s[1..]| ensures s[1..][k] != s[0] {
          assert s[k + 1].time != s[0].time;
        }
      }
    }
  }

  lemma SubsetSize<T>(a: set<T>, b: set<T>)
    requires a <= b
    ensures |a| <= |b|
  {
    assert b == a + (b - a);
  }

  /** A sequence has no more distinct entries than positions. */
  lemma {:induction false} ElementsSize(s: seq<Entry>)
    ensures |Elements(s)| <= |s|
  {
    if s != [] {
      ElementsSize(s[1..]);
      assert Elements(s) == {s[0]} + Elements(s[1..]) by {
        assert s == [s[0]] + s[1..];
      }
    }
  }

  /** Filtering a map's entries by a set keeps no more entries than the set has. */
  lemma KeepSize(s: seq<Entry>, sel: set<Entry>)
    requires UniqueTimes(s)
    ensures |Keep(s, sel)| <= |sel|
  {
    var r := Keep(s, sel);
    DistinctSize(r);
    SubsetSize(Elements(r), sel);
  }

  /** `sel` contains only entries of `s`, so filtering `s` by it recovers them all. */
  lemma KeepAll(s: seq<Entry>, sel: set<Entry>)
    requires UniqueTimes(s)
    requires forall x :: x in sel ==> x in s
    ensures |Keep(s, sel)| == |sel|
  {
    var r := Keep(s, sel);
    DistinctSize(r);
    assert Elements(r) == sel;
  }

  /** Non-decreasing timestamps where equal timestamps are the same entry: a list of
      entries picked, possibly more than once, in order from a chronological one. */
  predicate Ascending(s: seq<Entry>) {
    forall i, j :: 0 <= i < j < |s| ==> s[i].time <= s[j].time && (s[i].time == s[j].time ==> s[i] == s[j])
  }

  /** The map `acc` ends no later than the list `es` begins, and a shared timestamp is
      the same entry. */
  predicate Follows(acc: seq<Entry>, es: seq<Entry>) {
    acc == [] || es == [] ||
    (acc[|acc| - 1].time <= es[0].time && (acc[|acc| - 1].time == es[0].time ==> acc[|acc| - 1] == es[0]))
  }

  /** An entry whose timestamp is already in the map is its last entry: the write changes nothing. */
  lemma PutRepeat(acc: seq<Entry>, e: Entry)
    requires Chronological(acc) && Follows(acc, [e]) && e.time in Times(acc)
    ensures UniqueTimes(acc) && Put(acc, e) == acc && acc[|acc| - 1] == e
  {
    ChronologicalUnique(acc);
    var x :| x in acc && x.time == e.time;
    var i :| 0 <= i < |acc| && acc[i] == x;
    var last := |acc| - 1;
    assert [e][0] == e;
    assert i == last;
    assert acc[last] == e;
    assert acc[last := e] == acc;
  }

  /** A new, later timestamp is appended. */
  lemma PutNew(acc: seq<Entry>, e: Entry)
    requires Chronological(acc) && Follows(acc, [e]) && e.time !in Times(acc)
    ensures UniqueTimes(acc) && Put(acc, e) == acc + [e] && Chronological(acc + [e])
  {
    ChronologicalUnique(acc);
    forall k | 0 <= k < |acc| ensures acc[k].time < e.time {
      assert acc[k] in acc;
      assert acc[k].time <= acc[|acc| - 1].time;
    }
  }

  lemma ElementsAppend(acc: seq<Entry>, e: Entry)
    ensures Elements(acc + [e]) == Elements(acc) + {e}
  {
    assert forall x :: x in acc + [e] <==> x in acc || x == e;
  }

  /** One write of such an entry keeps the map chronological, adds just that entry and
      leaves it last. */
  lemma PutLatest(acc: seq<Entry>, e: Entry)
    requires Chronological(acc) && Follows(acc, [e])
    ensures UniqueTimes(acc)
    ensures Chronological(Put(acc, e)) && Put(acc, e) != [] && Put(acc, e)[|Put(acc, e)| - 1] == e
    ensures Elements(Put(acc, e)) == Elements(acc) + {e}
  {
    if e.time in Times(acc) {
      PutRepeat(acc, e);
      assert acc[|acc| - 1] in acc;
    } else {
      PutNew(acc, e);
      ElementsAppend(acc, e);
    }
  }

  lemma AscendingTail(es: seq<Entry>)
    requires es != [] && Ascending(es)
    ensures Ascending(es[1..])
    ensures forall acc :: acc != [] && acc[|acc| - 1] == es[0] ==> Follows(acc, es[1..])
  {
    assert |es| > 1 ==> es[1..][0] == es[1];
    forall i, j | 0 <= i < j < |es[1..]|
      ensures es[1..][i].time <= es[1..][j].time && (es[1..][i].time == es[1..][j].time ==> es[1..][i] == es[1..][j])
    {
      assert es[1..][i] == es[i + 1] && es[1..][j] == es[j + 1];
    }
  }

  lemma ElementsCons(es: seq<Entry>)
    requires es != []
    ensures Elements(es) == {es[0]} + Elements(es[1..])
  {
    assert es == [es[0]] + es[1..];
  }

  /** Writing such a list into a chronological map that ends no later than it begins
      collapses the repeats: the map stays chronological and holds the entries of both. */
  lemma {:induction false} PutAllAscending(acc: seq<Entry>, es: seq<Entry>)
    requires Chronological(acc) && Ascending(es) && Follows(acc, es)
    ensures UniqueTimes(acc)
    ensures Chronological(PutAll(acc, es))
    ensures Elements(PutAll(acc, es)) == Elements(acc) + Elements(es)
    decreases |es|
  {
    ChronologicalUnique(acc);
    if es != [] {
      var e := es[0];
      PutLatest(acc, e);
      AscendingTail(es);
      ElementsCons(es);
      PutAllAscending(Put(acc, e), es[1..]);
    }
  }

  // ---- Sorting by timestamp (`sortedBy { it.key }`) ----

  function Insert(s: seq<Entry>, e: Entry): (r: seq<Entry>)
    requires Chronological(s)
    requires e.time !in Times(s)
    ensures Chronological(r)
    ensures |r| == |s| + 1
    ensures Elements(r) == Elements(s) + {e}
  {
    if s == [] then [e]
    else if e.time < s[0].time then
      InsertFront(s, e);
      [e] + s
    else
      assert e.time != s[0].time;
      assert e.time !in Times(s[1..]) by {
        assert forall x :: x in s[1..] ==> x in s;
      }
      var tail := Insert(s[1..], e);
      InsertCons(s, e, tail);
      [s[0]] + tail
  }

  lemma InsertFront(s: seq<Entry>, e: Entry)
    requires Chronological(s) && s != [] && e.time < s[0].time
    ensures Chronological([e] + s)
    ensures Elements([e] + s) == Elements(s) + {e}
  {
    forall k | 0 <= k < |s| ensures e.time < s[k].time {
      assert s[0].time <= s[k].time;
    }
  }

  /** Every entry after the first of a chronological sequence is later than the first. */
  lemma InsertConsLater(s: seq<Entry>, e: Entry, tail: seq<Entry>)
    requires Chronological(s) && s != [] && s[0].time < e.time
    requires Elements(tail) == Elements(s[1..]) + {e}
    ensures forall x :: x in tail ==> s[0].time < x.time
  {
    forall x | x in tail ensures s[0].time < x.time {
      assert x in Elements(tail);
      if x != e {
        assert x in Elements(s[1..]);
        var m :| 0 <= m < |s[1..]| && s[1..][m] == x;
        assert s[m + 1] == x;
      }
    }
  }

  lemma InsertCons(s: seq<Entry>, e: Entry, tail: seq<Entry>)
    requires Chronological(s) && s != [] && s[0].time < e.time
    requires Chronological(tail)
    requires Elements(tail) == Elements(s[1..]) + {e}
    ensures Chronological([s[0]] + tail)
    ensures Elements([s[0]] + tail) == Elements(s) + {e}
  {
    assert Elements(s) == {s[0]} + Elements(s[1..]) by {
      assert s == [s[0]] + s[1..];
    }
    assert Elements([s[0]] + tail) == {s[0]} + Elements(tail) by {
      assert forall x :: x in [s[0]] + tail <==> x == s[0] || x in tail;
    }
    InsertConsLater(s, e, tail);
    var r := [s[0]] + tail;
    forall i, j | 0 <= i < j < |r| ensures r[i].time < r[j].time {
      assert r[j] == tail[j - 1];
      if i > 0 {
        assert r[i] == tail[i - 1];
      } else {
        assert tail[j - 1] in tail;
      }
    }
  }

  lemma SameElementsSameTimes(a: seq<Entry>, b: seq<Entry>)
    requires Elements(a) == Elements(b)
    ensures Times(a) == Times(b)
  {
    assert forall x :: x in a <==> x in Elements(a);
    assert forall x :: x in b <==> x in Elements(b);
  }

  /** The map's entries sorted by timestamp: chronological, and the same entries as `s`. */
  function SortByTime(s: seq<Entry>): (r: seq<Entry>)
    requires UniqueTimes(s)
    ensures Chronological(r)
    ensures |r| == |s|
    ensures Elements(r) == Elements(s)
  {
    if s == [] then []
    else
      var init := s[..|s| - 1];
      var last := s[|s| - 1];
      assert s == init + [last];
      assert Elements(s) == Elements(init) + {last};
      var sortedInit := SortByTime(init);
      SameElementsSameTimes(sortedInit, init);
      assert last.time !in Times(init);
      Insert(sortedInit, last)
  }

  lemma ChronologicalUnique(s: seq<Entry>)
    requires Chronological(s)
    ensures UniqueTimes(s)
  {
  }

  /** In a chronological sequence the head is the one entry of least timestamp. */
  lemma HeadLeast(a: seq<Entry>, x: Entry)
    requires Chronological(a) && x in a
    ensures a[0].time <= x.time
    ensures x.time == a[0].time ==> x == a[0]
  {
    var i :| 0 <= i < |a| && a[i] == x;
  }

  /** Dropping the head of a chronological sequence drops exactly that entry. */
  lemma TailElements(a: seq<Entry>)
    requires Chronological(a) && a != []
    ensures Elements(a[1..]) == Elements(a) - {a[0]}
  {
    assert a == [a[0]] + a[1..];
    forall x | x in a[1..] ensures x != a[0] {
      var i :| 0 <= i < |a[1..]| && a[1..][i] == x;
      assert a[i + 1] == x;
    }
  }

  /** Sorting a set of entries by timestamp has one outcome: two chronological sequences
      holding the same entries are equal. */
  lemma {:induction false} ChronologicalSame(a: seq<Entry>, b: seq<Entry>)
    requires Chronological(a) && Chronological(b) && Elements(a) == Elements(b)
    ensures a == b
    decreases |a|
  {
    assert |b| > 0 ==> b[0] in Elements(b);
    assert |b| > 0 ==> b[0] in a;
    if a != [] {
      assert a[0] in Elements(a);
      assert b != [];
      assert b[0] in Elements(b);
      HeadLeast(a, b[0]);
      HeadLeast(b, a[0]);
      TailElements(a);
      TailElements(b);
      ChronologicalSame(a[1..], b[1..]);
      assert a == [a[0]] + a[1..] && b == [b[0]] + b[1..];
    }
  }

  // ---- Extremes (`maxOrNull()`, `minOrNull()`, `maxByOrNull`, `minByOrNull`) ----

  function MaxPrice(s: seq<Entry>): (m: real)
    requires s != []
    ensures forall x :: x in s ==> x.price <= m
    ensures exists x :: x in s && x.price == m
  {
    if |s| == 1 then s[0].price
    else
      var rest := MaxPrice(s[1..]);
      assert forall x :: x in s ==> x == s[0] || x in s[1..];
      if s[0].price >= rest then s[0].price else rest
  }

  function MinPrice(s: seq<Entry>): (m: real)
    requires s != []
    ensures forall x :: x in s ==> m <= x.price
    ensures exists x :: x in s && x.price == m
  {
    if |s| == 1 then s[0].price
    else
      var rest := MinPrice(s[1..]);
      assert forall x :: x in s ==> x == s[0] || x in s[1..];
      if s[0].price <= rest then s[0].price else rest
  }

  /** The highest and lowest prices depend only on which entries there are. */
  lemma ExtremesSameElements(a: seq<Entry>, b: seq<Entry>)
    requires a != [] && forall x :: x in a <==> x in b
    ensures b != []
    ensures MaxPrice(a) == MaxPrice(b) && MinPrice(a) == MinPrice(b)
  {
    assert a[0] in b;
  }

  /** `values.maxOrNull() ?: 0.0` */
  function MaxOrZero(s: seq<Entry>): real {
    if s == [] then 0.0 else MaxPrice(s)
  }

  /** `values.minOrNull() ?: 0.0` */
  function MinOrZero(s: seq<Entry>): real {
    if s == [] then 0.0 else MinPrice(s)
  }

  /** Index of the earliest entry of highest price (`maxByOrNull` keeps the first maximum). */
  function FirstMaxIndex(s: seq<Entry>): (i: nat)
    requires s != []
    ensures i < |s|
    ensures forall k :: 0 <= k < |s| ==> s[k].price <= s[i].price
    ensures forall k :: 0 <= k < i ==> s[k].price < s[i].price
  {
    if |s| == 1 then 0
    else
      var j := FirstMaxIndex(s[1..]);
      if s[0].price >= s[j + 1].price then 0 else j + 1
  }

  /** Index of the earliest entry of lowest price (`minByOrNull` keeps the first minimum). */
  function FirstMinIndex(s: seq<Entry>): (i: nat)
    requires s != []
    ensures i < |s|
    ensures forall k :: 0 <= k < |s| ==> s[i].price <= s[k].price
    ensures forall k :: 0 <= k < i ==> s[i].price < s[k].price
  {
    if |s| == 1 then 0
    else
      var j := FirstMinIndex(s[1..]);
      if s[0].price <= s[j + 1].price then 0 else j + 1
  }

  /** `maxByOrNull { it.value }` */
  function FirstMax(s: seq<Entry>): (r: Option<Entry>)
    ensures r.None? <==> s == []
    ensures r.Some? ==> r.value in s && forall x :: x in s ==> x.price <= r.value.price
  {
    if s == [] then None else Some(s[FirstMaxIndex(s)])
  }

  /** `minByOrNull { it.value }` */
  function FirstMin(s: seq<Entry>): (r: Option<Entry>)
    ensures r.None? <==> s == []
    ensures r.Some? ==> r.value in s && forall x :: x in s ==> r.value.price <= x.price
  {
    if s == [] then None else Some(s[FirstMinIndex(s)])
  }

  function OptionSet(o: Option<Entry>): (r: set<Entry>)
    ensures |r| <= 1
    ensures forall x :: x in r <==> o == Some(x)
  {
    if o.Some? then {o.value} else {}
  }

  lemma UnionSize(a: set<Entry>, b: set<Entry>)
    ensures |a + b| <= |a| + |b|
  {
    assert |a + b| + |a * b| == |a| + |b|;
  }

  /** Four optional entries make a set of at most four. */
  lemma OptionSetsSize(o1: Option<Entry>, o2: Option<Entry>, o3: Option<Entry>, o4: Option<Entry>)
    ensures |OptionSet(o1) + OptionSet(o2) + OptionSet(o3) + OptionSet(o4)| <= 4
  {
    var a, b, c, d := OptionSet(o1), OptionSet(o2), OptionSet(o3), OptionSet(o4);
    UnionSize(a, b);
    UnionSize(a + b, c);
    UnionSize(a + b + c, d);
  }

  /** An entry picked from a part of `s` is an entry of `s`. */
  lemma PickedIn(o: Option<Entry>, part: seq<Entry>, s: seq<Entry>)
    requires o.Some? ==> o.value in part
    requires forall x :: x in part ==> x in s
    ensures forall x :: x in OptionSet(o) ==> x in s
  {
  }

  // ---- Arithmetic of the power-law sampler ----

  /** Kotlin `Double.toInt()`: rounds toward zero. */
  function Trunc(x: real): int {
    if x >= 0.0 then x.Floor else -((-x).Floor)
  }

  /** `toInt()` keeps the integer part: the result is within one of `x`, on the side of zero. */
  lemma TruncBounds(x: real)
    ensures x >= 0.0 ==> Trunc(x) as real <= x < Trunc(x) as real + 1.0
    ensures x < 0.0 ==> Trunc(x) as real - 1.0 < x <= Trunc(x) as real
  {
  }

  /** `if (n == 1) 0.0 else i.toDouble() / (n - 1)` */
  function Fraction(i: nat, n: nat): (f: real)
    requires i < n
    ensures 0.0 <= f <= 1.0
    ensures i == 0 ==> f == 0.0
    ensures n > 1 && i == n - 1 ==> f == 1.0
  {
    if n == 1 then 0.0
    else
      assert i == n - 1 ==> (i as real) / ((n - 1) as real) == 1.0;
      (i as real) / ((n - 1) as real)
  }

  /** `c * k`, written as repeated addition so that reasoning about it stays linear. */
  function Scale(c: real, k: int): real
    decreases if k < 0 then -k else k
  {
    if k == 0 then 0.0
    else if k > 0 then Scale(c, k - 1) + c
    else Scale(c, k + 1) - c
  }

  /** `Scale` is the product. */
  lemma {:induction false} ScaleIsProduct(c: real, k: int)
    ensures Scale(c, k) == c * (k as real)
    decreases if k < 0 then -k else k
  {
    if k > 0 {
      ScaleIsProduct(c, k - 1);
      assert c * (k as real) == c * ((k - 1) as real) + c;
    } else if k < 0 {
      ScaleIsProduct(c, k + 1);
      assert c * (k as real) == c * ((k + 1) as real) - c;
    }
  }

  /** A fraction of a non-negative count lies between zero and the count. */
  lemma {:induction false} ScaleBounds(c: real, k: nat)
    requires 0.0 <= c <= 1.0
    ensures 0.0 <= Scale(c, k) <= k as real
  {
    if k > 0 {
      ScaleBounds(c, k - 1);
    }
  }

  lemma {:induction false} ScaleMonotone(c: real, d: real, k: nat)
    requires c <= d
    ensures Scale(c, k) <= Scale(d, k)
  {
    if k > 0 {
      ScaleMonotone(c, d, k - 1);
    }
  }

  lemma {:induction false} ScaleOne(k: nat)
    ensures Scale(1.0, k) == k as real
    ensures Scale(0.0, k) == 0.0
  {
    if k > 0 {
      ScaleOne(k - 1);
    }
  }

  lemma TruncMonotone(x: real, y: real)
    requires 0.0 <= x <= y
    ensures Trunc(x) <= Trunc(y)
  {
    TruncBounds(x);
    TruncBounds(y);
  }

  lemma FractionMonotone(i: nat, j: nat, n: nat)
    requires i <= j < n
    ensures Fraction(i, n) <= Fraction(j, n)
  {
    if n > 1 {
      var d := (n - 1) as real;
      assert (j as real) / d - (i as real) / d == ((j - i) as real) / d;
    }
  }

  /** The abstraction of `fraction.pow(1.8)`: a monotone map of [0, 1] onto itself fixing 0 and 1. */
  ghost predicate CurveOk(curve: real -> real) {
    && curve(0.0) == 0.0
    && curve(1.0) == 1.0
    && (forall x :: 0.0 <= x <= 1.0 ==> 0.0 <= curve(x) <= 1.0)
    && (forall x, y :: 0.0 <= x <= y <= 1.0 ==> curve(x) <= curve(y))
  }
}
