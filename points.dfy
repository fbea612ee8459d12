/** Entries of a target's sliding window and aggregate list, the filters applied to them,
    and the stable sort the server relies on (Array.prototype.sort, stable since ES2019). */
module Points {
  import opened Wrappers

  /** One entry of `recentData` (`{seq, rtt, timestamp}`, with `seq` as `seqNo`) or of `aggregatedData`
      (the same plus `aggregated: true`). The RTT is a float in the server; here only
      whether it is present matters, and a present one is a real number. */
  datatype Point = Point(seqNo: int, rtt: Option<real>, timestamp: int, aggregated: bool)

  /** JavaScript truthiness of a number: only 0 is falsy. */
  predicate Truthy(n: int) {
    n != 0
  }

  // ---------------------------------------------------------------------------
  // Window filters
  // ---------------------------------------------------------------------------

  /** The predicate `!p.timestamp || p.timestamp >= cutoff` of every eviction. */
  predicate Kept(p: Point, cutoff: int) {
    !Truthy(p.timestamp) || p.timestamp >= cutoff
  }

  /** `s.filter(p => !p.timestamp || p.timestamp >= cutoff)`. */
  function Retain(s: seq<Point>, cutoff: int): (r: seq<Point>)
    ensures |r| <= |s|
    ensures forall i :: 0 <= i < |r| ==> Kept(r[i], cutoff)
  {
    if s == [] then [] else (if Kept(s[0], cutoff) then [s[0]] else []) + Retain(s[1..], cutoff)
  }

  /** The predicate `p.timestamp && p.timestamp >= lo && p.timestamp < hi` that picks
      the points of one aggregation interval. */
  predicate InSpan(p: Point, lo: int, hi: int) {
    Truthy(p.timestamp) && lo <= p.timestamp < hi
  }

  /** `s.filter(p => p.timestamp && p.timestamp >= lo && p.timestamp < hi)`. */
  function Select(s: seq<Point>, lo: int, hi: int): (r: seq<Point>)
    ensures |r| <= |s|
    ensures forall i :: 0 <= i < |r| ==> InSpan(r[i], lo, hi)
  {
    if s == [] then [] else (if InSpan(s[0], lo, hi) then [s[0]] else []) + Select(s[1..], lo, hi)
  }

  /** Exactly the points of `s` that pass the eviction test survive it. */
  lemma {:induction false} RetainMembers(s: seq<Point>, cutoff: int)
    ensures forall p :: p in Retain(s, cutoff) <==> p in s && Kept(p, cutoff)
  {
    if s != [] {
      RetainMembers(s[1..], cutoff);
      assert s == [s[0]] + s[1..];
    }
  }

  /** Eviction keeps the survivors in their original order: it distributes over `+`. */
  lemma {:induction false} RetainAppend(a: seq<Point>, b: seq<Point>, cutoff: int)
    ensures Retain(a + b, cutoff) == Retain(a, cutoff) + Retain(b, cutoff)
  {
    if a == [] {
      assert a + b == b;
    } else {
      var h := if Kept(a[0], cutoff) then [a[0]] else [];
      assert (a + b)[0] == a[0];
      assert (a + b)[1..] == a[1..] + b;
      assert Retain(a + b, cutoff) == h + Retain(a[1..] + b, cutoff);
      RetainAppend(a[1..], b, cutoff);
      assert Retain(a, cutoff) == h + Retain(a[1..], cutoff);
    }
  }

  /** A window every point of which passes the test is left as it is. */
  lemma {:induction false} RetainAllKept(s: seq<Point>, cutoff: int)
    requires forall i :: 0 <= i < |s| ==> Kept(s[i], cutoff)
    ensures Retain(s, cutoff) == s
  {
    if s != [] {
      RetainAllKept(s[1..], cutoff);
    }
  }

  /** After an eviction every timestamped point is at or after the cutoff. */
  lemma RetainBound(s: seq<Point>, cutoff: int)
    ensures forall p :: p in Retain(s, cutoff) && Truthy(p.timestamp) ==> p.timestamp >= cutoff
  {
    RetainMembers(s, cutoff);
  }

  /** Evicting twice with the same cutoff is evicting once. */
  lemma RetainIdempotent(s: seq<Point>, cutoff: int)
    ensures Retain(Retain(s, cutoff), cutoff) == Retain(s, cutoff)
  {
    var r := Retain(s, cutoff);
    RetainMembers(s, cutoff);
    forall i | 0 <= i < |r| ensures Kept(r[i], cutoff) {
      assert r[i] in r;
    }
    RetainAllKept(r, cutoff);
  }

  /** Exactly the points of `s` inside `[lo, hi)` with a truthy timestamp are selected. */
  lemma {:induction false} SelectMembers(s: seq<Point>, lo: int, hi: int)
    ensures forall p :: p in Select(s, lo, hi) <==> p in s && InSpan(p, lo, hi)
  {
    if s != [] {
      SelectMembers(s[1..], lo, hi);
      assert s == [s[0]] + s[1..];
    }
  }

  /** A list lying wholly inside `[lo, hi)` is selected as a whole. */
  lemma {:induction false} SelectAllInSpan(s: seq<Point>, lo: int, hi: int)
    requires forall i :: 0 <= i < |s| ==> InSpan(s[i], lo, hi)
    ensures Select(s, lo, hi) == s
  {
    if s != [] {
      SelectAllInSpan(s[1..], lo, hi);
    }
  }

  /** Once the window has been cut at `hi`, nothing of an interval ending at `hi` is left. */
  lemma SelectAfterRetain(s: seq<Point>, lo: int, hi: int)
    ensures Select(Retain(s, hi), lo, hi) == []
  {
    var r := Retain(s, hi);
    RetainMembers(s, hi);
    SelectMembers(r, lo, hi);
    if Select(r, lo, hi) != [] {
      assert Select(r, lo, hi)[0] in Select(r, lo, hi);
    }
  }

  // ---------------------------------------------------------------------------
  // RTT values
  // ---------------------------------------------------------------------------

  /** `s.filter(p => p.rtt !== null && p.rtt !== undefined).map(p => p.rtt)`. */
  function PresentRtts(s: seq<Point>): (r: seq<real>)
    ensures |r| <= |s|
    ensures |r| == 0 <==> forall i :: 0 <= i < |s| ==> s[i].rtt.None?
  {
    if s == [] then []
    else
      var rest := PresentRtts(s[1..]);
      assert forall i :: 1 <= i < |s| ==> s[i] == s[1..][i - 1];
      (if s[0].rtt.Some? then [s[0].rtt.value] else []) + rest
  }

  function Sum(xs: seq<real>): real {
    if xs == [] then 0.0 else xs[0] + Sum(xs[1..])
  }

  /** The arithmetic mean, `xs.reduce((a, b) => a + b, 0) / xs.length`, over the reals. */
  function Mean(xs: seq<real>): (r: real)
    requires |xs| > 0
    ensures r * (|xs| as real) == Sum(xs)
  {
    Sum(xs) / (|xs| as real)
  }

  // ---------------------------------------------------------------------------
  // Stable sort
  // ---------------------------------------------------------------------------

  /** The two comparators the server hands to `sort`. */
  datatype Order =
    | ByTimestamp   // `(a, b) => a.timestamp - b.timestamp`
    | HistoryOrder  // timestamps when both are truthy, otherwise `a.seqNo - b.seqNo`

  /** Both comparators order two points with truthy timestamps by timestamp. */
  function Compare(o: Order, a: Point, b: Point): (r: int)
    ensures Truthy(a.timestamp) && Truthy(b.timestamp) ==> r == a.timestamp - b.timestamp
  {
    match o
    case ByTimestamp => a.timestamp - b.timestamp
    case HistoryOrder =>
      if Truthy(a.timestamp) && Truthy(b.timestamp) then a.timestamp - b.timestamp else a.seqNo - b.seqNo
  }

  /** The history comparator is not a consistent order once a timestamp is 0: three
      points can each compare below the next, round in a cycle. Then no arrangement is
      sorted and what `sort` returns depends on its algorithm. */
  lemma HistoryOrderCycle()
    ensures exists a: Point, b: Point, c: Point ::
      && Compare(HistoryOrder, a, b) < 0
      && Compare(HistoryOrder, b, c) < 0
      && Compare(HistoryOrder, c, a) < 0
  {
    var a := Point(1, None, 2, false);
    var b := Point(2, None, 0, false);
    var c := Point(3, None, 1, false);
    assert Compare(HistoryOrder, a, b) < 0;
    assert Compare(HistoryOrder, b, c) < 0;
    assert Compare(HistoryOrder, c, a) < 0;
  }

  /** Puts `x` just before the first element of `t` that compares greater than it. */
  function Insert(o: Order, x: Point, t: seq<Point>): (r: seq<Point>)
    ensures multiset(r) == multiset(t) + multiset{x}
  {
    if t == [] then [x]
    else if Compare(o, x, t[0]) < 0 then [x] + t
    else
      assert t == [t[0]] + t[1..];
      [t[0]] + Insert(o, x, t[1..])
  }

  /** Stable insertion sort: every element goes after the earlier ones it does not precede. */
  function Sort(o: Order, s: seq<Point>): (r: seq<Point>)
    ensures multiset(r) == multiset(s)
  {
    if s == [] then []
    else
      assert s == s[..|s| - 1] + [s[|s| - 1]];
      Insert(o, s[|s| - 1], Sort(o, s[..|s| - 1]))
  }

  predicate SortedByTimestamp(s: seq<Point>) {
    forall i, j :: 0 <= i < j < |s| ==> s[i].timestamp <= s[j].timestamp
  }

  /** Sorted with no timestamp twice: the shape of `aggregatedData`. */
  predicate StrictlySorted(s: seq<Point>) {
    forall i, j :: 0 <= i < j < |s| ==> s[i].timestamp < s[j].timestamp
  }

  /** The comparator is the timestamp difference on every pair drawn from `s`. */
  predicate ComparesTimestamps(o: Order, s: seq<Point>) {
    forall a, b :: a in s && b in s ==> Compare(o, a, b) == a.timestamp - b.timestamp
  }

  lemma SortedCons(h: Point, t: seq<Point>)
    requires SortedByTimestamp(t)
    requires forall e :: e in t ==> h.timestamp <= e.timestamp
    ensures SortedByTimestamp([h] + t)
  {
    var s := [h] + t;
    forall i, j | 0 <= i < j < |s| ensures s[i].timestamp <= s[j].timestamp {
      assert s[j] == t[j - 1];
      if i > 0 {
        assert s[i] == t[i - 1];
      } else {
        assert t[j - 1] in t;
      }
    }
  }

  lemma {:induction false} InsertSorted(o: Order, x: Point, t: seq<Point>)
    requires SortedByTimestamp(t)
    requires forall e :: e in t ==> Compare(o, x, e) == x.timestamp - e.timestamp
    ensures SortedByTimestamp(Insert(o, x, t))
  {
    if t == [] {
    } else if Compare(o, x, t[0]) < 0 {
      assert t[0] in t;
      forall e | e in t ensures x.timestamp <= e.timestamp {
        var k :| 0 <= k < |t| && t[k] == e;
        assert t[0].timestamp <= t[k].timestamp;
      }
      SortedCons(x, t);
    } else {
      assert t[0] in t;
      assert forall e :: e in t[1..] ==> e in t;
      InsertSorted(o, x, t[1..]);
      var r := Insert(o, x, t[1..]);
      forall e | e in r ensures t[0].timestamp <= e.timestamp {
        assert e in multiset(r);
        if e != x {
          assert e in multiset(t[1..]);
          var k :| 0 <= k < |t[1..]| && t[1..][k] == e;
          assert t[k + 1] == e;
        }
      }
      SortedCons(t[0], r);
    }
  }

  /** Sorting with a comparator that agrees with the timestamps sorts by timestamp. */
  lemma {:induction false} SortSorted(o: Order, s: seq<Point>)
    requires ComparesTimestamps(o, s)
    ensures SortedByTimestamp(Sort(o, s))
  {
    if s != [] {
      var init := s[..|s| - 1];
      assert forall e :: e in init ==> e in s;
      SortSorted(o, init);
      var t := Sort(o, init);
      forall e | e in t
        ensures Compare(o, s[|s| - 1], e) == s[|s| - 1].timestamp - e.timestamp
      {
        assert e in multiset(init);
        assert e in s;
      }
      InsertSorted(o, s[|s| - 1], t);
    }
  }

  lemma {:induction false} InsertAtEnd(o: Order, x: Point, t: seq<Point>)
    requires forall e :: e in t ==> Compare(o, x, e) >= 0
    ensures Insert(o, x, t) == t + [x]
  {
    if t != [] {
      var h, tl := t[0], t[1..];
      assert t == [h] + tl;
      assert Compare(o, x, h) >= 0 by { assert h in t; }
      forall e | e in tl ensures Compare(o, x, e) >= 0 {
        assert e in t;
      }
      InsertAtEnd(o, x, tl);
      assert Insert(o, x, t) == [h] + (tl + [x]);
    }
  }

  lemma SortedPrefix(s: seq<Point>, n: nat)
    requires SortedByTimestamp(s) && n <= |s|
    ensures SortedByTimestamp(s[..n])
  {
    var init := s[..n];
    forall i, j | 0 <= i < j < |init| ensures init[i].timestamp <= init[j].timestamp {
      assert init[i] == s[i] && init[j] == s[j];
    }
  }

  /** Sorting a list already in timestamp order changes nothing (the sort is stable). */
  lemma {:induction false} SortSortedIdentity(s: seq<Point>)
    requires SortedByTimestamp(s)
    ensures Sort(ByTimestamp, s) == s
  {
    if s != [] {
      var n := |s| - 1;
      var init, x := s[..n], s[n];
      assert s == init + [x];
      SortedPrefix(s, n);
      SortSortedIdentity(init);
      LastIsLatest(s);
      InsertAtEnd(ByTimestamp, x, init);
      calc {
        Sort(ByTimestamp, s);
        Insert(ByTimestamp, x, Sort(ByTimestamp, init));
        Insert(ByTimestamp, x, init);
        init + [x];
      }
    }
  }

  lemma LastIsLatest(s: seq<Point>)
    requires SortedByTimestamp(s) && s != []
    ensures var init := s[..|s| - 1]; forall e :: e in init ==> Compare(ByTimestamp, s[|s| - 1], e) >= 0
  {
    var init := s[..|s| - 1];
    forall e | e in init ensures Compare(ByTimestamp, s[|s| - 1], e) >= 0 {
      var k :| 0 <= k < |init| && init[k] == e;
      assert s[k] == e;
    }
  }

  /** Inserting a fresh timestamp into a strictly sorted list keeps it strictly sorted. */
  lemma {:induction false} InsertStrictlySorted(x: Point, t: seq<Point>)
    requires StrictlySorted(t)
    requires forall i :: 0 <= i < |t| ==> t[i].timestamp != x.timestamp
    ensures StrictlySorted(Insert(ByTimestamp, x, t))
  {
    if t == [] {
    } else if Compare(ByTimestamp, x, t[0]) < 0 {
      forall e | e in t ensures x.timestamp < e.timestamp {
        var k :| 0 <= k < |t| && t[k] == e;
        assert t[0].timestamp <= t[k].timestamp;
      }
      ConsStrictlySorted(x, t);
    } else {
      assert t == [t[0]] + t[1..];
      InsertStrictlySorted(x, t[1..]);
      var rest := Insert(ByTimestamp, x, t[1..]);
      forall e | e in rest ensures t[0].timestamp < e.timestamp {
        assert e in multiset(rest);
        if e != x {
          assert e in multiset(t[1..]);
          var k :| 0 <= k < |t[1..]| && t[1..][k] == e;
          assert t[k + 1] == e;
        }
      }
      ConsStrictlySorted(t[0], rest);
    }
  }

  /** A head earlier than every element of a strictly sorted tail gives a strictly
      sorted list. */
  lemma ConsStrictlySorted(h: Point, t: seq<Point>)
    requires StrictlySorted(t)
    requires forall e :: e in t ==> h.timestamp < e.timestamp
    ensures StrictlySorted([h] + t)
  {
    var r := [h] + t;
    forall i, j | 0 <= i < j < |r| ensures r[i].timestamp < r[j].timestamp {
      assert r[j] == t[j - 1];
      if i > 0 {
        assert r[i] == t[i - 1];
      } else {
        assert t[j - 1] in t;
      }
    }
  }

  /** Appending a bucket with a timestamp not yet present and sorting keeps the list
      strictly sorted; this is how the aggregator avoids duplicate intervals. */
  lemma PushSortStrictlySorted(s: seq<Point>, x: Point)
    requires StrictlySorted(s)
    requires forall i :: 0 <= i < |s| ==> s[i].timestamp != x.timestamp
    ensures StrictlySorted(Sort(ByTimestamp, s + [x]))
    ensures |Sort(ByTimestamp, s + [x])| == |s| + 1
  {
    var s' := s + [x];
    assert s'[..|s'| - 1] == s;
    SortSortedIdentity(s);
    InsertStrictlySorted(x, s);
    assert multiset(Sort(ByTimestamp, s')) == multiset(s');
    assert |multiset(s')| == |s'|;
  }
}
