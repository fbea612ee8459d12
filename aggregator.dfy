/** One target's turn of `aggregateAndSave`: fold the points of the interval that just
    ended into a bucket, then cut the window at the current interval's start; and the
    combined history handed to a new viewer. */
module Aggregator {
  import opened Wrappers
  import opened Points
  import opened TargetLedger

  /** Ten minutes, in milliseconds. */
  const AggregationInterval: int := 10 * 60 * 1000

  /** `Math.floor(t / aggregationInterval) * aggregationInterval`: the start of the
      interval containing `t`. For a positive divisor Dafny's `/` rounds down, as
      `Math.floor` does. */
  function IntervalStart(t: int): (r: int)
    ensures r <= t < r + AggregationInterval
    ensures r % AggregationInterval == 0
  {
    (t / AggregationInterval) * AggregationInterval
  }

  /** The interval start is the only aligned point within one interval of `t`. */
  lemma IntervalStartUnique(t: int, r: int)
    requires r % AggregationInterval == 0 && r <= t < r + AggregationInterval
    ensures r == IntervalStart(t)
  {
    var q := r / AggregationInterval;
    assert r == q * AggregationInterval;
    var p := t / AggregationInterval;
    assert IntervalStart(t) == p * AggregationInterval;
  }

  /** `s.some(...)` followed by `s.findIndex(...)`: the first bucket with timestamp `t`. */
  function FindBucket(s: seq<Point>, t: int): (r: Option<nat>)
    ensures r.Some? ==> r.value < |s| && s[r.value].timestamp == t
    ensures r.Some? ==> forall j :: 0 <= j < r.value ==> s[j].timestamp != t
    ensures r.None? ==> forall j :: 0 <= j < |s| ==> s[j].timestamp != t
  {
    if s == [] then None
    else if s[0].timestamp == t then Some(0)
    else match FindBucket(s[1..], t)
      case Some(i) => Some(i + 1)
      case None => None
  }

  /** `rtt` of a bucket: the mean of the present values, `null` when there are none. */
  function MeanOrNull(xs: seq<real>): (r: Option<real>)
    ensures r.None? <==> |xs| == 0
  {
    if |xs| > 0 then Some(Mean(xs)) else None
  }

  /** JavaScript `a || b` on numbers. */
  function Or(a: int, b: int): (r: int)
    ensures r == a || r == b
    ensures Truthy(r) <==> Truthy(a) || Truthy(b)
  {
    if Truthy(a) then a else b
  }

  /** The bucket that replaces `existing`: its RTT, if any, counts as one more sample
      beside the batch's. */
  function MergedBucket(existing: Point, batch: seq<Point>, start: int): (b: Point)
    requires |batch| > 0
    ensures b.timestamp == start && b.aggregated
    ensures b.rtt.None? <==> existing.rtt.None? && forall i :: 0 <= i < |batch| ==> batch[i].rtt.None?
    ensures b.seqNo == if batch[0].seqNo != 0 then batch[0].seqNo else existing.seqNo
  {
    var prior := if existing.rtt.Some? then [existing.rtt.value] else [];
    Point(Or(batch[0].seqNo, existing.seqNo), MeanOrNull(prior + PresentRtts(batch)), start, true)
  }

  /** A new bucket: `seq` is `batch[0].seq || lastSeq || 0`, so a first seq of 0 falls
      through to the last known seq. */
  function NewBucket(batch: seq<Point>, lastSeq: Option<int>, start: int): (b: Point)
    requires |batch| > 0
    ensures b.timestamp == start && b.aggregated
    ensures b.rtt.None? <==> forall i :: 0 <= i < |batch| ==> batch[i].rtt.None?
    ensures b.seqNo == if batch[0].seqNo != 0 then batch[0].seqNo else lastSeq.GetOr(0)
  {
    var fallback := if lastSeq.Some? && Truthy(lastSeq.value) then lastSeq.value else 0;
    Point(Or(batch[0].seqNo, fallback), MeanOrNull(PresentRtts(batch)), start, true)
  }

  /** The bucket list after folding a non-empty batch for the interval at `start`: merged
      in place when a bucket for it exists, otherwise pushed and the list re-sorted. */
  function Fold(agg: seq<Point>, batch: seq<Point>, lastSeq: Option<int>, start: int): (r: seq<Point>)
    requires |batch| > 0
    ensures |r| == if FindBucket(agg, start).Some? then |agg| else |agg| + 1
    ensures exists i :: 0 <= i < |r| && r[i].timestamp == start
  {
    match FindBucket(agg, start)
    case Some(i) =>
      var r := agg[i := MergedBucket(agg[i], batch, start)];
      assert r[i].timestamp == start;
      r
    case None =>
      var b := NewBucket(batch, lastSeq, start);
      var r := Sort(ByTimestamp, agg + [b]);
      assert |r| == |multiset(r)| == |multiset(agg + [b])| == |agg| + 1;
      assert b in multiset(r);
      var i :| 0 <= i < |r| && r[i] == b;
      r
  }

  /** The loop body of `aggregateAndSave` for one target at time `now`. */
  function Aggregate(l: Ledger, now: int): (r: Ledger)
    ensures r.gaps == l.gaps && r.received == l.received && r.lost == l.lost
    ensures r.lastSeq == l.lastSeq && r.seqOffset == l.seqOffset
    ensures r.firstPingReceived == l.firstPingReceived
    ensures |r.recentData| <= |l.recentData|
    ensures |l.aggregatedData| <= |r.aggregatedData| <= |l.aggregatedData| + 1
  {
    var cur := IntervalStart(now);
    var prev := cur - AggregationInterval;
    var batch := Select(l.recentData, prev, cur);
    if |batch| == 0 then l.(recentData := Retain(l.recentData, cur))
    else
      l.(aggregatedData := Fold(l.aggregatedData, batch, l.lastSeq, prev),
         recentData := Retain(l.recentData, cur),
         lastAggregationTime := Some(prev))
  }

  /** The combined history: buckets and window concatenated, then sorted. */
  function CombinedHistory(l: Ledger): (r: seq<Point>)
    ensures multiset(r) == multiset(l.aggregatedData) + multiset(l.recentData)
    ensures |r| == |l.aggregatedData| + |l.recentData|
  {
    assert |multiset(l.aggregatedData + l.recentData)| == |l.aggregatedData + l.recentData|;
    Sort(HistoryOrder, l.aggregatedData + l.recentData)
  }

  // ---------------------------------------------------------------------------
  // Properties of a pass
  // ---------------------------------------------------------------------------

  /** A pass keeps exactly the window points without a timestamp or from the current
      interval on, drops every older one whether or not it was folded, and touches no
      counter, gap or sequence field. */
  lemma AggregateWindow(l: Ledger, now: int)
    ensures var r := Aggregate(l, now); var cur := IntervalStart(now);
      && r.recentData == Retain(l.recentData, cur)
      && (forall p :: p in r.recentData <==> p in l.recentData && Kept(p, cur))
      && r.gaps == l.gaps && r.received == l.received && r.lost == l.lost
      && r.lastSeq == l.lastSeq && r.seqOffset == l.seqOffset
      && r.firstPingReceived == l.firstPingReceived
  {
    RetainMembers(l.recentData, IntervalStart(now));
  }

  /** With nothing in the interval that just ended, the buckets and the aggregation time
      stay; otherwise the aggregation time becomes that interval's start. */
  lemma AggregateTime(l: Ledger, now: int)
    ensures var r := Aggregate(l, now); var cur := IntervalStart(now);
      var batch := Select(l.recentData, cur - AggregationInterval, cur);
      && (|batch| == 0 ==> r.aggregatedData == l.aggregatedData && r.lastAggregationTime == l.lastAggregationTime)
      && (|batch| > 0 ==> r.lastAggregationTime == Some(cur - AggregationInterval))
  {
  }

  /** A second pass with the same `now` finds nothing to fold and changes nothing. */
  lemma AggregateIdempotent(l: Ledger, now: int)
    ensures Aggregate(Aggregate(l, now), now) == Aggregate(l, now)
  {
    var cur := IntervalStart(now);
    var prev := cur - AggregationInterval;
    var r := Aggregate(l, now);
    AggregateWindow(l, now);
    SelectAfterRetain(l.recentData, prev, cur);
    QuietPass(r, now);
    RetainIdempotent(l.recentData, cur);
  }

  /** A pass over a window with nothing in the interval that just ended only cuts the
      window. */
  lemma QuietPass(l: Ledger, now: int)
    requires var cur := IntervalStart(now);
      |Select(l.recentData, cur - AggregationInterval, cur)| == 0
    ensures Aggregate(l, now) == l.(recentData := Retain(l.recentData, IntervalStart(now)))
  {
  }

  /** A pass that finds points of the interval that just ended folds them, cuts the
      window and records the interval's start. */
  lemma BusyPass(l: Ledger, now: int)
    requires var cur := IntervalStart(now);
      |Select(l.recentData, cur - AggregationInterval, cur)| > 0
    ensures var cur := IntervalStart(now); var prev := cur - AggregationInterval;
      Aggregate(l, now) ==
        l.(aggregatedData := Fold(l.aggregatedData, Select(l.recentData, prev, cur), l.lastSeq, prev),
           recentData := Retain(l.recentData, cur),
           lastAggregationTime := Some(prev))
  {
  }

  /** When a bucket for the interval exists, the one found first is replaced at its index
      and every other bucket stays; otherwise the new bucket is added to the list, which
      comes out sorted by timestamp. */
  lemma FoldShape(agg: seq<Point>, batch: seq<Point>, lastSeq: Option<int>, start: int)
    requires |batch| > 0
    ensures var r := Fold(agg, batch, lastSeq, start);
      match FindBucket(agg, start)
      case Some(i) =>
        |r| == |agg| && r[i] == MergedBucket(agg[i], batch, start)
        && forall j :: 0 <= j < |agg| && j != i ==> r[j] == agg[j]
      case None =>
        multiset(r) == multiset(agg) + multiset{NewBucket(batch, lastSeq, start)}
        && SortedByTimestamp(r)
  {
    if FindBucket(agg, start).None? {
      var s := agg + [NewBucket(batch, lastSeq, start)];
      assert ComparesTimestamps(ByTimestamp, s);
      SortSorted(ByTimestamp, s);
    }
  }

  /** Buckets that are sorted with no timestamp twice stay so: a merge keeps the
      timestamp at its index, and a push only happens for a timestamp not yet present. */
  lemma FoldStrictlySorted(agg: seq<Point>, batch: seq<Point>, lastSeq: Option<int>, start: int)
    requires |batch| > 0 && StrictlySorted(agg)
    ensures StrictlySorted(Fold(agg, batch, lastSeq, start))
    ensures |Fold(agg, batch, lastSeq, start)| <= |agg| + 1
  {
    match FindBucket(agg, start)
    case Some(i) =>
    case None =>
      PushSortStrictlySorted(agg, NewBucket(batch, lastSeq, start));
  }

  /** On strictly sorted buckets, exactly one bucket carries the folded interval's start
      after folding. */
  lemma FoldIntervalUnique(agg: seq<Point>, batch: seq<Point>, lastSeq: Option<int>, start: int)
    requires |batch| > 0 && StrictlySorted(agg)
    ensures var r := Fold(agg, batch, lastSeq, start);
      exists i :: 0 <= i < |r| && r[i].timestamp == start
        && forall j :: 0 <= j < |r| && j != i ==> r[j].timestamp != start
  {
    var r := Fold(agg, batch, lastSeq, start);
    FoldStrictlySorted(agg, batch, lastSeq, start);
    var i :| 0 <= i < |r| && r[i].timestamp == start;
    forall j | 0 <= j < |r| && j != i ensures r[j].timestamp != start {
      if j < i {
        assert r[j].timestamp < r[i].timestamp;
      } else {
        assert r[i].timestamp < r[j].timestamp;
      }
    }
  }

  /** A pass that finds points of the interval that just ended leaves a bucket stamped
      with that interval's start, and records the start as the aggregation time. */
  lemma AggregateHasInterval(l: Ledger, now: int)
    requires var cur := IntervalStart(now);
      |Select(l.recentData, cur - AggregationInterval, cur)| > 0
    ensures var r := Aggregate(l, now); var prev := IntervalStart(now) - AggregationInterval;
      && (exists i :: 0 <= i < |r.aggregatedData| && r.aggregatedData[i].timestamp == prev)
      && r.lastAggregationTime == Some(prev)
  {
    var cur := IntervalStart(now);
    var prev := cur - AggregationInterval;
    BusyPass(l, now);
  }

  /** A pass keeps the buckets sorted with no duplicate interval. */
  lemma AggregateStrictlySorted(l: Ledger, now: int)
    requires StrictlySorted(l.aggregatedData)
    ensures StrictlySorted(Aggregate(l, now).aggregatedData)
  {
    var cur := IntervalStart(now);
    var batch := Select(l.recentData, cur - AggregationInterval, cur);
    if |batch| > 0 {
      BusyPass(l, now);
      FoldStrictlySorted(l.aggregatedData, batch, l.lastSeq, cur - AggregationInterval);
    } else {
      QuietPass(l, now);
    }
  }

  /** The bucket folded for the interval has no RTT exactly when no point of the batch
      (nor the merged bucket) had one. */
  lemma FoldRtt(agg: seq<Point>, batch: seq<Point>, lastSeq: Option<int>, start: int)
    requires |batch| > 0
    ensures var r := Fold(agg, batch, lastSeq, start);
      match FindBucket(agg, start)
      case Some(i) =>
        r[i].rtt.None? <==> agg[i].rtt.None? && forall j :: 0 <= j < |batch| ==> batch[j].rtt.None?
      case None =>
        var b := NewBucket(batch, lastSeq, start);
        b in r && (b.rtt.None? <==> forall j :: 0 <= j < |batch| ==> batch[j].rtt.None?)
  {
    FoldShape(agg, batch, lastSeq, start);
    if FindBucket(agg, start).None? {
      assert NewBucket(batch, lastSeq, start) in multiset(Fold(agg, batch, lastSeq, start));
    }
  }

  /** Replies 1, 2 and 3 on a fresh target, inside the interval that starts at
      `AggregationInterval`. */
  function ThreeReplies(rtt1: real, rtt2: real, rtt3: real): Ledger {
    var t := AggregationInterval;
    OnSuccess(OnSuccess(OnSuccess(Fresh, 1, rtt1, t), 2, rtt2, t + 1), 3, rtt3, t + 2)
  }

  lemma ThreeRepliesWindow(rtt1: real, rtt2: real, rtt3: real)
    ensures var t := AggregationInterval; var a := ThreeReplies(rtt1, rtt2, rtt3);
      && a.recentData == [Point(1, Some(rtt1), t, false), Point(2, Some(rtt2), t + 1, false),
                          Point(3, Some(rtt3), t + 2, false)]
      && a.lastSeq == Some(3) && a.aggregatedData == []
  {
    var t := AggregationInterval;
    var p1, p2, p3 := Point(1, Some(rtt1), t, false), Point(2, Some(rtt2), t + 1, false),
      Point(3, Some(rtt3), t + 2, false);
    var a1 := OnSuccess(Fresh, 1, rtt1, t);
    ReplyAppends(Fresh, 1, rtt1, t);
    assert a1.recentData == [p1] && a1.seqOffset == 0 && a1.firstPingReceived;
    var a2 := OnSuccess(a1, 2, rtt2, t + 1);
    ReplyAppends(a1, 2, rtt2, t + 1);
    assert a2.recentData == [p1, p2] && a2.seqOffset == 0 && a2.firstPingReceived;
    var a3 := OnSuccess(a2, 3, rtt3, t + 2);
    ReplyAppends(a2, 3, rtt3, t + 2);
    assert a3.recentData == [p1, p2, p3];
  }

  /** A reply whose window holds nothing old enough to evict just appends its point. */
  lemma ReplyAppends(l: Ledger, pingSeq: nat, rtt: real, now: int)
    requires forall i :: 0 <= i < |l.recentData| ==> Kept(l.recentData[i], now - WindowSpan)
    ensures OnSuccess(l, pingSeq, rtt, now).recentData ==
      l.recentData + [Point(LogicalSeq(l, pingSeq), Some(rtt), now, false)]
  {
    WindowAfterEvent(l, pingSeq, rtt, now);
    RetainAllKept(l.recentData, now - WindowSpan);
  }

  /** With no buckets yet and a window lying inside the interval that starts at
      `AggregationInterval`, a pass at the next interval makes one new bucket of it. */
  lemma FirstPassOneBucket(l: Ledger)
    requires l.aggregatedData == [] && |l.recentData| > 0
    requires forall i :: 0 <= i < |l.recentData| ==>
      InSpan(l.recentData[i], AggregationInterval, 2 * AggregationInterval)
    ensures Aggregate(l, 2 * AggregationInterval).aggregatedData ==
      [NewBucket(l.recentData, l.lastSeq, AggregationInterval)]
  {
    var now := 2 * AggregationInterval;
    IntervalStartUnique(now, now);
    assert IntervalStart(now) - AggregationInterval == AggregationInterval;
    SelectAllInSpan(l.recentData, AggregationInterval, now);
    BusyPass(l, now);
    FoldIntoNone(l.recentData, l.lastSeq, AggregationInterval);
  }

  /** Folding into an empty bucket list gives the one new bucket. */
  lemma FoldIntoNone(batch: seq<Point>, lastSeq: Option<int>, start: int)
    requires |batch| > 0
    ensures Fold([], batch, lastSeq, start) == [NewBucket(batch, lastSeq, start)]
  {
    var b := NewBucket(batch, lastSeq, start);
    assert [] + [b] == [b];
    assert Sort(ByTimestamp, [b]) == Insert(ByTimestamp, b, Sort(ByTimestamp, []));
  }

  /** A bucket keeps the seq of the first point folded into it, so a restart continues
      from there and hands out numbers already used: replies 1, 2 and 3 within one
      interval, a pass, then a reload from the bucket, and tool seq 1 becomes logical
      seq 2 a second time. */
  lemma SeqReusedAfterRestart(rtt1: real, rtt2: real, rtt3: real, rtt: real)
    ensures var a := ThreeReplies(rtt1, rtt2, rtt3);
      var g := Aggregate(a, 2 * AggregationInterval);
      var h := Hydrate(Persisted(Some(g.aggregatedData), Some(g.gaps), Some(g.received), Some(g.lost)));
      && a.lastSeq == Some(3) && Point(2, Some(rtt2), AggregationInterval + 1, false) in a.recentData
      && |g.aggregatedData| == 1 && g.aggregatedData[0].seqNo == 1
      && OnSuccess(h, 1, rtt, 2 * AggregationInterval).lastSeq == Some(2)
  {
    var a := ThreeReplies(rtt1, rtt2, rtt3);
    ThreeRepliesWindow(rtt1, rtt2, rtt3);
    FirstPassOneBucket(a);
    var g := Aggregate(a, 2 * AggregationInterval);
    var p := Persisted(Some(g.aggregatedData), Some(g.gaps), Some(g.received), Some(g.lost));
    RestartContinuity(p, 1, rtt, 2 * AggregationInterval);
  }

  // ---------------------------------------------------------------------------
  // Combined history
  // ---------------------------------------------------------------------------

  /** The combined history holds every bucket and every window point, each once; when
      every timestamp is truthy it is in timestamp order. */
  lemma CombinedHistorySorted(l: Ledger)
    ensures multiset(CombinedHistory(l)) == multiset(l.aggregatedData) + multiset(l.recentData)
    ensures (forall p :: p in l.aggregatedData + l.recentData ==> Truthy(p.timestamp)) ==>
      SortedByTimestamp(CombinedHistory(l))
  {
    var s := l.aggregatedData + l.recentData;
    if forall p :: p in s ==> Truthy(p.timestamp) {
      assert ComparesTimestamps(HistoryOrder, s);
      SortSorted(HistoryOrder, s);
    }
  }
}
