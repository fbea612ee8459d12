/** One target's ledger as a value: hydration from the decoded state file, the
    once-per-process sequence offset, and the two event updates of `handlePingData`.
    The class `Server.Target` performs these updates in place. */
module TargetLedger {
  import opened Wrappers
  import opened Points
  import PingLine

  /** `{from, to, count}`: logical sequence numbers `from..to` went missing. */
  datatype Gap = Gap(from: int, to: int, count: int)

  /** A gap whose count is the length of its range. */
  predicate WellFormed(g: Gap) {
    g.count == g.to - g.from + 1
  }

  predicate AllWellFormed(gs: seq<Gap>) {
    forall i :: 0 <= i < |gs| ==> WellFormed(gs[i])
  }

  /** Sum of `count` over a gap list. */
  function GapTotal(gs: seq<Gap>): int {
    if gs == [] then 0 else gs[0].count + GapTotal(gs[1..])
  }

  /** The sliding window keeps the last ten minutes, in milliseconds. */
  const WindowSpan: int := 10 * 60 * 1000

  /** The per-target record of the server: the window, the aggregate buckets, the gaps,
      the two counters, the last logical seq (`null` as `None`), the offset added to
      the tool's seq, whether this process has seen an event yet, and the start of the
      interval last aggregated. */
  datatype Ledger = Ledger(
    recentData: seq<Point>,
    aggregatedData: seq<Point>,
    gaps: seq<Gap>,
    received: int,
    lost: int,
    lastSeq: Option<int>,
    seqOffset: int,
    firstPingReceived: bool,
    lastAggregationTime: Option<int>)

  /** The record each target starts the process with. */
  const Fresh: Ledger := Ledger([], [], [], 0, 0, None, 0, false, None)

  // ---------------------------------------------------------------------------
  // Hydration
  // ---------------------------------------------------------------------------

  /** One target's entry of the decoded state file; a field that is missing or falsy
      there is `None`. */
  datatype Persisted = Persisted(
    aggregatedData: Option<seq<Point>>,
    gaps: Option<seq<Gap>>,
    received: Option<int>,
    lost: Option<int>)

  /** The fresh record with the persisted fields copied in (`|| []`, `|| 0`) and, when
      there are buckets, the sequence and aggregation time taken from the last one. */
  function Hydrate(p: Persisted): (l: Ledger)
    ensures l.aggregatedData == p.aggregatedData.GetOr([]) && l.gaps == p.gaps.GetOr([])
    ensures l.received == p.received.GetOr(0) && l.lost == p.lost.GetOr(0)
    ensures l.recentData == [] && !l.firstPingReceived
    ensures |l.aggregatedData| > 0 ==>
      var last := l.aggregatedData[|l.aggregatedData| - 1];
      l.lastSeq == Some(last.seqNo) && l.seqOffset == last.seqNo
      && l.lastAggregationTime == Some(last.timestamp)
    ensures |l.aggregatedData| == 0 ==>
      l.lastSeq == None && l.seqOffset == 0 && l.lastAggregationTime == None
  {
    var agg := p.aggregatedData.GetOr([]);
    var base := Fresh.(aggregatedData := agg, gaps := p.gaps.GetOr([]),
                       received := p.received.GetOr(0), lost := p.lost.GetOr(0));
    if |agg| > 0 then
      var last := agg[|agg| - 1];
      base.(lastAggregationTime := Some(last.timestamp), lastSeq := Some(last.seqNo),
            seqOffset := last.seqNo)
    else base
  }

  /** The ledger a known target starts with, given the decoded file's `targets`
      object (`None` when the file is missing, empty, unreadable or has no targets). */
  function Startup(file: Option<map<string, Persisted>>, ip: string): (l: Ledger)
    ensures (file.None? || ip !in file.value) ==> l == Fresh
    ensures file.Some? && ip in file.value ==> l == Hydrate(file.value[ip])
  {
    match file
    case Some(m) => if ip in m then Hydrate(m[ip]) else Fresh
    case None => Fresh
  }

  // ---------------------------------------------------------------------------
  // Events
  // ---------------------------------------------------------------------------

  /** The adjustment made before the first event of the process: continue from the
      last known sequence number when there is one. */
  function StartOnce(l: Ledger): (r: Ledger)
    ensures r.firstPingReceived
    ensures r == l.(seqOffset := r.seqOffset, firstPingReceived := true)
    ensures r.seqOffset ==
      if !l.firstPingReceived && l.lastSeq.Some? then l.lastSeq.value else l.seqOffset
  {
    if l.firstPingReceived then l
    else if l.lastSeq.Some? then l.(seqOffset := l.lastSeq.value, firstPingReceived := true)
    else l.(firstPingReceived := true)
  }

  /** The logical sequence number an event with tool sequence `pingSeq` gets. */
  function LogicalSeq(l: Ledger, pingSeq: nat): (sq: int)
    ensures l.firstPingReceived ==> sq == l.seqOffset + pingSeq
    ensures !l.firstPingReceived ==> sq == l.lastSeq.GetOr(l.seqOffset) + pingSeq
  {
    StartOnce(l).seqOffset + pingSeq
  }

  /** Appends `p` to the window and evicts points older than ten minutes before `now`. */
  function Push(window: seq<Point>, p: Point, now: int): (r: seq<Point>)
    ensures |r| <= |window| + 1
    ensures forall q :: q in r ==> q in window || q == p
    ensures forall q :: q in r && Truthy(q.timestamp) ==> q.timestamp >= now - WindowSpan
  {
    RetainMembers(window + [p], now - WindowSpan);
    Retain(window + [p], now - WindowSpan)
  }

  /** A reply: account for any jump since the last sequence number, then count the
      reply and record its point. */
  function OnSuccess(l: Ledger, pingSeq: nat, rtt: real, now: int): (r: Ledger)
    ensures r.lastSeq == Some(LogicalSeq(l, pingSeq)) && r.received == l.received + 1
    ensures r.firstPingReceived && r.aggregatedData == l.aggregatedData
    ensures r.lastAggregationTime == l.lastAggregationTime
    ensures r.seqOffset == StartOnce(l).seqOffset
  {
    var l1 := StartOnce(l);
    var sq := l1.seqOffset + pingSeq;
    var l2 :=
      if l1.lastSeq.Some? && sq != l1.lastSeq.value + 1 then
        var miss := sq - l1.lastSeq.value - 1;
        l1.(lost := l1.lost + miss, gaps := l1.gaps + [Gap(l1.lastSeq.value + 1, sq - 1, miss)])
      else l1;
    l2.(lastSeq := Some(sq), received := l2.received + 1,
        recentData := Push(l2.recentData, Point(sq, Some(rtt), now, false), now))
  }

  /** A probe without a reply: one lost sequence number, recorded as a one-number gap
      and as a point without an RTT. */
  function OnUnreachable(l: Ledger, pingSeq: nat, now: int): (r: Ledger)
    ensures r.lastSeq == Some(LogicalSeq(l, pingSeq)) && r.received == l.received
    ensures r.lost == l.lost + 1 && r.firstPingReceived && r.aggregatedData == l.aggregatedData
    ensures r.lastAggregationTime == l.lastAggregationTime
    ensures r.seqOffset == StartOnce(l).seqOffset
  {
    var l1 := StartOnce(l);
    var sq := l1.seqOffset + pingSeq;
    l1.(lost := l1.lost + 1, gaps := l1.gaps + [Gap(sq, sq, 1)], lastSeq := Some(sq),
        recentData := Push(l1.recentData, Point(sq, None, now, false), now))
  }

  /** `handlePingData` on one chunk of output: `number` stands for JavaScript's
      `Number`, applied to the RTT text. */
  function OnLine(l: Ledger, line: string, now: int, number: string -> real): (r: Ledger)
    ensures PingLine.Classify(line).NotAProbeLine? ==> r == l
    ensures PingLine.Classify(line).Success? ==>
      r.received == l.received + 1 && r.lastSeq == Some(LogicalSeq(l, PingLine.Classify(line).pingSeq))
    ensures PingLine.Classify(line).Unreachable? ==>
      r.received == l.received && r.lost == l.lost + 1
      && r.lastSeq == Some(LogicalSeq(l, PingLine.Classify(line).pingSeq))
  {
    match PingLine.Classify(line)
    case Success(n, t) => OnSuccess(l, n, number(t), now)
    case Unreachable(n) => OnUnreachable(l, n, now)
    case NotAProbeLine => l
  }

  // ---------------------------------------------------------------------------
  // Properties of the event updates
  // ---------------------------------------------------------------------------

  lemma {:induction false} GapTotalAppend(gs: seq<Gap>, g: Gap)
    ensures GapTotal(gs + [g]) == GapTotal(gs) + g.count
  {
    if gs != [] {
      assert (gs + [g])[1..] == gs[1..] + [g];
      GapTotalAppend(gs[1..], g);
    }
  }

  /** A reply gets `seqOffset + pingSeq`; if a previous number exists and this one does
      not follow it, exactly one gap `{last+1, seq-1, seq-last-1}` is appended and `lost`
      grows by its count; otherwise gaps and `lost` stay. `received` grows by one. */
  lemma SuccessAccounting(l: Ledger, pingSeq: nat, rtt: real, now: int)
    ensures var r := OnSuccess(l, pingSeq, rtt, now); var sq := LogicalSeq(l, pingSeq);
      && r.lastSeq == Some(sq) && r.received == l.received + 1
      && (l.lastSeq.Some? && sq != l.lastSeq.value + 1 ==>
            var v := l.lastSeq.value;
            r.gaps == l.gaps + [Gap(v + 1, sq - 1, sq - v - 1)] && r.lost == l.lost + (sq - v - 1))
      && (!(l.lastSeq.Some? && sq != l.lastSeq.value + 1) ==> r.gaps == l.gaps && r.lost == l.lost)
      && r.aggregatedData == l.aggregatedData && r.lastAggregationTime == l.lastAggregationTime
  {
  }

  /** A lost probe adds one to `lost`, appends the gap `{seq, seq, 1}`, moves `lastSeq`
      and leaves `received` as it was. */
  lemma UnreachableAccounting(l: Ledger, pingSeq: nat, now: int)
    ensures var r := OnUnreachable(l, pingSeq, now); var sq := LogicalSeq(l, pingSeq);
      && r.lastSeq == Some(sq) && r.received == l.received && r.lost == l.lost + 1
      && r.gaps == l.gaps + [Gap(sq, sq, 1)]
      && r.aggregatedData == l.aggregatedData && r.lastAggregationTime == l.lastAggregationTime
  {
  }

  /** Both updates keep `GapTotal(gaps) - lost` fixed, so gap counts that sum to `lost`
      keep doing so, and both append only well-formed gaps. */
  lemma GapBalance(l: Ledger, pingSeq: nat, rtt: real, now: int)
    ensures var r := OnSuccess(l, pingSeq, rtt, now);
      GapTotal(r.gaps) - r.lost == GapTotal(l.gaps) - l.lost
      && (AllWellFormed(l.gaps) ==> AllWellFormed(r.gaps))
    ensures var r := OnUnreachable(l, pingSeq, now);
      GapTotal(r.gaps) - r.lost == GapTotal(l.gaps) - l.lost
      && (AllWellFormed(l.gaps) ==> AllWellFormed(r.gaps))
  {
    var sq := LogicalSeq(l, pingSeq);
    if l.lastSeq.Some? && sq != l.lastSeq.value + 1 {
      var v := l.lastSeq.value;
      GapTotalAppend(l.gaps, Gap(v + 1, sq - 1, sq - v - 1));
    }
    GapTotalAppend(l.gaps, Gap(sq, sq, 1));
  }

  /** After either update every timestamped point of the window is at most ten minutes
      old, and the window is the old survivors, in order, followed by the new point. */
  lemma WindowAfterEvent(l: Ledger, pingSeq: nat, rtt: real, now: int)
    ensures var r := OnSuccess(l, pingSeq, rtt, now); var sq := LogicalSeq(l, pingSeq);
      && r.recentData == Retain(l.recentData, now - WindowSpan) + [Point(sq, Some(rtt), now, false)]
      && forall p :: p in r.recentData && Truthy(p.timestamp) ==> p.timestamp >= now - WindowSpan
    ensures var r := OnUnreachable(l, pingSeq, now); var sq := LogicalSeq(l, pingSeq);
      && r.recentData == Retain(l.recentData, now - WindowSpan) + [Point(sq, None, now, false)]
      && forall p :: p in r.recentData && Truthy(p.timestamp) ==> p.timestamp >= now - WindowSpan
  {
    var sq := LogicalSeq(l, pingSeq);
    PushKeepsNew(l.recentData, Point(sq, Some(rtt), now, false), now);
    PushKeepsNew(l.recentData, Point(sq, None, now, false), now);
  }

  /** `handlePingData` as a whole keeps what each update keeps: the gap total minus
      `lost`, well-formed gaps and the buckets; a probe line also leaves every
      timestamped window point within ten minutes of `now`. */
  lemma LineBalance(l: Ledger, line: string, now: int, number: string -> real)
    ensures var r := OnLine(l, line, now, number);
      && GapTotal(r.gaps) - r.lost == GapTotal(l.gaps) - l.lost
      && (AllWellFormed(l.gaps) ==> AllWellFormed(r.gaps))
      && r.aggregatedData == l.aggregatedData
    ensures !PingLine.Classify(line).NotAProbeLine? ==>
      forall p :: p in OnLine(l, line, now, number).recentData && Truthy(p.timestamp) ==>
        p.timestamp >= now - WindowSpan
  {
    match PingLine.Classify(line)
    case Success(n, t) =>
      GapBalance(l, n, number(t), now);
      WindowAfterEvent(l, n, number(t), now);
    case Unreachable(n) =>
      GapBalance(l, n, 0.0, now);
      WindowAfterEvent(l, n, 0.0, now);
    case NotAProbeLine =>
  }

  lemma PushKeepsNew(window: seq<Point>, p: Point, now: int)
    requires p.timestamp == now
    ensures Push(window, p, now) == Retain(window, now - WindowSpan) + [p]
    ensures forall q :: q in Push(window, p, now) && Truthy(q.timestamp) ==> q.timestamp >= now - WindowSpan
  {
    RetainAppend(window, [p], now - WindowSpan);
    assert Retain([p], now - WindowSpan) == [p];
    RetainBound(window + [p], now - WindowSpan);
  }

  /** The offset is adjusted by the first event only: afterwards every event's logical
      seq is the fixed `seqOffset` plus the tool's seq, and the flag stays set. */
  lemma OffsetFixedAfterFirst(l: Ledger, pingSeq: nat, rtt: real, now: int)
    ensures OnSuccess(l, pingSeq, rtt, now).firstPingReceived
    ensures OnUnreachable(l, pingSeq, now).firstPingReceived
    ensures l.firstPingReceived ==>
      && OnSuccess(l, pingSeq, rtt, now).seqOffset == l.seqOffset
      && OnUnreachable(l, pingSeq, now).seqOffset == l.seqOffset
      && LogicalSeq(l, pingSeq) == l.seqOffset + pingSeq
    ensures !l.firstPingReceived && l.lastSeq.Some? ==>
      LogicalSeq(l, pingSeq) == l.lastSeq.value + pingSeq
  {
  }

  /** After a restart the first event continues from the last bucket's seq: a persisted
      seq `s` and tool seq `n` give `s + n`, whichever kind the event is. */
  lemma RestartContinuity(p: Persisted, pingSeq: nat, rtt: real, now: int)
    requires p.aggregatedData.Some? && |p.aggregatedData.value| > 0
    ensures var agg := p.aggregatedData.value; var s := agg[|agg| - 1].seqNo;
      && OnSuccess(Hydrate(p), pingSeq, rtt, now).lastSeq == Some(s + pingSeq)
      && OnUnreachable(Hydrate(p), pingSeq, now).lastSeq == Some(s + pingSeq)
      && OnSuccess(Hydrate(p), pingSeq, rtt, now).seqOffset == s
  {
  }

  /** Persisted seq 50 and tool seq 1 give logical seq 51, with no gap and no loss. */
  lemma RestartFromFifty(b: Point, rtt: real, now: int)
    requires b.seqNo == 50
    ensures var l := Hydrate(Persisted(Some([b]), None, Some(7), Some(0)));
      var r := OnSuccess(l, 1, rtt, now);
      r.lastSeq == Some(51) && r.gaps == [] && r.lost == 0 && r.received == 8
  {
  }

  /** `received + lost - lastSeq` is what a reply leaves unchanged, so over replies the
      counters cover exactly the numbers spanned; a lost probe keeps it only when its
      number directly follows the last one. */
  lemma SpanConservation(l: Ledger, pingSeq: nat, rtt: real, now: int)
    requires l.lastSeq.Some?
    ensures var r := OnSuccess(l, pingSeq, rtt, now);
      r.received + r.lost - r.lastSeq.value == l.received + l.lost - l.lastSeq.value
    ensures var r := OnUnreachable(l, pingSeq, now);
      (r.received + r.lost - r.lastSeq.value == l.received + l.lost - l.lastSeq.value)
      <==> LogicalSeq(l, pingSeq) == l.lastSeq.value + 1
  {
  }

  /** A reply whose logical seq does not exceed the last one (a duplicate reply, or the
      tool restarted within the process) appends a gap of negative count and makes
      `lost` smaller by that much. */
  lemma RepeatedSeqLowersLost(l: Ledger, pingSeq: nat, rtt: real, now: int)
    requires l.lastSeq.Some? && LogicalSeq(l, pingSeq) <= l.lastSeq.value
    ensures var r := OnSuccess(l, pingSeq, rtt, now);
      var c := LogicalSeq(l, pingSeq) - l.lastSeq.value - 1;
      && |r.gaps| == |l.gaps| + 1
      && r.gaps[|r.gaps| - 1].count == c < 0
      && r.lost == l.lost + c
  {
  }

  /** Replies 1, 2 and 4 on a fresh target, then a lost probe 5. */
  lemma ReplayScenario(rtt1: real, rtt2: real, rtt4: real, t: int)
    ensures var a := OnSuccess(OnSuccess(OnSuccess(Fresh, 1, rtt1, t), 2, rtt2, t + 1), 4, rtt4, t + 3);
      && a.received == 3 && a.lost == 1 && a.gaps == [Gap(3, 3, 1)] && a.lastSeq == Some(4)
      && var b := OnUnreachable(a, 5, t + 4);
         b.received == 3 && b.lost == 2 && b.gaps == [Gap(3, 3, 1), Gap(5, 5, 1)] && b.lastSeq == Some(5)
  {
  }

  /** A line neither pattern matches changes nothing. */
  lemma OtherLinesIgnored(l: Ledger, line: string, now: int, number: string -> real)
    requires forall i: nat :: !PingLine.SeqMarkerAt(line, i)
    ensures OnLine(l, line, now, number) == l
  {
  }
}
