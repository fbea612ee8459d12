/** The server's per-target records as mutable objects: loading them from the decoded
    state file, `handlePingData` updating one of them field by field, and
    `aggregateAndSave` visiting each of them in turn. Every method is tied to the value
    transition of `TargetLedger` or `Aggregator` that it performs. */
module Server {
  import opened Wrappers
  import opened Points
  import opened TargetLedger
  import opened Aggregator
  import PingLine

  /** The two monitored addresses, in the order the `targets` object lists them. */
  const TargetIps: seq<string> := ["1.1.1.1", "192.168.1.1"]

  /** One entry of the `targets` object. */
  class Target {
    var recentData: seq<Point>
    var aggregatedData: seq<Point>
    var gaps: seq<Gap>
    var received: int
    var lost: int
    var lastSeq: Option<int>
    var seqOffset: int
    var firstPingReceived: bool
    var lastAggregationTime: Option<int>

    /** The record held by this object, as a value. */
    function State(): Ledger
      reads this
    {
      Ledger(recentData, aggregatedData, gaps, received, lost, lastSeq, seqOffset,
             firstPingReceived, lastAggregationTime)
    }

    constructor (init: Ledger)
      ensures State() == init
    {
      recentData := init.recentData;
      aggregatedData := init.aggregatedData;
      gaps := init.gaps;
      received := init.received;
      lost := init.lost;
      lastSeq := init.lastSeq;
      seqOffset := init.seqOffset;
      firstPingReceived := init.firstPingReceived;
      lastAggregationTime := init.lastAggregationTime;
    }

    /** Copies one persisted entry over this record: buckets, gaps and counters (missing
        ones as empty or zero), then, when there are buckets, the aggregation time and
        both sequence fields from the last bucket. The window and the flag stay. */
    method Restore(p: Persisted)
      modifies this
      ensures aggregatedData == p.aggregatedData.GetOr([]) && gaps == p.gaps.GetOr([])
      ensures received == p.received.GetOr(0) && lost == p.lost.GetOr(0)
      ensures recentData == old(recentData) && firstPingReceived == old(firstPingReceived)
      ensures |aggregatedData| > 0 ==>
        var last := aggregatedData[|aggregatedData| - 1];
        lastAggregationTime == Some(last.timestamp) && lastSeq == Some(last.seqNo)
        && seqOffset == last.seqNo
      ensures |aggregatedData| == 0 ==>
        lastAggregationTime == old(lastAggregationTime) && lastSeq == old(lastSeq)
        && seqOffset == old(seqOffset)
      ensures old(State()) == Fresh ==> State() == Hydrate(p)
    {
      aggregatedData := p.aggregatedData.GetOr([]);
      gaps := p.gaps.GetOr([]);
      received := p.received.GetOr(0);
      lost := p.lost.GetOr(0);
      if |aggregatedData| > 0 {
        var last := aggregatedData[|aggregatedData| - 1];
        lastAggregationTime := Some(last.timestamp);
        lastSeq := Some(last.seqNo);
        seqOffset := last.seqNo;
      }
    }

    /** Before the first event of the process, continue from the last known seq. */
    method AdjustOffsetOnce()
      modifies this
      ensures State() == StartOnce(old(State()))
    {
      if !firstPingReceived {
        if lastSeq.Some? {
          seqOffset := lastSeq.value;
        }
        firstPingReceived := true;
      }
    }

    /** A reply with tool seq `pingSeq` and round-trip time `rtt` at time `now`. */
    method HandleSuccess(pingSeq: nat, rtt: real, now: int)
      modifies this
      ensures State() == OnSuccess(old(State()), pingSeq, rtt, now)
      ensures GapTotal(gaps) - lost == old(GapTotal(gaps) - lost)
      ensures old(AllWellFormed(gaps)) ==> AllWellFormed(gaps)
    {
      ghost var before := State();
      AdjustOffsetOnce();
      var sq := seqOffset + pingSeq;
      if lastSeq.Some? && sq != lastSeq.value + 1 {
        var miss := sq - lastSeq.value - 1;
        lost := lost + miss;
        gaps := gaps + [Gap(lastSeq.value + 1, sq - 1, miss)];
      }
      lastSeq := Some(sq);
      received := received + 1;
      var point := Point(sq, Some(rtt), now, false);
      recentData := recentData + [point];
      recentData := Retain(recentData, now - WindowSpan);
      GapBalance(before, pingSeq, rtt, now);
    }

    /** A probe without a reply with tool seq `pingSeq` at time `now`. */
    method HandleUnreachable(pingSeq: nat, now: int)
      modifies this
      ensures State() == OnUnreachable(old(State()), pingSeq, now)
      ensures GapTotal(gaps) - lost == old(GapTotal(gaps) - lost)
      ensures old(AllWellFormed(gaps)) ==> AllWellFormed(gaps)
    {
      ghost var before := State();
      AdjustOffsetOnce();
      var sq := seqOffset + pingSeq;
      lost := lost + 1;
      gaps := gaps + [Gap(sq, sq, 1)];
      lastSeq := Some(sq);
      recentData := recentData + [Point(sq, None, now, false)];
      recentData := Retain(recentData, now - WindowSpan);
      GapBalance(before, pingSeq, 0.0, now);
    }

    /** `handlePingData` for this target: a reply line, then a line with only a
        sequence number; anything else is ignored. */
    method HandlePingData(line: string, now: int, number: string -> real)
      modifies this
      ensures State() == OnLine(old(State()), line, now, number)
      ensures GapTotal(gaps) - lost == old(GapTotal(gaps) - lost)
      ensures old(AllWellFormed(gaps)) ==> AllWellFormed(gaps)
      ensures aggregatedData == old(aggregatedData)
      ensures !PingLine.Classify(line).NotAProbeLine? ==>
        forall p :: p in recentData && Truthy(p.timestamp) ==> p.timestamp >= now - WindowSpan
    {
      ghost var before := State();
      match PingLine.Classify(line) {
      case Success(n, t) =>
        HandleSuccess(n, number(t), now);
      case Unreachable(n) =>
        HandleUnreachable(n, now);
      case NotAProbeLine =>
      }
      LineBalance(before, line, now, number);
    }

    /** One turn of the `aggregateAndSave` loop for this target. */
    method AggregatePass(now: int)
      modifies this
      ensures State() == Aggregate(old(State()), now)
      ensures old(StrictlySorted(aggregatedData)) ==> StrictlySorted(aggregatedData)
    {
      ghost var before := State();
      var cur := IntervalStart(now);
      var prev := cur - AggregationInterval;
      var batch := Select(recentData, prev, cur);
      if |batch| == 0 {
        recentData := Retain(recentData, cur);
        QuietPass(before, now);
        return;
      }
      BusyPass(before, now);
      var folded: seq<Point>;
      match FindBucket(aggregatedData, prev) {
        case Some(i) =>
          folded := aggregatedData[i := MergedBucket(aggregatedData[i], batch, prev)];
        case None =>
          folded := aggregatedData + [NewBucket(batch, lastSeq, prev)];
          folded := Sort(ByTimestamp, folded);
      }
      assert folded == Fold(aggregatedData, batch, lastSeq, prev);
      if StrictlySorted(aggregatedData) {
        FoldStrictlySorted(aggregatedData, batch, lastSeq, prev);
      }
      aggregatedData := folded;
      recentData := Retain(recentData, cur);
      lastAggregationTime := Some(prev);
    }
  }

  /** The `targets` object at startup: a fresh record per address, each overwritten by
      its entry of the decoded state file when the file names it. */
  method Load(file: Option<map<string, Persisted>>) returns (targets: seq<Target>)
    ensures |targets| == |TargetIps|
    ensures forall i :: 0 <= i < |targets| ==>
      fresh(targets[i]) && targets[i].State() == Startup(file, TargetIps[i])
    ensures forall i, j :: 0 <= i < j < |targets| ==> targets[i] != targets[j]
  {
    var a := new Target(Fresh);
    var b := new Target(Fresh);
    if file.Some? {
      if TargetIps[0] in file.value {
        a.Restore(file.value[TargetIps[0]]);
      }
      if TargetIps[1] in file.value {
        b.Restore(file.value[TargetIps[1]]);
      }
    }
    targets := [a, b];
  }

  /** The aggregation pass of `aggregateAndSave`: every target in turn, at one `now`. */
  method AggregateAndSave(targets: seq<Target>, now: int)
    requires forall i, j :: 0 <= i < j < |targets| ==> targets[i] != targets[j]
    modifies set t | t in targets
    ensures forall i :: 0 <= i < |targets| ==>
      targets[i].State() == Aggregate(old(targets[i].State()), now)
  {
    var k := 0;
    while k < |targets|
      invariant 0 <= k <= |targets|
      invariant forall i :: 0 <= i < k ==>
        targets[i].State() == Aggregate(old(targets[i].State()), now)
      invariant forall i :: k <= i < |targets| ==> targets[i].State() == old(targets[i].State())
    {
      label before:
      targets[k].AggregatePass(now);
      assert forall i :: 0 <= i < |targets| && i != k ==>
        targets[i].State() == old@before(targets[i].State());
      k := k + 1;
    }
  }
}
