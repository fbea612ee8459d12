# Ping monitor ledger: a Dafny model

The server watches two addresses with the system `ping` tool. For each address it
keeps a per-target ledger:

- a ten-minute sliding window of points (sequence number, RTT or none, timestamp);
- a list of ten-minute aggregate buckets;
- the list of sequence gaps;
- counters of received and lost probes;
- the last logical sequence number and the offset that keeps logical sequence numbers
  increasing across restarts of the process.

This project models that core:

- the ledger record and how it is rebuilt from the decoded state file at startup;
- how one line of `ping` output is classified by the two regular expressions of
  `handlePingData`;
- the updates a reply and a lost probe make to the ledger;
- the periodic aggregation pass of `aggregateAndSave`, which folds the interval that
  just ended into a bucket and cuts the window;
- the combined, sorted history that a new viewer receives.

Layout:

- `wrappers.dfy` holds `Option`.
- `points.dfy` holds points, the window filters, the RTT helpers and the stable sort
  that `Array.prototype.sort` stands for.
- `ping_line.dfy` holds classification. The regular expressions are written out as a
  scan. `Classify`'s contract states, in terms of where the patterns can match, which
  kind a line is and which sequence number and RTT text it captures.
- `ledger.dfy` holds the ledger as a value, hydration and the two event updates.
- `aggregator.dfy` holds the interval arithmetic, the aggregation pass and the combined
  history.
- `server.dfy` holds the class `Target`, whose nine fields the methods update in place,
  the startup of both targets, and the aggregation loop over them. Each method's
  `ensures` ties the new state to the value transition it performs. The lemmas about
  those transitions then carry over to the objects.

Modelling choices:

- JavaScript `null` is `None`.
- JavaScript truthiness is written out where the source relies on it. A timestamp of
  0 counts as "no timestamp" in the window filters. A bucket seq of 0 falls through
  `||`.
- `Math.floor(now / interval)` is Dafny's `/`, because the divisor is positive.
- RTTs are reals, because only their presence and their mean matter here.
- The current time is a parameter, and so is the conversion of the RTT text to a
  number (`Number`).

Behaviour of `server.js` worth knowing (the model follows it):

- A reply whose logical seq does not exceed the last one still appends a gap. The gap
  has a negative count and makes `lost` smaller by that much (`RepeatedSeqLowersLost`).
  So the gap list is not always sorted, and it is not always free of overlaps.
- `GapTotal(gaps) - lost` is invariant under both updates (`GapBalance`). "Gap counts
  sum to `lost`" therefore holds exactly when it held in the loaded state.
- A lost probe never checks for a jump in sequence numbers. `received + lost` keeps
  covering the numbers spanned only when the lost probe's number directly follows the
  last one (`SpanConservation`).
- The merged bucket's seq is `batch[0].seq || existing.seq`, so a first seq of 0 keeps
  the existing value.
- Hydration restores the last bucket's first seq, not the last seq seen. Logical
  sequence numbers can therefore be re-used after a restart (`SeqReusedAfterRestart`).
- The interval length is the constant ten minutes, not a parameter.

## Model

| member | source | states |
|---|---|---|
| PingLine.Classify | server.js:194-249 | a line is a reply iff `icmp_seq=<digits>` is followed on the same line by `time=<digit or dot>`; otherwise it is a lost probe iff `icmp_seq=<digits>` occurs; otherwise it is ignored; never an error. A reply captures the digits after the leftmost marker the reply pattern matches from and the RTT text after the last `time=` on that line; a lost probe captures the digits after the leftmost marker |
| PingLine.DigitsRoundTrip | server.js:196 | the decimal text of `n` reads back as `n` (`Number` of the first capture) |
| PingLine.ReplyLineRoundTrip | server.js:194-197 | `icmp_seq=<n> time=<t>` is classified as a reply with exactly seq `n` and RTT text `t` |
| PingLine.SeqOnlyLineRoundTrip | server.js:247-249 | `icmp_seq=<n>` with no time field is classified as a lost probe with seq `n` |
| Points.Retain | server.js:91-93 | the window filter never grows the list and keeps only points with a falsy timestamp or one at or after the cutoff (also server.js:141-143, 225, 269) |
| Points.Select | server.js:85-87 | the batch filter never grows the list and keeps only points with a truthy timestamp in `[prev, cur)` |
| Points.SelectAllInSpan | server.js:85-87 | a window lying wholly inside the interval is selected as a whole |
| Points.RetainMembers | server.js:225 | the eviction filter keeps exactly the points with a falsy timestamp or one at or after the cutoff |
| Points.RetainAppend | server.js:221-225 | eviction distributes over concatenation, so survivors keep their order |
| Points.RetainIdempotent | server.js:141-143 | evicting twice with one cutoff is evicting once |
| Points.SelectMembers | server.js:85-87 | the batch holds exactly the window points with a truthy timestamp in `[prev, cur)` |
| Points.SelectAfterRetain | server.js:85-94 | once the window is cut at `cur`, nothing of the interval ending at `cur` is left to select |
| Points.PresentRtts | server.js:125-127 | the present RTTs are empty exactly when every point's RTT is null |
| Points.Mean | server.js:118 | the mean times the number of values is their sum (also server.js:132) |
| Points.Compare | server.js:306-309 | both comparators (`a.timestamp - b.timestamp` and the history comparator) order two points with truthy timestamps by timestamp difference (server.js:137 is the first) |
| Points.HistoryOrderCycle | server.js:306-309 | once a timestamp is 0 the history comparator can put three points in a cycle, each below the next, so it is not a consistent order |
| Points.Insert | server.js:137 | inserting adds exactly one element to the multiset |
| Points.Sort | server.js:137 | sorting is a permutation |
| Points.SortSorted | server.js:137 | when the comparator is the timestamp difference, the sort yields timestamp order |
| Points.SortSortedIdentity | server.js:137 | sorting a list already in timestamp order leaves it unchanged (stability) |
| Points.InsertStrictlySorted | server.js:129-137 | inserting a fresh timestamp into a list sorted with no timestamp twice keeps that shape |
| Points.PushSortStrictlySorted | server.js:129-137 | push a bucket with a new timestamp, then sort: the list stays strictly sorted and grows by one |
| TargetLedger.Hydrate | server.js:49-60 | missing fields become `[]` or 0; with buckets, `lastSeq`, `seqOffset` and the aggregation time come from the last bucket; without buckets they stay null, 0 and null; window empty, flag clear |
| TargetLedger.Startup | server.js:42-62 | a target named in the decoded file is hydrated from its entry; otherwise (no file, unreadable file, not named) it starts fresh |
| TargetLedger.LogicalSeq | server.js:209 | after the first event the logical seq is `seqOffset + pingSeq`; on the first event it is `lastSeq + pingSeq` when a last seq is known, else `seqOffset + pingSeq` (also server.js:260) |
| TargetLedger.Push | server.js:221-225 | push then evict: at most one more point, every point old or the new one, every timestamped point within ten minutes of `now` (also server.js:265-269) |
| TargetLedger.OnSuccess | server.js:196-225 | a reply sets `lastSeq` to its logical seq, adds one to `received`, sets the flag, keeps the offset `StartOnce` gives, and leaves the buckets and aggregation time |
| TargetLedger.OnUnreachable | server.js:249-269 | a lost probe sets `lastSeq` to its logical seq, adds one to `lost`, keeps `received`, sets the flag, keeps the offset `StartOnce` gives, and leaves the buckets and aggregation time |
| TargetLedger.OnLine | server.js:189-289 | an ignored line changes nothing; a reply line adds one to `received`; a lost-probe line adds one to `lost` and keeps `received`; both set `lastSeq` to the captured seq's logical seq |
| TargetLedger.StartOnce | server.js:199-206 | the flag becomes set; the offset becomes `lastSeq` only on the first event with a known `lastSeq`; nothing else changes |
| TargetLedger.GapTotalAppend | server.js:214 | appending a gap adds its count to the total |
| TargetLedger.SuccessAccounting | server.js:209-218 | a reply gets `seqOffset + pingSeq`; a jump appends exactly `{last+1, seq-1, seq-last-1}` and adds that to `lost`; no jump leaves gaps and `lost`; `received` grows by one; buckets untouched |
| TargetLedger.UnreachableAccounting | server.js:259-264 | a lost probe adds one to `lost`, appends `{seq, seq, 1}`, moves `lastSeq`, leaves `received` and the buckets |
| TargetLedger.GapBalance | server.js:211-215 | both updates keep `GapTotal(gaps) - lost` and keep every gap well formed (`count = to - from + 1`) |
| TargetLedger.LineBalance | server.js:189-289 | handling any line keeps `GapTotal(gaps) - lost`, keeps gaps well formed and leaves the buckets; after a probe line every timestamped window point is within ten minutes of `now` |
| TargetLedger.PushKeepsNew | server.js:220-225 | pushing a point stamped `now` and evicting gives the old survivors followed by that point |
| TargetLedger.WindowAfterEvent | server.js:220-269 | after either update the window is the old survivors in order plus the one new point, all within ten minutes of `now` |
| TargetLedger.OffsetFixedAfterFirst | server.js:199-209 | the offset is adjusted only by the first event; afterwards the logical seq is the fixed offset plus the tool's seq |
| TargetLedger.RestartContinuity | server.js:54-60 | after reloading, the first event's logical seq is the last bucket's seq plus the tool's seq, for replies and lost probes alike |
| TargetLedger.RestartFromFifty | server.js:199-218 | persisted seq 50 and tool seq 1 give logical seq 51 with no gap and no loss |
| TargetLedger.SpanConservation | server.js:209-264 | a reply keeps `received + lost - lastSeq`; a lost probe keeps it exactly when its seq directly follows the last one |
| TargetLedger.RepeatedSeqLowersLost | server.js:211-215 | a reply whose seq does not exceed the last appends one gap with the negative count `seq - last - 1` and adds that count to `lost` |
| TargetLedger.ReplayScenario | server.js:209-264 | replies 1, 2, 4 give received 3, lost 1, gaps `[{3,3,1}]`; then lost probe 5 gives lost 2 and adds `{5,5,1}` |
| TargetLedger.OtherLinesIgnored | server.js:247-248 | a line without `icmp_seq=<digits>` leaves the ledger unchanged |
| Aggregator.IntervalStart | server.js:80 | the interval start is aligned to ten minutes and at most ten minutes before `t` |
| Aggregator.IntervalStartUnique | server.js:80-82 | the interval start is the only aligned point within one interval of `t` |
| Aggregator.FindBucket | server.js:98-101 | finds the first bucket with the interval's timestamp, or reports that none has it |
| Aggregator.Or | server.js:116 | `a || b` on numbers is one of its operands and is falsy only when both are (also server.js:130) |
| Aggregator.MeanOrNull | server.js:117-119 | the bucket RTT is null exactly when there are no values to average |
| Aggregator.MergedBucket | server.js:104-122 | the merged bucket carries the interval start and `aggregated`; its RTT is null iff neither it nor the batch had one; its seq is the batch's first seq unless that is 0 |
| Aggregator.NewBucket | server.js:125-136 | the new bucket carries the interval start and `aggregated`; its RTT is null iff the batch has none; its seq is `batch[0].seq || lastSeq || 0` |
| Aggregator.Fold | server.js:97-138 | folding keeps the bucket count when a bucket for the interval exists and adds one otherwise; afterwards some bucket carries the interval's start |
| Aggregator.Aggregate | server.js:76-144 | a pass changes only the window, the buckets and the aggregation time; the window never grows; buckets are never removed and at most one is added |
| Aggregator.CombinedHistory | server.js:304-311 | the combined history holds each bucket and each window point exactly once |
| Aggregator.AggregateWindow | server.js:140-143 | a pass keeps exactly the window points with no timestamp or from the current interval on, and leaves counters, gaps and sequence fields |
| Aggregator.AggregateTime | server.js:89-144 | an empty batch leaves buckets and aggregation time; a non-empty batch sets the aggregation time to the previous interval's start |
| Aggregator.AggregateIdempotent | server.js:75-145 | a second pass at the same time changes nothing |
| Aggregator.AggregateHasInterval | server.js:97-144 | a pass that finds points of the interval that just ended leaves a bucket stamped with that interval's start and records the start as the aggregation time |
| Aggregator.FoldShape | server.js:97-138 | an existing bucket is replaced at its index with everything else kept; otherwise the list gains the new bucket and comes out sorted |
| Aggregator.FoldStrictlySorted | server.js:97-138 | folding keeps the buckets strictly sorted (no interval twice) and adds at most one |
| Aggregator.FoldIntervalUnique | server.js:97-138 | on strictly sorted buckets, exactly one bucket carries the interval's start after folding |
| Aggregator.FoldIntoNone | server.js:123-137 | folding into an empty bucket list gives exactly the one new bucket |
| Aggregator.ThreeRepliesWindow | server.js:209-225 | replies 1, 2, 3 on a fresh target, a millisecond apart, leave exactly those three points in the window, `lastSeq` 3 and no buckets |
| Aggregator.ReplyAppends | server.js:220-225 | a reply whose window holds nothing old enough to evict just appends its point |
| Aggregator.FirstPassOneBucket | server.js:123-137 | with no buckets and a window inside the interval that just ended, a pass makes one new bucket of the whole window |
| Aggregator.SeqReusedAfterRestart | server.js:54-59 | replies 1-3 in one interval, a pass, a reload from the bucket (seq 1, from server.js:130), then tool seq 1 gives logical seq 2 a second time |
| Aggregator.AggregateStrictlySorted | server.js:75-145 | a pass keeps the buckets strictly sorted |
| Aggregator.FoldRtt | server.js:105-136 | the folded bucket's RTT is null exactly when no point of the batch (nor the merged bucket) had one |
| Aggregator.CombinedHistorySorted | server.js:304-311 | the combined history is a permutation of buckets plus window; when every timestamp is truthy it is in timestamp order |
| Server.Target.constructor | server.js:17-40 | a record holding the given ledger |
| Server.Target.Restore | server.js:48-60 | copies the persisted fields in place and, with buckets, the last bucket's time and seq; on a fresh record the result is `Hydrate` |
| Server.Target.AdjustOffsetOnce | server.js:199-206 | performs `StartOnce` in place |
| Server.Target.HandleSuccess | server.js:196-225 | performs `OnSuccess` in place; keeps `GapTotal(gaps) - lost` and well-formed gaps |
| Server.Target.HandleUnreachable | server.js:249-269 | performs `OnUnreachable` in place; keeps `GapTotal(gaps) - lost` and well-formed gaps |
| Server.Target.HandlePingData | server.js:189-289 | performs `OnLine` in place: reply, lost probe or nothing, as the line is classified; keeps `GapTotal(gaps) - lost`, well-formed gaps and the buckets; after a probe line the window holds only the last ten minutes |
| Server.Target.AggregatePass | server.js:76-144 | performs `Aggregate` in place and keeps the buckets strictly sorted |
| Server.Load | server.js:17-62 | two distinct fresh records, each in the state `Startup` gives its address |
| Server.AggregateAndSave | server.js:75-145 | every target's record becomes `Aggregate` of its old record at the same `now` |

## Left out

- Express, the static files, the SSE endpoint and `broadcast`: network I/O, outside the ledger.
- Spawning the `ping` processes and wiring their output: process control. Each chunk of output is the `line` argument of `HandlePingData`.
- Reading, parsing and writing `aggregated.json`: file I/O and JSON. The decoded file is the `Option<map<string, Persisted>>` argument, where `None` stands for a missing, empty or unreadable file. A partly malformed entry (a wrong type in one field) is not modelled.
- `Date.now` and `setInterval`: the time is the `now` parameter, and each timer tick is one call.
- `calculateAvgRtt`, `avgRtt`, `lossPercent` and the `toFixed(2)` rounding of bucket RTTs: floating-point formatting. Bucket RTTs are exact real means.
- `Number(ok[2])`: the conversion of the RTT text is the `number` parameter.
- `data.toString().trim()`: trimming cannot change which pattern matches or what it captures, so the line is classified as given.
- Aggregator.CombinedHistorySorted: states order only when every timestamp is truthy, because with a zero timestamp the comparator is not a consistent order (`HistoryOrderCycle`) and the result depends on the sort algorithm.
- Sequence numbers are unbounded integers; JavaScript numbers lose precision above 2^53, which is not modelled.
- Aggregator.IntervalStart: the interval length is the constant ten minutes of `aggregateAndSave`, not a parameter.
