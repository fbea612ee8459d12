/** Classification of one chunk of `ping` output by the two regular expressions of
    `handlePingData`: `/icmp_seq=(\d+).*time=([\d.]+)/` for a reply and, failing that,
    `/icmp_seq=(\d+)/` for a probe that got no reply. Matching is written out as a scan. */
module PingLine {
  import opened Wrappers

  /** What one chunk of output means to the ledger. */
  datatype Event =
    | Success(pingSeq: nat, rttText: string)  // the two capture groups
    | Unreachable(pingSeq: nat)
    | NotAProbeLine

  const SeqMarker: string := "icmp_seq="
  const TimeMarker: string := "time="

  /** `\d` in a JavaScript regular expression: ASCII digits only. */
  predicate IsDigit(c: char) {
    '0' <= c <= '9'
  }

  /** `[\d.]`. */
  predicate IsRttChar(c: char) {
    IsDigit(c) || c == '.'
  }

  /** The characters `.` does not match (no `s` flag). */
  predicate IsLineTerminator(c: char) {
    c == '\n' || c == '\r' || c == '\U{2028}' || c == '\U{2029}'
  }

  // ---------------------------------------------------------------------------
  // Character runs and numbers
  // ---------------------------------------------------------------------------

  /** Length of the greedy `\d+` (or `\d*`) run starting at `i`. */
  function DigitRun(s: string, i: nat): (n: nat)
    requires i <= |s|
    ensures i + n <= |s|
    ensures forall k :: i <= k < i + n ==> IsDigit(s[k])
    ensures i + n == |s| || !IsDigit(s[i + n])
    decreases |s| - i
  {
    if i < |s| && IsDigit(s[i]) then 1 + DigitRun(s, i + 1) else 0
  }

  /** Length of the greedy `[\d.]+` run starting at `i`. */
  function RttRun(s: string, i: nat): (n: nat)
    requires i <= |s|
    ensures i + n <= |s|
    ensures forall k :: i <= k < i + n ==> IsRttChar(s[k])
    ensures i + n == |s| || !IsRttChar(s[i + n])
    decreases |s| - i
  {
    if i < |s| && IsRttChar(s[i]) then 1 + RttRun(s, i + 1) else 0
  }

  function DigitValue(c: char): nat
    requires IsDigit(c)
  {
    c as int - '0' as int
  }

  /** `Number(digits)` for a string of decimal digits (leading zeros allowed). */
  function DigitsValue(d: string): nat
    requires forall k :: 0 <= k < |d| ==> IsDigit(d[k])
  {
    if d == [] then 0 else 10 * DigitsValue(d[..|d| - 1]) + DigitValue(d[|d| - 1])
  }

  /** The decimal spelling of `n`, as `ping` prints it. */
  function Digits(n: nat): (d: string)
    ensures |d| > 0
    ensures forall k :: 0 <= k < |d| ==> IsDigit(d[k])
  {
    var last := ['0' + (n % 10) as char];
    if n < 10 then last else Digits(n / 10) + last
  }

  /** Reading back a printed sequence number gives the number. */
  lemma {:induction false} DigitsRoundTrip(n: nat)
    ensures DigitsValue(Digits(n)) == n
  {
    var d := Digits(n);
    assert d[..|d| - 1] == (if n < 10 then [] else Digits(n / 10));
    if n >= 10 {
      DigitsRoundTrip(n / 10);
    }
  }

  // ---------------------------------------------------------------------------
  // Where the patterns can match
  // ---------------------------------------------------------------------------

  /** `icmp_seq=` followed by at least one digit starts at `i`. */
  predicate SeqMarkerAt(s: string, i: nat) {
    i + 9 < |s| && s[i..i + 9] == SeqMarker && IsDigit(s[i + 9])
  }

  /** `time=` followed by at least one `[\d.]` starts at `k`. */
  predicate TimeMarkerAt(s: string, k: nat) {
    k + 5 < |s| && s[k..k + 5] == TimeMarker && IsRttChar(s[k + 5])
  }

  /** No line terminator in `s[a..b]`, so `.*` can cross it. */
  predicate SameLine(s: string, a: nat, b: nat)
    requires a <= b <= |s|
  {
    forall m :: a <= m < b ==> !IsLineTerminator(s[m])
  }

  /** The reply pattern matches from `i` with its `time=` at `k`. */
  predicate ReplyMatch(s: string, i: nat, k: nat) {
    SeqMarkerAt(s, i) && i + 9 + DigitRun(s, i + 9) <= k && TimeMarkerAt(s, k) && SameLine(s, i, k)
  }

  /** The reply pattern matches from `i`. */
  ghost predicate ReplyAt(s: string, i: nat) {
    exists k :: ReplyMatch(s, i, k)
  }

  // ---------------------------------------------------------------------------
  // The scan
  // ---------------------------------------------------------------------------

  /** The end of the line that contains position `j`. */
  function LineEnd(s: string, j: nat): (e: nat)
    requires j <= |s|
    ensures j <= e <= |s|
    ensures SameLine(s, j, e)
    ensures e == |s| || IsLineTerminator(s[e])
    decreases |s| - j
  {
    if j == |s| || IsLineTerminator(s[j]) then j else LineEnd(s, j + 1)
  }

  /** The last `time=` marker in `[lo, hi)`: greedy `.*` backtracks from the line's end. */
  function LastTime(s: string, lo: nat, hi: nat): (r: Option<nat>)
    requires lo <= hi <= |s|
    ensures r.Some? ==> lo <= r.value < hi && TimeMarkerAt(s, r.value)
    ensures r.Some? ==> forall k :: r.value < k < hi ==> !TimeMarkerAt(s, k)
    ensures r.None? ==> forall k :: lo <= k < hi ==> !TimeMarkerAt(s, k)
    decreases hi - lo
  {
    if lo == hi then None
    else if TimeMarkerAt(s, hi - 1) then Some(hi - 1)
    else LastTime(s, lo, hi - 1)
  }

  /** The `time=` position the reply pattern uses when it starts at a sequence marker `i`:
      the last one on the line after the digits. */
  function ReplyTimeAt(s: string, i: nat): (r: Option<nat>)
    requires SeqMarkerAt(s, i)
    ensures r.Some? <==> ReplyAt(s, i)
    ensures r.Some? ==> ReplyMatch(s, i, r.value)
    ensures r.Some? ==> forall k :: r.value < k ==> !ReplyMatch(s, i, k)
  {
    var j := i + 9 + DigitRun(s, i + 9);
    var e := LineEnd(s, j);
    ReplyLine(s, i, j, e);
    LastTime(s, j, e)
  }

  /** Past the digits, the reply pattern can only find its `time=` on the rest of the line. */
  lemma ReplyLine(s: string, i: nat, j: nat, e: nat)
    requires SeqMarkerAt(s, i) && j == i + 9 + DigitRun(s, i + 9) && e == LineEnd(s, j)
    ensures forall k: nat :: ReplyMatch(s, i, k) <==> j <= k < e && TimeMarkerAt(s, k)
  {
    assert SameLine(s, i, j) by {
      forall m | i <= m < j ensures !IsLineTerminator(s[m]) {
        if m < i + 9 {
          assert s[m] == s[i..i + 9][m - i];
        }
      }
    }
    assert forall k: nat :: ReplyMatch(s, i, k) ==> k < e;
    forall k: nat | j <= k < e && TimeMarkerAt(s, k) ensures ReplyMatch(s, i, k) {
      forall m | i <= m < k ensures !IsLineTerminator(s[m]) {
        if m >= j {
          assert j <= m < e;
        }
      }
    }
  }

  /** The leftmost start at or after `from` where the reply pattern matches. */
  function FindReply(s: string, from: nat): (r: Option<nat>)
    requires from <= |s|
    ensures r.Some? ==> from <= r.value < |s| && ReplyAt(s, r.value)
    ensures forall i :: from <= i && (r.None? || i < r.value) ==> !ReplyAt(s, i)
    decreases |s| - from
  {
    if from == |s| then
      assert forall i :: from <= i ==> !SeqMarkerAt(s, i);
      None
    else if SeqMarkerAt(s, from) && ReplyTimeAt(s, from).Some? then Some(from)
    else FindReply(s, from + 1)
  }

  /** The leftmost start at or after `from` where `icmp_seq=\d` matches. */
  function FindSeq(s: string, from: nat): (r: Option<nat>)
    requires from <= |s|
    ensures r.Some? ==> from <= r.value < |s| && SeqMarkerAt(s, r.value)
    ensures forall i :: from <= i && (r.None? || i < r.value) ==> !SeqMarkerAt(s, i)
    decreases |s| - from
  {
    if from == |s| then None
    else if SeqMarkerAt(s, from) then Some(from)
    else FindSeq(s, from + 1)
  }

  /** Capture group 1 read as a number: the digits after the marker at `i`. */
  function SeqValueAt(s: string, i: nat): nat
    requires SeqMarkerAt(s, i)
  {
    DigitsValue(s[i + 9..i + 9 + DigitRun(s, i + 9)])
  }

  /** Capture group 2: the `[\d.]+` run after the marker at `k`. */
  function RttTextAt(s: string, k: nat): string
    requires TimeMarkerAt(s, k)
  {
    s[k + 5..k + 5 + RttRun(s, k + 5)]
  }

  /** A reply when the reply pattern matches anywhere, else a lost probe when
      `icmp_seq=<digits>` occurs, else nothing; never an error. A reply captures the
      digits after the leftmost marker the pattern matches from and the RTT text after
      the last `time=` on that line; a lost probe captures the digits after the
      leftmost marker. */
  function Classify(line: string): (e: Event)
    ensures e.Success? <==> exists i :: ReplyAt(line, i)
    ensures e.Unreachable? <==> (exists i :: SeqMarkerAt(line, i)) && !(exists i :: ReplyAt(line, i))
    ensures e.NotAProbeLine? <==> forall i :: !SeqMarkerAt(line, i)
    ensures e.Success? ==>
      exists i: nat, k: nat ::
        && ReplyMatch(line, i, k)
        && (forall j: nat :: j < i ==> !ReplyAt(line, j))
        && (forall k': nat :: k < k' ==> !ReplyMatch(line, i, k'))
        && e == Success(SeqValueAt(line, i), RttTextAt(line, k))
    ensures e.Unreachable? ==>
      exists i: nat ::
        && SeqMarkerAt(line, i)
        && (forall j: nat :: j < i ==> !SeqMarkerAt(line, j))
        && e == Unreachable(SeqValueAt(line, i))
  {
    match FindReply(line, 0)
    case Some(i) =>
      var k := ReplyTimeAt(line, i).value;
      Success(SeqValueAt(line, i), RttTextAt(line, k))
    case None =>
      assert forall i :: ReplyAt(line, i) ==> SeqMarkerAt(line, i);
      match FindSeq(line, 0)
      case Some(i) => Unreachable(SeqValueAt(line, i))
      case None => NotAProbeLine
  }

  // ---------------------------------------------------------------------------
  // Reading back what ping prints
  // ---------------------------------------------------------------------------

  /** A reply line `icmp_seq=<n> time=<t>` is read back as exactly `n` and `t`. */
  lemma ReplyLineRoundTrip(n: nat, t: string)
    requires |t| > 0 && forall m :: 0 <= m < |t| ==> IsRttChar(t[m])
    ensures Classify(SeqMarker + Digits(n) + " " + TimeMarker + t) == Success(n, t)
  {
    var d := Digits(n);
    var s := SeqMarker + d + " " + TimeMarker + t;
    var j := 9 + |d|;
    ReplyLineShape(d, t);
    ReplyLineScan(s, j);
    ReplyLineCapture(d, t);
    ClassifyReply(s, 0, j + 1);
    DigitsRoundTrip(n);
  }

  /** Where the scan puts a reply's two capture groups. */
  lemma ClassifyReply(s: string, i: nat, k: nat)
    requires FindReply(s, 0) == Some(i) && SeqMarkerAt(s, i)
    requires ReplyTimeAt(s, i) == Some(k) && TimeMarkerAt(s, k)
    ensures Classify(s) == Success(SeqValueAt(s, i), RttTextAt(s, k))
  {
  }

  lemma ReplyLineShape(d: string, t: string)
    requires |d| > 0 && forall m :: 0 <= m < |d| ==> IsDigit(d[m])
    requires |t| > 0 && forall m :: 0 <= m < |t| ==> IsRttChar(t[m])
    ensures var s := SeqMarker + d + " " + TimeMarker + t; var j := 9 + |d|;
      && SeqMarkerAt(s, 0) && DigitRun(s, 9) == |d| && SeqValueAt(s, 0) == DigitsValue(d)
      && j + 6 < |s| && s[j] == ' ' && s[j + 1..j + 6] == TimeMarker
      && forall m :: j + 6 <= m < |s| ==> IsRttChar(s[m])
  {
    var a := SeqMarker + d;
    var b := a + " ";
    var c := b + TimeMarker;
    var s := c + t;
    var j := 9 + |d|;
    assert |a| == j && |b| == j + 1 && |c| == j + 6;
    assert forall m :: 0 <= m < 9 ==> s[m] == a[m] == SeqMarker[m];
    assert forall m :: 9 <= m < j ==> s[m] == a[m] == d[m - 9];
    assert s[j] == b[j] == ' ';
    assert s[j + 1..j + 6] == c[j + 1..j + 6] == TimeMarker;
    assert forall m :: j + 6 <= m < |s| ==> s[m] == t[m - j - 6];
    SeqMarkerStart(s, d);
  }

  /** A string whose first nine characters are `icmp_seq=` and whose next ones are the
      digit run `d` has `d` as its first capture. */
  lemma SeqMarkerStart(s: string, d: string)
    requires |d| > 0 && forall m :: 0 <= m < |d| ==> IsDigit(d[m])
    requires 9 + |d| <= |s| && forall m :: 0 <= m < 9 ==> s[m] == SeqMarker[m]
    requires forall m :: 9 <= m < 9 + |d| ==> s[m] == d[m - 9]
    requires 9 + |d| == |s| || !IsDigit(s[9 + |d|])
    ensures SeqMarkerAt(s, 0) && DigitRun(s, 9) == |d| && SeqValueAt(s, 0) == DigitsValue(d)
  {
    assert s[..9] == SeqMarker;
    DigitRunExact(s, 9, 9 + |d|);
    assert s[9..9 + |d|] == d;
  }

  /** Where the digits end at `j` and the rest of the string is ` time=` and an RTT,
      the reply pattern matches at 0 with its `time=` at `j + 1`. */
  lemma ReplyLineScan(s: string, j: nat)
    requires SeqMarkerAt(s, 0) && j == 9 + DigitRun(s, 9)
    requires j + 6 < |s| && s[j] == ' ' && s[j + 1..j + 6] == TimeMarker
    requires forall m :: j + 6 <= m < |s| ==> IsRttChar(s[m])
    ensures FindReply(s, 0) == Some(0)
    ensures ReplyTimeAt(s, 0) == Some(j + 1)
  {
    ReplyTailIsOneLine(s, j);
    ReplyTailLastTime(s, j);
  }

  lemma ReplyTailIsOneLine(s: string, j: nat)
    requires j + 6 < |s| && s[j] == ' ' && s[j + 1..j + 6] == TimeMarker
    requires forall m :: j + 6 <= m < |s| ==> IsRttChar(s[m])
    ensures LineEnd(s, j) == |s|
  {
    forall m | j <= m < |s| ensures !IsLineTerminator(s[m]) {
      if j < m < j + 6 {
        assert s[m] == s[j + 1..j + 6][m - j - 1];
      }
    }
    LineEndAtEnd(s, j);
  }

  lemma ReplyTailLastTime(s: string, j: nat)
    requires j + 6 < |s| && s[j] == ' ' && s[j + 1..j + 6] == TimeMarker
    requires forall m :: j + 6 <= m < |s| ==> IsRttChar(s[m])
    ensures LastTime(s, j, |s|) == Some(j + 1)
  {
    var k := j + 1;
    assert TimeMarkerAt(s, k);
    forall k': nat | k < k' < |s| ensures !TimeMarkerAt(s, k') {
      if k' + 5 < |s| {
        assert s[k'] == s[k'..k' + 5][0];
        if k' < j + 6 {
          assert s[k'] == s[j + 1..j + 6][k' - j - 1];
        }
      }
    }
  }

  lemma ReplyLineCapture(d: string, t: string)
    requires |t| > 0 && forall m :: 0 <= m < |t| ==> IsRttChar(t[m])
    ensures var s := SeqMarker + d + " " + TimeMarker + t;
      TimeMarkerAt(s, |d| + 10) ==> RttTextAt(s, |d| + 10) == t
  {
    var head := SeqMarker + d + " " + TimeMarker;
    var s := head + t;
    var k := |d| + 10;
    assert |head| == k + 5;
    assert forall m :: k + 5 <= m < |s| ==> s[m] == t[m - k - 5];
    RttRunToEnd(s, k + 5);
    assert s[k + 5..|s|] == t;
  }

  lemma {:induction false} LineEndAtEnd(s: string, j: nat)
    requires j <= |s|
    requires forall m :: j <= m < |s| ==> !IsLineTerminator(s[m])
    ensures LineEnd(s, j) == |s|
    decreases |s| - j
  {
    if j < |s| {
      LineEndAtEnd(s, j + 1);
    }
  }

  /** A line holding only `icmp_seq=<n>` is read as a lost probe with that number. */
  lemma SeqOnlyLineRoundTrip(n: nat)
    ensures Classify(SeqMarker + Digits(n)) == Unreachable(n)
  {
    var d := Digits(n);
    var s := SeqMarker + d;
    assert forall m :: 0 <= m < 9 ==> s[m] == SeqMarker[m];
    assert forall m :: 9 <= m < 9 + |d| ==> s[m] == d[m - 9];
    SeqMarkerStart(s, d);
    DigitsRoundTrip(n);
    assert forall i: nat, k: nat :: !ReplyMatch(s, i, k);
    assert FindSeq(s, 0) == Some(0);
  }

  lemma {:induction false} DigitRunExact(s: string, i: nat, j: nat)
    requires i <= j <= |s|
    requires forall m :: i <= m < j ==> IsDigit(s[m])
    requires j == |s| || !IsDigit(s[j])
    ensures DigitRun(s, i) == j - i
    decreases j - i
  {
    if i < j {
      DigitRunExact(s, i + 1, j);
    }
  }

  lemma {:induction false} RttRunToEnd(s: string, i: nat)
    requires i <= |s|
    requires forall m :: i <= m < |s| ==> IsRttChar(s[m])
    ensures RttRun(s, i) == |s| - i
    decreases |s| - i
  {
    if i < |s| {
      RttRunToEnd(s, i + 1);
    }
  }
}
