/** The rolling recent peak of the mempool depth (notePeakLocked,
    internal/explorer/mempool.go): a maximum per ten-minute bucket, pruned to six
    buckets, against the complete log of what was ever noted. */
module PeakWindow {
  const BUCKET_NS := 600_000_000_000
  const BUCKETS := 6
  const SPAN_NS := (BUCKETS - 1) * BUCKET_NS

  datatype PeakBucket = PeakBucket(start: int, max: int)

  /** One note: the bucket its wall-clock time truncates to, and the depth. */
  datatype Note = Note(bucket: int, total: int)

  function Truncate(now: nat): (b: int)
    ensures OnGrid(b) && b <= now < b + BUCKET_NS
  {
    now - now % BUCKET_NS
  }

  lemma TruncateMonotone(b: int, now: nat)
    requires OnGrid(b) && b <= now
    ensures b <= Truncate(now)
  {
  }

  function Max(a: int, b: int): int {
    if a >= b then a else b
  }

  function Recorded(peaks: seq<PeakBucket>, n: Note): seq<PeakBucket> {
    if |peaks| > 0 && peaks[|peaks| - 1].start == n.bucket then
      peaks[|peaks| - 1 := PeakBucket(n.bucket, Max(peaks[|peaks| - 1].max, n.total))]
    else peaks + [PeakBucket(n.bucket, n.total)]
  }

  function Trimmed(peaks: seq<PeakBucket>, cutoff: int): seq<PeakBucket> {
    if |peaks| > 0 && peaks[0].start < cutoff then Trimmed(peaks[1..], cutoff) else peaks
  }

  function Noted(peaks: seq<PeakBucket>, n: Note): seq<PeakBucket> {
    Trimmed(Recorded(peaks, n), n.bucket - SPAN_NS)
  }

  function PeakOf(peaks: seq<PeakBucket>, total: int): int {
    if peaks == [] then total else Max(PeakOf(peaks[..|peaks| - 1], total), peaks[|peaks| - 1].max)
  }

  /** The window after a whole log of notes. */
  function PeaksAfter(log: seq<Note>): seq<PeakBucket> {
    if log == [] then [] else Noted(PeaksAfter(log[..|log| - 1]), log[|log| - 1])
  }

  /** The notes come with a nondecreasing wall clock. */
  ghost predicate Clocked(log: seq<Note>) {
    && (forall i :: 0 <= i < |log| ==> OnGrid(log[i].bucket))
    && (forall i, j :: 0 <= i < j < |log| ==> log[i].bucket <= log[j].bucket)
  }

  /** m is the largest total noted in a bucket that starts at lo or later. */
  ghost predicate IsMaxSince(m: int, log: seq<Note>, lo: int) {
    && (exists i :: 0 <= i < |log| && log[i].bucket >= lo && log[i].total == m)
    && (forall i :: 0 <= i < |log| && log[i].bucket >= lo ==> log[i].total <= m)
  }

  ghost predicate OnGrid(b: int) {
    b % BUCKET_NS == 0
  }

  ghost predicate Increasing(peaks: seq<PeakBucket>) {
    forall i, j :: 0 <= i < j < |peaks| ==> peaks[i].start < peaks[j].start
  }

  ghost predicate WasNoted(b: PeakBucket, log: seq<Note>) {
    Note(b.start, b.max) in log
  }

  ghost predicate Dominated(n: Note, peaks: seq<PeakBucket>) {
    exists j :: 0 <= j < |peaks| && peaks[j].start == n.bucket && peaks[j].max >= n.total
  }

  /** Every kept maximum was noted, and every note from lo on is dominated by one. */
  ghost predicate Tracks(peaks: seq<PeakBucket>, log: seq<Note>, lo: int) {
    && Increasing(peaks)
    && (forall j {:trigger WasNoted(peaks[j], log)} :: 0 <= j < |peaks| ==> WasNoted(peaks[j], log))
    && (forall n {:trigger Dominated(n, peaks)} :: n in log && n.bucket >= lo ==> Dominated(n, peaks))
  }

  lemma RecordedDominates(peaks: seq<PeakBucket>, n: Note, x: Note)
    requires Dominated(x, peaks) || x == n
    ensures Dominated(x, Recorded(peaks, n))
  {
    var r := Recorded(peaks, n);
    if x == n {
      assert r[|r| - 1].start == n.bucket && r[|r| - 1].max >= n.total;
    } else {
      var j :| 0 <= j < |peaks| && peaks[j].start == x.bucket && peaks[j].max >= x.total;
      assert r[j].start == peaks[j].start && r[j].max >= peaks[j].max;
    }
  }

  lemma RecordedIncreasing(peaks: seq<PeakBucket>, n: Note)
    requires Increasing(peaks)
    requires |peaks| > 0 ==> peaks[|peaks| - 1].start <= n.bucket
    ensures Increasing(Recorded(peaks, n))
  {
    var r := Recorded(peaks, n);
    forall i, j | 0 <= i < j < |r| ensures r[i].start < r[j].start {
      assert r[i].start == peaks[i].start;
      if j < |peaks| {
        assert r[j].start == peaks[j].start;
      } else if i < |peaks| - 1 {
        assert peaks[i].start < peaks[|peaks| - 1].start;
      }
    }
  }

  lemma RecordedTracks(peaks: seq<PeakBucket>, log: seq<Note>, lo: int, n: Note)
    requires Tracks(peaks, log, lo)
    requires |peaks| > 0 ==> peaks[|peaks| - 1].start <= n.bucket
    ensures Tracks(Recorded(peaks, n), log + [n], lo)
  {
    var r, more := Recorded(peaks, n), log + [n];
    assert forall x :: x in more <==> x in log || x == n;
    RecordedIncreasing(peaks, n);
    forall j | 0 <= j < |r| ensures WasNoted(r[j], more) {
      if j < |peaks| {
        assert WasNoted(peaks[j], log);
      }
    }
    forall x | x in more && x.bucket >= lo ensures Dominated(x, r) {
      RecordedDominates(peaks, n, x);
    }
  }

  lemma TailTracks(peaks: seq<PeakBucket>, log: seq<Note>, lo: int, cutoff: int)
    requires Tracks(peaks, log, lo) && lo <= cutoff
    requires |peaks| > 0 && peaks[0].start < cutoff
    ensures Tracks(peaks[1..], log, cutoff)
  {
    var tail := peaks[1..];
    forall n | n in log && n.bucket >= cutoff ensures Dominated(n, tail) {
      assert Dominated(n, peaks);
      var j :| 0 <= j < |peaks| && peaks[j].start == n.bucket && peaks[j].max >= n.total;
      assert tail[j - 1] == peaks[j];
    }
  }

  lemma TracksLater(peaks: seq<PeakBucket>, log: seq<Note>, lo: int, cutoff: int)
    requires Tracks(peaks, log, lo) && lo <= cutoff
    ensures Tracks(peaks, log, cutoff)
  {
  }

  lemma {:induction false} TrimmedEnds(peaks: seq<PeakBucket>, cutoff: int)
    requires |peaks| > 0 && peaks[|peaks| - 1].start >= cutoff
    ensures |Trimmed(peaks, cutoff)| > 0 && Trimmed(peaks, cutoff)[0].start >= cutoff
    ensures Trimmed(peaks, cutoff)[|Trimmed(peaks, cutoff)| - 1] == peaks[|peaks| - 1]
  {
    if peaks[0].start < cutoff {
      TrimmedEnds(peaks[1..], cutoff);
    }
  }

  lemma {:induction false} TrimmedTracks(peaks: seq<PeakBucket>, log: seq<Note>, lo: int, cutoff: int)
    requires Tracks(peaks, log, lo) && lo <= cutoff
    ensures Tracks(Trimmed(peaks, cutoff), log, cutoff)
    decreases |peaks|
  {
    if |peaks| > 0 && peaks[0].start < cutoff {
      TailTracks(peaks, log, lo, cutoff);
      TrimmedTracks(peaks[1..], log, cutoff, cutoff);
    } else {
      TracksLater(peaks, log, lo, cutoff);
      assert Trimmed(peaks, cutoff) == peaks;
    }
  }

  /** The window is exact down to the cutoff of the last note. */
  ghost predicate Exact(peaks: seq<PeakBucket>, log: seq<Note>, last: int) {
    && Tracks(peaks, log, last - SPAN_NS)
    && |peaks| > 0 && peaks[|peaks| - 1].start == last && peaks[0].start >= last - SPAN_NS
  }

  lemma NotedExact(peaks: seq<PeakBucket>, log: seq<Note>, lo: int, n: Note)
    requires Tracks(peaks, log, lo) && lo <= n.bucket - SPAN_NS
    requires |peaks| > 0 ==> peaks[|peaks| - 1].start <= n.bucket
    ensures Exact(Noted(peaks, n), log + [n], n.bucket)
  {
    var recorded, cutoff := Recorded(peaks, n), n.bucket - SPAN_NS;
    assert Tracks(Trimmed(recorded, cutoff), log + [n], cutoff) by {
      RecordedTracks(peaks, log, lo, n);
      TrimmedTracks(recorded, log + [n], lo, cutoff);
    }
    TrimmedEnds(recorded, cutoff);
  }

  lemma {:induction false} WindowExact(log: seq<Note>)
    requires Clocked(log) && log != []
    ensures Exact(PeaksAfter(log), log, log[|log| - 1].bucket)
  {
    var k := |log| - 1;
    var front := log[..k];
    assert log == front + [log[k]];
    if k == 0 {
      NotedExact([], [], log[k].bucket - SPAN_NS, log[k]);
    } else {
      WindowExact(front);
      assert front[k - 1] == log[k - 1];
      NotedExact(PeaksAfter(front), front, front[k - 1].bucket - SPAN_NS, log[k]);
    }
  }

  lemma {:induction false} BucketsApart(peaks: seq<PeakBucket>, i: nat)
    requires Increasing(peaks) && i < |peaks|
    requires forall j :: 0 <= j < |peaks| ==> OnGrid(peaks[j].start)
    ensures peaks[i].start >= peaks[0].start + i * BUCKET_NS
  {
    if i > 0 {
      BucketsApart(peaks, i - 1);
    }
  }

  lemma AtMostSixBuckets(peaks: seq<PeakBucket>, log: seq<Note>, last: int)
    requires Clocked(log) && Exact(peaks, log, last)
    ensures |peaks| <= BUCKETS
  {
    forall j | 0 <= j < |peaks| ensures OnGrid(peaks[j].start) {
      assert WasNoted(peaks[j], log);
    }
    BucketsApart(peaks, |peaks| - 1);
  }

  lemma {:induction false} PeakOfBounds(peaks: seq<PeakBucket>, total: int)
    ensures PeakOf(peaks, total) >= total
    ensures forall j :: 0 <= j < |peaks| ==> peaks[j].max <= PeakOf(peaks, total)
    ensures PeakOf(peaks, total) == total || exists j :: 0 <= j < |peaks| && peaks[j].max == PeakOf(peaks, total)
  {
    if peaks != [] {
      var front := peaks[..|peaks| - 1];
      PeakOfBounds(front, total);
      if PeakOf(peaks, total) != total && PeakOf(peaks, total) == PeakOf(front, total) {
        var j :| 0 <= j < |front| && front[j].max == PeakOf(front, total);
        assert peaks[j].max == PeakOf(peaks, total);
      }
    }
  }

  lemma ExactPeak(peaks: seq<PeakBucket>, log: seq<Note>, n: Note)
    requires Exact(peaks, log, n.bucket) && n in log
    ensures IsMaxSince(PeakOf(peaks, n.total), log, n.bucket - SPAN_NS)
  {
    var m, lo := PeakOf(peaks, n.total), n.bucket - SPAN_NS;
    PeakOfBounds(peaks, n.total);
    if m == n.total {
      var i :| 0 <= i < |log| && log[i] == n;
    } else {
      var j :| 0 <= j < |peaks| && peaks[j].max == m;
      assert peaks[0].start <= peaks[j].start;
      assert WasNoted(peaks[j], log);
      var i :| 0 <= i < |log| && log[i] == Note(peaks[j].start, peaks[j].max);
    }
    forall i | 0 <= i < |log| && log[i].bucket >= lo ensures log[i].total <= m {
      assert Dominated(log[i], peaks);
    }
  }

  /** Fixed memory loses nothing: with at most six buckets, the returned peak is the
      maximum of everything ever noted in the current and five preceding buckets. */
  lemma PeakRefinesLog(log: seq<Note>)
    requires Clocked(log) && log != []
    ensures |PeaksAfter(log)| <= BUCKETS && Increasing(PeaksAfter(log))
    ensures var n := log[|log| - 1]; IsMaxSince(PeakOf(PeaksAfter(log), n.total), log, n.bucket - SPAN_NS)
  {
    var n := log[|log| - 1];
    WindowExact(log);
    AtMostSixBuckets(PeaksAfter(log), log, n.bucket);
    ExactPeak(PeaksAfter(log), log, n);
  }

  // ----- In times rather than buckets -------------------------------------------------

  /** A depth with the time at which it was noted. */
  datatype Depth = Depth(at: nat, total: int)

  function Bucketed(log: seq<Depth>): seq<Note> {
    seq(|log|, i requires 0 <= i < |log| => Note(Truncate(log[i].at), log[i].total))
  }

  ghost predicate Timed(log: seq<Depth>) {
    forall i, j :: 0 <= i < j < |log| ==> log[i].at <= log[j].at
  }

  /** m is the largest depth noted at lo or later. */
  ghost predicate IsMaxFrom(m: int, log: seq<Depth>, lo: int) {
    && (exists i :: 0 <= i < |log| && log[i].at >= lo && log[i].total == m)
    && (forall i :: 0 <= i < |log| && log[i].at >= lo ==> log[i].total <= m)
  }

  lemma TimedIsClocked(log: seq<Depth>)
    requires Timed(log)
    ensures Clocked(Bucketed(log))
  {
    forall i, j | 0 <= i < j < |log| ensures Bucketed(log)[i].bucket <= Bucketed(log)[j].bucket {
      TruncateMonotone(Truncate(log[i].at), log[j].at);
    }
  }

  lemma SameSideOfGrid(at: nat, lo: int)
    requires OnGrid(lo)
    ensures Truncate(at) >= lo <==> at >= lo
  {
    if at >= lo {
      TruncateMonotone(lo, at);
    }
  }

  lemma WindowStart(at: nat)
    ensures var lo := Truncate(at) - SPAN_NS;
      OnGrid(lo) && at - 3_600_000_000_000 < lo <= at - 3_000_000_000_000
  {
    assert Truncate(at) == at / BUCKET_NS * BUCKET_NS;
    assert Truncate(at) - SPAN_NS == (at / BUCKET_NS - 5) * BUCKET_NS;
  }

  lemma IsMaxInTime(m: int, log: seq<Depth>, lo: int)
    requires IsMaxSince(m, Bucketed(log), lo) && OnGrid(lo)
    ensures IsMaxFrom(m, log, lo)
  {
    hide Truncate, OnGrid;
    var notes := Bucketed(log);
    forall i | 0 <= i < |log| ensures notes[i].bucket >= lo <==> log[i].at >= lo {
      SameSideOfGrid(log[i].at, lo);
    }
    var i :| 0 <= i < |notes| && notes[i].bucket >= lo && notes[i].total == m;
    assert log[i].at >= lo && log[i].total == m;
    forall j | 0 <= j < |log| && log[j].at >= lo ensures log[j].total <= m {
      assert notes[j].bucket >= lo;
    }
  }

  lemma LastBucketed(log: seq<Depth>)
    requires log != []
    ensures |Bucketed(log)| == |log|
    ensures Bucketed(log)[|log| - 1] == Note(Truncate(log[|log| - 1].at), log[|log| - 1].total)
  {
    hide Truncate, OnGrid;
  }

  lemma PeakIsMaxFrom(log: seq<Depth>, lo: int)
    requires Timed(log) && log != [] && lo == Truncate(log[|log| - 1].at) - SPAN_NS && OnGrid(lo)
    ensures IsMaxFrom(PeakOf(PeaksAfter(Bucketed(log)), log[|log| - 1].total), log, lo)
  {
    hide *;
    LastBucketed(log);
    TimedIsClocked(log);
    PeakRefinesLog(Bucketed(log));
    IsMaxInTime(PeakOf(PeaksAfter(Bucketed(log)), log[|log| - 1].total), log, lo);
  }

  /** The returned peak is the largest depth noted since the start of the ten-minute bucket
      that lies five before the current one, so within the last 50 to 60 minutes. */
  lemma PeakRefinesTimes(log: seq<Depth>, lo: int)
    requires Timed(log) && log != [] && lo == Truncate(log[|log| - 1].at) - SPAN_NS
    ensures log[|log| - 1].at - 3_600_000_000_000 < lo <= log[|log| - 1].at - 3_000_000_000_000
    ensures IsMaxFrom(PeakOf(PeaksAfter(Bucketed(log)), log[|log| - 1].total), log, lo)
  {
    hide *;
    WindowStart(log[|log| - 1].at);
    PeakIsMaxFrom(log, lo);
  }

  /** The pruning loop: drop leading buckets that start before the cutoff. */
  method Trim(peaks: seq<PeakBucket>, cutoff: int) returns (kept: seq<PeakBucket>)
    ensures kept == Trimmed(peaks, cutoff)
  {
    kept := peaks;
    while |kept| > 0 && kept[0].start < cutoff
      invariant Trimmed(kept, cutoff) == Trimmed(peaks, cutoff)
      decreases |kept|
    {
      kept := kept[1..];
    }
  }

  /** The closing loop: the largest of the depth just noted and the kept maxima. */
  method Highest(peaks: seq<PeakBucket>, total: int) returns (peak: int)
    ensures peak == PeakOf(peaks, total)
  {
    peak := total;
    for i := 0 to |peaks|
      invariant peak == PeakOf(peaks[..i], total)
    {
      assert peaks[..i + 1][..i] == peaks[..i];
      peak := Max(peak, peaks[i].max);
    }
    assert peaks[..|peaks|] == peaks;
  }
}
