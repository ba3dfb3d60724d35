/** The fee-band histogram of the mempool (internal/explorer/queue.go), a pending
    transaction's place in it (derivePending, internal/explorer/tx.go) and the
    browser's estimate from the bands alone (web/src/components/MempoolQueue.tsx).
    Three separately written computations that must agree on one snapshot. */
module FeeQueue {
  import opened Collections
  import opened Snapshots

  const VBYTES_PER_BLOCK := 1_000_000
  const BAND_MINS: seq<real> := [15.0, 10.0, 6.0, 4.0, 1.0]

  datatype QueueBand = QueueBand(minSatPerVb: real, maxSatPerVb: real, vbytes: int)

  datatype Queue = Queue(txCount: nat, totalVBytes: int, peakVBytes: int, bands: seq<QueueBand>,
                         cutoffFraction: real, nextBlockRate: real)

  /** The rates of band i: the front band is open above, the last one below. */
  function BandRates(i: nat): Rates
    requires i < 5
  {
    if i == 0 then AtLeast(15.0) else if i == 4 then Below(4.0) else Between(BAND_MINS[i], BAND_MINS[i - 1])
  }

  function Band(i: nat, vbytes: int): QueueBand
    requires i < 5
  {
    QueueBand(BAND_MINS[i], if i == 0 then 0.0 else BAND_MINS[i - 1], vbytes)
  }

  /** What the next-block rate means: one block's worth of vbytes runs out at rate r. */
  ghost predicate IsCutoffRate(snap: Snapshot, r: real) {
    && Present(snap, r)
    && VBytes(snap, Above(r)) < VBYTES_PER_BLOCK <= VBytes(snap, AtLeast(r))
  }

  ghost predicate IsLowestRate(snap: Snapshot, r: real) {
    Present(snap, r) && forall id :: id in snap ==> r <= snap[id].feeRate
  }

  ghost predicate IsNextBlockRate(snap: Snapshot, r: real) {
    if snap == map[] then r == 1.0
    else if VBytes(snap, All) >= VBYTES_PER_BLOCK then IsCutoffRate(snap, r)
    else IsLowestRate(snap, r)
  }

  /** Without any weight the division yields +Inf, which the minimum turns into 1. */
  function CutoffFraction(total: int): real {
    if total <= 0 then 1.0
    else if VBYTES_PER_BLOCK as real / total as real < 1.0 then VBYTES_PER_BLOCK as real / total as real
    else 1.0
  }

  /** The histogram of a snapshot, stated without sorting or walking anything. */
  ghost predicate IsQueueOf(q: Queue, snap: Snapshot) {
    && q.txCount == |snap|
    && q.totalVBytes == VBytes(snap, All)
    && |q.bands| == 5
    && (forall i :: 0 <= i < 5 ==> q.bands[i] == Band(i, VBytes(snap, BandRates(i))))
    && q.cutoffFraction == CutoffFraction(VBytes(snap, All))
    && IsNextBlockRate(snap, q.nextBlockRate)
  }

  /** In a walk from high to low rates the prefix up to the line that completes the
      block separates the rates above the cutoff from those at or above it. */
  lemma CutoffLine(lines: seq<Line>, snap: Snapshot, k: nat)
    requires Lists(lines, snap) && Sorted(true, lines) && k < |lines|
    requires SeqVBytes(lines[..k], All) < VBYTES_PER_BLOCK <= SeqVBytes(lines[..k + 1], All)
    ensures IsCutoffRate(snap, lines[k].rate)
  {
    var r := lines[k].rate;
    assert HasRate(lines, r);
    PrefixBounds(lines, k, Above(r));
    PrefixBounds(lines, k + 1, AtLeast(r));
  }

  lemma LastLineIsLowest(lines: seq<Line>, snap: Snapshot)
    requires Lists(lines, snap) && Sorted(true, lines) && lines != []
    ensures IsLowestRate(snap, lines[|lines| - 1].rate)
  {
    var r := lines[|lines| - 1].rate;
    assert HasRate(lines, r);
    forall id | id in snap ensures r <= snap[id].feeRate {
      assert HasRate(lines, snap[id].feeRate);
      var i :| 0 <= i < |lines| && lines[i].rate == snap[id].feeRate;
      assert i == |lines| - 1 || Ordered(true, lines[i], lines[|lines| - 1]);
    }
  }

  /** Where the band pointer of the walk stands: past every band whose lower edge exceeds the rate. */
  ghost predicate BandPointer(band: nat, rate: real) {
    && band < 5
    && (band > 0 ==> rate < BAND_MINS[band - 1])
    && (band < 4 ==> rate >= BAND_MINS[band])
  }

  lemma BandPointerIsBand(band: nat, rate: real, i: nat)
    requires BandPointer(band, rate) && i < 5
    ensures BandRates(i).Has(rate) <==> i == band
  {
  }

  lemma OneMoreLine(lines: seq<Line>, n: nat, s: Rates)
    requires n < |lines|
    ensures SeqVBytes(lines[..n + 1], s) == SeqVBytes(lines[..n], s) + Counted(lines[n].rate, lines[n].vsize, s)
  {
    assert lines[..n + 1][..n] == lines[..n];
  }

  /** The line that completes the block has been met at k, or no prefix reaches a block. */
  ghost predicate CutoffState(lines: seq<Line>, n: nat, seen: bool, rate: real, k: nat) {
    && n <= |lines| && |lines| > 0
    && (!seen ==> SeqVBytes(lines[..n], All) < VBYTES_PER_BLOCK && rate == lines[|lines| - 1].rate)
    && (seen ==> k < n && rate == lines[k].rate
                 && SeqVBytes(lines[..k], All) < VBYTES_PER_BLOCK <= SeqVBytes(lines[..k + 1], All))
  }

  /** Moves the band pointer on to the band of a rate no higher than the last. */
  method AdvanceBand(from: nat, rate: real) returns (band: nat)
    requires from < 5 && (from > 0 ==> rate < BAND_MINS[from - 1])
    ensures BandPointer(band, rate)
  {
    band := from;
    while band < 4 && rate < BAND_MINS[band]
      invariant band < 5
      invariant band > 0 ==> rate < BAND_MINS[band - 1]
    {
      band := band + 1;
    }
  }

  /** One pass over the sorted entries serves all five bands, the total and the cutoff:
      the band of each entry is searched from that of the entry before. */
  method Walk(lines: seq<Line>) returns (bands: seq<int>, total: int, cutoffRate: real, ghost seen: bool, ghost k: nat)
    requires Sorted(true, lines) && lines != []
    ensures |bands| == 5 && forall i: nat :: i < 5 ==> bands[i] == SeqVBytes(lines, BandRates(i))
    ensures total == SeqVBytes(lines, All)
    ensures CutoffState(lines, |lines|, seen, cutoffRate, k)
  {
    var vbytes := new int[5](_ => 0);
    var band, cum := 0, 0;
    total := 0;
    cutoffRate := lines[|lines| - 1].rate;
    var cutoffSeen := false;
    k := 0;
    assert forall i: nat :: i < 5 ==> SeqVBytes(lines[..0], BandRates(i)) == 0;
    assert SeqVBytes(lines[..0], All) == 0;
    hide SeqVBytes;
    for n := 0 to |lines|
      invariant band < 5 && (n == 0 ==> band == 0)
      invariant n > 0 ==> BandPointer(band, lines[n - 1].rate)
      invariant forall i: nat :: i < 5 ==> vbytes[i] == SeqVBytes(lines[..n], BandRates(i))
      invariant total == cum == SeqVBytes(lines[..n], All)
      invariant CutoffState(lines, n, cutoffSeen, cutoffRate, k)
    {
      var e := lines[n];
      assert n > 0 ==> Ordered(true, lines[n - 1], e);
      band := AdvanceBand(band, e.rate);
      forall i: nat | i < 5
        ensures SeqVBytes(lines[..n + 1], BandRates(i)) == SeqVBytes(lines[..n], BandRates(i))
                                                           + if i == band then e.vsize else 0
      {
        OneMoreLine(lines, n, BandRates(i));
        BandPointerIsBand(band, e.rate, i);
      }
      OneMoreLine(lines, n, All);
      vbytes[band] := vbytes[band] + e.vsize;
      total := total + e.vsize;
      cum := cum + e.vsize;
      if !cutoffSeen && cum >= VBYTES_PER_BLOCK {
        cutoffRate := e.rate;
        cutoffSeen := true;
        k := n;
      }
    }
    assert lines[..|lines|] == lines;
    bands := vbytes[..];
    seen := cutoffSeen;
  }

  method QueueFromSnapshot(snapshot: Snapshot) returns (q: Queue)
    ensures IsQueueOf(q, snapshot) && q.peakVBytes == 0
  {
    if |snapshot| == 0 {
      return Queue(0, 0, 0, [Band(0, 0), Band(1, 0), Band(2, 0), Band(3, 0), Band(4, 0)], 1.0, 1.0);
    }
    var entries := Collect(snapshot);
    var lines := SortByRate(true, entries);
    SortedLists(entries, lines, snapshot);
    var bands, total, cutoffRate, seen, k := Walk(lines);
    assert lines[..|lines|] == lines;
    if seen {
      CutoffLine(lines, snapshot, k);
      VBytesMonotone(snapshot, AtLeast(cutoffRate), All);
    } else {
      LastLineIsLowest(lines, snapshot);
    }
    q := Queue(|snapshot|, total, 0,
               [Band(0, bands[0]), Band(1, bands[1]), Band(2, bands[2]), Band(3, bands[3]), Band(4, bands[4])],
               CutoffFraction(total), cutoffRate);
  }

  /** The next-block rate does not depend on the map order or on how ties are sorted. */
  lemma NextBlockRateUnique(snap: Snapshot, r1: real, r2: real)
    requires IsNextBlockRate(snap, r1) && IsNextBlockRate(snap, r2)
    ensures r1 == r2
  {
    if r1 < r2 {
      VBytesMonotone(snap, AtLeast(r2), Above(r1));
    }
    if r2 < r1 {
      VBytesMonotone(snap, AtLeast(r1), Above(r2));
    }
  }

  /** Neither does anything else: two runs over one snapshot build the same queue. */
  lemma QueueUnique(q1: Queue, q2: Queue, snap: Snapshot)
    requires IsQueueOf(q1, snap) && IsQueueOf(q2, snap) && q1.peakVBytes == q2.peakVBytes
    ensures q1 == q2
  {
    NextBlockRateUnique(snap, q1.nextBlockRate, q2.nextBlockRate);
    assert q1.bands == q2.bands;
  }

  /** The vbytes of the first n bands, summed as the browser does. */
  function FrontBands(bands: seq<QueueBand>, n: nat): int
    requires n <= |bands|
  {
    if n == 0 then 0 else FrontBands(bands, n - 1) + bands[n - 1].vbytes
  }

  /** The first n bands hold exactly what pays at least the lower edge of the n-th. */
  lemma {:induction false} FrontBandsAre(q: Queue, snap: Snapshot, n: nat)
    requires IsQueueOf(q, snap) && 0 < n <= 5
    ensures FrontBands(q.bands, n) == VBytes(snap, if n == 5 then All else AtLeast(BAND_MINS[n - 1]))
  {
    if n == 1 {
      assert FrontBands(q.bands, 0) == 0;
    } else {
      FrontBandsAre(q, snap, n - 1);
      VBytesSplit(snap, AtLeast(BAND_MINS[n - 2]), BandRates(n - 1),
                  if n == 5 then All else AtLeast(BAND_MINS[n - 1]));
    }
  }

  /** No vbyte is lost or counted twice. */
  lemma BandsSumToTotal(q: Queue, snap: Snapshot)
    requires IsQueueOf(q, snap)
    ensures FrontBands(q.bands, 5) == q.totalVBytes
  {
    FrontBandsAre(q, snap, 5);
  }

  /** The labels of the bands: each begins where the next higher one ends, and a rate is
      counted in the band between whose labels it lies; the last takes all that is lower. */
  lemma BandLabels(q: Queue, snap: Snapshot, i: nat, rate: real)
    requires IsQueueOf(q, snap) && i < 5
    ensures BandRates(i).Has(rate) <==>
            (i == 0 || rate < q.bands[i].maxSatPerVb) && (i == 4 || rate >= q.bands[i].minSatPerVb)
    ensures i < 4 ==> q.bands[i].minSatPerVb == q.bands[i + 1].maxSatPerVb
    ensures q.bands[0].maxSatPerVb == 0.0
  {
  }

  datatype TxPending = TxPending(txsAhead: nat, vbytesAhead: nat, etaBlocks: int, etaSeconds: int,
                                 queueVbytesFraction: real)

  /** The transactions ahead of `txid` when it pays `rate`. */
  ghost function Ahead(snap: Snapshot, txid: string, rate: real): set<string> {
    set id | id in snap && id != txid && snap[id].feeRate > rate
  }

  ghost predicate IsPendingOf(p: TxPending, snap: Snapshot, txid: string, rate: real, intervalNs: nat) {
    && p.txsAhead == |Ahead(snap, txid, rate)|
    && p.vbytesAhead == VBytes(snap - {txid}, Above(rate))
    && p.etaBlocks == p.vbytesAhead / VBYTES_PER_BLOCK + 1
    && p.etaSeconds == p.etaBlocks * (intervalNs / 1_000_000_000)
    && p.queueVbytesFraction ==
       (if VBytes(snap, All) == 0 then 0.0 else p.vbytesAhead as real / VBytes(snap, All) as real)
  }

  /** The rate a pending transaction queues with: its snapshot entry, else its own, else 0. */
  function PendingRate(snap: Snapshot, txid: string, ownRate: real): real {
    if txid in snap then snap[txid].feeRate else ownRate
  }

  lemma RemoveOther(snap: Snapshot, txid: string, s: Rates)
    ensures VBytes(snap, s) == VBytes(snap - {txid}, s)
                               + (if txid in snap then Counted(snap[txid].feeRate, snap[txid].vsize, s) else 0)
  {
    if txid in snap {
      VBytesRemove(snap, s, txid);
    } else {
      assert snap - {txid} == snap;
    }
  }

  lemma OneLessAhead(todo: Snapshot, txid: string, rate: real, id: string)
    requires id in todo
    ensures var ahead, left := id != txid && todo[id].feeRate > rate, todo - {id};
      && |Ahead(todo, txid, rate)| == |Ahead(left, txid, rate)| + (if ahead then 1 else 0)
      && VBytes(todo - {txid}, Above(rate)) == VBytes(left - {txid}, Above(rate)) + (if ahead then todo[id].vsize else 0)
  {
    var left := todo - {id};
    if id != txid && todo[id].feeRate > rate {
      assert Ahead(todo, txid, rate) == Ahead(left, txid, rate) + {id};
    } else {
      assert Ahead(todo, txid, rate) == Ahead(left, txid, rate);
    }
    if id == txid {
      assert left - {txid} == todo - {txid};
    } else {
      VBytesRemove(todo - {txid}, Above(rate), id);
      assert todo - {txid} - {id} == left - {txid};
    }
  }

  /** One unsorted scan in map order. */
  method DerivePending(snapshot: Snapshot, txid: string, ownRate: real, intervalNs: nat) returns (p: TxPending)
    ensures txid in snapshot ==> IsPendingOf(p, snapshot, txid, snapshot[txid].feeRate, intervalNs)
    ensures txid !in snapshot ==> IsPendingOf(p, snapshot, txid, ownRate, intervalNs)
  {
    var myRate := PendingRate(snapshot, txid, ownRate);
    var txsAhead, vbytesAhead, totalVbytes := 0, 0, 0;
    var todo := snapshot;
    while todo != map[]
      invariant todo.Keys <= snapshot.Keys && forall k :: k in todo ==> todo[k] == snapshot[k]
      invariant totalVbytes + VBytes(todo, All) == VBytes(snapshot, All)
      invariant vbytesAhead + VBytes(todo - {txid}, Above(myRate)) == VBytes(snapshot - {txid}, Above(myRate))
      invariant txsAhead + |Ahead(todo, txid, myRate)| == |Ahead(snapshot, txid, myRate)|
      decreases todo.Keys
    {
      var id :| id in todo;
      VBytesRemove(todo, All, id);
      OneLessAhead(todo, txid, myRate, id);
      totalVbytes := totalVbytes + todo[id].vsize;
      if id != txid && todo[id].feeRate > myRate {
        txsAhead := txsAhead + 1;
        vbytesAhead := vbytesAhead + todo[id].vsize;
      }
      todo := todo - {id};
    }
    assert todo - {txid} == map[];
    var etaBlocks := vbytesAhead / VBYTES_PER_BLOCK + 1;
    p := TxPending(txsAhead, vbytesAhead, etaBlocks, etaBlocks * (intervalNs / 1_000_000_000),
                   if totalVbytes > 0 then vbytesAhead as real / totalVbytes as real else 0.0);
  }

  /** A transaction of the snapshot is expected in the next block exactly when it
      pays at least the rate the histogram announces for that block. */
  lemma NextBlockAgrees(q: Queue, p: TxPending, snap: Snapshot, txid: string, intervalNs: nat)
    requires IsQueueOf(q, snap) && txid in snap
    requires IsPendingOf(p, snap, txid, snap[txid].feeRate, intervalNs)
    ensures p.etaBlocks == 1 <==> snap[txid].feeRate >= q.nextBlockRate
  {
    var r, cutoff := snap[txid].feeRate, q.nextBlockRate;
    RemoveOther(snap, txid, Above(r));
    VBytesMonotone(snap, Above(r), All);
    if r >= cutoff {
      VBytesMonotone(snap, Above(r), Above(cutoff));
    } else {
      VBytesMonotone(snap, AtLeast(cutoff), Above(r));
    }
  }

  /** ... and exactly then its marker lies inside the cutoff drawn on the queue bar
      (both fractions have the same denominator). */
  lemma MarkerInsideCutoff(q: Queue, p: TxPending, snap: Snapshot, txid: string, intervalNs: nat)
    requires IsQueueOf(q, snap) && txid in snap && snap[txid].vsize > 0
    requires IsPendingOf(p, snap, txid, snap[txid].feeRate, intervalNs)
    ensures 0.0 <= p.queueVbytesFraction < 1.0
    ensures p.etaBlocks == 1 <==> p.queueVbytesFraction < q.cutoffFraction
  {
    var total, ahead := VBytes(snap, All), p.vbytesAhead;
    RemoveOther(snap, txid, All);
    VBytesMonotone(snap - {txid}, Above(snap[txid].feeRate), All);
    FractionOrder(ahead, total, total);
    FractionOrder(ahead, VBYTES_PER_BLOCK, total);
    FractionOrder(VBYTES_PER_BLOCK, total, total);
  }

  lemma FractionOrder(a: nat, b: nat, d: nat)
    requires d > 0
    ensures a as real / d as real < b as real / d as real <==> a < b
    ensures d as real / d as real == 1.0 && a as real / d as real >= 0.0
  {
    var x, y := a as real / d as real, b as real / d as real;
    assert x * d as real == a as real && y * d as real == b as real;
    assert a < b <==> a as real < b as real;
    assert (y - x) * d as real == b as real - a as real;
  }

  /** The vbytes ahead fill all blocks before this one and do not fill it. */
  predicate FallsIntoBlock(ahead: int, block: int) {
    (block - 1) * VBYTES_PER_BLOCK <= ahead < block * VBYTES_PER_BLOCK
  }

  /** s seconds are n intervals, short of at most a second for each. */
  predicate Lasts(s: int, n: int, intervalNs: nat) {
    s * 1_000_000_000 <= n * intervalNs < (s + n) * 1_000_000_000
  }

  predicate IsShare(fraction: real, part: nat, total: nat) {
    if total == 0 then fraction == 0.0 else fraction * total as real == part as real
  }

  /** The figures in full: the expected block is that into which the vbytes ahead fall; the
      seconds are as many intervals, each cut to whole seconds; and the fraction is the
      share of the vbytes ahead. */
  lemma PendingFigures(p: TxPending, snap: Snapshot, txid: string, rate: real, intervalNs: nat)
    requires IsPendingOf(p, snap, txid, rate, intervalNs)
    ensures FallsIntoBlock(p.vbytesAhead, p.etaBlocks)
    ensures Lasts(p.etaSeconds, p.etaBlocks, intervalNs)
    ensures IsShare(p.queueVbytesFraction, p.vbytesAhead, VBytes(snap, All))
  {
    hide FallsIntoBlock, Lasts, IsShare;
    BlockOf(p.vbytesAhead);
    SecondsOf(p.etaBlocks, intervalNs);
    ShareOf(p.vbytesAhead, VBytes(snap, All));
  }

  lemma BlockOf(ahead: nat)
    ensures FallsIntoBlock(ahead, ahead / VBYTES_PER_BLOCK + 1)
  {
  }

  lemma ShareOf(part: nat, total: nat)
    ensures IsShare(if total == 0 then 0.0 else part as real / total as real, part, total)
  {
  }

  lemma SecondsOf(k: int, intervalNs: nat)
    requires k > 0
    ensures Lasts(k * (intervalNs / 1_000_000_000), k, intervalNs)
  {
    var q, r := intervalNs / 1_000_000_000, intervalNs % 1_000_000_000;
    assert intervalNs == q * 1_000_000_000 + r;
    WholeIntervals(k, q, r);
  }

  /** k intervals of q whole seconds and r nanoseconds each. */
  lemma WholeIntervals(k: nat, q: nat, r: nat)
    requires k > 0 && r < 1_000_000_000
    ensures k * q * 1_000_000_000 <= k * (q * 1_000_000_000 + r) < (k * q + k) * 1_000_000_000
  {
    assert k * (q * 1_000_000_000 + r) == k * q * 1_000_000_000 + k * r;
    SmallerFactor(k, r, 1_000_000_000);
  }

  lemma SmallerFactor(k: nat, a: nat, b: nat)
    requires k > 0 && a < b
    ensures 0 <= k * a < k * b
  {
    assert k * b - k * a == k * (b - a);
  }

  /** A higher rate never waits longer. */
  lemma HigherRateNeverWaitsLonger(snap: Snapshot, txid: string, low: real, high: real, pl: TxPending, ph: TxPending,
                                   intervalNs: nat)
    requires low <= high
    requires IsPendingOf(pl, snap, txid, low, intervalNs) && IsPendingOf(ph, snap, txid, high, intervalNs)
    ensures ph.etaBlocks <= pl.etaBlocks && ph.txsAhead <= pl.txsAhead
    ensures ph.queueVbytesFraction <= pl.queueVbytesFraction
  {
    VBytesMonotone(snap - {txid}, Above(high), Above(low));
    SubsetSize(Ahead(snap, txid, high), Ahead(snap, txid, low));
    if VBytes(snap, All) > 0 {
      FractionOrder(pl.vbytesAhead, ph.vbytesAhead, VBytes(snap, All));
    }
  }

  /** The browser's band of a rate. */
  function BandOf(q: Queue, rate: real, i: nat): (b: nat)
    requires i < |q.bands|
    ensures i <= b < |q.bands|
    ensures b < |q.bands| - 1 ==> rate >= q.bands[b].minSatPerVb
    ensures forall j :: i <= j < b ==> rate < q.bands[j].minSatPerVb
    decreases |q.bands| - i
  {
    if i == |q.bands| - 1 || rate >= q.bands[i].minSatPerVb then i else BandOf(q, rate, i + 1)
  }

  method BandIndex(q: Queue, rate: real) returns (b: nat)
    requires |q.bands| > 0
    ensures b == BandOf(q, rate, 0)
  {
    for i := 0 to |q.bands| - 1
      invariant BandOf(q, rate, 0) == BandOf(q, rate, i)
    {
      if rate >= q.bands[i].minSatPerVb {
        return i;
      }
    }
    b := |q.bands| - 1;
  }

  /** The browser puts a rate into the band the server counted it in. */
  lemma BandIndexAgrees(q: Queue, snap: Snapshot, rate: real, i: nat)
    requires IsQueueOf(q, snap) && i < 5
    ensures BandOf(q, rate, 0) == i <==> BandRates(i).Has(rate)
  {
    var b := BandOf(q, rate, 0);
    assert BandRates(b).Has(rate) by {
      if b > 0 {
        assert rate < q.bands[b - 1].minSatPerVb;
      }
    }
    assert BandRates(i).Has(rate) ==> i == b;
  }

  /** The per-block capacity that the server encoded in the cutoff fraction. */
  function BlockCapacity(q: Queue): real {
    q.totalVBytes as real * q.cutoffFraction
  }

  function Blocks(vbytes: int, capacity: real): int
    requires capacity > 0.0
  {
    (vbytes as real / capacity).Floor
  }

  function BandEta(q: Queue, rate: real): int
    requires |q.bands| > 0
    requires q.cutoffFraction < 1.0 ==> BlockCapacity(q) > 0.0
  {
    if q.cutoffFraction >= 1.0 then 1
    else
      Blocks(FrontBands(q.bands, BandOf(q, rate, 0)), BlockCapacity(q)) + 1
  }

  method BandEtaBlocks(q: Queue, rate: real) returns (eta: int)
    requires |q.bands| > 0
    requires q.cutoffFraction < 1.0 ==> BlockCapacity(q) > 0.0
    ensures eta == BandEta(q, rate)
  {
    if q.cutoffFraction >= 1.0 {
      return 1;
    }
    var band := BandIndex(q, rate);
    var aheadVbytes := 0;
    for i := 0 to band
      invariant aheadVbytes == FrontBands(q.bands, i)
    {
      aheadVbytes := aheadVbytes + q.bands[i].vbytes;
    }
    var blockVbytes := BlockCapacity(q);
    eta := Blocks(aheadVbytes, blockVbytes) + 1;
  }

  /** The server's queue always satisfies the browser's expectations: the encoded
      per-block capacity is exactly one block. */
  lemma EncodedCapacity(q: Queue, snap: Snapshot)
    requires IsQueueOf(q, snap)
    ensures q.cutoffFraction < 1.0 <==> q.totalVBytes > VBYTES_PER_BLOCK
    ensures q.cutoffFraction < 1.0 ==> BlockCapacity(q) == VBYTES_PER_BLOCK as real
  {
    if q.totalVBytes > 0 {
      FractionOrder(VBYTES_PER_BLOCK, q.totalVBytes, q.totalVBytes);
      var f := VBYTES_PER_BLOCK as real / q.totalVBytes as real;
      assert f * q.totalVBytes as real == VBYTES_PER_BLOCK as real;
    }
  }

  /** The estimate in full: 1 while everything fits into a block; otherwise the vbytes of
      the bands in front, which are those that pay at least the upper label of the rate's
      band, fill all blocks before the estimated one and do not fill that. */
  lemma BandEtaIs(q: Queue, snap: Snapshot, rate: real)
    requires IsQueueOf(q, snap)
    ensures q.cutoffFraction < 1.0 ==> BlockCapacity(q) > 0.0
    ensures VBytes(snap, All) <= VBYTES_PER_BLOCK ==> BandEta(q, rate) == 1
    ensures VBytes(snap, All) > VBYTES_PER_BLOCK ==>
      var band := BandOf(q, rate, 0);
      var front := if band == 0 then 0 else VBytes(snap, AtLeast(q.bands[band].maxSatPerVb));
      FallsIntoBlock(front, BandEta(q, rate))
  {
    EncodedCapacity(q, snap);
    var band := BandOf(q, rate, 0);
    if VBytes(snap, All) > VBYTES_PER_BLOCK {
      if band > 0 {
        FrontBandsAre(q, snap, band);
      }
      WholeBlocks(FrontBands(q.bands, band));
    }
  }

  lemma WholeBlocks(a: nat)
    ensures Blocks(a, VBYTES_PER_BLOCK as real) == a / VBYTES_PER_BLOCK
  {
    var k := a / VBYTES_PER_BLOCK;
    assert k * VBYTES_PER_BLOCK <= a < (k + 1) * VBYTES_PER_BLOCK;
  }

  lemma BandsBefore(q: Queue, snap: Snapshot, rate: real)
    requires IsQueueOf(q, snap)
    ensures 0 <= FrontBands(q.bands, BandOf(q, rate, 0)) <= VBytes(snap, Above(rate))
  {
    var band := BandOf(q, rate, 0);
    if band > 0 {
      FrontBandsAre(q, snap, band);
      assert rate < q.bands[band - 1].minSatPerVb;
      VBytesMonotone(snap, AtLeast(BAND_MINS[band - 1]), Above(rate));
    }
  }

  /** The browser's estimate from the bands never exceeds the server's own. */
  lemma BandEtaNeverExceeds(q: Queue, p: TxPending, snap: Snapshot, txid: string, intervalNs: nat)
    requires IsQueueOf(q, snap) && txid in snap
    requires IsPendingOf(p, snap, txid, snap[txid].feeRate, intervalNs)
    ensures q.cutoffFraction < 1.0 ==> BlockCapacity(q) > 0.0
    ensures 1 <= BandEta(q, snap[txid].feeRate) <= p.etaBlocks
  {
    EncodedCapacity(q, snap);
    if q.cutoffFraction < 1.0 {
      var rate := snap[txid].feeRate;
      var ahead := FrontBands(q.bands, BandOf(q, rate, 0));
      BandsBefore(q, snap, rate);
      RemoveOther(snap, txid, Above(rate));
      WholeBlocks(ahead);
      assert ahead / VBYTES_PER_BLOCK <= p.vbytesAhead / VBYTES_PER_BLOCK;
    }
  }
}
