/** Fee tiers as vsize-weighted percentiles of the mempool (internal/explorer/fees.go). */
module FeeTiers {
  import opened Snapshots

  datatype FeeFloors = FeeFloors(slow: real, standard: real, urgent: real)

  datatype Tiers = Tiers(slow: real, standard: real, urgent: real, source: string)

  /** The vbytes that make up the share p. */
  function Target(p: real, total: int): real {
    p * total as real
  }

  lemma TargetMonotone(p1: real, p2: real, total: nat)
    requires p1 <= p2
    ensures Target(p1, total) <= Target(p2, total)
    ensures Target(1.0, total) == total as real
  {
  }

  /** The weight at or below rate r reaches the share p of the whole. */
  ghost predicate Reaches(snap: Snapshot, p: real, r: real) {
    VBytes(snap, AtMost(r)) as real >= Target(p, VBytes(snap, All))
  }

  /** The lowest present rate at which the share p of the vbytes sits at or below. */
  ghost predicate IsPercentile(snap: Snapshot, p: real, r: real) {
    && Present(snap, r)
    && Reaches(snap, p, r)
    && forall id :: id in snap && Reaches(snap, p, snap[id].feeRate) ==> r <= snap[id].feeRate
  }

  lemma PercentileUnique(snap: Snapshot, p: real, r1: real, r2: real)
    requires IsPercentile(snap, p, r1) && IsPercentile(snap, p, r2)
    ensures r1 == r2
  {
    var id1 :| id1 in snap && snap[id1].feeRate == r1;
    var id2 :| id2 in snap && snap[id2].feeRate == r2;
    assert r1 <= snap[id2].feeRate && r2 <= snap[id1].feeRate;
  }

  lemma PercentileMonotone(snap: Snapshot, p1: real, r1: real, p2: real, r2: real)
    requires IsPercentile(snap, p1, r1) && IsPercentile(snap, p2, r2) && p1 <= p2
    ensures r1 <= r2
  {
    TargetMonotone(p1, p2, VBytes(snap, All));
    assert Reaches(snap, p1, r2);
    var id :| id in snap && snap[id].feeRate == r2;
    assert r1 <= snap[id].feeRate;
  }

  /** In ascending order, the first line whose running total reaches the target has
      the percentile rate: no lower rate reaches it, even counting all its ties. */
  lemma FirstReachingLine(lines: seq<Line>, snap: Snapshot, p: real, k: nat)
    requires Lists(lines, snap) && Sorted(false, lines) && k < |lines|
    requires SeqVBytes(lines[..k + 1], All) as real >= Target(p, VBytes(snap, All))
    requires k > 0 ==> SeqVBytes(lines[..k], All) as real < Target(p, VBytes(snap, All))
    ensures IsPercentile(snap, p, lines[k].rate)
  {
    var r := lines[k].rate;
    assert Present(snap, r) by {
      assert HasRate(lines, r);
    }
    UpToLine(lines, k);
    forall id | id in snap && snap[id].feeRate < r ensures !Reaches(snap, p, snap[id].feeRate) {
      NotYetReached(lines, snap, p, k, snap[id].feeRate);
    }
  }

  lemma UpToLine(lines: seq<Line>, k: nat)
    requires Sorted(false, lines) && k < |lines|
    ensures SeqVBytes(lines, AtMost(lines[k].rate)) >= SeqVBytes(lines[..k + 1], All)
  {
    forall i | 0 <= i <= k ensures lines[i].rate <= lines[k].rate {
      assert i < k ==> Ordered(false, lines[i], lines[k]);
    }
    PrefixBounds(lines, k + 1, AtMost(lines[k].rate));
  }

  lemma NotYetReached(lines: seq<Line>, snap: Snapshot, p: real, k: nat, x: real)
    requires Lists(lines, snap) && Sorted(false, lines) && k < |lines|
    requires k > 0 ==> SeqVBytes(lines[..k], All) as real < Target(p, VBytes(snap, All))
    requires x < lines[k].rate && Present(snap, x)
    ensures !Reaches(snap, p, x)
  {
    assert HasRate(lines, x);
    LowerRatesLieBefore(lines, x, k);
  }

  lemma LowerRatesLieBefore(lines: seq<Line>, x: real, k: nat)
    requires Sorted(false, lines) && k < |lines| && x < lines[k].rate && HasRate(lines, x)
    ensures k > 0 && SeqVBytes(lines, AtMost(x)) <= SeqVBytes(lines[..k], All)
  {
    var i :| 0 <= i < |lines| && lines[i].rate == x;
    assert i > k ==> Ordered(false, lines[k], lines[i]);
    forall j | k <= j < |lines| ensures lines[j].rate > x {
      assert j > k ==> Ordered(false, lines[k], lines[j]);
    }
    PrefixBounds(lines, k, AtMost(x));
  }

  /** The running total of the ascending walk; for p <= 1 it reaches the target, so
      the return after the loop is never taken. */
  method Percentile(lines: seq<Line>, totalVsize: int, p: real, ghost snap: Snapshot) returns (rate: real)
    requires Lists(lines, snap) && Sorted(false, lines) && lines != []
    requires totalVsize == VBytes(snap, All)
    ensures p <= 1.0 ==> IsPercentile(snap, p, rate)
  {
    var target := Target(p, totalVsize);
    var cum := 0;
    for n := 0 to |lines|
      invariant cum == SeqVBytes(lines[..n], All)
      invariant n > 0 ==> cum as real < target
    {
      assert lines[..n + 1][..n] == lines[..n];
      cum := cum + lines[n].vsize;
      if cum as real >= target {
        FirstReachingLine(lines, snap, p, n);
        return lines[n].rate;
      }
    }
    assert lines[..|lines|] == lines;
    if p <= 1.0 {
      TargetMonotone(p, 1.0, VBytes(snap, All));
    }
    rate := lines[|lines| - 1].rate;
  }

  function MaxRate(a: real, b: real): real {
    if a >= b then a else b
  }

  /** Round half away from zero. */
  function Round(x: real): int {
    if x >= 0.0 then (x + 0.5).Floor else -(-x + 0.5).Floor
  }

  function RoundTenth(x: real): real {
    Round(x * 10.0) as real / 10.0
  }

  lemma RoundMonotone(x: real, y: real)
    requires x <= y
    ensures RoundTenth(x) <= RoundTenth(y)
  {
    assert x * 10.0 <= y * 10.0;
    assert Round(x * 10.0) <= Round(y * 10.0);
  }

  /** The nearest tenth: no tenth is nearer, and of two equally near ones the one further
      from zero. */
  lemma NearestTenth(x: real, n: int)
    ensures RoundTenth(x) == Round(x * 10.0) as real / 10.0
    ensures Abs(RoundTenth(x) - x) <= Abs(n as real / 10.0 - x)
    ensures Abs(RoundTenth(x) - x) == Abs(n as real / 10.0 - x) ==> Abs(n as real / 10.0) <= Abs(RoundTenth(x))
  {
    var y, k := x * 10.0, Round(x * 10.0);
    assert RoundTenth(x) - x == (k as real - y) / 10.0 && n as real / 10.0 - x == (n as real - y) / 10.0;
    NearestInteger(y, n);
  }

  lemma NearestInteger(y: real, n: int)
    ensures Abs(Round(y) as real - y) <= Abs(n as real - y)
    ensures Abs(Round(y) as real - y) == Abs(n as real - y) ==> Abs(n as real) <= Abs(Round(y) as real)
  {
    if y >= 0.0 {
      NearestAbove(y, n);
    } else {
      NearestAbove(-y, -n);
      assert (-n) as real == -(n as real);
    }
  }

  lemma NearestAbove(y: real, n: int)
    requires y >= 0.0
    ensures var k := (y + 0.5).Floor;
      && Abs(k as real - y) <= Abs(n as real - y)
      && (Abs(k as real - y) == Abs(n as real - y) ==> Abs(n as real) <= k as real)
  {
    var k := (y + 0.5).Floor;
    assert k as real <= y + 0.5 < k as real + 1.0;
    if n > k {
      assert n as real >= k as real + 1.0;
    } else if n < k {
      assert n as real <= k as real - 1.0;
    }
  }

  function Abs(x: real): real {
    if x >= 0.0 then x else -x
  }

  function ClampTiers(slow: real, standard: real, urgent: real, source: string): Tiers {
    var s := MaxRate(RoundTenth(slow), 1.0);
    var t := MaxRate(RoundTenth(standard), s);
    Tiers(s, t, MaxRate(RoundTenth(urgent), t), source)
  }

  /** What the tiers are, as a relation to the snapshot alone. */
  ghost predicate IsTiersOf(t: Tiers, snap: Snapshot, floors: FeeFloors) {
    if snap == map[] then t == ClampTiers(floors.slow, floors.standard, floors.urgent, "floor")
    else exists p25, p50, p90 :: TiersFrom(t, snap, floors, p25, p50, p90)
  }

  ghost predicate TiersFrom(t: Tiers, snap: Snapshot, floors: FeeFloors, p25: real, p50: real, p90: real) {
    && IsPercentile(snap, 0.25, p25) && IsPercentile(snap, 0.50, p50) && IsPercentile(snap, 0.90, p90)
    && t == ClampTiers(MaxRate(p25, floors.slow), MaxRate(p50, floors.standard), MaxRate(p90, floors.urgent), "mempool")
  }

  method TierRates(snapshot: Snapshot, floors: FeeFloors) returns (t: Tiers)
    ensures IsTiersOf(t, snapshot, floors)
  {
    var slow, standard, urgent, source;
    if |snapshot| == 0 {
      slow, standard, urgent := floors.slow, floors.standard, floors.urgent;
      source := "floor";
    } else {
      var entries := Collect(snapshot);
      var totalVsize := 0;
      for n := 0 to |entries|
        invariant totalVsize == SeqVBytes(entries[..n], All)
      {
        assert entries[..n + 1][..n] == entries[..n];
        totalVsize := totalVsize + entries[n].vsize;
      }
      assert entries[..|entries|] == entries;
      var lines := SortByRate(false, entries);
      SortedLists(entries, lines, snapshot);
      var p25 := Percentile(lines, totalVsize, 0.25, snapshot);
      var p50 := Percentile(lines, totalVsize, 0.50, snapshot);
      var p90 := Percentile(lines, totalVsize, 0.90, snapshot);
      slow, standard, urgent := MaxRate(p25, floors.slow), MaxRate(p50, floors.standard), MaxRate(p90, floors.urgent);
      source := "mempool";
      assert TiersFrom(ClampTiers(slow, standard, urgent, source), snapshot, floors, p25, p50, p90);
    }
    t := ClampTiers(slow, standard, urgent, source);
  }

  /** The percentile in full: the share p of all vbytes pays at most r, and whatever lower
      rate is present, less than that share pays at most it. */
  lemma PercentileIs(snap: Snapshot, p: real, r: real)
    requires IsPercentile(snap, p, r)
    ensures exists id :: id in snap && snap[id].feeRate == r
    ensures VBytes(snap, AtMost(r)) as real >= p * VBytes(snap, All) as real
    ensures forall id :: id in snap && snap[id].feeRate < r ==>
      VBytes(snap, AtMost(snap[id].feeRate)) as real < p * VBytes(snap, All) as real
  {
    hide VBytes;
    forall id | id in snap && snap[id].feeRate < r
      ensures VBytes(snap, AtMost(snap[id].feeRate)) as real < p * VBytes(snap, All) as real
    {
      assert !Reaches(snap, p, snap[id].feeRate);
    }
  }

  /** Rounding, the minimum of 1 and the order move no tier further than they must: any
      three ordered values of at least 1 that are not below the rounded ones are at least
      the tiers, which are such values themselves. */
  lemma ClampIsLeast(slow: real, standard: real, urgent: real, source: string, a: real, b: real, c: real)
    ensures var t := ClampTiers(slow, standard, urgent, source);
      && 1.0 <= t.slow <= t.standard <= t.urgent && t.source == source
      && RoundTenth(slow) <= t.slow && RoundTenth(standard) <= t.standard && RoundTenth(urgent) <= t.urgent
      && (1.0 <= a <= b <= c && RoundTenth(slow) <= a && RoundTenth(standard) <= b && RoundTenth(urgent) <= c ==>
            t.slow <= a && t.standard <= b && t.urgent <= c)
  {
  }

  /** Neither the map order nor the unstable sort can change the tiers. */
  lemma TiersUnique(t1: Tiers, t2: Tiers, snap: Snapshot, floors: FeeFloors)
    requires IsTiersOf(t1, snap, floors) && IsTiersOf(t2, snap, floors)
    ensures t1 == t2
  {
    if snap != map[] {
      var a25, a50, a90 :| TiersFrom(t1, snap, floors, a25, a50, a90);
      var b25, b50, b90 :| TiersFrom(t2, snap, floors, b25, b50, b90);
      PercentileUnique(snap, 0.25, a25, b25);
      PercentileUnique(snap, 0.50, a50, b50);
      PercentileUnique(snap, 0.90, a90, b90);
    }
  }

  lemma TiersOrdered(t: Tiers, snap: Snapshot, floors: FeeFloors)
    requires IsTiersOf(t, snap, floors)
    ensures 1.0 <= t.slow <= t.standard <= t.urgent
    ensures t.slow >= RoundTenth(floors.slow)
    ensures t.standard >= RoundTenth(floors.standard)
    ensures t.urgent >= RoundTenth(floors.urgent)
    ensures t.source == if snap == map[] then "floor" else "mempool"
  {
    if snap != map[] {
      var p25, p50, p90 :| TiersFrom(t, snap, floors, p25, p50, p90);
      RoundMonotone(floors.slow, MaxRate(p25, floors.slow));
      RoundMonotone(floors.standard, MaxRate(p50, floors.standard));
      RoundMonotone(floors.urgent, MaxRate(p90, floors.urgent));
    }
  }

  /** Forcing the tiers to be monotone only ever repairs misordered floors: with
      ordered floors each tier is its own rounded percentile or floor, at least 1. */
  lemma OrderedFloorsNeedNoRepair(t: Tiers, snap: Snapshot, floors: FeeFloors, p25: real, p50: real, p90: real)
    requires floors.slow <= floors.standard <= floors.urgent
    requires TiersFrom(t, snap, floors, p25, p50, p90)
    ensures t.slow == MaxRate(RoundTenth(MaxRate(p25, floors.slow)), 1.0)
    ensures t.standard == MaxRate(RoundTenth(MaxRate(p50, floors.standard)), 1.0)
    ensures t.urgent == MaxRate(RoundTenth(MaxRate(p90, floors.urgent)), 1.0)
  {
    PercentileMonotone(snap, 0.25, p25, 0.50, p50);
    PercentileMonotone(snap, 0.50, p50, 0.90, p90);
    RoundMonotone(MaxRate(p25, floors.slow), MaxRate(p50, floors.standard));
    RoundMonotone(MaxRate(p50, floors.standard), MaxRate(p90, floors.urgent));
  }

  /** The comment promises the floors verbatim for an empty mempool. The code still
      rounds and orders them, so they come out verbatim exactly when they already are
      multiples of 0.1, at least 1 and ordered. */
  lemma EmptyMempoolVerbatimIff(t: Tiers, floors: FeeFloors)
    requires IsTiersOf(t, map[], floors)
    ensures t.slow == floors.slow && t.standard == floors.standard && t.urgent == floors.urgent
       <==> && 1.0 <= floors.slow <= floors.standard <= floors.urgent
            && RoundTenth(floors.slow) == floors.slow
            && RoundTenth(floors.standard) == floors.standard
            && RoundTenth(floors.urgent) == floors.urgent
  {
    RoundOfTenth(Round(floors.slow * 10.0));
    RoundOfTenth(Round(floors.standard * 10.0));
    RoundOfTenth(Round(floors.urgent * 10.0));
    RoundOfTenth(10);
  }

  lemma RoundOfTenth(n: int)
    ensures RoundTenth(n as real / 10.0) == n as real / 10.0
  {
    assert n as real / 10.0 * 10.0 == n as real;
    assert Round(n as real) == n;
  }

  /** A slow floor of 1.25 sat/vB comes out as 1.3. */
  lemma FloorNotVerbatim(t: Tiers)
    requires IsTiersOf(t, map[], FeeFloors(1.25, 2.0, 5.0))
    ensures t.slow == 1.3
  {
    assert 1.25 * 10.0 == 12.5;
    assert RoundTenth(1.25) == 1.3;
  }
}
