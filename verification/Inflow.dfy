/** The rolling one-minute arrival counter (internal/explorer/inflow.go): six rotating
    buckets against the log of every arrival. */
module Inflow {
  import opened Options
  import opened Collections

  const BUCKET_SECONDS := 10
  const BUCKETS := 6
  const NS_PER_SECOND := 1_000_000_000
  const MINUTE_NS := 60_000_000_000
  const BUCKET_NS := 10_000_000_000

  /** The ten-second slot of a time in nanoseconds since the Unix epoch. */
  function SlotOf(now: nat): nat {
    now / NS_PER_SECOND / BUCKET_SECONDS
  }

  /** In time: the window misses nothing of the last 50 seconds and holds nothing that is
      a minute old. */
  lemma WindowIsUpToAMinute(t: nat, now: nat)
    requires t <= now
    ensures now - t <= MINUTE_NS - BUCKET_NS ==> SlotOf(now) - BUCKETS < SlotOf(t)
    ensures SlotOf(now) - BUCKETS < SlotOf(t) ==> now - t < MINUTE_NS
  {
    var a, b := t / NS_PER_SECOND, now / NS_PER_SECOND;
    assert a * NS_PER_SECOND <= t < (a + 1) * NS_PER_SECOND && b * NS_PER_SECOND <= now < (b + 1) * NS_PER_SECOND;
    assert SlotOf(t) * 10 <= a < SlotOf(t) * 10 + 10 && SlotOf(now) * 10 <= b < SlotOf(now) * 10 + 10;
  }

  /** How many arrivals of the log fell into slots lo (exclusive) to hi (inclusive). */
  ghost function CountIn(log: seq<nat>, lo: int, hi: int): nat {
    if log == [] then 0
    else CountIn(log[..|log| - 1], lo, hi) + if lo < log[|log| - 1] <= hi then 1 else 0
  }

  /** The only slot of the window (slot - 6, slot] that bucket j can stand for. */
  function SlotOfBucket(slot: int, j: nat): (s: int)
    requires j < BUCKETS
    ensures slot - BUCKETS < s <= slot && s % BUCKETS == j
  {
    slot - (slot - j) % BUCKETS
  }

  /** Bucket j counts exactly the logged arrivals of its slot. */
  ghost predicate Refines(counts: seq<nat>, slot: nat, log: seq<nat>) {
    && |counts| == BUCKETS
    && (forall i :: 0 <= i < |log| ==> log[i] <= slot)
    && forall j :: 0 <= j < BUCKETS ==> counts[j] == CountIn(log, SlotOfBucket(slot, j) - 1, SlotOfBucket(slot, j))
  }

  lemma {:induction false} CountNone(log: seq<nat>, lo: int, hi: int)
    requires forall i :: 0 <= i < |log| ==> log[i] <= lo
    ensures CountIn(log, lo, hi) == 0
  {
    if log != [] {
      CountNone(log[..|log| - 1], lo, hi);
    }
  }

  lemma {:induction false} CountSplit(log: seq<nat>, lo: int, mid: int, hi: int)
    requires lo <= mid <= hi
    ensures CountIn(log, lo, hi) == CountIn(log, lo, mid) + CountIn(log, mid, hi)
  {
    if log != [] {
      CountSplit(log[..|log| - 1], lo, mid, hi);
    }
  }

  lemma SameResidue(a: int, b: int)
    requires a % BUCKETS == b % BUCKETS && -BUCKETS < a - b < BUCKETS
    ensures a == b
  {
  }

  /** The first n steps of a rotation from slot `from` pass bucket j. */
  predicate Passed(from: nat, n: int, j: nat) {
    (j - from - 1) % BUCKETS < n
  }

  function Steps(from: nat, slot: nat): int {
    if slot - from <= BUCKETS then slot - from else BUCKETS
  }

  lemma NextPassed(from: nat, i: nat, j: nat)
    requires 1 <= i <= BUCKETS && j < BUCKETS
    ensures Passed(from, i, j) <==> Passed(from, i - 1, j) || j == (from + i) % BUCKETS
  {
    var d := (j - from - 1) % BUCKETS;
    assert (from + 1 + d) % BUCKETS == j % BUCKETS;
    if j == (from + i) % BUCKETS {
      SameResidue(from + 1 + d, from + i);
    }
  }

  lemma SlotIs(slot: int, s: int, j: nat)
    requires slot - BUCKETS < s <= slot && j < BUCKETS && s % BUCKETS == j
    ensures SlotOfBucket(slot, j) == s
  {
    SameResidue(s, SlotOfBucket(slot, j));
  }

  /** The rotation reaches bucket j at the first slot after `from` that it can stand for. */
  lemma NextSlotOf(from: nat, j: nat)
    requires j < BUCKETS
    ensures var s := from + 1 + (j - from - 1) % BUCKETS;
      from < s <= from + BUCKETS && s % BUCKETS == j && (s - BUCKETS) % BUCKETS == j
  {
  }

  /** A rotation passes exactly the buckets whose slot is new to the window. */
  lemma PassedIsNew(from: nat, slot: nat, j: nat)
    requires from < slot && j < BUCKETS
    ensures Passed(from, Steps(from, slot), j) <==> SlotOfBucket(slot, j) > from
    ensures SlotOfBucket(slot, j) <= from ==> SlotOfBucket(from, j) == SlotOfBucket(slot, j)
  {
    hide SlotOfBucket;
    var s := from + 1 + (j - from - 1) % BUCKETS;
    NextSlotOf(from, j);
    if slot - from < BUCKETS {
      if s <= slot {
        SlotIs(slot, s, j);
      } else {
        SlotIs(slot, s - BUCKETS, j);
        SlotIs(from, s - BUCKETS, j);
      }
    }
  }

  /** Zeroing the passed buckets turns the window before into the window after. */
  lemma RotateRefines(before: seq<nat>, after: seq<nat>, from: nat, slot: nat, log: seq<nat>)
    requires Refines(before, from, log) && from < slot && |after| == BUCKETS
    requires forall j: nat :: j < BUCKETS ==> after[j] == if Passed(from, Steps(from, slot), j) then 0 else before[j]
    ensures Refines(after, slot, log)
  {
    forall j: nat | j < BUCKETS
      ensures after[j] == CountIn(log, SlotOfBucket(slot, j) - 1, SlotOfBucket(slot, j))
    {
      PassedIsNew(from, slot, j);
      if SlotOfBucket(slot, j) > from {
        CountNone(log, SlotOfBucket(slot, j) - 1, SlotOfBucket(slot, j));
      }
    }
  }

  lemma NoteRefines(counts: seq<nat>, slot: nat, log: seq<nat>)
    requires Refines(counts, slot, log)
    ensures Refines(counts[slot % BUCKETS := counts[slot % BUCKETS] + 1], slot, log + [slot])
  {
    var more := log + [slot];
    assert more[..|log|] == log;
    forall j: nat | j < BUCKETS ensures SlotOfBucket(slot, j) == slot <==> j == slot % BUCKETS {
    }
  }

  /** The summand that lies k slots back. */
  ghost function Back(log: seq<nat>, slot: nat, k: nat): nat {
    CountIn(log, slot - k - 1, slot - k)
  }

  lemma WindowIsSum(log: seq<nat>, slot: nat)
    ensures CountIn(log, slot - BUCKETS, slot) ==
            Back(log, slot, 0) + Back(log, slot, 1) + Back(log, slot, 2)
            + Back(log, slot, 3) + Back(log, slot, 4) + Back(log, slot, 5)
  {
    CountSplit(log, slot - 6, slot - 5, slot);
    CountSplit(log, slot - 5, slot - 4, slot);
    CountSplit(log, slot - 4, slot - 3, slot);
    CountSplit(log, slot - 3, slot - 2, slot);
    CountSplit(log, slot - 2, slot - 1, slot);
  }

  lemma SumPrefix(c: seq<nat>, n: nat)
    requires n < |c|
    ensures Sum(c[..n + 1]) == Sum(c[..n]) + c[n]
  {
    assert c[..n + 1][..n] == c[..n];
  }

  lemma SumOfSix(c: seq<nat>)
    requires |c| == 6
    ensures Sum(c) == c[0] + c[1] + c[2] + c[3] + c[4] + c[5]
  {
    assert c[..0] == [] && c[..6] == c;
    SumPrefix(c, 0);
    SumPrefix(c, 1);
    SumPrefix(c, 2);
    SumPrefix(c, 3);
    SumPrefix(c, 4);
    SumPrefix(c, 5);
  }

  /** How many slots back bucket j lies when the current slot is r modulo six. */
  function BackOf(r: nat, j: nat): nat
    requires r < BUCKETS && j < BUCKETS
  {
    if j <= r then r - j else r - j + BUCKETS
  }

  lemma BucketIsBack(slot: nat, j: nat)
    requires j < BUCKETS
    ensures SlotOfBucket(slot, j) == slot - BackOf(slot % BUCKETS, j)
  {
    var k := BackOf(slot % BUCKETS, j);
    assert (slot - k) % BUCKETS == j;
    SameResidue(slot - k, SlotOfBucket(slot, j));
  }

  /** The ring only permutes the summands. */
  lemma PermutedSum(c: seq<nat>, b: seq<nat>, r: nat)
    requires |c| == |b| == BUCKETS && r < BUCKETS
    requires forall j: nat :: j < BUCKETS ==> c[j] == b[BackOf(r, j)]
    ensures Sum(c) == Sum(b)
  {
    SumOfSix(c);
    SumOfSix(b);
    assert c[0] == b[BackOf(r, 0)] && c[1] == b[BackOf(r, 1)] && c[2] == b[BackOf(r, 2)];
    assert c[3] == b[BackOf(r, 3)] && c[4] == b[BackOf(r, 4)] && c[5] == b[BackOf(r, 5)];
    if r == 0 {
    } else if r == 1 {
    } else if r == 2 {
    } else if r == 3 {
    } else if r == 4 {
    }
  }

  /** The six buckets together hold the exact count of the last six slots. */
  lemma TotalIsWindow(counts: seq<nat>, slot: nat, log: seq<nat>)
    requires Refines(counts, slot, log)
    ensures Sum(counts) == CountIn(log, slot - BUCKETS, slot)
  {
    var back := [Back(log, slot, 0), Back(log, slot, 1), Back(log, slot, 2),
                 Back(log, slot, 3), Back(log, slot, 4), Back(log, slot, 5)];
    WindowIsSum(log, slot);
    SumOfSix(back);
    forall j: nat | j < BUCKETS ensures counts[j] == back[BackOf(slot % BUCKETS, j)] {
      BucketIsBack(slot, j);
    }
    PermutedSum(counts, back, slot % BUCKETS);
  }

  /** Events per minute over the window, scaled by the time since the first event while
      the counter is younger than a minute, and rounded to a tenth. */
  function Rate(total: nat, age: int): real {
    var window := if age >= MINUTE_NS then MINUTE_NS else if age < BUCKET_NS then BUCKET_NS else age;
    (total as real / (window as real / NS_PER_SECOND as real) * 60.0 * 10.0 + 0.5).Floor as real / 10.0
  }

  lemma RoundedTenth(x: real)
    requires x >= 0.0
    ensures var r := (x * 10.0 + 0.5).Floor as real / 10.0; x - 0.05 <= r <= x + 0.05
  {
    var k := (x * 10.0 + 0.5).Floor;
    assert k as real <= x * 10.0 + 0.5 < k as real + 1.0;
    assert k as real / 10.0 * 10.0 == k as real;
  }

  /** After a minute the rate is the count itself; before that it is the count scaled from
      the age, or from ten seconds when younger, to a minute, to the nearest tenth. */
  lemma RateIs(total: nat, age: int)
    ensures age >= 60_000_000_000 ==> Rate(total, age) == total as real
    ensures age <= 10_000_000_000 ==> Rate(total, age) == total as real * 6.0
    ensures 10_000_000_000 <= age <= 60_000_000_000 ==>
      var perMinute := total as real * 60_000_000_000.0 / age as real;
      perMinute - 0.05 <= Rate(total, age) <= perMinute + 0.05
  {
    if age >= MINUTE_NS {
      assert MINUTE_NS as real / NS_PER_SECOND as real == 60.0;
      assert total as real / 60.0 * 60.0 == total as real;
      assert total as real * 10.0 == (total * 10) as real;
      assert ((total * 10) as real + 0.5).Floor == total * 10;
    } else if age <= BUCKET_NS {
      assert BUCKET_NS as real / NS_PER_SECOND as real == 10.0;
      assert total as real / 10.0 * 60.0 * 10.0 == (total * 60) as real;
      assert ((total * 60) as real + 0.5).Floor == total * 60;
    } else {
      ScaledRate(total, age);
      RoundedTenth(total as real * 60_000_000_000.0 / age as real);
    }
    if age == MINUTE_NS {
      assert total as real * 60_000_000_000.0 / 60_000_000_000.0 == total as real;
    }
    if age == BUCKET_NS {
      assert total as real * 60_000_000_000.0 / 10_000_000_000.0 == total as real * 6.0;
    }
  }

  lemma ScaledRate(total: nat, age: int)
    requires age > 0
    ensures total as real / (age as real / NS_PER_SECOND as real) * 60.0 == total as real * 60_000_000_000.0 / age as real
  {
    var t, a := total as real, age as real;
    var x := a / 1_000_000_000.0;
    assert x * 1_000_000_000.0 == a && x > 0.0;
    var y := t / x;
    assert y * x == t;
    assert y * a == y * x * 1_000_000_000.0 == t * 1_000_000_000.0;
    assert y * 60.0 * a == t * 60_000_000_000.0;
  }

  /** The count by position: every logged slot of the range counts once. */
  lemma {:induction false} CountIsSum(log: seq<nat>, lo: int, hi: int)
    ensures CountIn(log, lo, hi) == Sum(seq(|log|, i requires 0 <= i < |log| => if lo < log[i] <= hi then 1 else 0))
  {
    if log != [] {
      var n := |log| - 1;
      var ones := seq(|log|, i requires 0 <= i < |log| => if lo < log[i] <= hi then 1 else 0);
      CountIsSum(log[..n], lo, hi);
      assert ones[..n] == seq(n, i requires 0 <= i < n => if lo < log[..n][i] <= hi then 1 else 0);
    }
  }

  class InflowCounter {
    var started: Option<nat>
    var slot: nat
    const counts: array<nat>
    ghost var log: seq<nat>

    ghost predicate Valid()
      reads this, counts
    {
      Refines(counts[..], slot, log) && (started.None? <==> log == [])
    }

    constructor ()
      ensures Valid() && fresh(counts) && log == [] && slot == 0
    {
      started, slot, log := None, 0, [];
      counts := new nat[BUCKETS](_ => 0);
    }

    /** The clock never runs backwards past the current slot. */
    method Note(now: nat)
      requires Valid() && SlotOf(now) >= slot
      modifies this, counts
      ensures Valid() && log == old(log) + [SlotOf(now)] && slot == SlotOf(now)
      ensures started == if old(started).Some? then old(started) else Some(now)
    {
      if started.None? {
        started := Some(now);
      }
      Rotate(SlotOf(now));
      NoteRefines(counts[..], slot, log);
      counts[slot % BUCKETS] := counts[slot % BUCKETS] + 1;
      log := log + [slot];
    }

    /** The rate is computed from the exact number of arrivals in the last six slots. */
    method RatePerMin(now: nat) returns (rate: real)
      requires Valid() && SlotOf(now) >= slot
      modifies this`slot, counts
      ensures Valid() && log == old(log)
      ensures rate == if started.None? then 0.0
                      else Rate(CountIn(log, SlotOf(now) - BUCKETS, SlotOf(now)), now - started.value)
    {
      if started.None? {
        return 0.0;
      }
      Rotate(SlotOf(now));
      var total := 0;
      for j := 0 to counts.Length
        invariant total == Sum(counts[..j])
      {
        assert counts[..j + 1][..j] == counts[..j];
        total := total + counts[j];
      }
      assert counts[..counts.Length] == counts[..];
      TotalIsWindow(counts[..], slot, log);
      rate := Rate(total, now - started.value);
    }

    method Rotate(to: nat)
      requires counts.Length == BUCKETS && Refines(counts[..], slot, log) && to >= slot
      modifies this`slot, counts
      ensures slot == to && Refines(counts[..], slot, log)
    {
      if to <= slot {
        return;
      }
      ghost var before := counts[..];
      var from := slot;
      var steps := if to - slot <= BUCKETS then to - slot else BUCKETS;
      var i := 1;
      while i <= steps
        invariant 1 <= i <= steps + 1 && slot == from
        invariant forall j: nat :: j < BUCKETS ==> counts[j] == if Passed(from, i - 1, j) then 0 else before[j]
      {
        forall j: nat | j < BUCKETS
          ensures Passed(from, i, j) <==> Passed(from, i - 1, j) || j == (from + i) % BUCKETS
        {
          NextPassed(from, i, j);
        }
        counts[(from + i) % BUCKETS] := 0;
        i := i + 1;
      }
      RotateRefines(before, counts[..], from, to, log);
      slot := to;
    }
  }
}
