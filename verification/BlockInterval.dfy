/** The cached mean block interval (avgBlockInterval and OnBlock,
    internal/explorer/tx.go), measured with no lock held while blocks may arrive. */
module BlockInterval {
  import opened Options

  const INTERVAL_TTL := 30_000_000_000
  const SPAN := 9

  // ----- The measurement --------------------------------------------------------

  /** Header times in seconds by height; the mean is in nanoseconds, its division one of
      whole seconds. None when the chain is too short or its times do not grow. */
  function Measured(times: nat -> int, tip: nat): Option<int> {
    var span := if SPAN <= tip then SPAN else tip;
    if span < 1 || times(tip) <= times(tip - span) then None
    else Some(WholeSeconds(times(tip) - times(tip - span), span) * 1_000_000_000)
  }

  /** Integer division of positive numbers. */
  function WholeSeconds(total: int, n: nat): (q: int)
    requires total > 0 && n > 0
    ensures q >= 0 && q * n <= total < q * n + n
  {
    total / n
  }

  /** What a caller gets: the target spacing unless the measurement gave something positive. */
  function MeanOf(times: nat -> int, target: int, tip: Option<nat>): int {
    if tip.Some? && Measured(times, tip.value).Some? && Measured(times, tip.value).value > 0
    then Measured(times, tip.value).value else target
  }

  lemma {:induction false} EvenTimes(times: nat -> int, from: nat, n: nat, d: int)
    requires forall k: nat :: from <= k < from + n ==> times(k + 1) - times(k) == d
    ensures times(from + n) - times(from) == d * n
  {
    if n > 0 {
      EvenTimes(times, from, n - 1, d);
      assert d * n == d * (n - 1) + d;
    }
  }

  lemma AtLeastFactor(n: nat, k: int)
    requires k >= 1
    ensures k * n >= n
  {
    assert k * n == n + (k - 1) * n;
  }

  lemma QuotientUnique(n: nat, q: int, d: int)
    requires n > 0 && q * n <= d * n < q * n + n
    ensures q == d
  {
    assert (d - q) * n == d * n - q * n && (q - d) * n == q * n - d * n;
    if d > q {
      AtLeastFactor(n, d - q);
    } else if d < q {
      AtLeastFactor(n, q - d);
    }
  }

  /** If the last nine blocks (or all there are) came d seconds apart, the mean is d
      seconds, whatever came before them. */
  lemma MeanOfEvenBlocks(times: nat -> int, target: int, tip: nat, d: int)
    requires tip > 0 && d > 0
    requires forall k: nat :: tip - SPAN <= k < tip ==> times(k + 1) - times(k) == d
    ensures MeanOf(times, target, Some(tip)) == d * 1_000_000_000
  {
    var span := if SPAN <= tip then SPAN else tip;
    EvenTimes(times, tip - span, span, d);
    AtLeastFactor(span, d);
    hide WholeSeconds;
    QuotientUnique(span, WholeSeconds(d * span, span), d);
    assert times(tip) - times(tip - span) == d * span;
  }

  predicate IsQuotient(q: int, total: int, n: int) {
    q * n <= total < q * n + n
  }

  /** The mean lies within a second below the exact quotient; the target stands in for
      what is not a positive whole number of seconds, and for every failure. */
  lemma MeanIsQuotient(times: nat -> int, target: int, tip: nat)
    requires tip > 0
    ensures var span := if tip < 9 then tip else 9;
      var d, mean := times(tip) - times(tip - span), MeanOf(times, target, Some(tip));
      if d >= span then exists q :: IsQuotient(q, d, span) && mean == q * 1_000_000_000 else mean == target
    ensures MeanOf(times, target, None) == MeanOf(times, target, Some(0)) == target
  {
    var span := if tip < 9 then tip else 9;
    var d := times(tip) - times(tip - span);
    hide WholeSeconds;
    if d > 0 {
      var q := WholeSeconds(d, span);
      if q > 0 {
        AtLeastFactor(span, q);
      }
      assert q == 0 ==> q * span == 0;
      if d >= span {
        assert q > 0 && IsQuotient(q, d, span);
        assert MeanOf(times, target, Some(tip)) == q * 1_000_000_000;
      }
    }
  }

  // ----- The cached value -------------------------------------------------------

  datatype Cached = Cached(mean: int, at: Option<nat>)

  predicate Serves(c: Cached, now: nat) {
    c.at.Some? && now - c.at.value < INTERVAL_TTL
  }

  /** The guarded fields with their three critical sections. */
  class IntervalCache {
    var mean: int
    var at: Option<nat>

    ghost function View(): Cached
      reads this
    {
      Cached(mean, at)
    }

    constructor ()
      ensures View() == Cached(0, None)
    {
      mean, at := 0, None;
    }

    method Lookup(now: nat) returns (r: Option<int>)
      ensures r == if Serves(View(), now) then Some(mean) else None
    {
      if at.Some? && now - at.value < INTERVAL_TTL {
        return Some(mean);
      }
      r := None;
    }

    method Store(measured: Option<int>, target: int, now: nat) returns (r: int)
      modifies this
      ensures r == if measured.Some? && measured.value > 0 then measured.value else target
      ensures View() == Cached(r, Some(now))
    {
      r := target;
      if measured.Some? && measured.value > 0 {
        r := measured.value;
      }
      mean := r;
      at := Some(now);
    }

    method Invalidate()
      modifies this
      ensures View() == old(View()).(at := None)
    {
      at := None;
    }
  }

  // ----- Whole runs ---------------------------------------------------------------

  /** A measurement under way: asked for the tip, or holding the height the node named,
      how far that was ahead of the announcements, and the blocks announced since. */
  datatype Measurement =
    | Asking
    | Measuring(tip: nat, ahead: nat, passed: nat)

  /** `announced` is the height that OnBlock has seen and `ahead` the number of blocks that
      the node has beyond it. `basis` is the measurement behind the cached mean, None after
      an RPC error. */
  datatype World = World(cache: Cached, basis: Option<Measurement>, announced: nat, ahead: nat,
                         running: map<nat, Measurement>, now: nat)

  datatype Event =
    | Mine
    | Announce
    | Call(id: nat, at: nat)
    | Tip(id: nat)
    | Store(id: nat, fails: bool, at: nat)

  const BOOT := World(Cached(0, None), None, 0, 0, map[], 0)

  predicate Enabled(w: World, e: Event) {
    match e
    case Mine => true
    case Announce => w.ahead > 0
    case Call(id, at) => id !in w.running && at >= w.now
    case Tip(id) => id in w.running && w.running[id].Asking?
    case Store(id, fails, at) => id in w.running && at >= w.now && (fails || w.running[id].Measuring?)
  }

  function Overtaken(m: Measurement): Measurement {
    if m.Asking? then m else m.(passed := m.passed + 1)
  }

  function TipOf(m: Option<Measurement>): Option<nat> {
    if m.Some? && m.value.Measuring? then Some(m.value.tip) else None
  }

  /** Announce is OnBlock; the node's height grows before that. */
  function Step(w: World, e: Event, times: nat -> int, target: int): World
    requires Enabled(w, e)
  {
    match e
    case Mine => w.(ahead := w.ahead + 1)
    case Announce =>
      w.(announced := w.announced + 1, ahead := w.ahead - 1, cache := w.cache.(at := None),
         running := map id | id in w.running :: Overtaken(w.running[id]))
    case Call(id, at) =>
      if Serves(w.cache, at) then w.(now := at) else w.(now := at, running := w.running[id := Asking])
    case Tip(id) => w.(running := w.running[id := Measuring(w.announced + w.ahead, w.ahead, 0)])
    case Store(id, fails, at) =>
      var basis := if fails then None else Some(w.running[id]);
      w.(now := at, running := w.running - {id}, basis := basis,
         cache := Cached(MeanOf(times, target, TipOf(basis)), Some(at)))
  }

  ghost predicate Run(w: World, es: seq<Event>, times: nat -> int, target: int)
    decreases |es|
  {
    es != [] ==> Enabled(w, es[0]) && Run(Step(w, es[0], times, target), es[1..], times, target)
  }

  ghost function After(w: World, es: seq<Event>, times: nat -> int, target: int): World
    requires Run(w, es, times, target)
    decreases |es|
  {
    if es == [] then w else After(Step(w, es[0], times, target), es[1..], times, target)
  }

  /** The measured height lags by the blocks announced since, less the lead it had. */
  predicate Lags(m: Measurement, announced: nat) {
    m.Measuring? ==> announced - m.tip == m.passed - m.ahead
  }

  ghost predicate Inv(w: World, times: nat -> int, target: int) {
    && (forall id :: id in w.running ==> Lags(w.running[id], w.announced))
    && (w.cache.at.Some? ==>
          && w.cache.mean == MeanOf(times, target, TipOf(w.basis))
          && (w.basis.Some? ==> w.basis.value.Measuring? && Lags(w.basis.value, w.announced)))
  }

  lemma {:induction false} InvRun(w: World, es: seq<Event>, times: nat -> int, target: int)
    requires Inv(w, times, target) && Run(w, es, times, target)
    ensures Inv(After(w, es, times, target), times, target)
    decreases |es|
  {
    if es != [] {
      var v := Step(w, es[0], times, target);
      assert es[0].Announce? ==> forall id :: id in v.running ==> Lags(w.running[id], w.announced);
      InvRun(v, es[1..], times, target);
    }
  }

  /** In every run a mean served from the cache is the target spacing, or the mean up to a
      height that the announced one exceeds by exactly the blocks announced while it was
      being measured, less those the node already had when it named its tip. */
  lemma ServedMeanLag(es: seq<Event>, times: nat -> int, target: int, at: nat)
    requires Run(BOOT, es, times, target) && Serves(After(BOOT, es, times, target).cache, at)
    ensures var w := After(BOOT, es, times, target);
      if w.basis.None? then w.cache.mean == target
      else
        && w.basis.value.Measuring? && w.cache.mean == MeanOf(times, target, Some(w.basis.value.tip))
        && w.announced - w.basis.value.tip == w.basis.value.passed - w.basis.value.ahead
  {
    InvRun(BOOT, es, times, target);
  }

  /** So it is at worst one block stale, as the comment has it, exactly when no more than
      one block that its measurement had not seen was announced before it was stored. */
  lemma AtMostOneBlockStaleIff(es: seq<Event>, times: nat -> int, target: int, at: nat)
    requires Run(BOOT, es, times, target) && Serves(After(BOOT, es, times, target).cache, at)
    requires After(BOOT, es, times, target).basis.Some?
    ensures var w := After(BOOT, es, times, target);
      && w.basis.value.Measuring?
      && (w.announced <= w.basis.value.tip + 1 <==> w.basis.value.passed <= w.basis.value.ahead + 1)
  {
    InvRun(BOOT, es, times, target);
  }

  /** A block takes back what was stored before it: what is served after an announcement
      was stored after it. */
  lemma {:induction false} NothingServedAcrossBlock(w: World, es: seq<Event>, times: nat -> int, target: int)
    requires Run(w, es, times, target) && w.cache.at.None?
    requires forall i :: 0 <= i < |es| ==> !es[i].Store?
    ensures forall at :: !Serves(After(w, es, times, target).cache, at)
    decreases |es|
  {
    if es != [] {
      NothingServedAcrossBlock(Step(w, es[0], times, target), es[1..], times, target);
    }
  }

  /** Without blocks and new measurements a stored mean stays as it is ... */
  lemma {:induction false} StoredIsKept(w: World, es: seq<Event>, times: nat -> int, target: int)
    requires Run(w, es, times, target) && forall i :: 0 <= i < |es| ==> !es[i].Announce? && !es[i].Store?
    ensures After(w, es, times, target).cache == w.cache
    decreases |es|
  {
    if es != [] {
      StoredIsKept(Step(w, es[0], times, target), es[1..], times, target);
    }
  }

  /** ... and is served for thirty seconds: nobody measures again. */
  lemma StoredIsServed(w: World, id: nat, fails: bool, at: nat, es: seq<Event>, times: nat -> int, target: int,
                       caller: nat, later: nat)
    requires Enabled(w, Store(id, fails, at)) && Run(Step(w, Store(id, fails, at), times, target), es, times, target)
    requires forall i :: 0 <= i < |es| ==> !es[i].Announce? && !es[i].Store?
    requires Enabled(After(Step(w, Store(id, fails, at), times, target), es, times, target), Call(caller, later))
    ensures var v := After(Step(w, Store(id, fails, at), times, target), es, times, target);
      && v.cache.mean == MeanOf(times, target, if fails then None else TipOf(Some(w.running[id])))
      && (Step(v, Call(caller, later), times, target).running == v.running <==> later - at < 30_000_000_000)
  {
    var w1 := Step(w, Store(id, fails, at), times, target);
    StoredIsKept(w1, es, times, target);
    var v := After(w1, es, times, target);
    assert caller in v.running[caller := Asking];
  }

  lemma RunCons(w: World, e: Event, es: seq<Event>, times: nat -> int, target: int)
    requires Enabled(w, e) && Run(Step(w, e, times, target), es, times, target)
    ensures Run(w, [e] + es, times, target)
    ensures After(w, [e] + es, times, target) == After(Step(w, e, times, target), es, times, target)
  {
    assert ([e] + es)[1..] == es;
  }

  /** k blocks pass before the measurement is stored. */
  function StalledFor(k: nat): seq<Event> {
    if k == 0 then [Store(0, false, 0)] + [] else [Mine] + ([Announce] + StalledFor(k - 1))
  }

  lemma {:induction false} StalledRuns(w: World, k: nat, times: nat -> int, target: int)
    requires 0 in w.running && w.running[0].Measuring? && w.now == 0
    ensures Run(w, StalledFor(k), times, target)
    ensures var v := After(w, StalledFor(k), times, target);
      v.announced == w.announced + k && v.cache.at == Some(0) && v.basis.Some? && v.basis.value.Measuring?
      && v.basis.value.tip == w.running[0].tip
    decreases k
  {
    if k == 0 {
      RunCons(w, Store(0, false, 0), [], times, target);
    } else {
      var w1 := Step(w, Mine, times, target);
      var w2 := Step(w1, Announce, times, target);
      StalledRuns(w2, k - 1, times, target);
      RunCons(w1, Announce, StalledFor(k - 1), times, target);
      RunCons(w, Mine, [Announce] + StalledFor(k - 1), times, target);
    }
  }

  predicate ServesBehind(w: World, k: nat) {
    Serves(w.cache, 0) && w.basis.Some? && w.basis.value.Measuring? && w.announced == w.basis.value.tip + k
  }

  /** While the node stalls, any number of blocks can pass: for every k there is a run that
      serves a mean measured k blocks before. */
  lemma StalledMeasurementMissesMany(k: nat, times: nat -> int, target: int)
    ensures exists es :: Run(BOOT, es, times, target) && ServesBehind(After(BOOT, es, times, target), k)
  {
    var e1, e2 := Call(0, 0), Tip(0);
    var w1 := Step(BOOT, e1, times, target);
    var w2 := Step(w1, e2, times, target);
    StalledRuns(w2, k, times, target);
    RunCons(w1, e2, StalledFor(k), times, target);
    RunCons(BOOT, e1, [e2] + StalledFor(k), times, target);
  }
}
