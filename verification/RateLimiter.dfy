/** The per-client token bucket with sweeping (internal/api/middleware.go). Times are
    nanoseconds and token counts exact reals. */
module RateLimiter {
  import opened Options
  import opened Collections

  const SWEEP_EVERY: nat := 300_000_000_000
  const SECOND := 1_000_000_000.0

  datatype Bucket = Bucket(tokens: real, updated: nat)

  /** Tokens refill at perSec per second; sweepAt None is the zero time. */
  datatype Limiter = Limiter(buckets: map<string, Bucket>, perSec: real, burst: real, sweepAt: Option<nat>)

  function Min(a: real, b: real): real {
    if a <= b then a else b
  }

  function Refill(ns: int, perSec: real): real {
    ns as real / SECOND * perSec
  }

  /** The duration after which an idle bucket is full again, cut to whole nanoseconds. */
  function RefillTime(l: Limiter): int
    requires l.perSec > 0.0
  {
    (l.burst / l.perSec * SECOND).Floor
  }

  function Swept(l: Limiter, now: nat): Limiter
    requires l.perSec > 0.0
  {
    l.(buckets := map k | k in l.buckets && now - l.buckets[k].updated <= RefillTime(l) :: l.buckets[k])
  }

  function Housekept(l: Limiter, now: nat): Limiter
    requires l.perSec > 0.0
  {
    if l.sweepAt.None? || now > l.sweepAt.value then Swept(l, now).(sweepAt := Some(now + SWEEP_EVERY)) else l
  }

  /** What the key may spend at `now`; an absent bucket counts as full. */
  function Available(l: Limiter, key: string, now: nat): real {
    if key in l.buckets then
      Min(l.burst, l.buckets[key].tokens + Refill(now - l.buckets[key].updated, l.perSec))
    else l.burst
  }

  predicate Allowed(l: Limiter, key: string, cost: real, now: nat) {
    Available(l, key, now) >= cost
  }

  function Spent(l: Limiter, key: string, cost: real, now: nat): Limiter {
    var tokens := Available(l, key, now);
    l.(buckets := l.buckets[key := Bucket(if tokens >= cost then tokens - cost else tokens, now)])
  }

  predicate HasPrefix(s: string, prefix: string) {
    |prefix| <= |s| && s[..|prefix|] == prefix
  }

  function RouteCost(path: string): (cost: real)
    ensures 1.0 <= cost <= 8.0
  {
    if HasPrefix(path, "/api/address/") then 8.0
    else if path == "/api/search" || path == "/api/ws" then 4.0
    else if HasPrefix(path, "/api/tx/") || HasPrefix(path, "/api/block/") then 2.0
    else 1.0
  }

  class RateLimiter {
    var buckets: map<string, Bucket>
    const perSec: real
    const burst: real
    var sweepAt: Option<nat>

    ghost function View(): Limiter
      reads this
    {
      Limiter(buckets, perSec, burst, sweepAt)
    }

    /** A limiter is only built when a positive budget is configured. */
    constructor (perMin: int, burst: int)
      requires perMin > 0
      ensures View() == New(perMin, burst)
    {
      buckets := map[];
      perSec := perMin as real / 60.0;
      this.burst := if burst <= 0 then perMin as real else burst as real;
      sweepAt := None;
    }

    method Allow(key: string, cost: real, now: nat) returns (ok: bool)
      requires perSec > 0.0
      modifies this
      ensures ok == Allowed(Housekept(old(View()), now), key, cost, now)
      ensures View() == Spent(Housekept(old(View()), now), key, cost, now)
    {
      if sweepAt.None? || now > sweepAt.value {
        Sweep(now);
        sweepAt := Some(now + SWEEP_EVERY);
      }
      var b: Bucket;
      if key !in buckets {
        b := Bucket(burst, now);
      } else {
        b := Bucket(Min(burst, buckets[key].tokens + Refill(now - buckets[key].updated, perSec)), now);
      }
      ok := b.tokens >= cost;
      if ok {
        b := b.(tokens := b.tokens - cost);
      }
      buckets := buckets[key := b];
    }

    method Sweep(now: nat)
      requires perSec > 0.0
      modifies this`buckets
      ensures View() == Swept(old(View()), now)
    {
      var refillTime := (burst / perSec * SECOND).Floor;
      var todo := buckets.Keys;
      while todo != {}
        invariant todo <= old(buckets).Keys
        invariant buckets == map k | k in old(buckets) && (k in todo || now - old(buckets)[k].updated <= refillTime) :: old(buckets)[k]
        decreases todo
      {
        var key :| key in todo;
        todo := todo - {key};
        if now - buckets[key].updated > refillTime {
          buckets := buckets - {key};
        }
      }
    }
  }

  function New(perMin: int, burst: int): Limiter {
    Limiter(map[], perMin as real / 60.0, if burst <= 0 then perMin as real else burst as real, None)
  }

  // ----- Runs of requests -----------------------------------------------------

  datatype Request = Request(key: string, cost: real, now: nat)

  predicate Clocked(from: nat, reqs: seq<Request>) {
    && (forall i :: 0 <= i < |reqs| ==> from <= reqs[i].now && reqs[i].cost >= 0.0)
    && (forall i, j :: 0 <= i < j < |reqs| ==> reqs[i].now <= reqs[j].now)
  }

  function Served(l: Limiter, r: Request): Limiter
    requires l.perSec > 0.0
  {
    Spent(Housekept(l, r.now), r.key, r.cost, r.now)
  }

  predicate Answer(l: Limiter, r: Request)
    requires l.perSec > 0.0
  {
    Allowed(Housekept(l, r.now), r.key, r.cost, r.now)
  }

  ghost function After(l: Limiter, reqs: seq<Request>): Limiter
    requires l.perSec > 0.0
    decreases |reqs|
  {
    if reqs == [] then l else After(Served(l, reqs[0]), reqs[1..])
  }

  ghost function Answers(l: Limiter, reqs: seq<Request>): seq<bool>
    requires l.perSec > 0.0
    decreases |reqs|
  {
    if reqs == [] then [] else [Answer(l, reqs[0])] + Answers(Served(l, reqs[0]), reqs[1..])
  }

  /** Every bucket holds between nothing and the burst, and was touched in the past. */
  ghost predicate Sound(l: Limiter, now: nat) {
    && l.perSec > 0.0 && l.burst > 0.0
    && forall k :: k in l.buckets ==> 0.0 <= l.buckets[k].tokens <= l.burst && l.buckets[k].updated <= now
  }

  lemma RefillAdds(a: int, b: int, perSec: real)
    ensures Refill(a, perSec) + Refill(b, perSec) == Refill(a + b, perSec)
    ensures perSec > 0.0 && a >= 0 ==> Refill(a, perSec) >= 0.0
  {
    var x, y := a as real / SECOND, b as real / SECOND;
    assert (a + b) as real / SECOND == x + y;
    assert (x + y) * perSec == x * perSec + y * perSec;
    if perSec > 0.0 && a >= 0 {
      assert x >= 0.0;
      assert x * perSec >= 0.0;
    }
  }

  /** Idle for longer than the truncated refill time means full: truncation only ever
      keeps a bucket longer. */
  lemma IdleMeansFull(l: Limiter, idle: int)
    requires l.perSec > 0.0 && idle > RefillTime(l)
    ensures Refill(idle, l.perSec) >= l.burst
  {
    var exact := l.burst / l.perSec * SECOND;
    assert idle as real >= exact;
    assert idle as real / SECOND >= l.burst / l.perSec;
    var x, y := idle as real / SECOND, l.burst / l.perSec;
    assert x * l.perSec >= y * l.perSec;
    assert y * l.perSec == l.burst;
  }

  lemma HousekeptAvailable(l: Limiter, key: string, now: nat, t: nat)
    requires Sound(l, now) && now <= t
    ensures Available(Housekept(l, now), key, t) == Available(l, key, t)
    ensures Sound(Housekept(l, now), now)
  {
    var h := Housekept(l, now);
    if key in l.buckets && key !in h.buckets {
      var b := l.buckets[key];
      IdleMeansFull(l, t - b.updated);
    }
  }

  lemma AvailableGrows(l: Limiter, key: string, now: nat, t: nat)
    requires Sound(l, now) && now <= t
    ensures 0.0 <= Available(l, key, now) <= Available(l, key, t) <= l.burst
    ensures Available(l, key, t) <= Available(l, key, now) + Refill(t - now, l.perSec)
  {
    RefillAdds(t - now, 0, l.perSec);
    if key in l.buckets {
      var b := l.buckets[key];
      RefillAdds(now - b.updated, t - now, l.perSec);
    }
  }

  lemma SpentEffect(l: Limiter, key: string, cost: real, now: nat)
    requires Sound(l, now) && cost >= 0.0
    ensures Sound(Spent(l, key, cost, now), now)
    ensures Available(Spent(l, key, cost, now), key, now) ==
            Available(l, key, now) - if Allowed(l, key, cost, now) then cost else 0.0
    ensures forall k :: k != key ==> Available(Spent(l, key, cost, now), k, now) == Available(l, k, now)
  {
    AvailableGrows(l, key, now, now);
    RefillAdds(0, 0, l.perSec);
  }

  lemma ServedSound(l: Limiter, r: Request)
    requires Sound(l, r.now) && r.cost >= 0.0
    ensures Sound(Served(l, r), r.now)
    ensures Served(l, r).perSec == l.perSec && Served(l, r).burst == l.burst
  {
    HousekeptAvailable(l, r.key, r.now, r.now);
    SpentEffect(Housekept(l, r.now), r.key, r.cost, r.now);
  }

  lemma SoundLater(l: Limiter, now: nat, t: nat)
    requires Sound(l, now) && now <= t
    ensures Sound(l, t)
  {
  }

  /** In every reachable state, sweeps included, no bucket is overdrawn or overfull. */
  lemma {:induction false} SoundRun(l: Limiter, from: nat, reqs: seq<Request>)
    requires Sound(l, from) && Clocked(from, reqs)
    ensures Sound(After(l, reqs), if reqs == [] then from else reqs[|reqs| - 1].now)
    decreases |reqs|
  {
    if reqs != [] {
      SoundLater(l, from, reqs[0].now);
      ServedSound(l, reqs[0]);
      SoundRun(Served(l, reqs[0]), reqs[0].now, reqs[1..]);
    }
  }

  /** The total cost let through for a key inside a window of time. */
  ghost function Passed(l: Limiter, reqs: seq<Request>, key: string, t1: nat, t2: nat): real
    requires l.perSec > 0.0
    decreases |reqs|
  {
    if reqs == [] then 0.0
    else
      (if reqs[0].key == key && t1 <= reqs[0].now <= t2 && Answer(l, reqs[0]) then reqs[0].cost else 0.0)
      + Passed(Served(l, reqs[0]), reqs[1..], key, t1, t2)
  }

  lemma {:induction false} NothingPassesLate(l: Limiter, reqs: seq<Request>, key: string, t1: nat, t2: nat)
    requires l.perSec > 0.0 && forall i :: 0 <= i < |reqs| ==> reqs[i].now > t2
    ensures Passed(l, reqs, key, t1, t2) == 0.0
    decreases |reqs|
  {
    if reqs != [] {
      NothingPassesLate(Served(l, reqs[0]), reqs[1..], key, t1, t2);
    }
  }

  /** What passes up to t2 was available at `at` or refilled since. */
  lemma {:induction false} PassedIsCovered(l: Limiter, at: nat, reqs: seq<Request>, key: string, t1: nat, t2: nat)
    requires Sound(l, at) && Clocked(at, reqs) && at <= t2
    ensures Passed(l, reqs, key, t1, t2) <= Available(l, key, at) + Refill(t2 - at, l.perSec)
    decreases |reqs|
  {
    if reqs == [] {
      AvailableGrows(l, key, at, t2);
      RefillAdds(t2 - at, 0, l.perSec);
    } else if reqs[0].now > t2 {
      NothingPassesLate(l, reqs, key, t1, t2);
      AvailableGrows(l, key, at, t2);
      RefillAdds(t2 - at, 0, l.perSec);
    } else {
      var r := reqs[0];
      ServedPays(l, at, r, key);
      PassedIsCovered(Served(l, r), r.now, reqs[1..], key, t1, t2);
      RefillAdds(r.now - at, t2 - r.now, l.perSec);
    }
  }

  /** One request takes what it is granted out of what was available or refilled. */
  lemma ServedPays(l: Limiter, at: nat, r: Request, key: string)
    requires Sound(l, at) && at <= r.now && r.cost >= 0.0
    ensures Sound(Served(l, r), r.now) && Served(l, r).perSec == l.perSec
    ensures Available(Served(l, r), key, r.now) + (if r.key == key && Answer(l, r) then r.cost else 0.0)
            <= Available(l, key, at) + Refill(r.now - at, l.perSec)
  {
    SoundLater(l, at, r.now);
    ServedSound(l, r);
    HousekeptAvailable(l, key, r.now, r.now);
    SpentEffect(Housekept(l, r.now), r.key, r.cost, r.now);
    AvailableGrows(l, key, at, r.now);
  }

  /** The token-bucket bound for every key and every window of a nondecreasing clock. */
  lemma {:induction false} WindowBound(l: Limiter, from: nat, reqs: seq<Request>, key: string, t1: nat, t2: nat)
    requires Sound(l, from) && Clocked(from, reqs) && t1 <= t2
    ensures Passed(l, reqs, key, t1, t2) <= l.burst + Refill(t2 - t1, l.perSec)
    decreases |reqs|
  {
    RefillAdds(t2 - t1, 0, l.perSec);
    if reqs != [] {
      var r := reqs[0];
      if r.now < t1 {
        SoundLater(l, from, r.now);
        ServedSound(l, r);
        WindowBound(Served(l, r), r.now, reqs[1..], key, t1, t2);
      } else if r.now > t2 {
        NothingPassesLate(l, reqs, key, t1, t2);
      } else {
        SoundLater(l, from, r.now);
        PassedIsCovered(l, r.now, reqs, key, t1, t2);
        AvailableGrows(l, key, r.now, r.now);
        RefillAdds(r.now - t1, t2 - r.now, l.perSec);
      }
    }
  }

  // ----- Every refusal is due -------------------------------------------------

  lemma {:induction false} AfterAppend(l: Limiter, reqs: seq<Request>, r: Request)
    requires l.perSec > 0.0
    ensures After(l, reqs).perSec == l.perSec && After(l, reqs).burst == l.burst
    ensures After(l, reqs + [r]) == Served(After(l, reqs), r)
    decreases |reqs|
  {
    hide RefillTime, Available, Allowed;
    var more := reqs + [r];
    if reqs == [] {
      assert more[1..] == [];
    } else {
      assert more[1..] == reqs[1..] + [r];
      AfterAppend(Served(l, reqs[0]), reqs[1..], r);
    }
  }

  /** What one more request adds to the total let through. */
  function Gain(l: Limiter, r: Request, key: string, t1: nat, t2: nat): real
    requires l.perSec > 0.0
  {
    if r.key == key && t1 <= r.now <= t2 && Answer(l, r) then r.cost else 0.0
  }

  lemma {:induction false} PassedAppend(l: Limiter, reqs: seq<Request>, r: Request, key: string, t1: nat, t2: nat)
    requires l.perSec > 0.0
    ensures After(l, reqs).perSec == l.perSec
    ensures Passed(l, reqs + [r], key, t1, t2) == Passed(l, reqs, key, t1, t2) + Gain(After(l, reqs), r, key, t1, t2)
    decreases |reqs|
  {
    hide Answer, Served;
    AfterAppend(l, reqs, r);
    var more := reqs + [r];
    if reqs == [] {
      assert more[1..] == [];
    } else {
      assert more[1..] == reqs[1..] + [r];
      ServedKeepsRates(l, reqs[0]);
      PassedAppend(Served(l, reqs[0]), reqs[1..], r, key, t1, t2);
    }
  }

  lemma ServedKeepsRates(l: Limiter, r: Request)
    requires l.perSec > 0.0
    ensures Served(l, r).perSec == l.perSec && Served(l, r).burst == l.burst
  {
    hide RefillTime, Available;
  }

  /** Beyond the last request the end of the window does not matter. */
  lemma {:induction false} PassedEnd(l: Limiter, reqs: seq<Request>, key: string, t1: nat, a: nat, b: nat)
    requires l.perSec > 0.0 && forall i :: 0 <= i < |reqs| ==> reqs[i].now <= a && reqs[i].now <= b && reqs[i].cost >= 0.0
    ensures Passed(l, reqs, key, t1, a) == Passed(l, reqs, key, t1, b) >= 0.0
    decreases |reqs|
  {
    hide Answer, Served;
    if reqs != [] {
      ServedKeepsRates(l, reqs[0]);
      PassedEnd(Served(l, reqs[0]), reqs[1..], key, t1, a, b);
    }
  }

  /** What is available is at least what some window leaves of the burst and its refill. */
  ghost predicate Accounted(l: Limiter, reqs: seq<Request>, key: string, available: real, now: nat) {
    l.perSec > 0.0
    && exists t1: nat :: t1 <= now && available >= l.burst + Refill(now - t1, l.perSec) - Passed(l, reqs, key, t1, now)
  }

  /** Waiting until t adds the refill, or fills the bucket: then the window starts anew. */
  lemma AccountedLater(l: Limiter, reqs: seq<Request>, key: string, m: Limiter, now: nat, t: nat)
    requires Sound(m, now) && m.perSec == l.perSec && m.burst == l.burst && now <= t
    requires forall i :: 0 <= i < |reqs| ==> reqs[i].now <= now && reqs[i].cost >= 0.0
    requires Accounted(l, reqs, key, Available(m, key, now), now)
    ensures Accounted(l, reqs, key, Available(m, key, t), t)
  {
    RefillAdds(0, 0, l.perSec);
    if Available(m, key, t) == l.burst {
      PassedEnd(l, reqs, key, t, t, t);
      assert Available(m, key, t) >= l.burst + Refill(t - t, l.perSec) - Passed(l, reqs, key, t, t);
    } else {
      var t1: nat :| t1 <= now
        && Available(m, key, now) >= l.burst + Refill(now - t1, l.perSec) - Passed(l, reqs, key, t1, now);
      WaitingRefills(m, key, now, t);
      RefillAdds(now - t1, t - now, l.perSec);
      PassedEnd(l, reqs, key, t1, now, t);
      assert Available(m, key, t) >= l.burst + Refill(t - t1, l.perSec) - Passed(l, reqs, key, t1, t);
    }
  }

  /** Until the bucket is full, waiting adds all of the refill to what is left. */
  lemma WaitingRefills(m: Limiter, key: string, now: nat, t: nat)
    requires Sound(m, now) && now <= t && Available(m, key, t) != m.burst
    ensures Available(m, key, t) == Available(m, key, now) + Refill(t - now, m.perSec)
  {
    var b := m.buckets[key];
    RefillAdds(now - b.updated, t - now, m.perSec);
    RefillAdds(t - now, 0, m.perSec);
  }

  /** A request is charged to every window that ends with it. */
  lemma AccountedServed(l: Limiter, reqs: seq<Request>, key: string, m: Limiter, r: Request)
    requires Sound(m, r.now) && l.perSec > 0.0 && m == After(l, reqs) && r.cost >= 0.0
    requires Accounted(l, reqs, key, Available(m, key, r.now), r.now)
    ensures Accounted(l, reqs + [r], key, Available(Served(m, r), key, r.now), r.now)
  {
    var t1: nat :| t1 <= r.now
      && Available(m, key, r.now) >= l.burst + Refill(r.now - t1, l.perSec) - Passed(l, reqs, key, t1, r.now);
    PassedAppend(l, reqs, r, key, t1, r.now);
    ServedCharges(m, r, key);
    assert Available(Served(m, r), key, r.now)
           >= l.burst + Refill(r.now - t1, l.perSec) - Passed(l, reqs + [r], key, t1, r.now);
  }

  lemma ServedCharges(m: Limiter, r: Request, key: string)
    requires Sound(m, r.now) && r.cost >= 0.0
    ensures Available(Served(m, r), key, r.now) ==
            Available(m, key, r.now) - if r.key == key && Answer(m, r) then r.cost else 0.0
  {
    HousekeptAvailable(m, key, r.now, r.now);
    SpentEffect(Housekept(m, r.now), r.key, r.cost, r.now);
  }

  lemma {:induction false} AccountedRun(perMin: int, burst: int, reqs: seq<Request>, key: string, now: nat)
    requires perMin > 0 && Clocked(0, reqs) && forall i :: 0 <= i < |reqs| ==> reqs[i].now <= now
    ensures var l := New(perMin, burst);
      && Sound(After(l, reqs), now) && Accounted(l, reqs, key, Available(After(l, reqs), key, now), now)
    decreases |reqs|
  {
    var l := New(perMin, burst);
    NewIsSound(perMin, burst);
    if reqs == [] {
      SoundLater(l, 0, now);
      RefillAdds(0, 0, l.perSec);
      assert Available(l, key, now) >= l.burst + Refill(now - now, l.perSec) - Passed(l, [], key, now, now);
    } else {
      var n := |reqs| - 1;
      var front, r := reqs[..n], reqs[n];
      assert reqs == front + [r];
      AccountedRun(perMin, burst, front, key, r.now);
      AfterAppend(l, front, r);
      var m := After(l, front);
      AccountedServed(l, front, key, m, r);
      ServedSound(m, r);
      SoundLater(Served(m, r), r.now, now);
      AccountedLater(l, reqs, key, Served(m, r), r.now, now);
    }
  }

  lemma AllowedFitsWindow(perMin: int, burst: int, past: seq<Request>, r: Request, t1: nat)
    requires perMin > 0 && Clocked(0, past + [r]) && t1 <= r.now
    ensures After(New(perMin, burst), past).perSec > 0.0
    ensures Answer(After(New(perMin, burst), past), r) ==> Fits(New(perMin, burst), past, r, t1)
  {
    NewIsSound(perMin, burst);
    WindowBound(New(perMin, burst), 0, past + [r], r.key, t1, r.now);
    PassedAppend(New(perMin, burst), past, r, r.key, t1, r.now);
    hide Answer, Passed, After, Clocked, Refill;
  }

  lemma RefusedMissesWindow(perMin: int, burst: int, past: seq<Request>, r: Request)
    requires perMin > 0 && Clocked(0, past + [r])
    ensures After(New(perMin, burst), past).perSec > 0.0
    ensures !Answer(After(New(perMin, burst), past), r) ==> exists t1: nat :: t1 <= r.now && !Fits(New(perMin, burst), past, r, t1)
  {
    var l, m := New(perMin, burst), After(New(perMin, burst), past);
    assert (past + [r])[|past|] == r && forall i :: 0 <= i < |past| ==> (past + [r])[i] == past[i];
    AccountedRun(perMin, burst, past, r.key, r.now);
    HousekeptAvailable(m, r.key, r.now, r.now);
    hide Passed, After, Clocked, Refill, Available, Housekept, Sound;
    var t1: nat :| t1 <= r.now
      && Available(m, r.key, r.now) >= l.burst + Refill(r.now - t1, l.perSec) - Passed(l, past, r.key, t1, r.now);
    if !Answer(m, r) {
      assert !Fits(l, past, r, t1);
    }
  }

  /** What was let through since t1 and this request stay within the burst and the refill. */
  ghost predicate Fits(l: Limiter, past: seq<Request>, r: Request, t1: nat) {
    && l.perSec > 0.0
    && Passed(l, past, r.key, t1, r.now) + r.cost <= l.burst + Refill(r.now - t1, l.perSec)
  }

  /** The bucket refuses exactly what the bound on windows forbids: a request is let
      through iff, in every window that ends with it, it and what was let through before
      stay within the burst and the refill of that window. */
  lemma AllowedIffEveryWindowAllows(perMin: int, burst: int, past: seq<Request>, r: Request)
    requires perMin > 0 && Clocked(0, past + [r])
    ensures After(New(perMin, burst), past).perSec > 0.0
    ensures Answer(After(New(perMin, burst), past), r) <==>
            forall t1: nat :: t1 <= r.now ==> Fits(New(perMin, burst), past, r, t1)
  {
    RefusedMissesWindow(perMin, burst, past, r);
    hide *;
    forall t1: nat | t1 <= r.now
      ensures Answer(After(New(perMin, burst), past), r) ==> Fits(New(perMin, burst), past, r, t1)
    {
      AllowedFitsWindow(perMin, burst, past, r, t1);
    }
  }

  /** Every window of a minute lets through at most the burst and the minute's budget; the
      burst is that budget too unless a positive one is configured. */
  lemma MinuteBudget(perMin: int, burst: int, reqs: seq<Request>, key: string, t1: nat)
    requires perMin > 0 && Clocked(0, reqs)
    ensures Passed(New(perMin, burst), reqs, key, t1, t1 + 60_000_000_000) <=
            (if burst > 0 then burst else perMin) as real + perMin as real
    ensures Available(New(perMin, burst), key, t1) == (if burst > 0 then burst else perMin) as real
    ensures Refill(60_000_000_000, New(perMin, burst).perSec) == perMin as real
  {
    var l := New(perMin, burst);
    NewIsSound(perMin, burst);
    WindowBound(l, 0, reqs, key, t1, t1 + 60_000_000_000);
    assert 60_000_000_000 as real / SECOND == 60.0;
    assert 60.0 * (perMin as real / 60.0) == perMin as real;
  }

  /** The times at which a run sweeps. */
  ghost function Sweeps(l: Limiter, reqs: seq<Request>): seq<nat>
    requires l.perSec > 0.0
    decreases |reqs|
  {
    if reqs == [] then []
    else
      (if l.sweepAt.None? || reqs[0].now > l.sweepAt.value then [reqs[0].now] else [])
      + Sweeps(Served(l, reqs[0]), reqs[1..])
  }

  lemma {:induction false} SweepsAreSpaced(l: Limiter, reqs: seq<Request>)
    requires l.perSec > 0.0
    ensures Spaced(Sweeps(l, reqs), SWEEP_EVERY)
    ensures l.sweepAt.Some? && Sweeps(l, reqs) != [] ==> Sweeps(l, reqs)[0] > l.sweepAt.value
    decreases |reqs|
  {
    if reqs != [] {
      SweptAt(l, reqs[0]);
      hide Served;
      SweepsAreSpaced(Served(l, reqs[0]), reqs[1..]);
      var later := Sweeps(Served(l, reqs[0]), reqs[1..]);
      if l.sweepAt.None? || reqs[0].now > l.sweepAt.value {
        assert Sweeps(l, reqs) == [reqs[0].now] + later;
      } else {
        assert Sweeps(l, reqs) == later;
      }
    }
  }

  lemma SweptAt(l: Limiter, r: Request)
    requires l.perSec > 0.0
    ensures Served(l, r).perSec == l.perSec
    ensures Served(l, r).sweepAt ==
            if l.sweepAt.None? || r.now > l.sweepAt.value then Some(r.now + SWEEP_EVERY) else l.sweepAt
  {
    hide RefillTime, Available;
  }

  /** A freshly built limiter is sound. */
  lemma NewIsSound(perMin: int, burst: int)
    requires perMin > 0
    ensures Sound(New(perMin, burst), 0)
  {
  }

  // ----- Sweeping cannot be observed -------------------------------------------

  /** A limiter that never sweeps. */
  function Unswept(l: Limiter, r: Request): Limiter {
    Spent(l, r.key, r.cost, r.now)
  }

  ghost function UnsweptAnswers(l: Limiter, reqs: seq<Request>): seq<bool>
    decreases |reqs|
  {
    if reqs == [] then [] else [Allowed(l, reqs[0].key, reqs[0].cost, reqs[0].now)] + UnsweptAnswers(Unswept(l, reqs[0]), reqs[1..])
  }

  /** The same bucket, or a full one against none. */
  ghost predicate Alike(swept: Limiter, full: Limiter, now: nat) {
    && swept.perSec == full.perSec && swept.burst == full.burst
    && Sound(swept, now) && Sound(full, now)
    && (forall k :: k in swept.buckets ==> k in full.buckets && full.buckets[k] == swept.buckets[k])
    && (forall k :: k in full.buckets && k !in swept.buckets ==>
          now - full.buckets[k].updated > RefillTime(full))
  }

  lemma AlikeAvailable(swept: Limiter, full: Limiter, now: nat, key: string)
    requires Alike(swept, full, now)
    ensures Available(swept, key, now) == Available(full, key, now)
  {
    if key in full.buckets && key !in swept.buckets {
      IdleMeansFull(full, now - full.buckets[key].updated);
    }
  }

  lemma AlikeStep(swept: Limiter, full: Limiter, r: Request)
    requires Alike(swept, full, r.now) && r.cost >= 0.0
    ensures Answer(swept, r) == Allowed(full, r.key, r.cost, r.now)
    ensures Alike(Served(swept, r), Unswept(full, r), r.now)
  {
    assert Alike(Housekept(swept, r.now), full, r.now);
    AlikeAvailable(Housekept(swept, r.now), full, r.now, r.key);
    ServedSound(swept, r);
    SpentEffect(full, r.key, r.cost, r.now);
  }

  lemma {:induction false} AlikeRun(swept: Limiter, full: Limiter, from: nat, reqs: seq<Request>)
    requires Alike(swept, full, from) && Clocked(from, reqs)
    ensures Answers(swept, reqs) == UnsweptAnswers(full, reqs)
    decreases |reqs|
  {
    if reqs != [] {
      assert Alike(swept, full, reqs[0].now);
      AlikeStep(swept, full, reqs[0]);
      AlikeRun(Served(swept, reqs[0]), Unswept(full, reqs[0]), reqs[0].now, reqs[1..]);
    }
  }

  /** On every request sequence with a nondecreasing clock the limiter answers exactly
      as one that never sweeps. */
  lemma SweepingIsUnobservable(perMin: int, burst: int, reqs: seq<Request>)
    requires perMin > 0 && Clocked(0, reqs)
    ensures Answers(New(perMin, burst), reqs) == UnsweptAnswers(New(perMin, burst), reqs)
  {
    AlikeRun(New(perMin, burst), New(perMin, burst), 0, reqs);
  }

  // ----- Sweeping bounds the memory ---------------------------------------------

  /** Nothing kept was idle for longer than a sweep period plus the refill time. */
  ghost predicate Recent(l: Limiter, now: nat) {
    && l.perSec > 0.0
    && (l.sweepAt.Some? ==> l.sweepAt.value <= now + SWEEP_EVERY)
    && (l.sweepAt.None? ==> l.buckets == map[])
    && (l.sweepAt.Some? ==>
          forall k :: k in l.buckets ==> l.sweepAt.value <= l.buckets[k].updated + SWEEP_EVERY + RefillTime(l))
  }

  lemma RefillTimeNonNegative(l: Limiter)
    requires l.perSec > 0.0 && l.burst > 0.0
    ensures RefillTime(l) >= 0
  {
    assert l.burst / l.perSec > 0.0;
    assert l.burst / l.perSec * SECOND > 0.0;
  }

  lemma RecentStep(l: Limiter, r: Request)
    requires Sound(l, r.now) && Recent(l, r.now) && r.cost >= 0.0
    ensures Recent(Served(l, r), r.now)
    ensures forall k :: k in Served(l, r).buckets ==>
      r.now - Served(l, r).buckets[k].updated <= SWEEP_EVERY + RefillTime(l)
    ensures Served(l, r).buckets.Keys <= l.buckets.Keys + {r.key}
    ensures r.key in Served(l, r).buckets && Served(l, r).buckets[r.key].updated == r.now
    ensures forall k :: k in Served(l, r).buckets && k != r.key ==>
      k in l.buckets && Served(l, r).buckets[k].updated == l.buckets[k].updated
  {
    RefillTimeNonNegative(l);
    var h := Housekept(l, r.now);
    assert Recent(h, r.now);
    assert h.sweepAt.Some? && r.now <= h.sweepAt.value;
  }

  /** Each bucket's time is that of a request of its key in the run. */
  ghost predicate FromRequests(l: Limiter, reqs: seq<Request>) {
    forall k :: k in l.buckets ==> exists i :: 0 <= i < |reqs| && reqs[i].key == k && reqs[i].now == l.buckets[k].updated
  }

  ghost function Recently(reqs: seq<Request>, since: int): set<string> {
    set i | 0 <= i < |reqs| && reqs[i].now >= since :: reqs[i].key
  }

  lemma FromRequestsStep(l: Limiter, past: seq<Request>, r: Request)
    requires Sound(l, r.now) && Recent(l, r.now) && r.cost >= 0.0 && FromRequests(l, past)
    ensures FromRequests(Served(l, r), past + [r])
  {
    RecentStep(l, r);
    hide Served, Sound, Recent, RefillTime;
    var next, more := Served(l, r), past + [r];
    forall k | k in next.buckets
      ensures exists i :: 0 <= i < |more| && more[i].key == k && more[i].now == next.buckets[k].updated
    {
      if k == r.key {
        assert more[|past|] == r;
      } else {
        var i :| 0 <= i < |past| && past[i].key == k && past[i].now == l.buckets[k].updated;
        assert more[i] == past[i];
      }
    }
  }

  ghost predicate AllWithin(l: Limiter, now: nat, d: int) {
    forall k :: k in l.buckets ==> now - l.buckets[k].updated <= d
  }

  /** One request keeps all that the run needs. */
  lemma MemoryStep(l: Limiter, past: seq<Request>, from: nat, r: Request)
    requires Sound(l, from) && Recent(l, from) && FromRequests(l, past) && from <= r.now && r.cost >= 0.0
    ensures var next := Served(l, r);
      && Sound(next, r.now) && Recent(next, r.now) && FromRequests(next, past + [r])
      && next.burst == l.burst && next.perSec == l.perSec && RefillTime(next) == RefillTime(l)
      && AllWithin(next, r.now, SWEEP_EVERY + RefillTime(l))
  {
    SoundLater(l, from, r.now);
    assert Recent(l, r.now);
    RecentStep(l, r);
    ServedSound(l, r);
    FromRequestsStep(l, past, r);
  }

  lemma {:induction false} MemoryRun(l: Limiter, past: seq<Request>, from: nat, reqs: seq<Request>)
    requires Sound(l, from) && Recent(l, from) && FromRequests(l, past) && Clocked(from, reqs)
    ensures FromRequests(After(l, reqs), past + reqs)
    ensures After(l, reqs).burst == l.burst && After(l, reqs).perSec == l.perSec
    ensures reqs != [] ==> AllWithin(After(l, reqs), reqs[|reqs| - 1].now, SWEEP_EVERY + RefillTime(l))
    decreases |reqs|
  {
    if reqs == [] {
      assert past + reqs == past;
    } else {
      var r := reqs[0];
      MemoryStep(l, past, from, r);
      hide Served, Recent, FromRequests, RefillTime, AllWithin;
      MemoryRun(Served(l, r), past + [r], r.now, reqs[1..]);
      assert past + [r] + reqs[1..] == past + reqs;
    }
  }

  lemma RememberedAreRecent(l: Limiter, reqs: seq<Request>, now: nat, d: int)
    requires FromRequests(l, reqs) && AllWithin(l, now, d)
    ensures l.buckets.Keys <= Recently(reqs, now - d)
  {
    forall k | k in l.buckets ensures k in Recently(reqs, now - d) {
      var i :| 0 <= i < |reqs| && reqs[i].key == k && reqs[i].now == l.buckets[k].updated;
    }
  }

  /** After any run of requests the limiter remembers only clients that were heard from
      within the last sweep period plus refill time. */
  lemma MemoryIsBounded(perMin: int, burst: int, reqs: seq<Request>)
    requires perMin > 0 && Clocked(0, reqs) && reqs != []
    ensures var l := After(New(perMin, burst), reqs);
      l.buckets.Keys <= Recently(reqs, reqs[|reqs| - 1].now - SWEEP_EVERY - RefillTime(New(perMin, burst)))
  {
    var start, now := New(perMin, burst), reqs[|reqs| - 1].now;
    NewIsSound(perMin, burst);
    MemoryRun(start, [], 0, reqs);
    assert [] + reqs == reqs;
    RememberedAreRecent(After(start, reqs), reqs, now, SWEEP_EVERY + RefillTime(start));
    hide *;
    assert now - (SWEEP_EVERY + RefillTime(start)) == now - SWEEP_EVERY - RefillTime(start);
  }

  /** A request that costs more than the burst is never let through; one that does not
      is let through after the bucket has been idle long enough. */
  lemma ServableIff(l: Limiter, key: string, cost: real, now: nat)
    requires Sound(l, now)
    ensures cost > l.burst ==> forall t: nat :: now <= t ==> !Allowed(l, key, cost, t)
    ensures cost <= l.burst ==> forall t: nat :: t > now + RefillTime(l) && t >= now ==> Allowed(l, key, cost, t)
  {
    forall t: nat | t > now + RefillTime(l) && t >= now ensures Available(l, key, t) == l.burst {
      AvailableGrows(l, key, now, t);
      if key in l.buckets {
        IdleMeansFull(l, t - l.buckets[key].updated);
      }
    }
    forall t: nat | now <= t ensures Available(l, key, t) <= l.burst {
      AvailableGrows(l, key, now, t);
    }
  }

  /** A burst of eight serves every route after a long enough pause; with a smaller one
      the address pages are refused for ever, however long a client waits. */
  lemma EveryRouteServableIff(l: Limiter, key: string, now: nat)
    requires Sound(l, now)
    ensures l.burst >= 8.0 ==>
      forall path, t: nat {:trigger Allowed(l, key, RouteCost(path), t)} ::
        t > now + RefillTime(l) && t >= now ==> Allowed(l, key, RouteCost(path), t)
    ensures l.burst < 8.0 ==>
      forall path, t: nat {:trigger Allowed(l, key, RouteCost(path), t)} ::
        HasPrefix(path, "/api/address/") && now <= t ==> !Allowed(l, key, RouteCost(path), t)
  {
    forall path: string
      ensures RouteCost(path) > l.burst ==> forall t: nat :: now <= t ==> !Allowed(l, key, RouteCost(path), t)
      ensures RouteCost(path) <= l.burst ==>
        forall t: nat :: t > now + RefillTime(l) && t >= now ==> Allowed(l, key, RouteCost(path), t)
    {
      ServableIff(l, key, RouteCost(path), now);
    }
  }
}
