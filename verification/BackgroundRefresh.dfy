/** The single-flight background refresh with a watchdog, of which the service has two
    instances: the live feeds (internal/explorer/live.go) and the sync probe
    (internal/explorer/stats.go). */
module BackgroundRefresh {
  import opened Options
  import opened Collections

  const LIVE_REFRESH_EVERY := 5_000_000_000
  const SYNC_CHECK_EVERY := 10_000_000_000
  const REFRESH_STUCK := 120_000_000_000
  const SYNCED_MAX_TIP_AGE := 14_400_000_000_000

  /** The fields that decide whether a read starts a refresh; None is the zero time. */
  datatype Guard = Guard(attemptAt: Option<nat>, kickedAt: Option<nat>, inFlight: bool)

  predicate Elapsed(since: Option<nat>, now: nat, d: nat) {
    since.None? || now - since.value >= d
  }

  predicate Due(g: Guard, now: nat, every: nat) {
    Elapsed(g.attemptAt, now, every) && (!g.inFlight || Elapsed(g.kickedAt, now, REFRESH_STUCK))
  }

  function Kicked(g: Guard, now: nat): Guard {
    g.(inFlight := true, kickedAt := Some(now))
  }

  function Finished(g: Guard, now: nat): Guard {
    g.(inFlight := false, attemptAt := Some(now))
  }

  /** The cached feeds; a field is None until its first successful compute, and in the
      outcome of one refresh it is None when that feed failed. */
  datatype LiveData<S, F, U> = LiveData(stats: Option<S>, fees: Option<F>, update: Option<U>)

  function Or<T>(newer: Option<T>, kept: Option<T>): Option<T> {
    if newer.Some? then newer else kept
  }

  function Merged<S, F, U>(kept: LiveData<S, F, U>, outcome: LiveData<S, F, U>): LiveData<S, F, U> {
    LiveData(Or(outcome.stats, kept.stats), Or(outcome.fees, kept.fees), Or(outcome.update, kept.update))
  }

  class LiveCache<S, F, U> {
    var live: LiveData<S, F, U>
    var attemptAt: Option<nat>
    var kickedAt: Option<nat>
    var inFlight: bool

    ghost function View(): Guard
      reads this
    {
      Guard(attemptAt, kickedAt, inFlight)
    }

    constructor ()
      ensures View() == Guard(None, None, false) && live == LiveData(None, None, None)
    {
      live := LiveData(None, None, None);
      attemptAt, kickedAt, inFlight := None, None, false;
    }

    /** Serves the cache and reports whether a background recompute was started. */
    method LiveSnapshot(now: nat) returns (served: LiveData<S, F, U>, kick: bool)
      modifies this
      ensures served == live == old(live)
      ensures kick == Due(old(View()), now, LIVE_REFRESH_EVERY)
      ensures View() == if kick then Kicked(old(View()), now) else old(View())
    {
      kick := Elapsed(attemptAt, now, LIVE_REFRESH_EVERY) && (!inFlight || Elapsed(kickedAt, now, REFRESH_STUCK));
      if kick {
        inFlight := true;
        kickedAt := Some(now);
      }
      served := live;
    }

    /** The locked end of refreshLive: failed feeds keep their previous value. */
    method FinishRefresh(outcome: LiveData<S, F, U>, now: nat)
      modifies this
      ensures View() == Finished(old(View()), now)
      ensures live == Merged(old(live), outcome)
    {
      inFlight := false;
      attemptAt := Some(now);
      if outcome.stats.Some? {
        live := live.(stats := outcome.stats);
      }
      if outcome.fees.Some? {
        live := live.(fees := outcome.fees);
      }
      if outcome.update.Some? {
        live := live.(update := outcome.update);
      }
    }

    /** Stats, and Fees and MempoolUpdate likewise: None is node.ErrUnavailable. */
    method Stats(now: nat) returns (r: Option<S>, kick: bool)
      modifies this
      ensures r == live.stats && live == old(live)
      ensures kick == Due(old(View()), now, LIVE_REFRESH_EVERY)
      ensures View() == if kick then Kicked(old(View()), now) else old(View())
    {
      var served;
      served, kick := LiveSnapshot(now);
      r := served.stats;
    }
  }

  datatype SyncView = SyncView(syncing: bool, tipHeight: int, checkedAt: Option<nat>)

  /** What one successful probe learns: the tip's height and timestamp. */
  datatype Probe = Probe(tip: int, tipTime: nat)

  function Probed(s: SyncView, probe: Option<Probe>, gated: bool, now: nat): SyncView {
    if probe.None? then s
    else SyncView(gated && now - probe.value.tipTime > SYNCED_MAX_TIP_AGE, probe.value.tip, Some(now))
  }

  class SyncCache {
    const gated: bool
    var sync: SyncView
    var attemptAt: Option<nat>
    var kickedAt: Option<nat>
    var inFlight: bool

    ghost function View(): Guard
      reads this
    {
      Guard(attemptAt, kickedAt, inFlight)
    }

    constructor (gated: bool)
      ensures this.gated == gated
      ensures View() == Guard(None, None, false) && sync == SyncView(gated, 0, None)
    {
      this.gated := gated;
      sync := SyncView(gated, 0, None);
      attemptAt, kickedAt, inFlight := None, None, false;
    }

    method SyncStatus(now: nat) returns (served: SyncView, kick: bool)
      modifies this
      ensures served == sync == old(sync)
      ensures kick == Due(old(View()), now, SYNC_CHECK_EVERY)
      ensures View() == if kick then Kicked(old(View()), now) else old(View())
    {
      kick := Elapsed(attemptAt, now, SYNC_CHECK_EVERY) && (!inFlight || Elapsed(kickedAt, now, REFRESH_STUCK));
      if kick {
        inFlight := true;
        kickedAt := Some(now);
      }
      served := sync;
    }

    /** The locked end of refreshSync; an error keeps the last answer. */
    method FinishRefresh(probe: Option<Probe>, now: nat)
      modifies this
      ensures View() == Finished(old(View()), now)
      ensures sync == Probed(old(sync), probe, gated, now)
    {
      inFlight := false;
      attemptAt := Some(now);
      if probe.Some? {
        sync := SyncView(gated && now - probe.value.tipTime > SYNCED_MAX_TIP_AGE, probe.value.tip, Some(now));
      }
    }
  }

  // ----- Whole runs ---------------------------------------------------------

  /** `kicks` are the start times of all refreshes ever started, `running` the indices
      of those that have not finished, `done` the outcomes in order of completion,
      `order` the indices they belong to and `finished` the times. */
  datatype World<S, F, U> = World(guard: Guard, live: LiveData<S, F, U>, now: nat, kicks: seq<nat>, running: set<nat>,
                                  done: seq<LiveData<S, F, U>>, order: seq<nat>, finished: seq<nat>)

  datatype Event<S, F, U> =
    | Read(at: nat)
    | Finish(id: nat, outcome: LiveData<S, F, U>, at: nat)

  function Boot<S, F, U>(): World<S, F, U> {
    World(Guard(None, None, false), LiveData(None, None, None), 0, [], {}, [], [], [])
  }

  predicate Enabled<S, F, U>(w: World<S, F, U>, e: Event<S, F, U>) {
    e.at >= w.now && (e.Finish? ==> e.id in w.running)
  }

  function Step<S, F, U>(w: World<S, F, U>, e: Event<S, F, U>, every: nat): World<S, F, U>
    requires Enabled(w, e)
  {
    match e
    case Read(at) =>
      if Due(w.guard, at, every) then
        w.(guard := Kicked(w.guard, at), now := at, kicks := w.kicks + [at], running := w.running + {|w.kicks|})
      else w.(now := at)
    case Finish(id, outcome, at) =>
      w.(guard := Finished(w.guard, at), now := at, live := Merged(w.live, outcome),
         running := w.running - {id}, done := w.done + [outcome], order := w.order + [id],
         finished := w.finished + [at])
  }

  ghost predicate Run<S, F, U>(w: World<S, F, U>, es: seq<Event<S, F, U>>, every: nat)
    decreases |es|
  {
    es != [] ==> Enabled(w, es[0]) && Run(Step(w, es[0], every), es[1..], every)
  }

  ghost function After<S, F, U>(w: World<S, F, U>, es: seq<Event<S, F, U>>, every: nat): World<S, F, U>
    requires Run(w, es, every)
    decreases |es|
  {
    if es == [] then w else After(Step(w, es[0], every), es[1..], every)
  }

  /** The heart of it: the last start lies before the last attempt, or is in flight. */
  ghost predicate Inv<S, F, U>(w: World<S, F, U>, every: nat) {
    && Spaced(w.kicks, every)
    && (w.kicks == [] ==> !w.guard.inFlight)
    && (w.kicks != [] ==>
          && w.guard.kickedAt == Some(w.kicks[|w.kicks| - 1]) && w.kicks[|w.kicks| - 1] <= w.now
          && (w.guard.inFlight || (w.guard.attemptAt.Some? && w.guard.attemptAt.value >= w.kicks[|w.kicks| - 1])))
  }

  lemma InvStep<S, F, U>(w: World<S, F, U>, e: Event<S, F, U>, every: nat)
    requires every <= REFRESH_STUCK
    requires Inv(w, every) && Enabled(w, e) && forall id :: id in w.running ==> id < |w.kicks|
    ensures Inv(Step(w, e, every), every) && forall id :: id in Step(w, e, every).running ==> id < |Step(w, e, every).kicks|
  {
    var v := Step(w, e, every);
    if e.Read? {
      forall i | 0 <= i < |v.kicks| - 1 ensures v.kicks[i + 1] - v.kicks[i] >= every {
        assert v.kicks[i] == w.kicks[i];
        assert i + 1 < |w.kicks| ==> v.kicks[i + 1] == w.kicks[i + 1];
      }
    }
  }

  lemma {:induction false} InvRun<S, F, U>(w: World<S, F, U>, es: seq<Event<S, F, U>>, every: nat)
    requires every <= REFRESH_STUCK
    requires Inv(w, every) && (forall id :: id in w.running ==> id < |w.kicks|) && Run(w, es, every)
    ensures Inv(After(w, es, every), every)
    decreases |es|
  {
    if es != [] {
      InvStep(w, es[0], every);
      InvRun(Step(w, es[0], every), es[1..], every);
    }
  }

  /** The refresh rate is bounded in every run, however many refreshes hang or overlap:
      n + 1 starts take at least n periods. */
  lemma RefreshRateBound<S, F, U>(es: seq<Event<S, F, U>>, every: nat, i: nat, j: nat)
    requires every <= REFRESH_STUCK && Run(Boot<S, F, U>(), es, every)
    requires i <= j < |After(Boot<S, F, U>(), es, every).kicks|
    ensures var kicks := After(Boot<S, F, U>(), es, every).kicks; kicks[j] - kicks[i] >= (j - i) * every
  {
    InvRun(Boot<S, F, U>(), es, every);
    SpacedFar(After(Boot<S, F, U>(), es, every).kicks, every, i, j);
  }

  lemma LiveAndSyncRates<S, F, U>(live: seq<Event<S, F, U>>, sync: seq<Event<S, F, U>>)
    requires Run(Boot<S, F, U>(), live, LIVE_REFRESH_EVERY) && Run(Boot<S, F, U>(), sync, SYNC_CHECK_EVERY)
    ensures Spaced(After(Boot<S, F, U>(), live, LIVE_REFRESH_EVERY).kicks, 5_000_000_000)
    ensures Spaced(After(Boot<S, F, U>(), sync, SYNC_CHECK_EVERY).kicks, 10_000_000_000)
  {
    InvRun(Boot<S, F, U>(), live, LIVE_REFRESH_EVERY);
    InvRun(Boot<S, F, U>(), sync, SYNC_CHECK_EVERY);
  }

  // ----- What is served -------------------------------------------------------

  /** The outcomes of one feed. */
  function StatsOf<S, F, U>(done: seq<LiveData<S, F, U>>): seq<Option<S>> {
    seq(|done|, i requires 0 <= i < |done| => done[i].stats)
  }

  function FeesOf<S, F, U>(done: seq<LiveData<S, F, U>>): seq<Option<F>> {
    seq(|done|, i requires 0 <= i < |done| => done[i].fees)
  }

  function UpdatesOf<S, F, U>(done: seq<LiveData<S, F, U>>): seq<Option<U>> {
    seq(|done|, i requires 0 <= i < |done| => done[i].update)
  }

  /** Outcome i is the last success. */
  ghost predicate LastSuccess<T>(outcomes: seq<Option<T>>, i: int) {
    0 <= i < |outcomes| && outcomes[i].Some? && forall j :: i < j < |outcomes| ==> outcomes[j].None?
  }

  /** v is the outcome that succeeded last, or nothing if none has. */
  ghost predicate IsNewest<T>(v: Option<T>, outcomes: seq<Option<T>>) {
    if v.None? then forall j :: 0 <= j < |outcomes| ==> outcomes[j].None?
    else exists i :: LastSuccess(outcomes, i) && outcomes[i] == v
  }

  lemma NewestOneMore<T>(v: Option<T>, outcomes: seq<Option<T>>, x: Option<T>)
    requires IsNewest(v, outcomes)
    ensures IsNewest(Or(x, v), outcomes + [x])
  {
    var more := outcomes + [x];
    if x.Some? {
      assert LastSuccess(more, |outcomes|);
    } else if v.Some? {
      var i :| LastSuccess(outcomes, i) && outcomes[i] == v;
      assert LastSuccess(more, i);
    }
  }

  ghost predicate ServesNewest<S, F, U>(w: World<S, F, U>) {
    && IsNewest(w.live.stats, StatsOf(w.done))
    && IsNewest(w.live.fees, FeesOf(w.done))
    && IsNewest(w.live.update, UpdatesOf(w.done))
  }

  lemma ServesNewestStep<S, F, U>(w: World<S, F, U>, e: Event<S, F, U>, every: nat)
    requires ServesNewest(w) && Enabled(w, e)
    ensures ServesNewest(Step(w, e, every))
  {
    if e.Finish? {
      var done := w.done + [e.outcome];
      NewestOneMore(w.live.stats, StatsOf(w.done), e.outcome.stats);
      NewestOneMore(w.live.fees, FeesOf(w.done), e.outcome.fees);
      NewestOneMore(w.live.update, UpdatesOf(w.done), e.outcome.update);
      assert StatsOf(done) == StatsOf(w.done) + [e.outcome.stats];
      assert FeesOf(done) == FeesOf(w.done) + [e.outcome.fees];
      assert UpdatesOf(done) == UpdatesOf(w.done) + [e.outcome.update];
    }
  }

  lemma {:induction false} ServesNewestRun<S, F, U>(w: World<S, F, U>, es: seq<Event<S, F, U>>, every: nat)
    requires ServesNewest(w) && Run(w, es, every)
    ensures ServesNewest(After(w, es, every))
    decreases |es|
  {
    if es != [] {
      ServesNewestStep(w, es[0], every);
      ServesNewestRun(Step(w, es[0], every), es[1..], every);
    }
  }

  /** In every run each feed serves the outcome of the refresh that completed last among
      those in which the feed succeeded, and nothing before the first of them ... */
  lemma ServesLatestSuccess<S, F, U>(es: seq<Event<S, F, U>>, every: nat)
    requires Run(Boot<S, F, U>(), es, every)
    ensures ServesNewest(After(Boot<S, F, U>(), es, every))
  {
    ServesNewestRun(Boot<S, F, U>(), es, every);
  }

  ghost predicate AvailableIn<S, F, U>(a: LiveData<S, F, U>, b: LiveData<S, F, U>) {
    (a.stats.Some? ==> b.stats.Some?) && (a.fees.Some? ==> b.fees.Some?) && (a.update.Some? ==> b.update.Some?)
  }

  /** ... so a feed that was available once stays available. */
  lemma {:induction false} AvailabilityIsKept<S, F, U>(w: World<S, F, U>, es: seq<Event<S, F, U>>, every: nat)
    requires Run(w, es, every)
    ensures AvailableIn(w.live, After(w, es, every).live)
    decreases |es|
  {
    if es != [] {
      AvailabilityIsKept(Step(w, es[0], every), es[1..], every);
    }
  }

  /** No refresh is still running two minutes after its start when a read comes in. */
  ghost predicate NoneStuck<S, F, U>(w: World<S, F, U>, es: seq<Event<S, F, U>>, every: nat)
    requires Run(w, es, every)
    decreases |es|
  {
    es != [] ==>
      && (es[0].Read? ==>
            forall id :: id in w.running && id < |w.kicks| ==> es[0].at - w.kicks[id] < REFRESH_STUCK)
      && NoneStuck(Step(w, es[0], every), es[1..], every)
  }

  ghost predicate SingleFlight<S, F, U>(w: World<S, F, U>) {
    && w.running == (if w.guard.inFlight then {|w.kicks| - 1} else {})
    && (w.guard.inFlight ==> w.kicks != [])
    && (forall i :: 0 <= i < |w.order| ==> w.order[i] < |w.kicks| && w.order[i] !in w.running)
    && (forall i, j :: 0 <= i < j < |w.order| ==> w.order[i] < w.order[j])
  }

  lemma SingleFlightStep<S, F, U>(w: World<S, F, U>, e: Event<S, F, U>, every: nat)
    requires Inv(w, every) && SingleFlight(w) && Enabled(w, e)
    requires e.Read? ==> forall id :: id in w.running && id < |w.kicks| ==> e.at - w.kicks[id] < REFRESH_STUCK
    ensures SingleFlight(Step(w, e, every))
  {
    if e.Read? {
      assert w.guard.inFlight ==> |w.kicks| - 1 in w.running;
    }
  }

  lemma {:induction false} SingleFlightRun<S, F, U>(w: World<S, F, U>, es: seq<Event<S, F, U>>, every: nat)
    requires every <= REFRESH_STUCK
    requires Inv(w, every) && SingleFlight(w) && Run(w, es, every) && NoneStuck(w, es, every)
    ensures SingleFlight(After(w, es, every))
    decreases |es|
  {
    if es != [] {
      InvStep(w, es[0], every);
      SingleFlightStep(w, es[0], every);
      SingleFlightRun(Step(w, es[0], every), es[1..], every);
    }
  }

  /** If no refresh outlives the watchdog, at most one is in flight at any time and they
      complete in the order they were started: newer results are never overwritten. */
  lemma PromptRefreshesNeverOverlap<S, F, U>(es: seq<Event<S, F, U>>, every: nat)
    requires every <= REFRESH_STUCK
    requires Run(Boot<S, F, U>(), es, every) && NoneStuck(Boot<S, F, U>(), es, every)
    ensures var w := After(Boot<S, F, U>(), es, every);
      && |w.running| <= 1
      && forall i, j :: 0 <= i < j < |w.order| ==> w.order[i] < w.order[j]
  {
    SingleFlightRun(Boot<S, F, U>(), es, every);
  }

  /** The guard is truthful: in flight means that the refresh started last is running, and
      the last attempt is the last completion. */
  ghost predicate Truthful<S, F, U>(w: World<S, F, U>) {
    && (w.guard.inFlight ==> w.kicks != [] && |w.kicks| - 1 in w.running)
    && w.guard.attemptAt == (if w.finished == [] then None else Some(w.finished[|w.finished| - 1]))
  }

  lemma {:induction false} TruthfulRun<S, F, U>(w: World<S, F, U>, es: seq<Event<S, F, U>>, every: nat)
    requires Truthful(w) && Run(w, es, every)
    ensures Truthful(After(w, es, every))
    decreases |es|
  {
    if es != [] {
      TruthfulRun(Step(w, es[0], every), es[1..], every);
    }
  }

  /** The last completion lies a period back, or nothing has completed yet. */
  predicate PeriodOver<S, F, U>(w: World<S, F, U>, at: nat, every: nat) {
    w.finished == [] || at - w.finished[|w.finished| - 1] >= every
  }

  /** With nothing running a read starts a refresh exactly when the period is over. */
  lemma IdleReadRefreshesIff<S, F, U>(es: seq<Event<S, F, U>>, every: nat, at: nat)
    requires Run(Boot<S, F, U>(), es, every)
    requires at >= After(Boot<S, F, U>(), es, every).now && After(Boot<S, F, U>(), es, every).running == {}
    ensures var w := After(Boot<S, F, U>(), es, every);
      Step(w, Read(at), every).kicks == if PeriodOver(w, at, every) then w.kicks + [at] else w.kicks
  {
    TruthfulRun(Boot<S, F, U>(), es, every);
  }

  /** The watchdog never lets the cache freeze: whatever hangs, a read that comes one
      period after the last completion and two minutes after the last start starts anew. */
  lemma NeverWedged<S, F, U>(es: seq<Event<S, F, U>>, every: nat, at: nat)
    requires every <= REFRESH_STUCK && Run(Boot<S, F, U>(), es, every)
    requires var w := After(Boot<S, F, U>(), es, every);
      at >= w.now && PeriodOver(w, at, every) && (w.kicks != [] ==> at >= w.kicks[|w.kicks| - 1] + REFRESH_STUCK)
    ensures var w := After(Boot<S, F, U>(), es, every); Step(w, Read(at), every).kicks == w.kicks + [at]
  {
    InvRun(Boot<S, F, U>(), es, every);
    TruthfulRun(Boot<S, F, U>(), es, every);
  }

  // ----- The sync verdict ---------------------------------------------------------

  /** One attempt to learn the tip, successful or not. */
  datatype Attempt = Attempt(probe: Option<Probe>, at: nat)

  function SyncAfter(gated: bool, log: seq<Attempt>): SyncView {
    if log == [] then SyncView(gated, 0, None)
    else Probed(SyncAfter(gated, log[..|log| - 1]), log[|log| - 1].probe, gated, log[|log| - 1].at)
  }

  /** After any attempts the view is that of the last successful one, whatever failed
      since: its height, its time, and "syncing" exactly when the node is gated and the
      tip was then more than four hours old. Before the first success a gated node
      counts as syncing. */
  lemma {:induction false} SyncViewIsLastSuccess(gated: bool, log: seq<Attempt>, i: nat)
    requires i < |log| && log[i].probe.Some? && forall j :: i < j < |log| ==> log[j].probe.None?
    ensures var v, p := SyncAfter(gated, log), log[i].probe.value;
      && v.tipHeight == p.tip && v.checkedAt == Some(log[i].at)
      && (v.syncing <==> gated && log[i].at - p.tipTime > 4 * 3600 * 1_000_000_000)
    decreases |log|
  {
    if i < |log| - 1 {
      SyncViewIsLastSuccess(gated, log[..|log| - 1], i);
    }
  }

  lemma {:induction false} SyncViewBeforeSuccess(gated: bool, log: seq<Attempt>)
    requires forall j :: 0 <= j < |log| ==> log[j].probe.None?
    ensures SyncAfter(gated, log) == SyncView(gated, 0, None)
  {
    if log != [] {
      SyncViewBeforeSuccess(gated, log[..|log| - 1]);
    }
  }

  // ----- Served by order of start ------------------------------------------------

  /** The last success belongs to the refresh that started last among the successes.
      order[i] is the refresh that outcome i belongs to, counted in starting order. */
  ghost predicate LastStarted<T>(outcomes: seq<Option<T>>, order: seq<nat>)
    requires |outcomes| == |order|
  {
    forall i, j :: LastSuccess(outcomes, i) && 0 <= j < |outcomes| && outcomes[j].Some? ==> order[j] <= order[i]
  }

  /** No refresh that started later has already delivered the feed. */
  ghost predicate OnTime<T>(outcomes: seq<Option<T>>, order: seq<nat>, id: nat)
    requires |outcomes| == |order|
  {
    forall j :: 0 <= j < |outcomes| && outcomes[j].Some? ==> order[j] <= id
  }

  lemma LastStartedIff<T>(outcomes: seq<Option<T>>, order: seq<nat>, x: Option<T>, id: nat)
    requires |outcomes| == |order| && LastStarted(outcomes, order)
    ensures LastStarted(outcomes + [x], order + [id]) <==> (x.Some? ==> OnTime(outcomes, order, id))
  {
    var more, ids, n := outcomes + [x], order + [id], |outcomes|;
    assert forall j :: 0 <= j < n ==> more[j] == outcomes[j] && ids[j] == order[j];
    if x.Some? {
      assert LastSuccess(more, n);
    } else {
      assert forall i :: LastSuccess(more, i) ==> LastSuccess(outcomes, i);
    }
  }

  ghost predicate NoneSuperseded<S, F, U>(w: World<S, F, U>)
    requires |w.order| == |w.done|
  {
    && LastStarted(StatsOf(w.done), w.order)
    && LastStarted(FeesOf(w.done), w.order)
    && LastStarted(UpdatesOf(w.done), w.order)
  }

  /** Each feed that this completion delivers comes on time. */
  ghost predicate Timely<S, F, U>(w: World<S, F, U>, id: nat, outcome: LiveData<S, F, U>)
    requires |w.order| == |w.done|
  {
    && (outcome.stats.Some? ==> OnTime(StatsOf(w.done), w.order, id))
    && (outcome.fees.Some? ==> OnTime(FeesOf(w.done), w.order, id))
    && (outcome.update.Some? ==> OnTime(UpdatesOf(w.done), w.order, id))
  }

  lemma SupersededStepIff<S, F, U>(w: World<S, F, U>, e: Event<S, F, U>, every: nat)
    requires |w.order| == |w.done| && NoneSuperseded(w) && Enabled(w, e)
    ensures NoneSuperseded(Step(w, e, every)) <==> (e.Finish? ==> Timely(w, e.id, e.outcome))
  {
    if e.Finish? {
      var done := w.done + [e.outcome];
      LastStartedIff(StatsOf(w.done), w.order, e.outcome.stats, e.id);
      LastStartedIff(FeesOf(w.done), w.order, e.outcome.fees, e.id);
      LastStartedIff(UpdatesOf(w.done), w.order, e.outcome.update, e.id);
      assert StatsOf(done) == StatsOf(w.done) + [e.outcome.stats];
      assert FeesOf(done) == FeesOf(w.done) + [e.outcome.fees];
      assert UpdatesOf(done) == UpdatesOf(w.done) + [e.outcome.update];
    }
  }

  ghost predicate NeverSuperseded<S, F, U>(w: World<S, F, U>, es: seq<Event<S, F, U>>, every: nat)
    requires |w.order| == |w.done| && Run(w, es, every)
    decreases |es|
  {
    NoneSuperseded(w) && (es != [] ==> NeverSuperseded(Step(w, es[0], every), es[1..], every))
  }

  ghost predicate AllTimely<S, F, U>(w: World<S, F, U>, es: seq<Event<S, F, U>>, every: nat)
    requires |w.order| == |w.done| && Run(w, es, every)
    decreases |es|
  {
    es != [] ==>
      && (es[0].Finish? ==> Timely(w, es[0].id, es[0].outcome))
      && AllTimely(Step(w, es[0], every), es[1..], every)
  }

  /** A run serves, at every moment, the success that started last exactly when none of
      its completions delivers a feed that a later refresh had already delivered: the
      guard that the code does without. */
  lemma {:induction false} NeverSupersededIff<S, F, U>(w: World<S, F, U>, es: seq<Event<S, F, U>>, every: nat)
    requires |w.order| == |w.done| && NoneSuperseded(w) && Run(w, es, every)
    ensures NeverSuperseded(w, es, every) <==> AllTimely(w, es, every)
    decreases |es|
  {
    if es != [] {
      SupersededStepIff(w, es[0], every);
      if NoneSuperseded(Step(w, es[0], every)) {
        NeverSupersededIff(Step(w, es[0], every), es[1..], every);
      }
    }
  }

  lemma {:induction false} SingleFlightIsTimely<S, F, U>(w: World<S, F, U>, es: seq<Event<S, F, U>>, every: nat)
    requires every <= REFRESH_STUCK && |w.order| == |w.done|
    requires Inv(w, every) && SingleFlight(w) && Run(w, es, every) && NoneStuck(w, es, every)
    ensures AllTimely(w, es, every)
    decreases |es|
  {
    if es != [] {
      InvStep(w, es[0], every);
      SingleFlightStep(w, es[0], every);
      SingleFlightIsTimely(Step(w, es[0], every), es[1..], every);
    }
  }

  /** If no refresh outlives the watchdog, every feed served is, in every state of the run,
      that of the refresh that started last among those that delivered it. */
  lemma PromptRefreshesServeTheLastStarted<S, F, U>(es: seq<Event<S, F, U>>, every: nat)
    requires every <= REFRESH_STUCK
    requires Run(Boot<S, F, U>(), es, every) && NoneStuck(Boot<S, F, U>(), es, every)
    ensures NeverSuperseded(Boot<S, F, U>(), es, every)
    ensures ServesNewest(After(Boot<S, F, U>(), es, every))
  {
    SingleFlightIsTimely(Boot<S, F, U>(), es, every);
    NeverSupersededIff(Boot<S, F, U>(), es, every);
    ServesLatestSuccess(es, every);
  }

  lemma RunCons<S, F, U>(w: World<S, F, U>, e: Event<S, F, U>, es: seq<Event<S, F, U>>, every: nat)
    requires Enabled(w, e) && Run(Step(w, e, every), es, every)
    ensures Run(w, [e] + es, every) && After(w, [e] + es, every) == After(Step(w, e, every), es, every)
  {
    assert ([e] + es)[1..] == es;
  }

  /** A refresh stuck past the watchdog does break it: the one started beside it delivers
      first, and the old figures then replace the new ones. */
  lemma StuckRefreshServesOldFigures<S, F, U>(stale: S, recent: S)
    ensures exists es :: Run(Boot<S, F, U>(), es, LIVE_REFRESH_EVERY)
                         && var w := After(Boot<S, F, U>(), es, LIVE_REFRESH_EVERY);
                            w.order == [1, 0] && StatsOf(w.done) == [Some(recent), Some(stale)] && w.live.stats == Some(stale)
  {
    var e1, e2 := Event<S, F, U>.Read(0), Event<S, F, U>.Read(REFRESH_STUCK);
    var e3 := Event<S, F, U>.Finish(1, LiveData(Some(recent), None, None), REFRESH_STUCK + 1);
    var e4 := Event<S, F, U>.Finish(0, LiveData(Some(stale), None, None), REFRESH_STUCK + 2);
    var w1 := Step(Boot<S, F, U>(), e1, LIVE_REFRESH_EVERY);
    var w2 := Step(w1, e2, LIVE_REFRESH_EVERY);
    var w3 := Step(w2, e3, LIVE_REFRESH_EVERY);
    var w4 := Step(w3, e4, LIVE_REFRESH_EVERY);
    RunCons(w3, e4, [], LIVE_REFRESH_EVERY);
    RunCons(w2, e3, [e4] + [], LIVE_REFRESH_EVERY);
    RunCons(w1, e2, [e3] + ([e4] + []), LIVE_REFRESH_EVERY);
    RunCons(Boot<S, F, U>(), e1, [e2] + ([e3] + ([e4] + [])), LIVE_REFRESH_EVERY);
    assert w4.order == [1, 0] && StatsOf(w4.done) == [Some(recent), Some(stale)] && w4.live.stats == Some(stale);
  }
}
