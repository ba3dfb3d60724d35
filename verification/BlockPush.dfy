/** What the push made with a block can show (internal/api/hub.go): the hub serves the
    live cache (internal/explorer/live.go), which background refreshes fill from the
    shared mempool snapshot (internal/explorer/mempool.go). Both protocols run here
    together, and every mempool update carries the birth of the fetch it shows. */
module BlockPush {
  import opened Options
  import opened Snapshots
  import opened FeeQueue
  import M = MempoolCache
  import B = BackgroundRefresh

  /** A mempool update is represented by the tick at which the fetch behind it began. */
  type Live = B.World<(), (), nat>
  type Outcome = B.LiveData<(), (), nat>

  /** `block` is the tick of the last block's invalidation, `read` what the refreshes
      found when they read the snapshot. */
  datatype World = World(mempool: M.World, live: Live, read: map<nat, nat>, block: nat)

  datatype Event =
    | Mempool(step: M.Event)
    | Block
    | Serve(at: nat)
    | Compute(refresh: nat, reader: nat, q: Queue, at: nat)
    | Finish(refresh: nat, stats: Option<()>, fees: Option<()>, delivers: bool, at: nat)

  ghost function Boot(): World {
    World(M.BOOT, B.Boot<(), (), nat>(), map[], 0)
  }

  function OutcomeOf(w: World, refresh: nat, stats: Option<()>, fees: Option<()>, delivers: bool): Outcome {
    B.LiveData(stats, fees, if delivers && refresh in w.read then Some(w.read[refresh]) else None)
  }

  ghost predicate Enabled(w: World, e: Event) {
    match e
    case Mempool(step) => !step.Invalidate? && M.Enabled(w.mempool, step)
    case Block => true
    case Serve(at) => at >= w.live.now
    case Compute(r, reader, q, at) =>
      && r in w.live.running && r !in w.read && w.mempool.source.Some?
      && M.Enabled(w.mempool, M.ReadQueue(reader, q, at))
    case Finish(r, _, _, delivers, at) => at >= w.live.now && r in w.live.running && (delivers ==> r in w.read)
  }

  /** Serve is MempoolUpdate: hand out what is cached, and kick a refresh if one is due. */
  ghost function Step(w: World, e: Event): World
    requires Enabled(w, e)
  {
    match e
    case Mempool(step) => w.(mempool := M.Step(w.mempool, step))
    case Block => w.(mempool := M.Step(w.mempool, M.Invalidate), block := w.mempool.tick)
    case Serve(at) => w.(live := B.Step(w.live, B.Read(at), B.LIVE_REFRESH_EVERY))
    case Compute(r, reader, q, at) =>
      w.(mempool := M.Step(w.mempool, M.ReadQueue(reader, q, at)), read := w.read[r := w.mempool.source.value])
    case Finish(r, stats, fees, delivers, at) =>
      w.(live := B.Step(w.live, B.Finish(r, OutcomeOf(w, r, stats, fees, delivers), at), B.LIVE_REFRESH_EVERY))
  }

  ghost predicate Run(w: World, es: seq<Event>)
    decreases |es|
  {
    es != [] ==> Enabled(w, es[0]) && Run(Step(w, es[0]), es[1..])
  }

  ghost function After(w: World, es: seq<Event>): World
    requires Run(w, es)
    decreases |es|
  {
    if es == [] then w else After(Step(w, es[0]), es[1..])
  }

  /** The update that a push made now would carry shows the mempool since the block. */
  predicate ShowsBlock(w: World) {
    w.live.live.update.Some? && w.live.live.update.value > w.block
  }

  /** Refresh r delivered its update, and none did after it. */
  ghost predicate DeliveredLast(w: World, i: int) {
    |w.live.order| == |w.live.done| && B.LastSuccess(B.UpdatesOf(w.live.done), i)
  }

  /** Every delivered update is what its refresh read; nothing is read or pushed that was
      fetched in the future. */
  ghost predicate Inv(w: World) {
    && B.ServesNewest(w.live) && |w.live.order| == |w.live.done|
    && (forall i :: 0 <= i < |w.live.done| && w.live.done[i].update.Some? ==>
          w.live.order[i] in w.read && w.live.done[i].update.value == w.read[w.live.order[i]])
    && w.block < w.mempool.tick && w.block <= w.mempool.lastMark
    && (forall r :: r in w.read ==> w.read[r] < w.mempool.tick)
    && (w.live.live.update.Some? ==> w.live.live.update.value < w.mempool.tick)
    && M.Inv(w.mempool) && (w.mempool.source.Some? ==> w.mempool.source.value < w.mempool.tick)
  }

  lemma MempoolPart(m: M.World, step: M.Event)
    requires M.Inv(m) && (m.source.Some? ==> m.source.value < m.tick) && M.Enabled(m, step)
    ensures var v := M.Step(m, step);
      && M.Inv(v) && (v.source.Some? ==> v.source.value < v.tick)
      && v.tick == m.tick + 1 && v.lastMark >= m.lastMark
      && (step.Invalidate? ==> v.lastMark == m.tick)
      && (step.ReadQueue? ==> v.source == m.source)
  {
    M.InvStep(m, step);
    if step.RpcReturns? {
      assert M.IsFetching(m, step.id);
    }
  }

  lemma LivePart(w: World, e: B.Event<(), (), nat>)
    requires B.ServesNewest(w.live) && B.Enabled(w.live, e)
    ensures B.ServesNewest(B.Step(w.live, e, B.LIVE_REFRESH_EVERY))
  {
    B.ServesNewestStep(w.live, e, B.LIVE_REFRESH_EVERY);
  }

  lemma InvStep(w: World, e: Event)
    requires Inv(w) && Enabled(w, e)
    ensures Inv(Step(w, e))
  {
    hide M.Inv, B.ServesNewest, M.Step, B.Due;
    match e
    case Mempool(step) => MempoolPart(w.mempool, step);
    case Block => MempoolPart(w.mempool, M.Invalidate);
    case Serve(at) => LivePart(w, B.Read(at));
    case Compute(r, reader, q, at) => MempoolPart(w.mempool, M.ReadQueue(reader, q, at));
    case Finish(r, stats, fees, delivers, at) => LivePart(w, B.Finish(r, OutcomeOf(w, r, stats, fees, delivers), at));
  }

  lemma {:induction false} InvRun(w: World, es: seq<Event>)
    requires Inv(w) && Run(w, es)
    ensures Inv(After(w, es))
    decreases |es|
  {
    if es != [] {
      InvStep(w, es[0]);
      InvRun(Step(w, es[0]), es[1..]);
    }
  }

  /** In every run: a push shows the mempool since the last block exactly when the refresh
      that delivered last had read entries whose fetch began after that block. */
  lemma PushShowsBlockIff(es: seq<Event>)
    requires Run(Boot(), es)
    ensures var w := After(Boot(), es);
      ShowsBlock(w) <==> exists i :: DeliveredLast(w, i) && w.live.order[i] in w.read && w.read[w.live.order[i]] > w.block
  {
    InvRun(Boot(), es);
    var w := After(Boot(), es);
    if w.live.live.update.Some? {
      var i :| B.LastSuccess(B.UpdatesOf(w.live.done), i) && B.UpdatesOf(w.live.done)[i] == w.live.live.update;
      assert DeliveredLast(w, i);
      assert w.live.done[i].update == w.live.live.update;
      forall j | DeliveredLast(w, j) ensures i == j {
        assert B.UpdatesOf(w.live.done)[j].Some?;
      }
    }
  }

  ghost predicate NoDelivery(es: seq<Event>) {
    forall i :: 0 <= i < |es| ==> !(es[i].Finish? && es[i].delivers)
  }

  lemma {:induction false} NothingNewIsServed(w: World, es: seq<Event>)
    requires Inv(w) && Run(w, es) && NoDelivery(es)
    ensures After(w, es).live.live.update == w.live.live.update && After(w, es).block >= w.block
    decreases |es|
  {
    if es != [] {
      InvStep(w, es[0]);
      NothingNewIsServed(Step(w, es[0]), es[1..]);
    }
  }

  /** A push made at once with a block never shows the contraction: until some refresh
      has delivered after the block, every push repeats the mempool from before it. The
      refresh that such a push kicks comes too late for the push itself. */
  lemma PushWithBlockIsOld(es: seq<Event>, more: seq<Event>)
    requires Run(Boot(), es) && Run(Step(After(Boot(), es), Block), more) && NoDelivery(more)
    ensures !ShowsBlock(After(Step(After(Boot(), es), Block), more))
  {
    InvRun(Boot(), es);
    InvStep(After(Boot(), es), Block);
    NothingNewIsServed(Step(After(Boot(), es), Block), more);
  }

  /** A refresh that reads a clean snapshot will show the block when it delivers, as long
      as clean means fetched after the last mark. */
  lemma CleanReadShowsBlock(es: seq<Event>, e: Event)
    requires Run(Boot(), es) && e.Compute? && Enabled(After(Boot(), es), e)
    requires M.Fresh(After(Boot(), es).mempool) && !After(Boot(), es).mempool.cache.dirty
    ensures var v := Step(After(Boot(), es), e); v.read[e.refresh] > v.block
  {
    InvRun(Boot(), es);
  }

  lemma RunCons(w: World, e: Event, es: seq<Event>)
    requires Enabled(w, e) && Run(Step(w, e), es)
    ensures Run(w, [e] + es) && After(w, [e] + es) == After(Step(w, e), es)
  {
    assert ([e] + es)[1..] == es;
  }

  const EMPTY := Queue(0, 0, 0, [Band(0, 0), Band(1, 0), Band(2, 0), Band(3, 0), Band(4, 0)], 1.0, 1.0)

  /** An old snapshot before the block; then a push kicks a refresh, another reader begins
      to fetch, and the refresh reads what there is and delivers it. */
  const OLD_SNAPSHOT: seq<Event> := [Mempool(M.Call(0, 0))] + ([Mempool(M.RpcReturns(0, map[], 0))] + [])
  const KICK_AND_FETCH: seq<Event> := [Serve(0)] + ([Mempool(M.Call(1, 0))] + ([Mempool(M.Call(2, 0))] + []))
  const READ_AND_DELIVER: seq<Event> := [Compute(0, 2, EMPTY, 0)] + ([Finish(0, None, None, true, 0)] + [])

  lemma OldSnapshotRuns()
    ensures Run(Boot(), OLD_SNAPSHOT)
    ensures var w := After(Boot(), OLD_SNAPSHOT);
      && w.live == Boot().live && w.read == map[] && w.mempool.tick == 3 && w.mempool.now == 0
      && w.mempool.cache == M.Cache(Some(0), false, 0, false, 0, Some(map[]), None, [])
      && w.mempool.readers == map[0 := M.Ready] && w.mempool.source == Some(1)
  {
    var e1, e2 := Mempool(M.Call(0, 0)), Mempool(M.RpcReturns(0, map[], 0));
    var w1 := Step(Boot(), e1);
    RunCons(w1, e2, []);
    RunCons(Boot(), e1, [e2] + []);
  }

  lemma KickAndFetchRuns(w: World)
    requires w.live == Boot().live && w.read == map[] && w.mempool.now == 0
    requires w.mempool.cache == M.Cache(None, true, 1, false, 0, Some(map[]), None, [])
    requires w.mempool.readers == map[0 := M.Ready] && w.mempool.source == Some(1)
    ensures Run(w, KICK_AND_FETCH)
    ensures var v := After(w, KICK_AND_FETCH);
      && v.block == w.block && v.read == map[] && v.mempool.now == 0 && v.mempool.source == Some(1)
      && 2 in v.mempool.readers && v.mempool.readers[2].Ready?
      && v.mempool.cache.entries == Some(map[]) && v.mempool.cache.queue.None?
      && v.live.running == {0} && v.live.order == [] && v.live.now == 0
  {
    var e1, e2, e3 := Serve(0), Mempool(M.Call(1, 0)), Mempool(M.Call(2, 0));
    var w1 := Step(w, e1);
    var w2 := Step(w1, e2);
    RunCons(w2, e3, []);
    RunCons(w1, e2, [e3] + []);
    RunCons(w, e1, [e2] + ([e3] + []));
  }

  lemma ReadAndDeliverRuns(w: World)
    requires w.read == map[] && w.mempool.now == 0 && w.mempool.source.Some?
    requires 2 in w.mempool.readers && w.mempool.readers[2].Ready?
    requires w.mempool.cache.entries == Some(map[]) && w.mempool.cache.queue.None?
    requires w.live.running == {0} && w.live.order == [] && w.live.now == 0
    ensures Run(w, READ_AND_DELIVER)
    ensures var v := After(w, READ_AND_DELIVER);
      v.block == w.block && v.live.order == [0] && v.live.live.update == w.mempool.source
  {
    assert IsQueueOf(EMPTY, map[]);
    hide M.Memoized, IsQueueOf;
    var e1, e2 := Compute(0, 2, EMPTY, 0), Finish(0, None, None, true, 0);
    var w1 := Step(w, e1);
    RunCons(w1, e2, []);
    RunCons(w, e1, [e2] + []);
  }

  lemma {:induction false} RunConcat(w: World, a: seq<Event>, b: seq<Event>)
    requires Run(w, a) && Run(After(w, a), b)
    ensures Run(w, a + b) && After(w, a + b) == After(After(w, a), b)
    decreases |a|
  {
    if a == [] {
      assert a + b == b;
    } else {
      RunConcat(Step(w, a[0]), a[1..], b);
      RunCons(w, a[0], a[1..] + b);
      assert a + b == [a[0]] + (a[1..] + b);
    }
  }

  /** Nor is it enough that a refresh began after the block and has delivered: if another
      reader's fetch is in flight, that refresh is served the entries from before. */
  lemma RefreshBegunAfterBlockCanBeOld()
    ensures Run(Boot(), OLD_SNAPSHOT) && After(Boot(), OLD_SNAPSHOT).live.kicks == []
    ensures var w, more := Step(After(Boot(), OLD_SNAPSHOT), Block), KICK_AND_FETCH + READ_AND_DELIVER;
      Run(w, more) && After(w, more).live.order == [0] && !ShowsBlock(After(w, more))
  {
    OldSnapshotRuns();
    var w := Step(After(Boot(), OLD_SNAPSHOT), Block);
    KickAndFetchRuns(w);
    ReadAndDeliverRuns(After(w, KICK_AND_FETCH));
    RunConcat(w, KICK_AND_FETCH, READ_AND_DELIVER);
  }
}
