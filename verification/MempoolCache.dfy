/** The shared mempool snapshot with its lock-free refresh (internal/explorer/mempool.go):
    the object with its critical sections as methods, and its behaviour over whole
    runs in which any number of goroutines interleave between those sections. */
module MempoolCache {
  import opened Options
  import opened Collections
  import opened Snapshots
  import opened FeeQueue
  import Peak = PeakWindow

  const SNAPSHOT_MAX_AGE := 5_000_000_000
  const SNAPSHOT_MIN_AGE := 1_000_000_000
  const FETCH_STUCK := 120_000_000_000

  /** One transaction as the node reports it; `fee` is None when it is no valid amount. */
  datatype RawEntry = RawEntry(fee: Option<int>, vsize: nat, size: nat, time: int)

  function EntryOf(raw: RawEntry): (e: MempoolEntry)
    requires raw.fee.Some?
  {
    var vsize := if raw.vsize == 0 then raw.size else raw.vsize;
    MempoolEntry(raw.fee.value, vsize, raw.size, raw.time,
                 if vsize > 0 then raw.fee.value as real / vsize as real else 0.0)
  }

  function EntriesOf(raw: map<string, RawEntry>): Snapshot {
    map id | id in raw && raw[id].fee.Some? :: EntryOf(raw[id])
  }

  /** Exactly the transactions whose fee is an amount are kept, each with that fee, its
      virtual size (the plain size when the node names none) and its exact rate. */
  lemma EntriesAre(raw: map<string, RawEntry>)
    ensures EntriesOf(raw).Keys == set id | id in raw && raw[id].fee.Some?
    ensures forall id :: id in EntriesOf(raw) ==>
      && id in raw && raw[id].fee.Some?
      && var e, r := EntriesOf(raw)[id], raw[id];
         && e.feeSats == r.fee.value && e.sizeBytes == r.size && e.time == r.time
         && (r.vsize > 0 ==> e.vsize == r.vsize) && (r.vsize == 0 ==> e.vsize == r.size)
         && e.feeRate * e.vsize as real == (if e.vsize > 0 then e.feeSats as real else 0.0)
         && (e.vsize == 0 ==> e.feeRate == 0.0)
  {
    forall id | id in EntriesOf(raw)
      ensures var e := EntriesOf(raw)[id];
        e.feeRate * e.vsize as real == (if e.vsize > 0 then e.feeSats as real else 0.0)
    {
      var e := EntriesOf(raw)[id];
      if e.vsize > 0 {
        RateTimesSize(e.feeSats, e.vsize);
      }
    }
  }

  lemma RateTimesSize(fee: int, vsize: int)
    requires vsize > 0
    ensures fee as real / vsize as real * vsize as real == fee as real
  {
  }

  lemma ConvertedOneMore(raw: map<string, RawEntry>, todo: map<string, RawEntry>, id: string)
    requires id in todo && todo.Keys <= raw.Keys && raw[id] == todo[id]
    ensures EntriesOf(raw - (todo - {id}).Keys) ==
            if raw[id].fee.Some? then EntriesOf(raw - todo.Keys)[id := EntryOf(raw[id])] else EntriesOf(raw - todo.Keys)
  {
    assert raw - (todo - {id}).Keys == (raw - todo.Keys)[id := raw[id]];
  }

  /** The guarded fields. A zero time is None: its age exceeds every bound. */
  datatype Cache = Cache(fetched: Option<int>, dirty: bool, gen: nat, fetching: bool, fetchStarted: int,
                         entries: Option<Snapshot>, queue: Option<Queue>, peaks: seq<Peak.PeakBucket>)

  predicate OlderThan(fetched: Option<int>, now: int, age: int) {
    fetched.None? || now - fetched.value >= age
  }

  predicate IsFresh(c: Cache, now: int) {
    && c.entries.Some?
    && !OlderThan(c.fetched, now, SNAPSHOT_MAX_AGE)
    && !(c.dirty && OlderThan(c.fetched, now, SNAPSHOT_MIN_AGE))
  }

  /** Another fetch is in flight, not stuck, and there is a stale copy to serve. */
  predicate ServesStale(c: Cache, now: int) {
    c.fetching && now - c.fetchStarted < FETCH_STUCK && c.entries.Some?
  }

  predicate MustFetch(c: Cache, now: int) {
    !IsFresh(c, now) && !ServesStale(c, now)
  }

  function Begun(c: Cache, now: int): Cache {
    c.(fetching := true, fetchStarted := now)
  }

  function Failed(c: Cache): Cache {
    c.(fetching := false)
  }

  function Installed(c: Cache, gen: nat, entries: Snapshot, now: int): Cache {
    c.(fetching := false, entries := Some(entries), queue := None, fetched := Some(now), dirty := c.gen != gen && c.dirty)
  }

  function Invalidated(c: Cache): Cache {
    c.(fetched := None, dirty := true, gen := c.gen + 1)
  }

  function MarkedDirty(c: Cache): Cache {
    c.(dirty := true, gen := c.gen + 1)
  }

  function NoteOf(now: nat, q: Queue): Peak.Note {
    Peak.Note(Peak.Truncate(now), q.totalVBytes)
  }

  /** The first read after an install derives the queue and notes its depth. */
  function Memoized(c: Cache, q: Queue, now: nat): Cache {
    var peaks := Peak.Noted(c.peaks, NoteOf(now, q));
    c.(queue := Some(q.(peakVBytes := Peak.PeakOf(peaks, q.totalVBytes))), peaks := peaks)
  }

  /** A memoized queue is the queue of the entries beside it, apart from its peak. */
  ghost predicate QueueMatches(c: Cache) {
    c.queue.Some? ==>
      && c.entries.Some?
      && IsQueueOf(c.queue.value, c.entries.value)
      && c.queue.value.peakVBytes >= c.queue.value.totalVBytes
  }

  lemma MemoizedMatches(c: Cache, q: Queue, now: nat)
    requires c.entries.Some? && IsQueueOf(q, c.entries.value)
    ensures QueueMatches(Memoized(c, q, now))
  {
    Peak.PeakOfBounds(Peak.Noted(c.peaks, NoteOf(now, q)), q.totalVBytes);
  }

  class Mempool {
    var fetched: Option<int>
    var dirty: bool
    var gen: nat
    var fetching: bool
    var fetchStarted: int
    var entries: Option<Snapshot>
    var queue: Option<Queue>
    var peaks: seq<Peak.PeakBucket>

    ghost function View(): Cache
      reads this
    {
      Cache(fetched, dirty, gen, fetching, fetchStarted, entries, queue, peaks)
    }

    constructor ()
      ensures View() == Cache(None, false, 0, false, 0, None, None, [])
    {
      fetched, dirty, gen, fetching, fetchStarted := None, false, 0, false, 0;
      entries, queue, peaks := None, None, [];
    }

    /** First critical section of refresh: None to serve what there is, or the
        generation under which the caller must fetch with no lock held. */
    method BeginRefresh(now: int) returns (r: Option<nat>)
      modifies this
      ensures r == if MustFetch(old(View()), now) then Some(old(gen)) else None
      ensures View() == if MustFetch(old(View()), now) then Begun(old(View()), now) else old(View())
    {
      var upToDate := entries.Some? && !OlderThan(fetched, now, SNAPSHOT_MAX_AGE)
                   && !(dirty && OlderThan(fetched, now, SNAPSHOT_MIN_AGE));
      if upToDate {
        return None;
      }
      if fetching && now - fetchStarted < FETCH_STUCK && entries.Some? {
        return None;
      }
      fetching := true;
      fetchStarted := now;
      r := Some(gen);
    }

    /** Second critical section after an RPC error. */
    method FailRefresh()
      modifies this
      ensures View() == Failed(old(View()))
    {
      fetching := false;
    }

    /** Second critical section after a reply: convert and install. */
    method InstallRefresh(startGen: nat, raw: map<string, RawEntry>, now: int)
      modifies this
      ensures View() == Installed(old(View()), startGen, EntriesOf(raw), now)
    {
      var converted: Snapshot := map[];
      var todo := raw;
      while todo != map[]
        invariant todo.Keys <= raw.Keys && forall k :: k in todo ==> todo[k] == raw[k]
        invariant converted == EntriesOf(raw - todo.Keys)
        invariant View() == old(View())
        decreases todo.Keys
      {
        var id :| id in todo;
        ConvertedOneMore(raw, todo, id);
        if todo[id].fee.Some? {
          converted := converted[id := EntryOf(todo[id])];
        }
        todo := todo - {id};
      }
      assert raw - todo.Keys == raw;
      fetching := false;
      entries := Some(converted);
      queue := None;
      fetched := Some(now);
      if gen == startGen {
        dirty := false;
      }
    }

    /** Records the current depth and returns the recent peak. */
    method NotePeakLocked(total: int, now: nat) returns (peak: int)
      modifies this`peaks
      ensures peaks == Peak.Noted(old(peaks), Peak.Note(Peak.Truncate(now), total))
      ensures peak == Peak.PeakOf(peaks, total)
    {
      var bucket := Peak.Truncate(now);
      ghost var note := Peak.Note(bucket, total);
      hide Peak.Truncate, Peak.OnGrid;
      var n := |peaks|;
      if n > 0 && peaks[n - 1].start == bucket {
        peaks := peaks[n - 1 := Peak.PeakBucket(bucket, Peak.Max(peaks[n - 1].max, total))];
      } else {
        peaks := peaks + [Peak.PeakBucket(bucket, total)];
      }
      assert peaks == Peak.Recorded(old(peaks), note);
      peaks := Peak.Trim(peaks, bucket - (Peak.BUCKETS - 1) * Peak.BUCKET_NS);
      peak := Peak.Highest(peaks, total);
    }

    /** The locked read of SnapshotAndQueue, after a refresh that returned no error. */
    method ReadSnapshotAndQueue(now: nat) returns (snapshot: Snapshot, q: Queue)
      requires entries.Some? && QueueMatches(View())
      modifies this
      ensures entries == old(entries) == Some(snapshot) && queue == Some(q)
      ensures IsQueueOf(q, snapshot) && q.peakVBytes >= q.totalVBytes
      ensures old(queue).Some? ==> View() == old(View())
      ensures old(queue).None? ==>
        exists d :: IsQueueOf(d, snapshot) && d.peakVBytes == 0 && View() == Memoized(old(View()), d, now)
      ensures QueueMatches(View())
    {
      if queue.None? {
        var derived := QueueFromSnapshot(entries.value);
        MemoizedMatches(View(), derived, now);
        ghost var was := View();
        var peak := NotePeakLocked(derived.totalVBytes, now);
        queue := Some(derived.(peakVBytes := peak));
        assert View() == Memoized(was, derived, now);
      }
      snapshot := entries.value;
      q := queue.value;
    }

    method Invalidate()
      modifies this
      ensures View() == Invalidated(old(View()))
    {
      fetched := None;
      dirty := true;
      gen := gen + 1;
    }

    method MarkDirty()
      modifies this
      ensures View() == MarkedDirty(old(View()))
    {
      dirty := true;
      gen := gen + 1;
    }
  }

  // ----- Whole runs ---------------------------------------------------------

  /** A goroutine inside Snapshot or SnapshotAndQueue: waiting for the node, or about
      to read after refresh returned no error. `born` is when its fetch started. */
  datatype Reader =
    | Fetching(gen: nat, startedAt: nat, born: nat)
    | Ready

  /** All goroutines at once. `tick` counts events; `lastMark` is the tick of the last
      invalidation or dirty mark (0 if none), `source` the birth of the fetch that the
      installed entries came from, `installedAt` the time of that install and `notes` the
      log of all noted depths. */
  datatype World = World(cache: Cache, readers: map<nat, Reader>, now: nat, tick: nat, lastMark: nat,
                         source: Option<nat>, installedAt: Option<nat>, notes: seq<Peak.Depth>)

  datatype Event =
    | Call(id: nat, at: nat)
    | RpcFails(id: nat)
    | RpcReturns(id: nat, entries: Snapshot, at: nat)
    | ReadEntries(id: nat)
    | ReadQueue(id: nat, q: Queue, at: nat)
    | Invalidate
    | MarkDirty

  const BOOT := World(Cache(None, false, 0, false, 0, None, None, []), map[], 0, 1, 0, None, None, [])

  predicate IsFetching(w: World, id: nat) {
    id in w.readers && w.readers[id].Fetching?
  }

  ghost predicate Enabled(w: World, e: Event) {
    match e
    case Call(id, at) => id !in w.readers && at >= w.now
    case RpcFails(id) => IsFetching(w, id)
    case RpcReturns(id, _, at) => IsFetching(w, id) && at >= w.now
    case ReadEntries(id) => id in w.readers && w.readers[id].Ready?
    case ReadQueue(id, q, at) =>
      && id in w.readers && w.readers[id].Ready? && at >= w.now
      && (w.cache.queue.None? && w.cache.entries.Some? ==> IsQueueOf(q, w.cache.entries.value))
    case _ => true
  }

  ghost function Step(w: World, e: Event): World
    requires Enabled(w, e)
  {
    var v := w.(tick := w.tick + 1);
    match e
    case Call(id, at) =>
      if MustFetch(w.cache, at) then
        v.(cache := Begun(w.cache, at), now := at, readers := w.readers[id := Fetching(w.cache.gen, at, w.tick)])
      else v.(now := at, readers := w.readers[id := Ready])
    case RpcFails(id) => v.(cache := Failed(w.cache), readers := w.readers - {id})
    case RpcReturns(id, entries, at) =>
      v.(cache := Installed(w.cache, w.readers[id].gen, entries, at), now := at,
         readers := w.readers[id := Ready], source := Some(w.readers[id].born), installedAt := Some(at))
    case ReadEntries(id) => v.(readers := w.readers - {id})
    case ReadQueue(id, q, at) =>
      if w.cache.queue.None? then
        v.(readers := w.readers - {id}, now := at, cache := Memoized(w.cache, q, at), notes := w.notes + [Peak.Depth(at, q.totalVBytes)])
      else v.(readers := w.readers - {id}, now := at)
    case Invalidate => v.(cache := Invalidated(w.cache), lastMark := w.tick)
    case MarkDirty => v.(cache := MarkedDirty(w.cache), lastMark := w.tick)
  }

  ghost predicate Run(w: World, es: seq<Event>)
    decreases |es|
  {
    es != [] ==> Enabled(w, es[0]) && Run(Step(w, es[0]), es[1..])
  }

  ghost function After(w: World, es: seq<Event>): World
    requires Run(w, es)
    decreases |es|
  {
    if es == [] then w else After(Step(w, es[0]), es[1..])
  }

  /** The peak window is that of the log, and a memoized peak that of the last note. */
  ghost predicate PeakInv(c: Cache, notes: seq<Peak.Depth>, now: nat) {
    && Peak.Timed(notes) && c.peaks == Peak.PeaksAfter(Peak.Bucketed(notes))
    && (notes != [] ==> notes[|notes| - 1].at <= now)
    && (c.queue.Some? ==>
          && notes != [] && c.queue.value.totalVBytes == notes[|notes| - 1].total
          && c.queue.value.peakVBytes == Peak.PeakOf(c.peaks, c.queue.value.totalVBytes))
  }

  lemma PeakInvNote(c: Cache, notes: seq<Peak.Depth>, now: nat, q: Queue, at: nat)
    requires PeakInv(c, notes, now) && now <= at
    ensures PeakInv(Memoized(c, q, at), notes + [Peak.Depth(at, q.totalVBytes)], at)
  {
    var more := notes + [Peak.Depth(at, q.totalVBytes)];
    hide Peak.Truncate, Peak.OnGrid, Peak.Noted, Peak.PeakOf;
    assert Peak.Bucketed(more) == Peak.Bucketed(notes) + [NoteOf(at, q)];
    assert Peak.Bucketed(more)[..|more| - 1] == Peak.Bucketed(notes);
  }

  /** What holds in every reachable state, overlapping fetches included. */
  ghost predicate Inv(w: World) {
    && w.tick > w.lastMark
    && QueueMatches(w.cache) && PeakInv(w.cache, w.notes, w.now)
    && (w.cache.entries.Some? <==> w.source.Some?)
    && (forall id :: id in w.readers && w.readers[id].Ready? ==> w.cache.entries.Some?)
    && FetchersKnown(w)
  }

  /** A fetch holds the current generation exactly if nothing was marked since it began. */
  ghost predicate FetchersKnown(w: World) {
    forall id :: IsFetching(w, id) ==>
      var r := w.readers[id];
      0 < r.born < w.tick && r.gen <= w.cache.gen && (r.gen == w.cache.gen <==> r.born > w.lastMark)
  }

  lemma FetchersStep(w: World, e: Event)
    requires FetchersKnown(w) && w.tick > w.lastMark && Enabled(w, e)
    ensures FetchersKnown(Step(w, e))
  {
    forall id | IsFetching(Step(w, e), id)
      ensures var v := Step(w, e); var r := v.readers[id];
        0 < r.born < v.tick && r.gen <= v.cache.gen && (r.gen == v.cache.gen <==> r.born > v.lastMark)
    {
      assert IsFetching(w, id) || e.Call?;
    }
  }

  lemma InvStep(w: World, e: Event)
    requires Inv(w) && Enabled(w, e)
    ensures Inv(Step(w, e))
  {
    hide FetchersKnown;
    FetchersStep(w, e);
    if e.ReadQueue? && w.cache.queue.None? {
      MemoizedMatches(w.cache, e.q, e.at);
      PeakInvNote(w.cache, w.notes, w.now, e.q, e.at);
    }
  }

  lemma {:induction false} InvRun(w: World, es: seq<Event>)
    requires Inv(w) && Run(w, es)
    ensures Inv(After(w, es))
    decreases |es|
  {
    if es != [] {
      InvStep(w, es[0]);
      InvRun(Step(w, es[0]), es[1..]);
    }
  }

  /** In every run, overlapping fetches included: a read that follows a successful
      refresh finds entries, and a memoized queue belongs to exactly those entries. */
  lemma EveryReadIsConsistent(es: seq<Event>)
    requires Run(BOOT, es)
    ensures QueueMatches(After(BOOT, es).cache)
    ensures forall id :: id in After(BOOT, es).readers && After(BOOT, es).readers[id].Ready?
                         ==> After(BOOT, es).cache.entries.Some?
  {
    InvRun(BOOT, es);
  }

  /** The peak served with a queue is the largest depth noted since the start of the fifth
      ten-minute bucket before that of the last note, however many notes and refreshes
      there were. */
  lemma EveryPeakIsExact(es: seq<Event>)
    requires Run(BOOT, es) && After(BOOT, es).cache.queue.Some?
    ensures var w := After(BOOT, es);
      && w.notes != []
      && Peak.IsMaxFrom(w.cache.queue.value.peakVBytes, w.notes, Peak.Truncate(w.notes[|w.notes| - 1].at) - Peak.SPAN_NS)
  {
    InvRun(BOOT, es);
    var w := After(BOOT, es);
    hide QueueMatches, FetchersKnown, Run, After, Peak.IsMaxFrom, Peak.Truncate;
    assert PeakInv(w.cache, w.notes, w.now);
    Peak.PeakRefinesTimes(w.notes, Peak.Truncate(w.notes[|w.notes| - 1].at) - Peak.SPAN_NS);
  }

  /** A clean snapshot came from a fetch that started after the last mark. */
  ghost predicate Fresh(w: World) {
    !w.cache.dirty ==> if w.source.Some? then w.source.value > w.lastMark else w.lastMark == 0
  }

  /** The reply may be installed without going stale silently: nothing was marked
      since the fetch began, or the snapshot is dirty and stays so. */
  predicate SafeInstall(c: Cache, startGen: nat) {
    startGen == c.gen || c.dirty
  }

  /** The install is the only step that can break freshness, and does exactly when it
      is not safe. */
  lemma FreshStepIff(w: World, e: Event)
    requires Inv(w) && Fresh(w) && Enabled(w, e)
    ensures Fresh(Step(w, e)) <==> (e.RpcReturns? ==> SafeInstall(w.cache, w.readers[e.id].gen))
  {
    if e.RpcReturns? {
      assert IsFetching(w, e.id);
    }
  }

  ghost predicate AlwaysFresh(w: World, es: seq<Event>)
    requires Run(w, es)
    decreases |es|
  {
    Fresh(w) && (es != [] ==> AlwaysFresh(Step(w, es[0]), es[1..]))
  }

  ghost predicate InstallsAreSafe(w: World, es: seq<Event>)
    requires Run(w, es)
    decreases |es|
  {
    es != [] ==>
      && (es[0].RpcReturns? ==> SafeInstall(w.cache, w.readers[es[0].id].gen))
      && InstallsAreSafe(Step(w, es[0]), es[1..])
  }

  /** Exactly when a run keeps the snapshot fresh throughout. */
  lemma {:induction false} AlwaysFreshIff(w: World, es: seq<Event>)
    requires Inv(w) && Fresh(w) && Run(w, es)
    ensures AlwaysFresh(w, es) <==> InstallsAreSafe(w, es)
    decreases |es|
  {
    if es != [] {
      InvStep(w, es[0]);
      FreshStepIff(w, es[0]);
      if Fresh(Step(w, es[0])) {
        AlwaysFreshIff(Step(w, es[0]), es[1..]);
      }
    }
  }

  /** No reply is installed over one whose fetch started later. */
  ghost predicate InOrder(w: World, es: seq<Event>)
    requires Run(w, es)
    decreases |es|
  {
    es != [] ==>
      && (es[0].RpcReturns? && w.source.Some? ==> w.source.value <= w.readers[es[0].id].born)
      && InOrder(Step(w, es[0]), es[1..])
  }

  lemma {:induction false} InOrderRunsAreFresh(w: World, es: seq<Event>)
    requires Inv(w) && Fresh(w) && Run(w, es) && InOrder(w, es)
    ensures AlwaysFresh(w, es)
    decreases |es|
  {
    if es != [] {
      if es[0].RpcReturns? {
        assert IsFetching(w, es[0].id);
      }
      InvStep(w, es[0]);
      FreshStepIff(w, es[0]);
      InOrderRunsAreFresh(Step(w, es[0]), es[1..]);
    }
  }

  /** No fetch begins while another is in flight. */
  ghost predicate Serial(w: World, es: seq<Event>)
    requires Run(w, es)
    decreases |es|
  {
    es != [] ==>
      && (es[0].Call? && MustFetch(w.cache, es[0].at) ==> forall id :: !IsFetching(w, id))
      && Serial(Step(w, es[0]), es[1..])
  }

  ghost predicate AtMostOneFetch(w: World) {
    && (forall i, j :: IsFetching(w, i) && IsFetching(w, j) ==> i == j)
    && (forall i :: IsFetching(w, i) && w.source.Some? ==> w.source.value <= w.readers[i].born)
    && (w.source.Some? ==> w.source.value < w.tick)
  }

  lemma {:induction false} SerialIsInOrder(w: World, es: seq<Event>)
    requires Inv(w) && AtMostOneFetch(w) && Run(w, es) && Serial(w, es)
    ensures InOrder(w, es)
    decreases |es|
  {
    if es != [] {
      var v := Step(w, es[0]);
      InvStep(w, es[0]);
      assert forall i :: IsFetching(v, i) ==> IsFetching(w, i) || (es[0].Call? && es[0].id == i);
      SerialIsInOrder(v, es[1..]);
    }
  }

  /** As long as fetches do not overlap, a clean snapshot is never older than the last
      block or transaction announced: no mark is ever lost. */
  lemma SerialRunsAreFresh(es: seq<Event>)
    requires Run(BOOT, es) && Serial(BOOT, es)
    ensures AlwaysFresh(BOOT, es)
  {
    SerialIsInOrder(BOOT, es);
    InOrderRunsAreFresh(BOOT, es);
  }

  /** At most one fetch is in flight, and the guard knows of it and when it began. */
  ghost predicate Tidy(w: World) {
    && AtMostOneFetch(w)
    && (forall i :: IsFetching(w, i) ==> w.cache.fetching && w.cache.fetchStarted == w.readers[i].startedAt)
  }

  /** Nobody calls while there are no entries yet and the first fetch is under way. */
  ghost predicate ColdAlone(w: World, es: seq<Event>)
    requires Run(w, es)
    decreases |es|
  {
    es != [] ==>
      && (es[0].Call? && w.cache.entries.None? ==> forall id :: !IsFetching(w, id))
      && ColdAlone(Step(w, es[0]), es[1..])
  }

  ghost predicate NoneStuck(w: World, es: seq<Event>)
    requires Run(w, es)
    decreases |es|
  {
    es != [] ==>
      && (es[0].Call? ==> forall id :: IsFetching(w, id) ==> es[0].at - w.readers[id].startedAt < FETCH_STUCK)
      && NoneStuck(Step(w, es[0]), es[1..])
  }

  lemma TidyStep(w: World, e: Event)
    requires Inv(w) && Tidy(w) && Enabled(w, e)
    requires e.Call? ==> forall id :: IsFetching(w, id) ==> e.at - w.readers[id].startedAt < FETCH_STUCK
    requires e.Call? && w.cache.entries.None? ==> forall id :: !IsFetching(w, id)
    ensures e.Call? && MustFetch(w.cache, e.at) ==> forall id :: !IsFetching(w, id)
    ensures Tidy(Step(w, e))
  {
    var v := Step(w, e);
    assert forall i :: IsFetching(v, i) ==> IsFetching(w, i) || (e.Call? && e.id == i);
  }

  lemma {:induction false} TidyRunsAreSerial(w: World, es: seq<Event>)
    requires Inv(w) && Tidy(w) && Run(w, es) && NoneStuck(w, es) && ColdAlone(w, es)
    ensures Serial(w, es)
    decreases |es|
  {
    if es != [] {
      InvStep(w, es[0]);
      TidyStep(w, es[0]);
      TidyRunsAreSerial(Step(w, es[0]), es[1..]);
    }
  }

  /** A node that always answers within two minutes is enough, provided the very first
      fetch is not overtaken by another caller: then no mark is lost in any run. */
  lemma PromptNodeKeepsFresh(es: seq<Event>)
    requires Run(BOOT, es) && NoneStuck(BOOT, es) && ColdAlone(BOOT, es)
    ensures AlwaysFresh(BOOT, es)
  {
    TidyRunsAreSerial(BOOT, es);
    SerialRunsAreFresh(es);
  }

  // ----- The snapshot never freezes -------------------------------------------

  ghost predicate LatestInFlight(w: World) {
    exists id :: IsFetching(w, id) && w.readers[id].startedAt == w.cache.fetchStarted
  }

  /** The guard is truthful: it is set only while the last fetch begun is in flight, and
      a known fetch time is that of the last install. */
  ghost predicate Guarded(w: World) {
    && (w.cache.fetching ==> LatestInFlight(w))
    && (w.cache.fetched.Some? ==> w.installedAt.Some? && w.cache.fetched.value == w.installedAt.value)
  }

  lemma GuardedStep(w: World, e: Event)
    requires Guarded(w) && Enabled(w, e)
    ensures Guarded(Step(w, e))
  {
    var v := Step(w, e);
    if v.cache.fetching {
      if e.Call? && MustFetch(w.cache, e.at) {
        assert IsFetching(v, e.id) && v.readers[e.id].startedAt == v.cache.fetchStarted;
      } else {
        var id :| IsFetching(w, id) && w.readers[id].startedAt == w.cache.fetchStarted;
        assert IsFetching(v, id) && v.readers[id].startedAt == v.cache.fetchStarted;
      }
    }
  }

  lemma {:induction false} GuardedRun(w: World, es: seq<Event>)
    requires Guarded(w) && Run(w, es)
    ensures Guarded(After(w, es))
    decreases |es|
  {
    if es != [] {
      GuardedStep(w, es[0]);
      GuardedRun(Step(w, es[0]), es[1..]);
    }
  }

  /** Installed less than five seconds ago, or less than one if it is dirty. */
  predicate Recent(w: World, at: nat) {
    && w.installedAt.Some?
    && at - w.installedAt.value < SNAPSHOT_MAX_AGE && (w.cache.dirty ==> at - w.installedAt.value < SNAPSHOT_MIN_AGE)
  }

  ghost predicate Awaited(w: World, at: nat) {
    exists f :: IsFetching(w, f) && at - w.readers[f].startedAt < FETCH_STUCK
  }

  /** In every run: whoever is served without fetching is served recent entries, or a
      newer fetch is on its way that is not two minutes old. */
  lemma ServedIsRecentOrAwaited(es: seq<Event>, id: nat, at: nat)
    requires Run(BOOT, es) && Enabled(After(BOOT, es), Call(id, at))
    requires Step(After(BOOT, es), Call(id, at)).readers[id].Ready?
    ensures var w := After(BOOT, es); w.cache.entries.Some? && (Recent(w, at) || Awaited(w, at))
  {
    GuardedRun(BOOT, es);
  }

  /** Hence a stranded fetch never freezes the snapshot: once every fetch in flight is two
      minutes old, a caller who finds the snapshot out of date fetches it anew. */
  lemma NeverFrozen(es: seq<Event>, id: nat, at: nat)
    requires Run(BOOT, es) && Enabled(After(BOOT, es), Call(id, at))
    requires !Recent(After(BOOT, es), at) && !Awaited(After(BOOT, es), at)
    ensures var v := Step(After(BOOT, es), Call(id, at)); IsFetching(v, id) && v.readers[id].startedAt == at
  {
    GuardedRun(BOOT, es);
  }

  // ----- Fetches are throttled ------------------------------------------------

  ghost predicate NoInvalidate(es: seq<Event>) {
    forall i :: 0 <= i < |es| ==> !es[i].Invalidate?
  }

  lemma {:induction false} FetchTimeIsKept(w: World, es: seq<Event>)
    requires Guarded(w) && w.cache.fetched.Some? && w.cache.entries.Some? && w.installedAt.value <= w.now
    requires Run(w, es) && NoInvalidate(es)
    ensures var v := After(w, es);
      && Guarded(v) && v.cache.fetched.Some? && v.cache.entries.Some?
      && w.installedAt.value <= v.installedAt.value <= v.now
    decreases |es|
  {
    if es != [] {
      GuardedStep(w, es[0]);
      FetchTimeIsKept(Step(w, es[0]), es[1..]);
    }
  }

  /** However often the snapshot is marked dirty: after an install the next fetches begin
      at least a second later, unless a block invalidated the snapshot in between. */
  lemma NoFetchSoonAfterInstall(es: seq<Event>, reply: Event, between: seq<Event>, id: nat, at: nat)
    requires Run(BOOT, es) && reply.RpcReturns? && Enabled(After(BOOT, es), reply)
    requires Run(Step(After(BOOT, es), reply), between) && NoInvalidate(between)
    requires var w := After(Step(After(BOOT, es), reply), between);
      Enabled(w, Call(id, at)) && IsFetching(Step(w, Call(id, at)), id)
    ensures at - reply.at >= SNAPSHOT_MIN_AGE
  {
    GuardedRun(BOOT, es);
    GuardedStep(After(BOOT, es), reply);
    FetchTimeIsKept(Step(After(BOOT, es), reply), between);
  }

  ghost predicate NoMark(es: seq<Event>) {
    forall i :: 0 <= i < |es| ==> !es[i].Invalidate? && !es[i].MarkDirty?
  }

  lemma {:induction false} CleanIsKept(w: World, es: seq<Event>)
    requires !w.cache.dirty && Run(w, es) && NoMark(es)
    ensures !After(w, es).cache.dirty
    decreases |es|
  {
    if es != [] {
      CleanIsKept(Step(w, es[0]), es[1..]);
    }
  }

  /** The point of sharing: after an install every reader is served for a second, and for
      five while nothing marks the snapshot dirty; nobody fetches again. */
  lemma ServedAfterInstall(es: seq<Event>, reply: Event, between: seq<Event>, id: nat, at: nat)
    requires Run(BOOT, es) && reply.RpcReturns? && Enabled(After(BOOT, es), reply)
    requires Run(Step(After(BOOT, es), reply), between) && NoInvalidate(between)
    requires Enabled(After(Step(After(BOOT, es), reply), between), Call(id, at))
    requires var clean := !Step(After(BOOT, es), reply).cache.dirty && NoMark(between);
      at - reply.at < if clean then SNAPSHOT_MAX_AGE else SNAPSHOT_MIN_AGE
    ensures Step(After(Step(After(BOOT, es), reply), between), Call(id, at)).readers[id].Ready?
  {
    var v := Step(After(BOOT, es), reply);
    GuardedRun(BOOT, es);
    GuardedStep(After(BOOT, es), reply);
    FetchTimeIsKept(v, between);
    if !v.cache.dirty && NoMark(between) {
      CleanIsKept(v, between);
    }
  }

  lemma {:induction false} UnfetchedIsKept(w: World, es: seq<Event>)
    requires w.cache.fetched.None? && Run(w, es) && forall i :: 0 <= i < |es| ==> !es[i].RpcReturns?
    ensures After(w, es).cache.fetched.None?
    decreases |es|
  {
    if es != [] {
      UnfetchedIsKept(Step(w, es[0]), es[1..]);
    }
  }

  /** A block makes the snapshot out of date at once: until a reply is installed, every
      caller who does not find another fetch on its way begins one. */
  lemma BlockForcesFetch(es: seq<Event>, between: seq<Event>, id: nat, at: nat)
    requires Run(BOOT, es) && Run(Step(After(BOOT, es), Invalidate), between)
    requires forall i :: 0 <= i < |between| ==> !between[i].RpcReturns?
    requires var w := After(Step(After(BOOT, es), Invalidate), between); Enabled(w, Call(id, at)) && !Awaited(w, at)
    ensures IsFetching(Step(After(Step(After(BOOT, es), Invalidate), between), Call(id, at)), id)
  {
    var v := Step(After(BOOT, es), Invalidate);
    GuardedRun(BOOT, es);
    GuardedStep(After(BOOT, es), Invalidate);
    GuardedRun(v, between);
    UnfetchedIsKept(v, between);
  }

  /** The times at which a run begins fetches. */
  ghost function Starts(w: World, es: seq<Event>): seq<nat>
    requires Run(w, es)
    decreases |es|
  {
    if es == [] then []
    else (if es[0].Call? && MustFetch(w.cache, es[0].at) then [es[0].at] else []) + Starts(Step(w, es[0]), es[1..])
  }

  ghost predicate NoFailureNorBlock(es: seq<Event>) {
    forall i :: 0 <= i < |es| ==> !es[i].RpcFails? && !es[i].Invalidate?
  }

  /** The fetch that began last is still in flight, or its entries are installed. */
  ghost predicate Paced(w: World, last: nat) {
    && last <= w.now
    && ((exists id :: IsFetching(w, id))
        || (w.cache.entries.Some? && w.cache.fetched.Some? && last <= w.cache.fetched.value))
  }

  lemma PacedStep(w: World, e: Event, last: nat)
    requires Paced(w, last) && Enabled(w, e) && !e.RpcFails? && !e.Invalidate?
    requires e.Call? && MustFetch(w.cache, e.at) ==> forall id :: !IsFetching(w, id)
    ensures e.Call? && MustFetch(w.cache, e.at) ==> e.at - last >= SNAPSHOT_MIN_AGE && Paced(Step(w, e), e.at)
    ensures !(e.Call? && MustFetch(w.cache, e.at)) ==> Paced(Step(w, e), last)
  {
    var v := Step(w, e);
    if e.Call? && MustFetch(w.cache, e.at) {
      assert IsFetching(v, e.id);
    } else if id :| IsFetching(w, id) && !(e.RpcReturns? && e.id == id) {
      assert IsFetching(v, id);
    }
  }

  lemma {:induction false} StartsAreSpaced(w: World, es: seq<Event>, last: nat)
    requires Inv(w) && Tidy(w) && Paced(w, last)
    requires Run(w, es) && NoneStuck(w, es) && ColdAlone(w, es) && NoFailureNorBlock(es)
    ensures Spaced([last] + Starts(w, es), SNAPSHOT_MIN_AGE)
    decreases |es|
  {
    if es != [] {
      var e, rest := es[0], es[1..];
      var begins := e.Call? && MustFetch(w.cache, e.at);
      InvStep(w, e);
      TidyStep(w, e);
      PacedStep(w, e, last);
      StartsAreSpaced(Step(w, e), rest, if begins then e.at else last);
      var later := Starts(Step(w, e), rest);
      assert Starts(w, es) == if begins then [e.at] + later else later;
      if begins {
        assert forall i :: 0 < i <= |later| ==> ([last] + Starts(w, es))[i + 1] == ([e.at] + later)[i];
      }
    }
  }

  lemma {:induction false} FirstStartSpaced(w: World, es: seq<Event>)
    requires Inv(w) && Tidy(w)
    requires Run(w, es) && NoneStuck(w, es) && ColdAlone(w, es) && NoFailureNorBlock(es)
    ensures Spaced(Starts(w, es), SNAPSHOT_MIN_AGE)
    decreases |es|
  {
    if es != [] {
      InvStep(w, es[0]);
      TidyStep(w, es[0]);
      var v := Step(w, es[0]);
      if es[0].Call? && MustFetch(w.cache, es[0].at) {
        assert IsFetching(v, es[0].id);
        StartsAreSpaced(v, es[1..], es[0].at);
      } else {
        FirstStartSpaced(v, es[1..]);
        assert Starts(w, es) == Starts(v, es[1..]);
      }
    }
  }

  lemma {:induction false} TidyRun(w: World, es: seq<Event>)
    requires Inv(w) && Tidy(w) && Run(w, es) && NoneStuck(w, es) && ColdAlone(w, es)
    ensures Inv(After(w, es)) && Tidy(After(w, es))
    decreases |es|
  {
    if es != [] {
      InvStep(w, es[0]);
      TidyStep(w, es[0]);
      TidyRun(Step(w, es[0]), es[1..]);
    }
  }

  /** Between blocks, a node that answers promptly and without errors is asked for the
      whole mempool at most once a second, however busy the mempool and the readers:
      `es` is any stretch of a run without invalidation, after whatever went before. */
  lemma FetchRateBound(before: seq<Event>, es: seq<Event>, i: nat, j: nat)
    requires Run(BOOT, before) && NoneStuck(BOOT, before) && ColdAlone(BOOT, before)
    requires var w := After(BOOT, before);
      Run(w, es) && NoneStuck(w, es) && ColdAlone(w, es) && NoFailureNorBlock(es)
    requires i <= j < |Starts(After(BOOT, before), es)|
    ensures var starts := Starts(After(BOOT, before), es); starts[j] - starts[i] >= (j - i) * SNAPSHOT_MIN_AGE
  {
    TidyRun(BOOT, before);
    FirstStartSpaced(After(BOOT, before), es);
    SpacedFar(Starts(After(BOOT, before), es), SNAPSHOT_MIN_AGE, i, j);
  }

  lemma RunCons(w: World, e: Event, es: seq<Event>)
    requires Enabled(w, e) && Run(Step(w, e), es) && NoneStuck(Step(w, e), es)
    requires e.Call? ==> forall id :: IsFetching(w, id) ==> e.at - w.readers[id].startedAt < FETCH_STUCK
    ensures Run(w, [e] + es) && After(w, [e] + es) == After(Step(w, e), es) && NoneStuck(w, [e] + es)
  {
    assert ([e] + es)[1..] == es;
  }

  /** The cold-start overlap does break it, even though the node answers promptly: two
      readers fetch, a transaction arrives between them, and the older reply lands last
      on a snapshot already declared clean. */
  lemma OverlapCanGoStale()
    ensures exists es :: Run(BOOT, es) && NoneStuck(BOOT, es) && !After(BOOT, es).cache.dirty && After(BOOT, es).source.Some?
                         && After(BOOT, es).source.value < After(BOOT, es).lastMark
  {
    var e1, e2, e3, e4, e5 := Call(0, 10), MarkDirty, Call(1, 20), RpcReturns(1, map[], 30), RpcReturns(0, map[], 40);
    var w1 := Step(BOOT, e1);
    var w2 := Step(w1, e2);
    var w3 := Step(w2, e3);
    var w4 := Step(w3, e4);
    var w5 := Step(w4, e5);
    RunCons(w4, e5, []);
    RunCons(w3, e4, [e5] + []);
    RunCons(w2, e3, [e4] + ([e5] + []));
    RunCons(w1, e2, [e3] + ([e4] + ([e5] + [])));
    RunCons(BOOT, e1, [e2] + ([e3] + ([e4] + ([e5] + []))));
    assert !w5.cache.dirty && w5.source == Some(1) && w5.lastMark == 2;
  }
}
