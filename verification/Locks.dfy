/** Why the notification goroutine cannot deadlock (internal/explorer: tx.go, mempool.go,
    arrivals.go, live.go, stats.go). One goroutine reads everything the node sends:
    replies and notifications alike. While it runs a notification handler no reply is
    read, so a goroutine that waits for a reply must hold no lock the handler needs. */
module Locks {

  datatype Mutex = MempoolMu | TotalsMu | HeadersMu | PrevoutsMu | IntervalMu | ArrivalsMu | InflowMu | SyncMu | LiveMu

  /** Locks nest in this order only: the arrivals buffer before the inflow counter. */
  function Rank(m: Mutex): nat {
    if m == ArrivalsMu then 0 else 1
  }

  /** What a goroutine does as far as blocking goes. */
  datatype Action =
    | Lock(m: Mutex)
    | Unlock(m: Mutex)
    | Rpc

  type Path = seq<Action>

  // ----- The service's code as sets of control-flow paths -----------------------------

  ghost function Then(a: set<Path>, b: set<Path>): set<Path> {
    set p, q | p in a && q in b :: p + q
  }

  function Section(m: Mutex): Path {
    [Lock(m), Unlock(m)]
  }

  /** A call to the node fails at once while it is unreachable, or waits for a reply. */
  const RPC_CALL: set<Path> := {[], [Rpc]}

  /** A cached header: the lookup, then maybe the RPC, then the insertion if it succeeded. */
  ghost function Header(): set<Path> {
    Then({Section(HeadersMu)}, {[]} + Then(RPC_CALL, {[], Section(HeadersMu)}))
  }

  ghost function HeaderTimeAt(): set<Path> {
    Then(RPC_CALL, {[]} + Header())
  }

  ghost function MeasureBlockInterval(): set<Path> {
    Then(RPC_CALL, {[]} + HeaderTimeAt() + Then(HeaderTimeAt(), HeaderTimeAt()))
  }

  ghost function AvgBlockInterval(): set<Path> {
    Then({Section(IntervalMu)}, {[]} + Then(MeasureBlockInterval(), {Section(IntervalMu)}))
  }

  ghost function Refresh(): set<Path> {
    Then({Section(MempoolMu)}, {[]} + Then(RPC_CALL, {Section(MempoolMu)}))
  }

  /** Snapshot and SnapshotAndQueue: the second section is skipped after an error. */
  ghost function Snapshot(): set<Path> {
    Then(Refresh(), {[], Section(MempoolMu)})
  }

  ghost function ComputeStats(): set<Path> {
    Then(RPC_CALL,
         {[]} + Then(Snapshot(),
                     {[]} + Then(Snapshot(),
                                 {[]} + Then(AvgBlockInterval(), Then(HeaderTimeAt(), {Section(SyncMu)})))))
  }

  ghost function ComputeFees(): set<Path> {
    Then(Snapshot(), {[]} + AvgBlockInterval())
  }

  /** The only nesting: the rate is read while the arrivals are locked. */
  const ARRIVALS_SECTION: Path := [Lock(ArrivalsMu), Lock(InflowMu), Unlock(InflowMu), Unlock(ArrivalsMu)]

  ghost function ComputeMempoolUpdate(): set<Path> {
    Then(Snapshot(), {[], ARRIVALS_SECTION})
  }

  ghost function RefreshLive(): set<Path> {
    Then(ComputeStats(), Then(ComputeFees(), Then(ComputeMempoolUpdate(), {Section(LiveMu)})))
  }

  ghost function RefreshSync(): set<Path> {
    Then(RPC_CALL, Then({[]} + HeaderTimeAt(), {Section(SyncMu)}))
  }

  /** n rounds of the loop over a transaction's inputs. */
  ghost function ResolvePrevouts(n: nat): set<Path> {
    if n == 0 then {[]}
    else
      Then({Section(PrevoutsMu)}, Then(Then(RPC_CALL, {[], Section(PrevoutsMu)}), ResolvePrevouts(n - 1)))
  }

  ghost function DerivePending(): set<Path> {
    Then(Snapshot(), Then({[]} + Then({Section(MempoolMu)}, Snapshot()), {[]} + AvgBlockInterval()))
  }

  ghost function GetTx(inputs: nat): set<Path> {
    Then(RPC_CALL, {[]} + Then(ResolvePrevouts(inputs), {[]} + Header() + DerivePending()))
  }

  ghost function Pages(n: nat): set<Path> {
    if n == 0 then {[]} else Then(RPC_CALL, {[]} + Pages(n - 1))
  }

  /** The cached totals, or a scan of n pages, cached unless a page failed; then a page
      of activity. */
  ghost function AddressSummary(n: nat): set<Path> {
    Then({Section(TotalsMu)}, Then({[]} + Then(Pages(n), {[], Section(TotalsMu)}), RPC_CALL))
  }

  ghost predicate IsOperation(p: Path) {
    || p in RPC_CALL || p in RefreshLive() || p in RefreshSync()
    || p == Section(LiveMu) || p == Section(SyncMu)
    || (exists n :: p in GetTx(n)) || (exists n :: p in AddressSummary(n))
  }

  function Flatten(parts: seq<Path>): Path {
    if parts == [] then [] else parts[0] + Flatten(parts[1..])
  }

  /** A goroutine other than the notification goroutine runs any operations in a row. */
  ghost predicate IsProgram(p: Path) {
    exists parts: seq<Path> :: p == Flatten(parts) && forall i :: 0 <= i < |parts| ==> IsOperation(parts[i])
  }

  datatype Ntfn = BlockConnected | TxAccepted

  /** OnBlock and NoteArrival; announcing to the hub never blocks. */
  function Handler(n: Ntfn): Path {
    match n
    case BlockConnected => Section(MempoolMu) + Section(TotalsMu) + Section(IntervalMu)
    case TxAccepted => Section(InflowMu) + Section(ArrivalsMu) + Section(MempoolMu)
  }

  // ----- The discipline -------------------------------------------------------------

  /** Locks are taken in rank order and given back, and no RPC is made under any. */
  ghost predicate Disciplined(p: Path, held: set<Mutex>) {
    if p == [] then held == {}
    else
      match p[0]
      case Lock(m) => m !in held && (forall h :: h in held ==> Rank(h) < Rank(m)) && Disciplined(p[1..], held + {m})
      case Unlock(m) => m in held && Disciplined(p[1..], held - {m})
      case Rpc => held == {} && Disciplined(p[1..], held)
  }

  ghost predicate AllDisciplined(ps: set<Path>) {
    forall p :: p in ps ==> Disciplined(p, {})
  }

  lemma {:induction false} DisciplinedConcat(p: Path, q: Path, held: set<Mutex>)
    requires Disciplined(p, held) && Disciplined(q, {})
    ensures Disciplined(p + q, held)
    decreases |p|
  {
    if p == [] {
      assert p + q == q;
    } else {
      assert (p + q)[1..] == p[1..] + q;
      match p[0]
      case Lock(m) => DisciplinedConcat(p[1..], q, held + {m});
      case Unlock(m) => DisciplinedConcat(p[1..], q, held - {m});
      case Rpc => DisciplinedConcat(p[1..], q, held);
    }
  }

  lemma ThenDisciplined(a: set<Path>, b: set<Path>)
    requires AllDisciplined(a) && AllDisciplined(b)
    ensures AllDisciplined(Then(a, b))
  {
    forall r | r in Then(a, b) ensures Disciplined(r, {}) {
      var p, q :| p in a && q in b && r == p + q;
      DisciplinedConcat(p, q, {});
    }
  }

  lemma SectionDisciplined(m: Mutex)
    ensures Disciplined(Section(m), {})
  {
    var p := Section(m);
    assert p[1..] == [Unlock(m)] && p[1..][1..] == [];
    assert {m} - {m} == {} && {} + {m} == {m};
    assert Disciplined(p[1..][1..], {});
    assert Disciplined(p[1..], {m});
  }

  lemma BasicsDisciplined()
    ensures AllDisciplined(RPC_CALL) && Disciplined([], {})
    ensures forall m :: Disciplined(Section(m), {})
  {
    assert [Rpc][1..] == [];
    forall m ensures Disciplined(Section(m), {}) {
      SectionDisciplined(m);
    }
  }

  lemma ArrivalsDisciplined()
    ensures Disciplined(ARRIVALS_SECTION, {})
  {
    var p := ARRIVALS_SECTION;
    assert p[1..][1..][1..] == [Unlock(ArrivalsMu)] && p[1..][1..][1..][1..] == [];
    assert {ArrivalsMu} - {ArrivalsMu} == {} && {ArrivalsMu, InflowMu} - {InflowMu} == {ArrivalsMu};
    assert Disciplined(p[1..][1..][1..], {ArrivalsMu});
    assert Disciplined(p[1..][1..], {ArrivalsMu, InflowMu});
    assert {ArrivalsMu} + {InflowMu} == {ArrivalsMu, InflowMu};
    assert Disciplined(p[1..], {ArrivalsMu});
    assert {} + {ArrivalsMu} == {ArrivalsMu};
  }

  lemma HelpersDisciplined()
    ensures AllDisciplined(HeaderTimeAt()) && AllDisciplined(Header())
    ensures AllDisciplined(AvgBlockInterval()) && AllDisciplined(Snapshot())
  {
    BasicsDisciplined();
    ThenDisciplined(RPC_CALL, {[], Section(HeadersMu)});
    ThenDisciplined({Section(HeadersMu)}, {[]} + Then(RPC_CALL, {[], Section(HeadersMu)}));
    ThenDisciplined(RPC_CALL, {[]} + Header());
    ThenDisciplined(HeaderTimeAt(), HeaderTimeAt());
    ThenDisciplined(RPC_CALL, {[]} + HeaderTimeAt() + Then(HeaderTimeAt(), HeaderTimeAt()));
    ThenDisciplined(MeasureBlockInterval(), {Section(IntervalMu)});
    ThenDisciplined({Section(IntervalMu)}, {[]} + Then(MeasureBlockInterval(), {Section(IntervalMu)}));
    ThenDisciplined(RPC_CALL, {Section(MempoolMu)});
    ThenDisciplined({Section(MempoolMu)}, {[]} + Then(RPC_CALL, {Section(MempoolMu)}));
    ThenDisciplined(Refresh(), {[], Section(MempoolMu)});
  }

  lemma RefreshesDisciplined()
    ensures AllDisciplined(RefreshLive()) && AllDisciplined(RefreshSync())
  {
    BasicsDisciplined();
    ArrivalsDisciplined();
    HelpersDisciplined();
    ThenDisciplined(HeaderTimeAt(), {Section(SyncMu)});
    var s1 := Then(AvgBlockInterval(), Then(HeaderTimeAt(), {Section(SyncMu)}));
    ThenDisciplined(AvgBlockInterval(), Then(HeaderTimeAt(), {Section(SyncMu)}));
    ThenDisciplined(Snapshot(), {[]} + s1);
    ThenDisciplined(Snapshot(), {[]} + Then(Snapshot(), {[]} + s1));
    ThenDisciplined(RPC_CALL, {[]} + Then(Snapshot(), {[]} + Then(Snapshot(), {[]} + s1)));
    ThenDisciplined(Snapshot(), {[]} + AvgBlockInterval());
    ThenDisciplined(Snapshot(), {[], ARRIVALS_SECTION});
    ThenDisciplined(ComputeMempoolUpdate(), {Section(LiveMu)});
    ThenDisciplined(ComputeFees(), Then(ComputeMempoolUpdate(), {Section(LiveMu)}));
    ThenDisciplined(ComputeStats(), Then(ComputeFees(), Then(ComputeMempoolUpdate(), {Section(LiveMu)})));
    ThenDisciplined({[]} + HeaderTimeAt(), {Section(SyncMu)});
    ThenDisciplined(RPC_CALL, Then({[]} + HeaderTimeAt(), {Section(SyncMu)}));
  }

  lemma {:induction false} ResolveDisciplined(n: nat)
    ensures AllDisciplined(ResolvePrevouts(n))
  {
    BasicsDisciplined();
    if n > 0 {
      ResolveDisciplined(n - 1);
      var round := Then(RPC_CALL, {[], Section(PrevoutsMu)});
      ThenDisciplined(RPC_CALL, {[], Section(PrevoutsMu)});
      ThenDisciplined(round, ResolvePrevouts(n - 1));
      ThenDisciplined({Section(PrevoutsMu)}, Then(round, ResolvePrevouts(n - 1)));
    }
  }

  lemma {:induction false} PagesDisciplined(n: nat)
    ensures AllDisciplined(Pages(n))
  {
    BasicsDisciplined();
    if n > 0 {
      PagesDisciplined(n - 1);
      ThenDisciplined(RPC_CALL, {[]} + Pages(n - 1));
    }
  }

  lemma LookupsDisciplined(n: nat)
    ensures AllDisciplined(GetTx(n)) && AllDisciplined(AddressSummary(n))
  {
    BasicsDisciplined();
    HelpersDisciplined();
    ResolveDisciplined(n);
    PagesDisciplined(n);
    ThenDisciplined({Section(MempoolMu)}, Snapshot());
    var again := {[]} + Then({Section(MempoolMu)}, Snapshot());
    ThenDisciplined(again, {[]} + AvgBlockInterval());
    ThenDisciplined(Snapshot(), Then(again, {[]} + AvgBlockInterval()));
    ThenDisciplined(ResolvePrevouts(n), {[]} + Header() + DerivePending());
    ThenDisciplined(RPC_CALL, {[]} + Then(ResolvePrevouts(n), {[]} + Header() + DerivePending()));
    ThenDisciplined(Pages(n), {[], Section(TotalsMu)});
    var scan := {[]} + Then(Pages(n), {[], Section(TotalsMu)});
    ThenDisciplined(scan, RPC_CALL);
    ThenDisciplined({Section(TotalsMu)}, Then(scan, RPC_CALL));
  }

  lemma OperationsAreDisciplined(p: Path)
    requires IsOperation(p)
    ensures Disciplined(p, {})
  {
    BasicsDisciplined();
    RefreshesDisciplined();
    if n :| p in GetTx(n) {
      LookupsDisciplined(n);
    }
    if n :| p in AddressSummary(n) {
      LookupsDisciplined(n);
    }
  }

  lemma {:induction false} FlattenDisciplined(parts: seq<Path>)
    requires forall i :: 0 <= i < |parts| ==> IsOperation(parts[i])
    ensures Disciplined(Flatten(parts), {})
  {
    if parts != [] {
      OperationsAreDisciplined(parts[0]);
      FlattenDisciplined(parts[1..]);
      DisciplinedConcat(parts[0], Flatten(parts[1..]), {});
    }
  }

  /** Every path of the service obeys the discipline. */
  lemma ProgramsAreDisciplined(p: Path)
    requires IsProgram(p)
    ensures Disciplined(p, {})
  {
    var parts: seq<Path> :| p == Flatten(parts) && forall i :: 0 <= i < |parts| ==> IsOperation(parts[i]);
    FlattenDisciplined(parts);
  }

  lemma HandlersAreDisciplined(n: Ntfn)
    ensures Disciplined(Handler(n), {}) && forall i :: 0 <= i < |Handler(n)| ==> !Handler(n)[i].Rpc?
  {
    BasicsDisciplined();
    DisciplinedConcat(Section(MempoolMu), Section(TotalsMu), {});
    DisciplinedConcat(Section(MempoolMu) + Section(TotalsMu), Section(IntervalMu), {});
    DisciplinedConcat(Section(InflowMu), Section(ArrivalsMu), {});
    DisciplinedConcat(Section(InflowMu) + Section(ArrivalsMu), Section(MempoolMu), {});
  }

  // ----- Interleavings --------------------------------------------------------------

  datatype Thread = Thread(rest: Path, held: set<Mutex>)

  /** What the node sends on the one connection. */
  datatype Inbound =
    | Reply(to: nat)
    | Notify(n: Ntfn)

  /** Thread 0 is the notification goroutine. */
  datatype World = World(threads: map<nat, Thread>, inbound: seq<Inbound>)

  const BOOT := World(map[0 := Thread([], {})], [])

  datatype Event =
    | Spawn(t: nat, p: Path)
    | Arrive(msg: Inbound)
    | Run(t: nat)
    | Read

  predicate Free(w: World, m: Mutex) {
    forall t :: t in w.threads ==> m !in w.threads[t].held
  }

  predicate Awaits(th: Thread) {
    th.rest != [] && th.rest[0].Rpc?
  }

  predicate CanRun(w: World, t: nat) {
    && t in w.threads && w.threads[t].rest != []
    && match w.threads[t].rest[0]
       case Lock(m) => Free(w, m)
       case Unlock(m) => true
       case Rpc => false
  }

  /** The notification goroutine only reads on when its handler has returned. */
  ghost predicate Enabled(w: World, e: Event) {
    match e
    case Spawn(t, p) => t !in w.threads && IsProgram(p)
    case Arrive(_) => true
    case Run(t) => CanRun(w, t)
    case Read => 0 in w.threads && w.threads[0].rest == [] && w.inbound != []
  }

  function Ran(th: Thread): Thread
    requires th.rest != []
  {
    match th.rest[0]
    case Lock(m) => Thread(th.rest[1..], th.held + {m})
    case Unlock(m) => Thread(th.rest[1..], th.held - {m})
    case Rpc => Thread(th.rest[1..], th.held)
  }

  ghost function Step(w: World, e: Event): World
    requires Enabled(w, e)
  {
    match e
    case Spawn(t, p) => w.(threads := w.threads[t := Thread(p, {})])
    case Arrive(msg) => w.(inbound := w.inbound + [msg])
    case Run(t) => w.(threads := w.threads[t := Ran(w.threads[t])])
    case Read =>
      match w.inbound[0]
      case Notify(n) => World(w.threads[0 := Thread(Handler(n), w.threads[0].held)], w.inbound[1..])
      case Reply(t) =>
        if t in w.threads && Awaits(w.threads[t]) then World(w.threads[t := Ran(w.threads[t])], w.inbound[1..])
        else w.(inbound := w.inbound[1..])
  }

  ghost predicate Possible(w: World, es: seq<Event>)
    decreases |es|
  {
    es != [] ==> Enabled(w, es[0]) && Possible(Step(w, es[0]), es[1..])
  }

  ghost function After(w: World, es: seq<Event>): World
    requires Possible(w, es)
    decreases |es|
  {
    if es == [] then w else After(Step(w, es[0]), es[1..])
  }

  ghost predicate Inv(w: World) {
    && 0 in w.threads
    && (forall i :: 0 <= i < |w.threads[0].rest| ==> !w.threads[0].rest[i].Rpc?)
    && (forall t :: t in w.threads ==> Disciplined(w.threads[t].rest, w.threads[t].held))
    && (forall t, u, m :: t in w.threads && u in w.threads && m in w.threads[t].held && m in w.threads[u].held ==> t == u)
  }

  lemma InvRunStep(w: World, t: nat)
    requires Inv(w) && CanRun(w, t)
    ensures Inv(Step(w, Run(t)))
  {
  }

  lemma InvRead(w: World)
    requires Inv(w) && Enabled(w, Read)
    ensures Inv(Step(w, Read))
  {
    if w.inbound[0].Notify? {
      HandlersAreDisciplined(w.inbound[0].n);
    }
  }

  lemma InvStep(w: World, e: Event)
    requires Inv(w) && Enabled(w, e)
    ensures Inv(Step(w, e))
  {
    match e
    case Spawn(t, p) => ProgramsAreDisciplined(p);
    case Arrive(_) =>
    case Run(t) => InvRunStep(w, t);
    case Read => InvRead(w);
  }

  lemma {:induction false} InvRun(w: World, es: seq<Event>)
    requires Inv(w) && Possible(w, es)
    ensures Inv(After(w, es))
    decreases |es|
  {
    if es != [] {
      InvStep(w, es[0]);
      InvRun(Step(w, es[0]), es[1..]);
    }
  }

  lemma {:induction false} ConcatRuns(w: World, es: seq<Event>, fs: seq<Event>)
    requires Possible(w, es) && Possible(After(w, es), fs)
    ensures Possible(w, es + fs) && After(w, es + fs) == After(After(w, es), fs)
    decreases |es|
  {
    if es == [] {
      assert es + fs == fs;
    } else {
      assert (es + fs)[1..] == es[1..] + fs;
      ConcatRuns(Step(w, es[0]), es[1..], fs);
    }
  }

  /** In every interleaving, a goroutine that awaits a reply holds no lock at all. */
  lemma WaitersHoldNothing(es: seq<Event>, t: nat)
    requires Possible(BOOT, es) && t in After(BOOT, es).threads && Awaits(After(BOOT, es).threads[t])
    ensures After(BOOT, es).threads[t].held == {}
  {
    InvRun(BOOT, es);
  }

  /** Behind every blocked goroutine stands one that can run: follow the lock owners,
      whose next lock always ranks higher. */
  lemma {:induction false} SomeoneCanRun(w: World, t: nat, bound: nat) returns (u: nat)
    requires Inv(w) && t in w.threads && w.threads[t].rest != [] && !Awaits(w.threads[t])
    requires w.threads[t].rest[0].Lock? ==> Rank(w.threads[t].rest[0].m) + bound >= 1
    ensures CanRun(w, u)
    decreases bound
  {
    u := t;
    if !CanRun(w, t) {
      var m := w.threads[t].rest[0].m;
      var o :| o in w.threads && m in w.threads[o].held;
      assert Disciplined(w.threads[o].rest, w.threads[o].held);
      if w.threads[o].rest[0].Lock? {
        u := SomeoneCanRun(w, o, bound - 1);
      } else {
        u := o;
      }
    }
  }

  ghost function Left(threads: map<nat, Thread>): nat
    decreases threads.Keys
  {
    if threads == map[] then 0
    else
      var t :| t in threads;
      |threads[t].rest| + Left(threads - {t})
  }

  lemma {:induction false} LeftWithout(threads: map<nat, Thread>, t: nat)
    requires t in threads
    ensures Left(threads) == |threads[t].rest| + Left(threads - {t})
    decreases threads.Keys
  {
    var k :| k in threads && Left(threads) == |threads[k].rest| + Left(threads - {k});
    if k != t {
      LeftWithout(threads - {k}, t);
      LeftWithout(threads - {t}, k);
      assert threads - {k} - {t} == threads - {t} - {k};
    }
  }

  lemma RunLeavesLess(w: World, t: nat)
    requires CanRun(w, t)
    ensures Left(Step(w, Run(t)).threads) < Left(w.threads)
  {
    var v := Step(w, Run(t));
    LeftWithout(w.threads, t);
    LeftWithout(v.threads, t);
    assert v.threads - {t} == w.threads - {t};
  }

  /** The notification goroutine can always finish its handler by lock steps alone: no
      reply has to be read for it. */
  lemma {:induction false} HandlerFinishes(w: World) returns (es: seq<Event>)
    requires Inv(w)
    ensures Possible(w, es) && forall i :: 0 <= i < |es| ==> es[i].Run?
    ensures After(w, es).threads.Keys == w.threads.Keys && After(w, es).inbound == w.inbound
    ensures Inv(After(w, es)) && After(w, es).threads[0].rest == []
    decreases Left(w.threads)
  {
    hide Disciplined, Left;
    es := [];
    if w.threads[0].rest != [] {
      var u := SomeoneCanRun(w, 0, 1);
      var v := Step(w, Run(u));
      InvStep(w, Run(u));
      RunLeavesLess(w, u);
      var more := HandlerFinishes(v);
      es := [Run(u)] + more;
      assert es[1..] == more;
    }
  }

  /** No new goroutine and no further input: only lock steps and reads. */
  ghost predicate Closed(es: seq<Event>) {
    forall i :: 0 <= i < |es| ==> es[i].Run? || es[i].Read?
  }

  ghost predicate HandlerIdle(w: World) {
    0 in w.threads && w.threads[0].rest == []
  }

  /** The schedule reads the first k messages and leaves the goroutine idle. */
  ghost predicate Drains(w: World, es: seq<Event>, k: nat) {
    && k <= |w.inbound| && Closed(es)
    && Possible(w, es) && After(w, es).inbound == w.inbound[k..] && HandlerIdle(After(w, es))
  }

  lemma DrainsOneMore(w: World, finish: seq<Event>, rest: seq<Event>, k: nat)
    requires Drains(w, finish, 0) && k < |w.inbound|
    requires Drains(Step(After(w, finish), Read), rest, k)
    ensures Drains(w, finish + ([Read] + rest), k + 1)
  {
    var idle := After(w, finish);
    assert ([Read] + rest)[1..] == rest;
    ConcatRuns(w, finish, [Read] + rest);
    assert Step(idle, Read).inbound == w.inbound[1..];
    assert w.inbound[1..][k..] == w.inbound[k + 1..];
  }

  /** Hence, however many notifications stand before a reply, it can be read. */
  lemma {:induction false} MessagesCanBeRead(w: World, k: nat) returns (es: seq<Event>)
    requires Inv(w) && k <= |w.inbound|
    ensures Drains(w, es, k)
    decreases k
  {
    es := HandlerFinishes(w);
    if k > 0 {
      var idle := After(w, es);
      InvStep(idle, Read);
      assert Step(idle, Read).inbound == w.inbound[1..];
      var rest := MessagesCanBeRead(Step(idle, Read), k - 1);
      DrainsOneMore(w, es, rest, k - 1);
      es := es + ([Read] + rest);
    }
  }

  /** After every history of the service, every message the node has sent can be read
      by lock steps and reads alone. */
  lemma NotificationGoroutineNeverDeadlocks(history: seq<Event>, k: nat) returns (es: seq<Event>)
    requires Possible(BOOT, history) && k <= |After(BOOT, history).inbound|
    ensures Drains(After(BOOT, history), es, k)
  {
    InvRun(BOOT, history);
    es := MessagesCanBeRead(After(BOOT, history), k);
  }

  // ----- What the discipline rules out --------------------------------------------------

  /** Measuring the block interval with its lock held across the RPC. */
  const HELD_ACROSS_RPC: Path := [Lock(IntervalMu), Rpc, Unlock(IntervalMu)]

  /** Nobody can move and the notification goroutine has not finished. */
  ghost predicate Deadlocked(w: World) {
    && 0 in w.threads && w.threads[0].rest != []
    && (forall t :: !CanRun(w, t)) && !Enabled(w, Read)
  }

  /** One such goroutine is enough: a block is announced before the reply is read. */
  lemma HoldingAcrossRpcDeadlocks()
    ensures !Disciplined(HELD_ACROSS_RPC, {})
    ensures var w := World(map[0 := Thread([], {}), 1 := Thread(HELD_ACROSS_RPC, {})], [Notify(BlockConnected), Reply(1)]);
      exists es :: Possible(w, es) && Deadlocked(After(w, es))
  {
    var p := HELD_ACROSS_RPC;
    assert p[1..][0] == Rpc && IntervalMu in {} + {IntervalMu};
    assert !Disciplined(p[1..], {} + {IntervalMu});
    var w := World(map[0 := Thread([], {}), 1 := Thread(p, {})], [Notify(BlockConnected), Reply(1)]);
    var w1 := Step(w, Run(1));
    var w2 := Step(w1, Read);
    var w3 := Step(w2, Run(0));
    var w4 := Step(w3, Run(0));
    var w5 := Step(w4, Run(0));
    var w6 := Step(w5, Run(0));
    BlockHandlerTail();
    assert w6.threads[0].rest == Section(IntervalMu);
    assert w6.threads[1] == Thread([Rpc, Unlock(IntervalMu)], {IntervalMu});
    assert forall t :: t in w6.threads ==> t == 0 || t == 1;
    assert !Free(w6, IntervalMu);
    assert Deadlocked(w6);
    RunsCons(w5, Run(0), []);
    RunsCons(w4, Run(0), [Run(0)] + []);
    RunsCons(w3, Run(0), [Run(0)] + ([Run(0)] + []));
    RunsCons(w2, Run(0), [Run(0)] + ([Run(0)] + ([Run(0)] + [])));
    RunsCons(w1, Read, [Run(0)] + ([Run(0)] + ([Run(0)] + ([Run(0)] + []))));
    RunsCons(w, Run(1), [Read] + ([Run(0)] + ([Run(0)] + ([Run(0)] + ([Run(0)] + [])))));
  }

  lemma BlockHandlerTail()
    ensures Handler(BlockConnected)[1..][1..][1..][1..] == Section(IntervalMu)
  {
  }

  lemma RunsCons(w: World, e: Event, es: seq<Event>)
    requires Enabled(w, e) && Possible(Step(w, e), es)
    ensures Possible(w, [e] + es) && After(w, [e] + es) == After(Step(w, e), es)
  {
    assert ([e] + es)[1..] == es;
  }
}
