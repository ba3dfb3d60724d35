/** Browser, links and hub together (web/src/api/ws.ts, internal/api/ws.go,
    internal/api/hub.go): however often the connection drops, what the server will
    have heard is what the browser subscribes to. */
module WatchSync {
  import opened Options
  import opened LiveSocket
  import opened Collections
  import H = HubState

  // ----- The read pump's view of a frame --------------------------------------

  predicate LowerHex(c: char) {
    '0' <= c <= '9' || 'a' <= c <= 'f'
  }

  predicate Hex(c: char) {
    LowerHex(c) || 'A' <= c <= 'F'
  }

  function Lower(s: string): string {
    if s == [] then []
    else [if 'A' <= s[0] <= 'Z' then (s[0] as int + 32) as char else s[0]] + Lower(s[1..])
  }

  predicate Space(c: char) {
    c == ' ' || c == '\t' || c == '\n' || c == '\r'
  }

  function Trim(s: string): string {
    if |s| > 0 && Space(s[0]) then Trim(s[1..])
    else if |s| > 0 && Space(s[|s| - 1]) then Trim(s[..|s| - 1])
    else s
  }

  /** The id that the read pump passes on; anything but 64 hex digits is ignored. */
  function ReadTxid(raw: string): Option<string> {
    var q := Trim(raw);
    if |q| == 64 && forall c :: c in q ==> Hex(c) then Some(Lower(q)) else None
  }

  /** The form in which the server itself hands out txids. */
  predicate Canonical(txid: string) {
    |txid| == 64 && forall c :: c in txid ==> LowerHex(c)
  }

  lemma {:induction false} LowerIsLower(s: string)
    requires forall c :: c in s ==> LowerHex(c)
    ensures Lower(s) == s
  {
    if s != [] {
      assert s[0] in s;
      LowerIsLower(s[1..]);
      assert s == [s[0]] + s[1..];
    }
  }

  lemma CanonicalIsRead(txid: string)
    requires Canonical(txid)
    ensures ReadTxid(txid) == Some(txid)
  {
    assert txid[0] in txid && txid[63] in txid;
    assert Trim(txid) == txid;
    LowerIsLower(txid);
  }

  lemma {:induction false} LowerAt(s: string)
    ensures |Lower(s)| == |s|
    ensures forall i :: 0 <= i < |s| ==>
      Lower(s)[i] == if 'A' <= s[i] <= 'Z' then (s[i] as int + 32) as char else s[i]
  {
    if s != [] {
      LowerAt(s[1..]);
    }
  }

  /** raw is t with only white space around it. */
  ghost predicate Inner(raw: string, t: string, i: nat) {
    && i + |t| <= |raw| && t == raw[i..i + |t|]
    && (forall k :: 0 <= k < i ==> Space(raw[k])) && (forall k :: i + |t| <= k < |raw| ==> Space(raw[k]))
  }

  lemma InnerAfterSpace(raw: string, t: string, i: nat)
    requires raw != [] && Space(raw[0]) && Inner(raw[1..], t, i)
    ensures Inner(raw, t, i + 1)
  {
    hide Space;
    assert forall k :: 0 < k < |raw| ==> raw[k] == raw[1..][k - 1];
    assert raw[1..][i..i + |t|] == raw[i + 1..i + 1 + |t|];
  }

  lemma InnerBeforeSpace(raw: string, t: string, i: nat)
    requires raw != [] && Space(raw[|raw| - 1]) && Inner(raw[..|raw| - 1], t, i)
    ensures Inner(raw, t, i)
  {
    hide Space;
    assert forall k :: 0 <= k < |raw| - 1 ==> raw[k] == raw[..|raw| - 1][k];
    assert raw[..|raw| - 1][i..i + |t|] == raw[i..i + |t|];
  }

  /** Trimming takes white space off both ends and nothing else, and leaves none there. */
  lemma {:induction false} TrimIsInner(raw: string) returns (i: nat)
    ensures Inner(raw, Trim(raw), i)
    ensures Trim(raw) != [] ==> !Space(Trim(raw)[0]) && !Space(Trim(raw)[|Trim(raw)| - 1])
    decreases |raw|
  {
    if |raw| > 0 && Space(raw[0]) {
      i := TrimIsInner(raw[1..]);
      InnerAfterSpace(raw, Trim(raw), i);
      i := i + 1;
    } else if |raw| > 0 && Space(raw[|raw| - 1]) {
      i := TrimIsInner(raw[..|raw| - 1]);
      InnerBeforeSpace(raw, Trim(raw), i);
    } else {
      i := 0;
      assert raw[0..|raw|] == raw;
    }
  }

  /** Whatever a browser sends, only canonical txids reach the hub; and 64 hex digits in
      either case, with or without white space around, do, in lower case. */
  lemma ReadIsCanonical(raw: string)
    ensures ReadTxid(raw).Some? ==> Canonical(ReadTxid(raw).value)
    ensures ReadTxid(raw).Some? <==> |Trim(raw)| == 64 && forall c :: c in Trim(raw) ==> Hex(c)
    ensures ReadTxid(raw).Some? ==> forall i :: 0 <= i < 64 ==>
      var c, t := Trim(raw)[i], ReadTxid(raw).value; t[i] == c || t[i] as int == c as int + 32
  {
    var q := Trim(raw);
    LowerAt(q);
    if ReadTxid(raw).Some? {
      forall i | 0 <= i < 64 ensures LowerHex(Lower(q)[i]) && (Lower(q)[i] == q[i] || Lower(q)[i] as int == q[i] as int + 32) {
        assert Hex(q[i]);
      }
    }
  }

  // ----- Frames acting on a watch set -----------------------------------------

  function Applied(s: set<string>, f: Frame): set<string> {
    match f
    case Watch(t) => s + {t}
    case Unwatch(t) => s - {t}
  }

  function Apply(s: set<string>, fs: seq<Frame>): set<string> {
    if fs == [] then s else Applied(Apply(s, fs[..|fs| - 1]), fs[|fs| - 1])
  }

  /** What the server makes of one frame: parsing and the cap included. */
  function Served(s: set<string>, f: Frame): set<string> {
    match ReadTxid(f.txid)
    case None => s
    case Some(t) => if f.Unwatch? then s - {t} else if H.Refused(s, t) then s else s + {t}
  }

  function Serve(s: set<string>, fs: seq<Frame>): set<string> {
    if fs == [] then s else Served(Serve(s, fs[..|fs| - 1]), fs[|fs| - 1])
  }

  /** Canonical frames during which the set never outgrows the cap. */
  ghost predicate Mild(s: set<string>, fs: seq<Frame>) {
    && (forall i :: 0 <= i < |fs| ==> Canonical(fs[i].txid))
    && (forall i :: 0 <= i <= |fs| ==> |Apply(s, fs[..i])| <= H.MAX_WATCHED_PER_CLIENT)
  }

  lemma ServedIsApplied(s: set<string>, f: Frame)
    requires Canonical(f.txid) && |Applied(s, f)| <= H.MAX_WATCHED_PER_CLIENT
    ensures Served(s, f) == Applied(s, f)
  {
    CanonicalIsRead(f.txid);
  }

  lemma {:induction false} ServeIsApply(s: set<string>, fs: seq<Frame>)
    requires Mild(s, fs)
    ensures Serve(s, fs) == Apply(s, fs)
  {
    if fs != [] {
      var front := fs[..|fs| - 1];
      assert forall i :: 0 <= i <= |front| ==> front[..i] == fs[..i];
      ServeIsApply(s, front);
      assert fs[..|fs|] == fs;
      ServedIsApplied(Apply(s, front), fs[|fs| - 1]);
    }
  }

  lemma {:induction false} ApplyConcat(s: set<string>, a: seq<Frame>, b: seq<Frame>)
    ensures Apply(s, a + b) == Apply(Apply(s, a), b)
  {
    if b == [] {
      assert a + b == a;
    } else {
      assert (a + b)[..|a + b| - 1] == a + b[..|b| - 1];
      ApplyConcat(s, a, b[..|b| - 1]);
    }
  }

  lemma ApplyHead(s: set<string>, fs: seq<Frame>)
    requires fs != []
    ensures Apply(s, fs) == Apply(Applied(s, fs[0]), fs[1..])
  {
    assert fs == [fs[0]] + fs[1..];
    ApplyConcat(s, [fs[0]], fs[1..]);
    assert [fs[0]][..0] == [];
    assert Apply(s, []) == s;
  }

  lemma MildTail(s: set<string>, fs: seq<Frame>)
    requires Mild(s, fs) && fs != []
    ensures Mild(Applied(s, fs[0]), fs[1..])
    ensures |Applied(s, fs[0])| <= H.MAX_WATCHED_PER_CLIENT
  {
    var tail, first := fs[1..], Applied(s, fs[0]);
    assert Apply(first, []) == first;
    hide Apply, Applied, Canonical;
    assert forall i :: 0 <= i < |tail| ==> tail[i] == fs[i + 1];
    forall i | 0 <= i <= |tail| ensures |Apply(first, tail[..i])| <= H.MAX_WATCHED_PER_CLIENT {
      ApplyHead(s, fs[..i + 1]);
      assert fs[..i + 1][1..] == tail[..i];
    }
    assert tail[..0] == [];
  }

  lemma MildConcat(s: set<string>, a: seq<Frame>, b: seq<Frame>)
    requires Mild(s, a) && Mild(Apply(s, a), b)
    ensures Mild(s, a + b)
  {
    forall i | 0 <= i <= |a + b| ensures |Apply(s, (a + b)[..i])| <= H.MAX_WATCHED_PER_CLIENT {
      if i <= |a| {
        assert (a + b)[..i] == a[..i];
      } else {
        assert (a + b)[..i] == a + b[..i - |a|];
        ApplyConcat(s, a, b[..i - |a|]);
      }
    }
  }

  lemma MildOne(s: set<string>, f: Frame)
    requires Canonical(f.txid) && |s| <= H.MAX_WATCHED_PER_CLIENT && |Applied(s, f)| <= H.MAX_WATCHED_PER_CLIENT
    ensures Mild(s, [f]) && Apply(s, [f]) == Applied(s, f)
  {
    assert [f][..0] == [] && [f][..1] == [f];
  }

  /** Watch frames only add, and only what they name. */
  lemma {:induction false} WatchesAdd(s: set<string>, fs: seq<Frame>)
    requires forall i :: 0 <= i < |fs| ==> fs[i].Watch?
    ensures Apply(s, fs) == s + set i | 0 <= i < |fs| :: fs[i].txid
  {
    if fs != [] {
      WatchesAdd(s, fs[..|fs| - 1]);
    }
  }

  /** A replay turns any subset of the keys into all of them, never leaving them. */
  lemma ReplayRestores(s: set<string>, fs: seq<Frame>, keys: set<string>)
    requires IsReplay(fs, keys) && s <= keys
    requires |keys| <= H.MAX_WATCHED_PER_CLIENT && forall k :: k in keys ==> Canonical(k)
    ensures Apply(s, fs) == keys && Mild(s, fs)
  {
    ReplayCovers(s, fs, keys);
    forall i | 0 <= i <= |fs| ensures |Apply(s, fs[..i])| <= H.MAX_WATCHED_PER_CLIENT {
      WatchesAdd(s, fs[..i]);
      SubsetSize(Apply(s, fs[..i]), keys);
    }
  }

  lemma ReplayCovers(s: set<string>, fs: seq<Frame>, keys: set<string>)
    requires IsReplay(fs, keys) && s <= keys
    ensures Apply(s, fs) == keys
  {
    WatchesAdd(s, fs);
    forall k | k in keys ensures k in Apply(s, fs) {
      var i :| 0 <= i < |fs| && fs[i] == Frame.Watch(k);
      assert fs[i].txid == k;
    }
  }

  lemma {:induction false} ServeWithinCap(s: set<string>, fs: seq<Frame>)
    requires |s| <= H.MAX_WATCHED_PER_CLIENT
    ensures |Serve(s, fs)| <= H.MAX_WATCHED_PER_CLIENT
  {
    if fs != [] {
      var before := Serve(s, fs[..|fs| - 1]);
      ServeWithinCap(s, fs[..|fs| - 1]);
      match ReadTxid(fs[|fs| - 1].txid)
      case None =>
      case Some(t) =>
        SubsetSize(before - {t}, before);
        if !H.Refused(before, t) {
          H.WithinCap(before, t);
        }
    }
  }

  /** The comment promises that a reconnect never silently loses a watch. The replay to
      a fresh server-side client loses none exactly when there are at most 32 keys. */
  lemma ReplayLosesNothingIff(fs: seq<Frame>, keys: set<string>)
    requires IsReplay(fs, keys) && forall k :: k in keys ==> Canonical(k)
    ensures Serve({}, fs) == keys <==> |keys| <= H.MAX_WATCHED_PER_CLIENT
  {
    ServeWithinCap({}, fs);
    if |keys| <= H.MAX_WATCHED_PER_CLIENT {
      ReplayRestores({}, fs, keys);
      ServeIsApply({}, fs);
    }
  }

  /** Canonical txids that differ in their first digits: one for every n below 256. */
  function Numbered(n: nat): (txid: string)
    requires n < 256
    ensures Canonical(txid)
  {
    [Digit(n / 16), Digit(n % 16)] + seq(62, _ => '0')
  }

  function Digit(d: nat): (c: char)
    requires d < 16
    ensures LowerHex(c)
  {
    "0123456789abcdef"[d]
  }

  lemma NumberedApart(m: nat, n: nat)
    requires m < n < 256
    ensures Numbered(m) != Numbered(n)
  {
    assert forall d: nat, e: nat :: d < e < 16 ==> Digit(d) != Digit(e);
    assert Numbered(m)[0] == Digit(m / 16) && Numbered(n)[0] == Digit(n / 16);
    assert Numbered(m)[1] == Digit(m % 16) && Numbered(n)[1] == Digit(n % 16);
  }

  function NumberedWatches(n: nat): seq<Frame>
    requires n <= 256
  {
    seq(n, i requires 0 <= i < n => Frame.Watch(Numbered(i)))
  }

  ghost function NumberedKeys(n: nat): set<string>
    requires n <= 256
  {
    set i | 0 <= i < n :: Numbered(i)
  }

  lemma NumberedIsNew(n: nat)
    requires n < 256
    ensures Numbered(n) !in NumberedKeys(n)
  {
    forall m | 0 <= m < n ensures Numbered(m) != Numbered(n) {
      NumberedApart(m, n);
    }
  }

  lemma NextNumbered(n: nat)
    requires n < 256
    ensures NumberedKeys(n + 1) == NumberedKeys(n) + {Numbered(n)}
    ensures NumberedWatches(n + 1) == NumberedWatches(n) + [Frame.Watch(Numbered(n))]
  {
    hide Numbered, Canonical;
  }

  lemma {:induction false} NumberedReplay(n: nat)
    requires n <= 256
    ensures IsReplay(NumberedWatches(n), NumberedKeys(n)) && |NumberedKeys(n)| == n
  {
    if n > 0 {
      hide Numbered, NumberedKeys, NumberedWatches, IsReplay;
      NumberedReplay(n - 1);
      NumberedIsNew(n - 1);
      NextNumbered(n - 1);
      ReplayOneMore(NumberedWatches(n - 1), NumberedKeys(n - 1), Numbered(n - 1));
    }
  }

  /** A browser with 33 watches reconnects and one of them is lost without a word. */
  lemma ReplayLosesTheThirtyThird()
    ensures var keys, fs := NumberedKeys(33), NumberedWatches(33);
      && |keys| == 33 && (forall k :: k in keys ==> Canonical(k)) && IsReplay(fs, keys)
      && exists k :: k in keys && k !in Serve({}, fs)
  {
    var keys, fs := NumberedKeys(33), NumberedWatches(33);
    NumberedReplay(33);
    ServeWithinCap({}, fs);
    if forall k :: k in keys ==> k in Serve({}, fs) {
      SubsetSize(keys, Serve({}, fs));
    }
  }

  // ----- Browser, links and hub -------------------------------------------------

  /** Pending: not yet registered with the hub. Gone: rejected or dropped by it. */
  datatype Stage = Pending | Live | Gone

  /** `links` holds the frames in flight per connection, oldest first. `replayed` says
      whether onopen has got past its callbacks. */
  datatype World = World(browser: Browser, replayed: bool, hub: H.Registry<nat>, stages: map<nat, Stage>,
                         links: map<nat, seq<Frame>>, next: nat)

  datatype Event =
    | UiWatch(txid: string, cb: nat)
    | UiUnwatch(txid: string, cb: nat)
    | UiEnsure
    | Open
    | Replay(frames: seq<Frame>)
    | Close
    | Timer
    | Register(c: nat)
    | Deliver(c: nat)
    | Drop(c: nat)

  function Boot(maxClients: int): World {
    World(IDLE, false, H.Registry(maxClients, {}, map[], map[]), map[], map[], 0)
  }

  ghost predicate Enabled(w: World, e: Event) {
    match e
    case Open => w.browser.ws.Some? && !w.browser.open
    case Replay(frames) => w.browser.open && !w.replayed && IsReplay(frames, w.browser.watches.Keys)
    case Close => w.browser.ws.Some?
    case Timer => w.browser.timer
    case Register(c) => c in w.stages && w.stages[c] == Pending && c !in w.hub.clients
    case Deliver(c) => c in w.stages && w.stages[c] != Pending && c in w.links && w.links[c] != []
    case Drop(c) => c in w.stages && w.stages[c] == Live
    case _ => true
  }

  function Push(w: World, fs: seq<Frame>): World {
    if w.browser.ws.Some? && w.browser.ws.value in w.links then
      w.(links := w.links[w.browser.ws.value := w.links[w.browser.ws.value] + fs])
    else w
  }

  /** A new socket comes with an empty link and is not registered yet. */
  function Connect(w: World, b: Browser): World {
    w.(browser := b, replayed := false, stages := w.stages[w.next := Pending], links := w.links[w.next := []],
       next := w.next + 1)
  }

  function EnsureConn(w: World): World {
    if Ensured(w.browser, w.next) == w.browser then w else Connect(w, Ensured(w.browser, w.next))
  }

  function Heard(h: H.Registry<nat>, c: nat, f: Frame): (r: H.Registry<nat>)
    requires h.watched.Keys == h.clients
    ensures r.watched.Keys == r.clients
  {
    match ReadTxid(f.txid)
    case None => h
    case Some(t) => if f.Watch? then H.Watching(h, c, t) else H.Unwatching(h, c, t)
  }

  ghost function Step(w: World, e: Event): (v: World)
    requires w.hub.watched.Keys == w.hub.clients && Enabled(w, e)
    ensures v.hub.watched.Keys == v.hub.clients
  {
    var b := w.browser;
    match e
    case UiWatch(t, cb) =>
      EnsureConn(Push(w, WatchFrames(b, t)).(browser := Subscribed(b, t, cb)))
    case UiUnwatch(t, cb) =>
      Push(w, UnwatchFrames(b, t, cb)).(browser := Unsubscribed(b, t, cb))
    case UiEnsure => EnsureConn(w)
    case Open => w.(browser := Opened(b), replayed := false)
    case Replay(frames) => Push(w, frames).(replayed := true)
    case Close => w.(browser := Closed(b), replayed := false)
    case Timer => Connect(w, TimerFired(b, w.next))
    case Register(c) =>
      w.(hub := H.Registered(w.hub, c), stages := w.stages[c := if H.Full(w.hub) then Gone else Live])
    case Deliver(c) => w.(hub := Heard(w.hub, c, w.links[c][0]), links := w.links[c := w.links[c][1..]])
    case Drop(c) => w.(hub := H.Dropped(w.hub, c), stages := w.stages[c := Gone])
  }

  /** What the server has recorded for a connection so far. */
  function ServerSet(w: World, c: nat): set<string> {
    if c in w.hub.watched then w.hub.watched[c] else {}
  }

  ghost predicate Wellformed(w: World) {
    && H.Index(w.hub) && OneSocket(w.browser)
    && (forall c: nat :: c in w.stages <==> c < w.next) && (forall c: nat :: c in w.links <==> c < w.next)
    && (w.browser.ws.Some? ==> w.browser.ws.value < w.next)
    && (forall c: nat :: c in w.hub.clients <==> c in w.stages && w.stages[c] == Live)
  }

  /** The agreement between one connection's server set, its link and the keys. */
  ghost predicate Agrees(s: set<string>, fs: seq<Frame>, keys: set<string>, open: bool, replayed: bool) {
    && Mild(s, fs)
    && (!open ==> s == {} && fs == [])
    && Apply(s, fs) <= keys
    && (open && replayed ==> Apply(s, fs) == keys)
  }

  ghost predicate InSync(w: World) {
    w.browser.ws.Some? && w.browser.ws.value in w.stages && w.browser.ws.value in w.links
    && w.stages[w.browser.ws.value] != Gone ==>
      Agrees(ServerSet(w, w.browser.ws.value), w.links[w.browser.ws.value], w.browser.watches.Keys,
             w.browser.open, w.replayed)
  }

  /** At most 32 keys, spelled the way the server spells them. */
  ghost predicate Tame(w: World) {
    && |w.browser.watches| <= H.MAX_WATCHED_PER_CLIENT
    && forall k :: k in w.browser.watches ==> Canonical(k)
  }

  lemma ConnectKeeps(w: World, b: Browser)
    requires Wellformed(w) && OneSocket(b) && b.ws == Some(w.next) && !b.open
    ensures Wellformed(Connect(w, b)) && InSync(Connect(w, b))
  {
    assert w.next !in w.hub.clients;
    var empty: seq<Frame> := [];
    assert empty[..0] == empty;
  }

  lemma EnsureKeeps(w: World)
    requires Wellformed(w) && InSync(w)
    ensures Wellformed(EnsureConn(w)) && InSync(EnsureConn(w))
  {
    if Ensured(w.browser, w.next) != w.browser {
      ConnectKeeps(w, Ensured(w.browser, w.next));
    }
  }

  lemma AgreesWatch(s: set<string>, fs: seq<Frame>, keys: set<string>, replayed: bool, t: string)
    requires Agrees(s, fs, keys, true, replayed) && Canonical(t) && |keys + {t}| <= H.MAX_WATCHED_PER_CLIENT
    ensures Agrees(s, fs + [Frame.Watch(t)], keys + {t}, true, replayed)
  {
    var f := Frame.Watch(t);
    SubsetSize(Apply(s, fs), keys + {t});
    SubsetSize(Applied(Apply(s, fs), f), keys + {t});
    MildOne(Apply(s, fs), f);
    MildConcat(s, fs, [f]);
    ApplyConcat(s, fs, [f]);
  }

  lemma AgreesUnwatch(s: set<string>, fs: seq<Frame>, keys: set<string>, replayed: bool, t: string)
    requires Agrees(s, fs, keys, true, replayed) && Canonical(t) && |keys| <= H.MAX_WATCHED_PER_CLIENT
    ensures Agrees(s, fs + [Frame.Unwatch(t)], keys - {t}, true, replayed)
  {
    var f := Frame.Unwatch(t);
    SubsetSize(Apply(s, fs), keys);
    SubsetSize(Applied(Apply(s, fs), f), keys);
    MildOne(Apply(s, fs), f);
    MildConcat(s, fs, [f]);
    ApplyConcat(s, fs, [f]);
  }

  lemma AgreesReplay(s: set<string>, fs: seq<Frame>, keys: set<string>, frames: seq<Frame>)
    requires Agrees(s, fs, keys, true, false) && IsReplay(frames, keys)
    requires |keys| <= H.MAX_WATCHED_PER_CLIENT && forall k :: k in keys ==> Canonical(k)
    ensures Agrees(s, fs + frames, keys, true, true)
  {
    ReplayRestores(Apply(s, fs), frames, keys);
    MildConcat(s, fs, frames);
    ApplyConcat(s, fs, frames);
  }

  lemma AgreesDeliver(s: set<string>, fs: seq<Frame>, keys: set<string>, open: bool, replayed: bool)
    requires Agrees(s, fs, keys, open, replayed) && fs != []
    ensures Served(s, fs[0]) == Applied(s, fs[0])
    ensures Agrees(Applied(s, fs[0]), fs[1..], keys, open, replayed)
  {
    MildTail(s, fs);
    ServedIsApplied(s, fs[0]);
    ApplyHead(s, fs);
  }

  lemma HeardKeepsIndex(h: H.Registry<nat>, c: nat, f: Frame)
    requires H.Index(h)
    ensures H.Index(Heard(h, c, f))
  {
    assert h.watched.Keys == h.clients;
    hide ReadTxid, H.Index, H.Watching, H.Unwatching;
    match ReadTxid(f.txid)
    case None =>
    case Some(t) =>
      if f.Watch? {
        H.IndexWatching(h, c, t);
      } else {
        H.IndexUnwatching(h, c, t);
      }
  }

  lemma HeardIsServed(h: H.Registry<nat>, c: nat, f: Frame)
    requires h.watched.Keys == h.clients
    ensures Heard(h, c, f).clients == h.clients
    ensures c in h.clients ==> Heard(h, c, f).watched[c] == Served(h.watched[c], f)
    ensures forall d :: d in h.clients && d != c ==> Heard(h, c, f).watched[d] == h.watched[d]
  {
    hide ReadTxid, H.WatchersOf, H.WithoutWatcher;
  }

  /** A change of the subscriptions whose frames, if any, went onto the current link. */
  lemma Resubscribed(w: World, fs: seq<Frame>, b: Browser)
    requires Wellformed(w) && OneSocket(b) && b.ws == w.browser.ws && b.open == w.browser.open
    requires b.ws.Some? && w.stages[b.ws.value] != Gone ==>
               Agrees(ServerSet(w, b.ws.value), w.links[b.ws.value] + fs, b.watches.Keys, b.open, w.replayed)
    ensures Wellformed(Push(w, fs).(browser := b)) && InSync(Push(w, fs).(browser := b))
  {
  }

  function WatchFrames(b: Browser, t: string): seq<Frame> {
    if t in b.watches then [] else Sent(b, Frame.Watch(t))
  }

  function UnwatchFrames(b: Browser, t: string, cb: nat): seq<Frame> {
    if t in b.watches && t !in Unsubscribed(b, t, cb).watches then Sent(b, Frame.Unwatch(t)) else []
  }

  lemma WatchAgrees(b: Browser, s: set<string>, fs: seq<Frame>, replayed: bool, t: string)
    requires Agrees(s, fs, b.watches.Keys, b.open, replayed) && b.ws.Some?
    requires Canonical(t) && |b.watches.Keys + {t}| <= H.MAX_WATCHED_PER_CLIENT
    ensures Agrees(s, fs + WatchFrames(b, t), b.watches.Keys + {t}, b.open, replayed)
  {
    if t in b.watches || !b.open {
      assert fs + [] == fs;
      assert t in b.watches ==> b.watches.Keys + {t} == b.watches.Keys;
    } else {
      AgreesWatch(s, fs, b.watches.Keys, replayed, t);
    }
  }

  lemma UnwatchAgrees(b: Browser, s: set<string>, fs: seq<Frame>, replayed: bool, t: string, cb: nat)
    requires Agrees(s, fs, b.watches.Keys, b.open, replayed) && b.ws.Some?
    requires |b.watches.Keys| <= H.MAX_WATCHED_PER_CLIENT && forall k :: k in b.watches ==> Canonical(k)
    ensures Agrees(s, fs + UnwatchFrames(b, t, cb), Unsubscribed(b, t, cb).watches.Keys, b.open, replayed)
  {
    var keys := Unsubscribed(b, t, cb).watches.Keys;
    if t in b.watches && t !in keys {
      assert keys == b.watches.Keys - {t};
      if b.open {
        AgreesUnwatch(s, fs, b.watches.Keys, replayed, t);
      } else {
        assert fs + [] == fs;
      }
    } else {
      assert keys == b.watches.Keys;
      assert fs + [] == fs;
    }
  }

  lemma WatchedIsTame(w: World, t: string, cb: nat)
    requires w.hub.watched.Keys == w.hub.clients && Tame(Step(w, UiWatch(t, cb)))
    ensures Canonical(t) && |w.browser.watches.Keys + {t}| <= H.MAX_WATCHED_PER_CLIENT
    ensures Subscribed(w.browser, t, cb).watches.Keys == w.browser.watches.Keys + {t}
  {
    hide Canonical;
    var b1 := Subscribed(w.browser, t, cb);
    assert b1.watches.Keys == w.browser.watches.Keys + {t};
    assert Step(w, UiWatch(t, cb)).browser.watches == b1.watches;
    assert t in b1.watches;
  }

  lemma UiWatchStep(w: World, t: string, cb: nat)
    requires Wellformed(w) && InSync(w) && Tame(w) && Tame(Step(w, UiWatch(t, cb)))
    ensures Wellformed(Step(w, UiWatch(t, cb))) && InSync(Step(w, UiWatch(t, cb)))
  {
    var b := w.browser;
    var b1 := Subscribed(b, t, cb);
    OneSocketKept(b, t, cb, w.next);
    WatchedIsTame(w, t, cb);
    if b.ws.Some? && w.stages[b.ws.value] != Gone {
      WatchAgrees(b, ServerSet(w, b.ws.value), w.links[b.ws.value], w.replayed, t);
    }
    Resubscribed(w, WatchFrames(b, t), b1);
    EnsureKeeps(Push(w, WatchFrames(b, t)).(browser := b1));
  }

  lemma UiUnwatchStep(w: World, t: string, cb: nat)
    requires Wellformed(w) && InSync(w) && Tame(w)
    ensures Wellformed(Step(w, UiUnwatch(t, cb))) && InSync(Step(w, UiUnwatch(t, cb)))
  {
    var b := w.browser;
    assert OneSocket(Unsubscribed(b, t, cb)) by {
      OneSocketKept(b, t, cb, w.next);
    }
    if b.ws.Some? && w.stages[b.ws.value] != Gone {
      UnwatchAgrees(b, ServerSet(w, b.ws.value), w.links[b.ws.value], w.replayed, t, cb);
    }
    Resubscribed(w, UnwatchFrames(b, t, cb), Unsubscribed(b, t, cb));
  }

  lemma SocketStep(w: World, e: Event)
    requires Wellformed(w) && InSync(w) && Tame(w) && Enabled(w, e)
    requires e.UiEnsure? || e.Open? || e.Replay? || e.Close? || e.Timer?
    ensures Wellformed(Step(w, e)) && InSync(Step(w, e))
  {
    hide Mild, Apply, H.Index;
    var b := w.browser;
    OneSocketKept(b, "", 0, w.next);
    match e
    case UiEnsure => EnsureKeeps(w);
    case Timer => ConnectKeeps(w, TimerFired(b, w.next));
    case Replay(frames) =>
      if w.stages[b.ws.value] != Gone {
        AgreesReplay(ServerSet(w, b.ws.value), w.links[b.ws.value], b.watches.Keys, frames);
      }
    case _ =>
  }

  lemma RegisterKeepsWellformed(w: World, c: nat)
    requires Wellformed(w) && Enabled(w, Event.Register(c))
    ensures Wellformed(Step(w, Event.Register(c)))
  {
    H.IndexRegistered(w.hub, c);
  }

  /** Registration changes no server set: an unregistered client has none. */
  lemma RegisterKeepsSync(w: World, c: nat)
    requires w.hub.watched.Keys == w.hub.clients && Enabled(w, Event.Register(c)) && InSync(w)
    ensures InSync(Step(w, Event.Register(c)))
  {
    var v := Step(w, Event.Register(c));
    assert forall d: nat :: ServerSet(v, d) == ServerSet(w, d);
  }

  lemma DropKeepsWellformed(w: World, c: nat)
    requires Wellformed(w) && Enabled(w, Event.Drop(c))
    ensures Wellformed(Step(w, Event.Drop(c)))
  {
    assert w.hub.watched.Keys == w.hub.clients;
    hide H.Index, OneSocket;
    H.IndexDropped(w.hub, c);
  }

  /** A drop changes no other server set. */
  lemma DropKeepsSync(w: World, c: nat)
    requires w.hub.watched.Keys == w.hub.clients && Enabled(w, Event.Drop(c)) && InSync(w)
    ensures InSync(Step(w, Event.Drop(c)))
  {
    hide Agrees;
    var v := Step(w, Event.Drop(c));
    assert forall d: nat :: d != c ==> ServerSet(v, d) == ServerSet(w, d);
  }

  lemma DropStep(w: World, c: nat)
    requires Wellformed(w) && InSync(w) && Enabled(w, Event.Drop(c))
    ensures Wellformed(Step(w, Event.Drop(c))) && InSync(Step(w, Event.Drop(c)))
  {
    DropKeepsWellformed(w, c);
    DropKeepsSync(w, c);
  }

  lemma DeliverStep(w: World, c: nat)
    requires Wellformed(w) && InSync(w) && Enabled(w, Event.Deliver(c))
    ensures Wellformed(Step(w, Event.Deliver(c))) && InSync(Step(w, Event.Deliver(c)))
  {
    HeardKeepsIndex(w.hub, c, w.links[c][0]);
    HeardIsServed(w.hub, c, w.links[c][0]);
    if w.browser.ws == Some(c) && w.stages[c] != Gone {
      AgreesDeliver(ServerSet(w, c), w.links[c], w.browser.watches.Keys, w.browser.open, w.replayed);
    }
  }

  lemma SyncStep(w: World, e: Event)
    requires Wellformed(w) && InSync(w) && Tame(w) && Enabled(w, e) && Tame(Step(w, e))
    ensures Wellformed(Step(w, e)) && InSync(Step(w, e))
  {
    match e
    case UiWatch(t, cb) => UiWatchStep(w, t, cb);
    case UiUnwatch(t, cb) => UiUnwatchStep(w, t, cb);
    case Register(c) => { RegisterKeepsWellformed(w, c); RegisterKeepsSync(w, c); }
    case Deliver(c) => DeliverStep(w, c);
    case Drop(c) => DropStep(w, c);
    case _ => SocketStep(w, e);
  }

  ghost predicate Run(w: World, es: seq<Event>)
    requires w.hub.watched.Keys == w.hub.clients
    decreases |es|
  {
    && Tame(w)
    && (es != [] ==> Enabled(w, es[0]) && Run(Step(w, es[0]), es[1..]))
  }

  ghost function After(w: World, es: seq<Event>): World
    requires w.hub.watched.Keys == w.hub.clients && Run(w, es)
    decreases |es|
  {
    if es == [] then w else After(Step(w, es[0]), es[1..])
  }

  lemma {:induction false} SyncRun(w: World, es: seq<Event>)
    requires Wellformed(w) && InSync(w) && Run(w, es)
    ensures Wellformed(After(w, es)) && InSync(After(w, es))
    decreases |es|
  {
    if es != [] {
      SyncStep(w, es[0]);
      SyncRun(Step(w, es[0]), es[1..]);
    }
  }

  /** The server's watch set for the current connection, as it will be once it has
      worked through the frames in flight. */
  function WillBeWatched(w: World): set<string>
    requires w.browser.ws.Some? && w.browser.ws.value in w.links
  {
    Serve(ServerSet(w, w.browser.ws.value), w.links[w.browser.ws.value])
  }

  /** End to end, over any number of disconnects: on an open connection that the hub has
      neither dropped nor rejected, the frames in flight turn the server's watch set into
      exactly the keys the browser subscribes to. */
  lemma WatchesStayInSync(maxClients: int, es: seq<Event>)
    requires Run(Boot(maxClients), es)
    ensures var w := After(Boot(maxClients), es);
      w.browser.open && w.replayed ==>
        && w.browser.ws.Some? && w.browser.ws.value in w.links && w.browser.ws.value in w.stages
        && (w.stages[w.browser.ws.value] != Gone ==> WillBeWatched(w) == w.browser.watches.Keys)
  {
    SyncRun(Boot(maxClients), es);
    var w := After(Boot(maxClients), es);
    if w.browser.open && w.replayed && w.stages[w.browser.ws.value] != Gone {
      ServeIsApply(ServerSet(w, w.browser.ws.value), w.links[w.browser.ws.value]);
    }
  }

  /** Once the link has drained, the hub pushes a txid to this connection exactly when
      the browser subscribes to it. */
  lemma QuietLinkMeansExactPushes(maxClients: int, es: seq<Event>, c: nat, t: string)
    requires Run(Boot(maxClients), es)
    requires var w := After(Boot(maxClients), es);
      w.browser.open && w.replayed && w.browser.ws == Some(c) && c in w.hub.clients && c in w.links && w.links[c] == []
    ensures var w := After(Boot(maxClients), es);
      c in H.WatchersOf(w.hub.watchers, t) <==> t in w.browser.watches
  {
    SyncRun(Boot(maxClients), es);
    var w := After(Boot(maxClients), es);
    assert t in w.hub.watched[c] <==> c in H.WatchersOf(w.hub.watchers, t);
  }
}
