/** The browser's reconnecting socket (web/src/api/ws.ts): subscriptions counted per
    txid, replayed in full on every reopen. */
module LiveSocket {
  import opened Options

  const INITIAL_BACKOFF_MS := 1000
  const MAX_BACKOFF_MS := 30_000

  datatype Frame =
    | Watch(txid: string)
    | Unwatch(txid: string)

  /** Callbacks and connections are told apart by number; `ws` is the current socket. */
  datatype Browser = Browser(ws: Option<nat>, open: bool, backoff: nat, timer: bool, watches: map<string, set<nat>>)

  const IDLE := Browser(None, false, INITIAL_BACKOFF_MS, false, map[])

  function Subscribed(b: Browser, txid: string, cb: nat): Browser {
    b.(watches := b.watches[txid := (if txid in b.watches then b.watches[txid] else {}) + {cb}])
  }

  function Unsubscribed(b: Browser, txid: string, cb: nat): Browser {
    if txid !in b.watches then b
    else if b.watches[txid] - {cb} == {} then b.(watches := b.watches - {txid})
    else b.(watches := b.watches[txid := b.watches[txid] - {cb}])
  }

  /** `send` drops the frame unless the socket is open. */
  function Sent(b: Browser, f: Frame): seq<Frame> {
    if b.open && b.ws.Some? then [f] else []
  }

  function Connected(b: Browser, conn: nat): Browser {
    b.(ws := Some(conn))
  }

  function Ensured(b: Browser, conn: nat): Browser {
    if b.ws.Some? || b.timer then b else Connected(b, conn)
  }

  function Opened(b: Browser): Browser {
    b.(open := true, backoff := INITIAL_BACKOFF_MS)
  }

  /** onclose up to its callbacks, and after them. */
  function CloseBegun(b: Browser): Browser {
    b.(ws := None, open := false)
  }

  function CloseDone(b: Browser): Browser {
    b.(timer := true, backoff := if b.backoff * 2 <= MAX_BACKOFF_MS then b.backoff * 2 else MAX_BACKOFF_MS)
  }

  function Closed(b: Browser): Browser {
    CloseDone(CloseBegun(b))
  }

  function TimerFired(b: Browser, conn: nat): Browser {
    Connected(b.(timer := false), conn)
  }

  class Socket {
    var ws: Option<nat>
    var open: bool
    var backoff: nat
    var timer: bool
    var watches: map<string, set<nat>>

    ghost function View(): Browser
      reads this
    {
      Browser(ws, open, backoff, timer, watches)
    }

    constructor ()
      ensures View() == IDLE
    {
      ws, open, backoff, timer, watches := None, false, INITIAL_BACKOFF_MS, false, map[];
    }

    /** `conn` names the socket that ensure() may create. */
    method Watch(txid: string, cb: nat, conn: nat) returns (sent: seq<Frame>)
      modifies this
      ensures View() == Ensured(Subscribed(old(View()), txid, cb), conn)
      ensures sent == if txid in old(watches) then [] else Sent(old(View()), Frame.Watch(txid))
    {
      sent := [];
      var subs: set<nat> := {};
      if txid in watches {
        subs := watches[txid];
      } else {
        watches := watches[txid := subs];
        sent := SendFrame(Frame.Watch(txid));
      }
      watches := watches[txid := subs + {cb}];
      Ensure(conn);
    }

    method Unwatch(txid: string, cb: nat) returns (sent: seq<Frame>)
      modifies this
      ensures View() == Unsubscribed(old(View()), txid, cb)
      ensures sent == if txid in old(watches) && txid !in watches then Sent(old(View()), Frame.Unwatch(txid)) else []
    {
      sent := [];
      if txid !in watches {
        return;
      }
      watches := watches[txid := watches[txid] - {cb}];
      if |watches[txid]| == 0 {
        watches := watches - {txid};
        sent := SendFrame(Frame.Unwatch(txid));
      }
    }

    method SendFrame(f: Frame) returns (sent: seq<Frame>)
      ensures sent == Sent(View(), f)
    {
      sent := if open && ws.Some? then [f] else [];
    }

    method Ensure(conn: nat)
      modifies this
      ensures View() == Ensured(old(View()), conn)
    {
      if ws.Some? || timer {
        return;
      }
      ws := Some(conn);
    }

    method OnOpen()
      modifies this
      ensures View() == Opened(old(View()))
    {
      open := true;
      backoff := INITIAL_BACKOFF_MS;
    }

    /** The end of onopen, after the connection callbacks: one frame for every key, in
        the order of the map iteration. */
    method Replay() returns (sent: seq<Frame>)
      ensures IsReplay(sent, watches.Keys)
    {
      sent := [];
      var todo := watches.Keys;
      while todo != {}
        invariant todo <= watches.Keys && IsReplay(sent, watches.Keys - todo)
        decreases todo
      {
        var txid :| txid in todo;
        ReplayOneMore(sent, watches.Keys - todo, txid);
        assert watches.Keys - (todo - {txid}) == watches.Keys - todo + {txid};
        sent := sent + [Frame.Watch(txid)];
        todo := todo - {txid};
      }
      assert watches.Keys - todo == watches.Keys;
    }

    method OnCloseBegin()
      modifies this
      ensures View() == CloseBegun(old(View()))
    {
      ws := None;
      open := false;
    }

    method OnCloseEnd()
      modifies this
      ensures View() == CloseDone(old(View()))
    {
      timer := true;
      backoff := if backoff * 2 <= MAX_BACKOFF_MS then backoff * 2 else MAX_BACKOFF_MS;
    }

    method OnTimer(conn: nat)
      modifies this
      ensures View() == TimerFired(old(View()), conn)
    {
      timer := false;
      ws := Some(conn);
    }
  }

  /** Every key once, nothing else. */
  ghost predicate IsReplay(sent: seq<Frame>, keys: set<string>) {
    && |sent| == |keys|
    && (forall i :: 0 <= i < |sent| ==> sent[i].Watch? && sent[i].txid in keys)
    && (forall k :: k in keys ==> Frame.Watch(k) in sent)
  }

  lemma ReplayOneMore(sent: seq<Frame>, keys: set<string>, txid: string)
    requires IsReplay(sent, keys) && txid !in keys
    ensures IsReplay(sent + [Frame.Watch(txid)], keys + {txid})
  {
    var more := sent + [Frame.Watch(txid)];
    forall k | k in keys + {txid} ensures Frame.Watch(k) in more {
      if k in keys {
        assert Frame.Watch(k) in sent;
      } else {
        assert more[|sent|] == Frame.Watch(k);
      }
    }
  }

  /** Never a socket and a reconnect timer at once; only an open socket counts as open. */
  ghost predicate OneSocket(b: Browser) {
    && !(b.ws.Some? && b.timer)
    && (b.open ==> b.ws.Some?)
    && (forall t :: t in b.watches ==> b.watches[t] != {})
    && INITIAL_BACKOFF_MS <= b.backoff <= MAX_BACKOFF_MS
  }

  lemma OneSocketKept(b: Browser, txid: string, cb: nat, conn: nat)
    requires OneSocket(b)
    ensures OneSocket(Subscribed(b, txid, cb)) && OneSocket(Unsubscribed(b, txid, cb)) && OneSocket(Ensured(b, conn))
    ensures b.ws.Some? ==> OneSocket(Opened(b)) && OneSocket(Closed(b))
    ensures b.timer ==> OneSocket(TimerFired(b, conn))
  {
    assert cb in Subscribed(b, txid, cb).watches[txid];
  }

  /** What a connection callback may do inside onclose: subscribe to a txid, end such a
      subscription, or subscribe to stats, mempool, blocks or the connection, of which
      only the call to ensure() matters here. */
  datatype Action =
    | Subscribe(txid: string, cb: nat)
    | Unsubscribe(txid: string, cb: nat)
    | Listen

  function Acted(b: Browser, a: Action, conn: nat): Browser {
    match a
    case Subscribe(txid, cb) => Ensured(Subscribed(b, txid, cb), conn)
    case Unsubscribe(txid, cb) => Unsubscribed(b, txid, cb)
    case Listen => Ensured(b, conn)
  }

  function Acts(b: Browser, actions: seq<Action>, conn: nat): Browser
    decreases |actions|
  {
    if actions == [] then b else Acts(Acted(b, actions[0], conn), actions[1..], conn)
  }

  /** Some subscription of the callback has not been ended since. */
  ghost predicate Subscribes(actions: seq<Action>, txid: string, cb: nat) {
    exists i :: 0 <= i < |actions| && actions[i] == Subscribe(txid, cb)
                && forall j :: i < j < |actions| ==> actions[j] != Unsubscribe(txid, cb)
  }

  ghost predicate Holds(b: Browser, txid: string, cb: nat) {
    txid in b.watches && cb in b.watches[txid]
  }

  lemma {:induction false} ActsOneMore(b: Browser, actions: seq<Action>, a: Action, conn: nat)
    ensures Acts(b, actions + [a], conn) == Acted(Acts(b, actions, conn), a, conn)
    decreases |actions|
  {
    if actions == [] {
      assert ([] + [a])[1..] == [];
    } else {
      assert (actions + [a])[1..] == actions[1..] + [a];
      ActsOneMore(Acted(b, actions[0], conn), actions[1..], a, conn);
    }
  }

  lemma SubscribesOneMore(actions: seq<Action>, a: Action, txid: string, cb: nat)
    ensures Subscribes(actions + [a], txid, cb) <==>
            a == Subscribe(txid, cb) || (Subscribes(actions, txid, cb) && a != Unsubscribe(txid, cb))
  {
    var more := actions + [a];
    assert more[|actions|] == a && forall i :: 0 <= i < |actions| ==> more[i] == actions[i];
    if Subscribes(more, txid, cb) && a != Subscribe(txid, cb) {
      var i :| 0 <= i < |more| && more[i] == Subscribe(txid, cb)
               && forall j :: i < j < |more| ==> more[j] != Unsubscribe(txid, cb);
      assert actions[i] == Subscribe(txid, cb);
    }
    if Subscribes(actions, txid, cb) && a != Unsubscribe(txid, cb) {
      var i :| 0 <= i < |actions| && actions[i] == Subscribe(txid, cb)
               && forall j :: i < j < |actions| ==> actions[j] != Unsubscribe(txid, cb);
      assert more[i] == Subscribe(txid, cb);
    }
  }

  lemma ActedHolds(b: Browser, a: Action, conn: nat, txid: string, cb: nat)
    ensures Holds(Acted(b, a, conn), txid, cb) <==>
            a == Subscribe(txid, cb) || (Holds(b, txid, cb) && a != Unsubscribe(txid, cb))
    ensures (forall t :: t in b.watches ==> b.watches[t] != {}) ==>
            forall t :: t in Acted(b, a, conn).watches ==> Acted(b, a, conn).watches[t] != {}
  {
    if a.Subscribe? {
      assert a.cb in Subscribed(b, a.txid, a.cb).watches[a.txid];
    }
    if a.Unsubscribe? && Holds(b, txid, cb) && a != Unsubscribe(txid, cb) {
      assert a.txid == txid ==> cb in b.watches[txid] - {a.cb};
    }
  }

  /** The count of callbacks is right after every sequence of calls: a callback is held
      exactly while some subscription of it has not been ended, whatever the others do,
      and a txid is watched exactly while one of its callbacks is held. */
  lemma {:induction false} HeldIffSubscribed(actions: seq<Action>, conn: nat, txid: string, cb: nat)
    ensures Holds(Acts(IDLE, actions, conn), txid, cb) <==> Subscribes(actions, txid, cb)
    ensures forall t :: t in Acts(IDLE, actions, conn).watches ==> Acts(IDLE, actions, conn).watches[t] != {}
    decreases |actions|
  {
    if actions != [] {
      var front, last := actions[..|actions| - 1], actions[|actions| - 1];
      assert actions == front + [last];
      HeldIffSubscribed(front, conn, txid, cb);
      ActsOneMore(IDLE, front, last, conn);
      ActedHolds(Acts(IDLE, front, conn), last, conn, txid, cb);
      SubscribesOneMore(front, last, txid, cb);
    }
  }

  lemma WatchedIffSubscribed(actions: seq<Action>, conn: nat, txid: string)
    ensures txid in Acts(IDLE, actions, conn).watches <==> exists cb :: Subscribes(actions, txid, cb)
  {
    var b := Acts(IDLE, actions, conn);
    HeldIffSubscribed(actions, conn, txid, 0);
    forall cb ensures Holds(b, txid, cb) <==> Subscribes(actions, txid, cb) {
      HeldIffSubscribed(actions, conn, txid, cb);
    }
    if txid in b.watches {
      var cb :| cb in b.watches[txid];
      assert Holds(b, txid, cb);
    }
    if cb :| Subscribes(actions, txid, cb) {
      assert Holds(b, txid, cb);
    }
  }

  /** Connections come and go without touching the subscriptions, and once something has
      asked for a connection there is a socket or a timer that will bring one. */
  lemma ConnectionsKeepWatches(b: Browser, conn: nat)
    ensures Opened(b).watches == Closed(b).watches == TimerFired(b, conn).watches == Ensured(b, conn).watches == b.watches
    ensures Opened(b).open && Closed(b).timer && TimerFired(b, conn).ws == Some(conn)
    ensures Ensured(b, conn).ws.Some? || Ensured(b, conn).timer
  {
  }

  /** All of onclose. The callbacks are told only if the socket had been open. */
  function ClosedAmid(b: Browser, actions: seq<Action>, conn: nat): Browser {
    CloseDone(if b.open then Acts(CloseBegun(b), actions, conn) else CloseBegun(b))
  }

  lemma ActedConnectIff(b: Browser, a: Action, conn: nat)
    requires OneSocket(b) && !b.timer
    ensures OneSocket(Acted(b, a, conn)) && !Acted(b, a, conn).timer
    ensures Acted(b, a, conn).ws.Some? <==> b.ws.Some? || !a.Unsubscribe?
  {
    match a
    case Subscribe(txid, cb) =>
      OneSocketKept(b, txid, cb, conn);
      OneSocketKept(Subscribed(b, txid, cb), txid, cb, conn);
    case Unsubscribe(txid, cb) => OneSocketKept(b, txid, cb, conn);
    case Listen =>
  }

  /** Callbacks keep the invariant and set no timer; a socket exists after them exactly
      when there was one or one of them is not just an unsubscription. */
  lemma {:induction false} ActsConnectIff(b: Browser, actions: seq<Action>, conn: nat)
    requires OneSocket(b) && !b.timer
    ensures var v := Acts(b, actions, conn);
      && OneSocket(v) && !v.timer
      && (v.ws.Some? <==> b.ws.Some? || exists i :: 0 <= i < |actions| && !actions[i].Unsubscribe?)
    decreases |actions|
  {
    if actions != [] {
      ActedConnectIff(b, actions[0], conn);
      ActsConnectIff(Acted(b, actions[0], conn), actions[1..], conn);
      assert forall i :: 0 <= i < |actions| - 1 ==> actions[1..][i] == actions[i + 1];
      assert forall i :: 0 < i < |actions| ==> actions[i] == actions[1..][i - 1];
    }
  }

  /** onclose keeps one socket, with a timer only when there is none, exactly when the
      socket had never opened or all that its callbacks do is unsubscribe. */
  lemma CloseKeepsOneSocketIff(b: Browser, actions: seq<Action>, conn: nat)
    requires OneSocket(b) && b.ws.Some?
    ensures OneSocket(ClosedAmid(b, actions, conn)) <==>
            !b.open || forall i :: 0 <= i < |actions| ==> actions[i].Unsubscribe?
  {
    ActsConnectIff(CloseBegun(b), actions, conn);
  }

  /** A page that mounts when the connection is lost and listens to stats: it reconnects
      at once, and the timer then replaces that socket by another one. */
  lemma ReentrantCloseBreaksIt(b: Browser, conn: nat, next: nat)
    requires OneSocket(b) && b.ws.Some? && b.open
    ensures var v := ClosedAmid(b, [Listen], conn);
      !OneSocket(v) && v.ws == Some(conn) && v.timer && TimerFired(v, next).ws == Some(next)
  {
    CloseKeepsOneSocketIff(b, [Listen], conn);
    assert [Listen][1..] == [];
    assert Acts(CloseBegun(b), [Listen], conn) == Acted(CloseBegun(b), Listen, conn);
  }

  function Pow2(n: nat): nat {
    if n == 0 then 1 else 2 * Pow2(n - 1)
  }

  /** The browser after n closes without an open in between. */
  function AfterCloses(b: Browser, n: nat): Browser {
    if n == 0 then b else Closed(AfterCloses(b, n - 1))
  }

  /** However long the socket had been failing, an open starts the delays anew. */
  lemma OpenResetsBackoff(b: Browser, n: nat)
    ensures AfterCloses(Opened(b), n).backoff ==
            if INITIAL_BACKOFF_MS * Pow2(n) <= MAX_BACKOFF_MS then INITIAL_BACKOFF_MS * Pow2(n) else MAX_BACKOFF_MS
  {
    BackoffIsExponential(Opened(b), n);
  }

  lemma {:induction false} BackoffIsExponential(b: Browser, n: nat)
    requires b.backoff == INITIAL_BACKOFF_MS
    ensures AfterCloses(b, n).backoff ==
            if INITIAL_BACKOFF_MS * Pow2(n) <= MAX_BACKOFF_MS then INITIAL_BACKOFF_MS * Pow2(n) else MAX_BACKOFF_MS
  {
    if n > 0 {
      BackoffIsExponential(b, n - 1);
    }
  }
}
