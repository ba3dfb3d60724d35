/** The WebSocket hub and its clients as objects (internal/api/hub.go, internal/api/ws.go):
    every event-loop case is proved to act on the registry as HubState says. */
module WsHub {
  import HubState

  const SEND_BUFFER_SIZE := 32
  const UNREGISTER_BUFFER_SIZE := 8

  datatype Message =
    | StatsMessage
    | MempoolMessage
    | BlockMessage(hash: string)
    | TxMessage(txid: string)

  /** One connection; the hub owns `watched`, `send` is its bounded outgoing channel. */
  class WsClient {
    var watched: set<string>
    var send: seq<Message>
    var done: bool

    constructor ()
      ensures watched == {} && send == [] && !done
    {
      watched, send, done := {}, [], false;
    }

    /** Queues without blocking; false means too slow. When the client is already shut
        down the select may take either ready case. */
    method TrySend(msg: Message) returns (ok: bool)
      modifies this`send
      ensures ok <==> done || |old(send)| < SEND_BUFFER_SIZE
      ensures ok && !done ==> send == old(send) + [msg]
      ensures send == old(send) || (|old(send)| < SEND_BUFFER_SIZE && send == old(send) + [msg])
    {
      if done {
        if * {
          return true;
        }
        if |send| < SEND_BUFFER_SIZE {
          send := send + [msg];
        }
        return true;
      }
      if |send| < SEND_BUFFER_SIZE {
        send := send + [msg];
        return true;
      }
      ok := false;
    }

    method Shutdown()
      modifies this`done
      ensures done
    {
      if !done {
        done := true;
      }
    }
  }

  class Hub {
    const maxClients: int
    var clients: set<WsClient>
    var watchers: map<string, set<WsClient>>
    var unregister: seq<WsClient>

    ghost function View(): HubState.Registry<WsClient>
      reads this, clients
    {
      HubState.Registry(maxClients, clients, map c | c in clients :: c.watched, watchers)
    }

    ghost predicate Valid()
      reads this, clients
    {
      HubState.Index(View())
    }

    constructor (maxClients: int)
      ensures Valid() && View() == HubState.Registry(maxClients, {}, map[], map[]) && unregister == []
    {
      this.maxClients := maxClients;
      clients, watchers, unregister := {}, map[], [];
    }

    /** The register case; true when the client was accepted (and is then pushed to). */
    method Register(c: WsClient) returns (accepted: bool)
      requires c !in clients && c.watched == {}
      modifies this`clients, c`done
      ensures View() == HubState.Registered(old(View()), c)
      ensures accepted <==> c in clients
      ensures c.done == (old(c.done) || !accepted)
    {
      if maxClients > 0 && |clients| >= maxClients {
        c.Shutdown();
        return false;
      }
      clients := clients + {c};
      accepted := true;
    }

    /** The command case for a watch; true when the txid is pushed at once. */
    method Watch(c: WsClient, txid: string) returns (push: bool)
      modifies this`watchers, c`watched
      ensures clients == old(clients)
      ensures View() == HubState.Watching(old(View()), c, txid)
      ensures push <==> c in clients && txid in c.watched
      ensures !push ==> c.watched == old(c.watched)
    {
      if c !in clients {
        return false;
      }
      if |c.watched| >= HubState.MAX_WATCHED_PER_CLIENT && txid !in c.watched {
        return false;
      }
      var watching := if txid in watchers then watchers[txid] else {};
      watchers := watchers[txid := watching + {c}];
      c.watched := c.watched + {txid};
      push := true;
    }

    /** The command case for an unwatch. */
    method Unwatch(c: WsClient, txid: string)
      modifies this`watchers, c`watched
      ensures clients == old(clients)
      ensures View() == HubState.Unwatching(old(View()), c, txid)
      ensures c !in clients ==> c.watched == old(c.watched)
    {
      if c !in clients {
        return;
      }
      c.watched := c.watched - {txid};
      RemoveWatcher(txid, c);
    }

    method RemoveWatcher(txid: string, c: WsClient)
      modifies this`watchers
      ensures watchers == HubState.WithoutWatcher(old(watchers), txid, c)
    {
      if txid in watchers {
        var left := watchers[txid] - {c};
        watchers := watchers[txid := left];
        if |left| == 0 {
          watchers := watchers - {txid};
        }
      }
    }

    /** What the loop relies on when it takes a client out: its own entries mirror the
        watcher sets, and no watcher set is empty. */
    ghost predicate Mirrored(c: WsClient)
      reads this, c
    {
      && (forall t :: t in c.watched <==> c in HubState.WatchersOf(watchers, t))
      && (forall t :: t in watchers ==> watchers[t] != {})
    }

    /** The unregister case. */
    method Drop(c: WsClient)
      requires c in clients ==> Mirrored(c)
      modifies this`clients, this`watchers, c`done
      ensures View() == HubState.Dropped(old(View()), c)
      ensures c.done == (old(c.done) || c in old(clients))
    {
      if c !in clients {
        return;
      }
      ghost var before := watchers;
      clients := clients - {c};
      var todo := c.watched;
      while todo != {}
        invariant todo <= c.watched && clients == old(clients) - {c}
        invariant forall t :: HubState.WatchersOf(watchers, t) ==
                              if t in c.watched && t !in todo then HubState.WatchersOf(before, t) - {c}
                              else HubState.WatchersOf(before, t)
        invariant forall t :: t in watchers ==> watchers[t] != {}
        decreases todo
      {
        var t :| t in todo;
        RemoveWatcher(t, c);
        todo := todo - {t};
      }
      c.Shutdown();
      SameWatchers(watchers, map t | t in before && before[t] != {c} :: before[t] - {c});
    }

    /** One turn of the event loop. */
    method Handle(e: HubState.Event<WsClient>)
      requires Valid() && HubState.Enabled(View(), e) && (e.Register? ==> e.c.watched == {})
      modifies this`clients, this`watchers, e.c`watched, e.c`done
      ensures Valid() && View() == HubState.Step(old(View()), e)
    {
      HubState.IndexStep(View(), e);
      match e
      case Register(c) => var _ := Register(c);
      case Watch(c, txid) => var _ := Watch(c, txid);
      case Unwatch(c, txid) => Unwatch(c, txid);
      case Unregister(c) =>
        assert c in clients ==> c.watched == View().watched[c];
        Drop(c);
    }

    /** The snapshots that pushAll takes for its detached fetches: stats for everyone,
        and every watched txid for exactly the clients that watch it. */
    method PushAll() returns (statsTo: set<WsClient>, txTo: map<string, set<WsClient>>)
      requires Valid()
      ensures statsTo == clients
      ensures forall t, c :: (t in txTo && c in txTo[t]) <==> (c in clients && t in c.watched)
    {
      statsTo := clients;
      txTo := map[];
      var todo := watchers;
      while todo != map[]
        invariant todo.Keys <= watchers.Keys && forall t :: t in todo ==> todo[t] == watchers[t]
        invariant txTo == watchers - todo.Keys
        decreases todo.Keys
      {
        var t :| t in todo;
        ghost var sent := txTo;
        txTo := txTo[t := todo[t]];
        todo := todo - {t};
        assert txTo == watchers - todo.Keys;
      }
      assert txTo == watchers;
      forall t, c ensures (t in txTo && c in txTo[t]) <==> (c in clients && t in c.watched) {
        if c in clients {
          assert t in View().watched[c] <==> c in HubState.WatchersOf(watchers, t);
        }
      }
    }

    /** Fans one message out without blocking: a live client either takes it or is handed
        to the unregister queue, unless that is full. */
    method Send(targets: set<WsClient>, msg: Message)
      requires |unregister| <= UNREGISTER_BUFFER_SIZE
      modifies this`unregister, targets`send
      ensures old(unregister) <= unregister && |unregister| <= UNREGISTER_BUFFER_SIZE
      ensures forall c :: c in targets && !c.done ==>
        if |old(c.send)| < SEND_BUFFER_SIZE then c.send == old(c.send) + [msg]
        else c.send == old(c.send) && (c in unregister || |unregister| == UNREGISTER_BUFFER_SIZE)
      ensures forall c :: c in unregister ==>
        c in old(unregister) || (c in targets && !c.done && |old(c.send)| >= SEND_BUFFER_SIZE)
    {
      var todo := targets;
      while todo != {}
        invariant todo <= targets
        invariant old(unregister) <= unregister && |unregister| <= UNREGISTER_BUFFER_SIZE
        invariant forall c :: c in todo ==> c.send == old(c.send)
        invariant forall c :: c in targets - todo && !c.done ==>
          if |old(c.send)| < SEND_BUFFER_SIZE then c.send == old(c.send) + [msg]
          else c.send == old(c.send) && (c in unregister || |unregister| == UNREGISTER_BUFFER_SIZE)
        invariant forall c :: c in unregister ==>
          c in old(unregister) || (c in targets && !c.done && |old(c.send)| >= SEND_BUFFER_SIZE)
        decreases todo
      {
        var c :| c in todo;
        todo := todo - {c};
        var ok := c.TrySend(msg);
        if !ok && |unregister| < UNREGISTER_BUFFER_SIZE {
          unregister := unregister + [c];
        }
      }
    }
  }

  lemma SameWatchers<C>(a: map<string, set<C>>, b: map<string, set<C>>)
    requires forall t :: HubState.WatchersOf(a, t) == HubState.WatchersOf(b, t)
    requires (forall t :: t in a ==> a[t] != {}) && (forall t :: t in b ==> b[t] != {})
    ensures a == b
  {
    assert forall t :: t in a <==> HubState.WatchersOf(a, t) != {};
    assert forall t :: t in b <==> HubState.WatchersOf(b, t) != {};
    forall t | t in a ensures a[t] == b[t] {
      assert HubState.WatchersOf(a, t) == HubState.WatchersOf(b, t);
    }
  }
}
