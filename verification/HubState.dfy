/** The hub's registry of clients and watches as a value (internal/api/hub.go): a
    two-way index between clients and the txids they watch, with both caps. */
module HubState {
  import opened Collections

  const MAX_WATCHED_PER_CLIENT := 32

  /** `watched` is the client-side half of the index and `watchers` the txid-side half. */
  datatype Registry<C> = Registry(maxClients: int, clients: set<C>, watched: map<C, set<string>>,
                                  watchers: map<string, set<C>>)

  predicate Full<C>(h: Registry<C>) {
    h.maxClients > 0 && |h.clients| >= h.maxClients
  }

  function Registered<C>(h: Registry<C>, c: C): Registry<C> {
    if Full(h) then h else h.(clients := h.clients + {c}, watched := h.watched[c := {}])
  }

  /** The per-client cap: a new txid is refused once 32 are watched. */
  predicate Refused(watched: set<string>, txid: string) {
    |watched| >= MAX_WATCHED_PER_CLIENT && txid !in watched
  }

  function WatchersOf<C>(watchers: map<string, set<C>>, txid: string): set<C> {
    if txid in watchers then watchers[txid] else {}
  }

  function WithoutWatcher<C>(watchers: map<string, set<C>>, txid: string, c: C): map<string, set<C>> {
    if txid !in watchers then watchers
    else if watchers[txid] - {c} == {} then watchers - {txid}
    else watchers[txid := watchers[txid] - {c}]
  }

  function Watching<C>(h: Registry<C>, c: C, txid: string): Registry<C>
    requires h.watched.Keys == h.clients
  {
    if c !in h.clients || Refused(h.watched[c], txid) then h
    else h.(watched := h.watched[c := h.watched[c] + {txid}],
            watchers := h.watchers[txid := WatchersOf(h.watchers, txid) + {c}])
  }

  function Unwatching<C>(h: Registry<C>, c: C, txid: string): Registry<C>
    requires h.watched.Keys == h.clients
  {
    if c !in h.clients then h
    else h.(watched := h.watched[c := h.watched[c] - {txid}],
            watchers := WithoutWatcher(h.watchers, txid, c))
  }

  /** A dropped client disappears from every watcher set; a set it leaves empty goes too. */
  function Dropped<C>(h: Registry<C>, c: C): Registry<C> {
    if c !in h.clients then h
    else h.(clients := h.clients - {c}, watched := h.watched - {c},
            watchers := map t | t in h.watchers && h.watchers[t] != {c} :: h.watchers[t] - {c})
  }

  ghost predicate Index<C>(h: Registry<C>) {
    && h.watched.Keys == h.clients
    && (forall c, t :: c in h.clients ==> (t in h.watched[c] <==> c in WatchersOf(h.watchers, t)))
    && (forall t :: t in h.watchers ==> h.watchers[t] != {} && h.watchers[t] <= h.clients)
    && (forall c :: c in h.clients ==> |h.watched[c]| <= MAX_WATCHED_PER_CLIENT)
    && (h.maxClients > 0 ==> |h.clients| <= h.maxClients)
  }

  datatype Event<C> =
    | Register(c: C)
    | Watch(c: C, txid: string)
    | Unwatch(c: C, txid: string)
    | Unregister(c: C)

  /** Every connection brings a new client. */
  predicate Enabled<C>(h: Registry<C>, e: Event<C>) {
    e.Register? ==> e.c !in h.clients
  }

  function Step<C>(h: Registry<C>, e: Event<C>): Registry<C>
    requires h.watched.Keys == h.clients
  {
    match e
    case Register(c) => Registered(h, c)
    case Watch(c, t) => Watching(h, c, t)
    case Unwatch(c, t) => Unwatching(h, c, t)
    case Unregister(c) => Dropped(h, c)
  }

  lemma IndexRegistered<C>(h: Registry<C>, c: C)
    requires Index(h) && c !in h.clients
    ensures Index(Registered(h, c))
  {
    assert forall t :: c !in WatchersOf(h.watchers, t);
  }

  lemma WithinCap(watched: set<string>, txid: string)
    requires |watched| <= MAX_WATCHED_PER_CLIENT && !Refused(watched, txid)
    ensures |watched + {txid}| <= MAX_WATCHED_PER_CLIENT
  {
    if txid in watched {
      assert watched + {txid} == watched;
    }
  }

  lemma IndexWatching<C>(h: Registry<C>, c: C, txid: string)
    requires Index(h)
    ensures Index(Watching(h, c, txid))
  {
    if c in h.clients && !Refused(h.watched[c], txid) {
      var v := Watching(h, c, txid);
      forall d, t | d in v.clients ensures t in v.watched[d] <==> d in WatchersOf(v.watchers, t) {
        assert t in h.watched[d] <==> d in WatchersOf(h.watchers, t);
      }
      forall t | t in v.watchers ensures v.watchers[t] != {} && v.watchers[t] <= v.clients {
        assert t != txid ==> v.watchers[t] == h.watchers[t];
        assert t == txid ==> c in v.watchers[t];
      }
      WithinCap(h.watched[c], txid);
    }
  }

  lemma IndexUnwatching<C>(h: Registry<C>, c: C, txid: string)
    requires Index(h)
    ensures Index(Unwatching(h, c, txid))
  {
    var v := Unwatching(h, c, txid);
    forall d, t | d in v.clients ensures t in v.watched[d] <==> d in WatchersOf(v.watchers, t) {
      assert t in h.watched[d] <==> d in WatchersOf(h.watchers, t);
    }
    if c in h.clients {
      SubsetSize(h.watched[c] - {txid}, h.watched[c]);
    }
  }

  lemma IndexDropped<C>(h: Registry<C>, c: C)
    requires Index(h)
    ensures Index(Dropped(h, c))
  {
    var v := Dropped(h, c);
    forall d, t | d in v.clients ensures t in v.watched[d] <==> d in WatchersOf(v.watchers, t) {
      assert t in h.watched[d] <==> d in WatchersOf(h.watchers, t);
    }
    SubsetSize(v.clients, h.clients);
  }

  lemma IndexStep<C>(h: Registry<C>, e: Event<C>)
    requires Index(h) && Enabled(h, e)
    ensures Index(Step(h, e))
  {
    match e
    case Register(c) => IndexRegistered(h, c);
    case Watch(c, t) => IndexWatching(h, c, t);
    case Unwatch(c, t) => IndexUnwatching(h, c, t);
    case Unregister(c) => IndexDropped(h, c);
  }

  ghost predicate Run<C>(h: Registry<C>, es: seq<Event<C>>)
    requires h.watched.Keys == h.clients
    decreases |es|
  {
    es != [] ==> Enabled(h, es[0]) && Run(Step(h, es[0]), es[1..])
  }

  function After<C>(h: Registry<C>, es: seq<Event<C>>): Registry<C>
    requires h.watched.Keys == h.clients
    decreases |es|
  {
    if es == [] then h else After(Step(h, es[0]), es[1..])
  }

  /** Over every sequence of events the two halves stay in step and within their caps. */
  lemma {:induction false} IndexHolds<C>(h: Registry<C>, es: seq<Event<C>>)
    requires Index(h) && Run(h, es)
    ensures Index(After(h, es))
    decreases |es|
  {
    if es != [] {
      IndexStep(h, es[0]);
      IndexHolds(Step(h, es[0]), es[1..]);
    }
  }

  /** The txid-side half holds no information of its own: it is the inverse of the other. */
  lemma WatchersAreTheInverse<C>(h: Registry<C>)
    requires Index(h)
    ensures forall t :: WatchersOf(h.watchers, t) == set c | c in h.clients && t in h.watched[c]
    ensures forall t :: t in h.watchers <==> exists c :: c in h.clients && t in h.watched[c]
  {
    forall t ensures t in h.watchers <==> exists c :: c in h.clients && t in h.watched[c] {
      if t in h.watchers {
        var c :| c in h.watchers[t];
        assert c in WatchersOf(h.watchers, t);
      }
      if c :| c in h.clients && t in h.watched[c] {
        assert c in WatchersOf(h.watchers, t);
      }
    }
  }

  /** After a drop no trace of the client is left, and nobody else notices. */
  lemma DropLeavesNoTrace<C>(h: Registry<C>, c: C)
    requires Index(h)
    ensures var v := Dropped(h, c);
      && c !in v.clients && (forall t :: c !in WatchersOf(v.watchers, t))
      && (forall d :: d in h.clients && d != c ==> d in v.clients && v.watched[d] == h.watched[d])
      && (forall t :: WatchersOf(v.watchers, t) == WatchersOf(h.watchers, t) - {c})
  {
  }

  /** A new connection is accepted exactly when no limit is set or there is room, with
      nothing watched; nobody else notices. */
  lemma AcceptedIffRoom<C>(h: Registry<C>, c: C)
    requires h.watched.Keys == h.clients && c !in h.clients
    ensures var v := Registered(h, c);
      && (c in v.clients <==> h.maxClients <= 0 || |h.clients| < h.maxClients)
      && (c in v.clients ==> v.watched == h.watched[c := {}] && v.clients == h.clients + {c})
      && (c !in v.clients ==> v == h)
  {
  }

  /** A watch of a registered client takes effect exactly when the txid is watched already
      or fewer than 32 are; a watch or an unwatch changes one client and one txid. */
  lemma WatchTakesEffectIff<C>(h: Registry<C>, c: C, txid: string)
    requires Index(h) && c in h.clients
    ensures txid in Watching(h, c, txid).watched[c] <==> txid in h.watched[c] || |h.watched[c]| < 32
    ensures txid !in Unwatching(h, c, txid).watched[c]
    ensures forall d, t :: d in h.clients && (d != c || t != txid) ==>
      && (t in Watching(h, c, txid).watched[d] <==> t in h.watched[d])
      && (t in Unwatching(h, c, txid).watched[d] <==> t in h.watched[d])
    ensures Watching(h, c, txid).clients == Unwatching(h, c, txid).clients == h.clients
  {
  }
}
