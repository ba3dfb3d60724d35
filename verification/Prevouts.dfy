/** Resolving inputs through the outpoint cache (resolvePrevouts, internal/explorer/tx.go):
    with any consistent cache the result is that without one. */
module Prevouts {
  import opened Options
  import opened Collections
  import opened Lru
  import opened Transactions

  datatype Vin = Vin(txid: string, vout: nat)

  /** The node's answer for a txid: chain data never changes. An unparsable txid fails too. */
  datatype Fetch =
    | Found(vouts: seq<Vout>)
    | Failed(error: string)

  datatype Resolved =
    | Prevouts(all: seq<Prevout>)
    | FetchFailed(txid: string, error: string)
    | OutOfRange(txid: string, vout: nat)

  // ----- Cache keys ---------------------------------------------------------------

  function Digit(d: nat): (c: char)
    requires d < 10
    ensures c != ':'
  {
    "0123456789"[d]
  }

  function Decimal(n: nat): (s: string)
    ensures s != [] && ':' !in s
  {
    if n < 10 then [Digit(n)] else Decimal(n / 10) + [Digit(n % 10)]
  }

  function Key(txid: string, vout: nat): string {
    txid + ":" + Decimal(vout)
  }

  lemma {:induction false} DecimalInjective(a: nat, b: nat)
    requires Decimal(a) == Decimal(b)
    ensures a == b
  {
    var s := Decimal(a);
    assert s[|s| - 1] == Digit(a % 10) && s[|s| - 1] == Digit(b % 10);
    assert a % 10 == b % 10;
    if a >= 10 && b >= 10 {
      assert Decimal(a / 10) == s[..|s| - 1] == Decimal(b / 10);
      DecimalInjective(a / 10, b / 10);
    }
  }

  /** Two outpoints never share a cache entry. */
  lemma KeyInjective(t1: string, n1: nat, t2: string, n2: nat)
    requires Key(t1, n1) == Key(t2, n2)
    ensures t1 == t2 && n1 == n2
  {
    var k, d1, d2 := Key(t1, n1), Decimal(n1), Decimal(n2);
    var c1, c2 := |t1|, |t2|;
    assert k[c1] == ':' && k[c2] == ':';
    forall i | c1 < i < |k| ensures k[i] != ':' {
      assert k[i] == d1[i - c1 - 1] && d1[i - c1 - 1] in d1;
    }
    forall i | c2 < i < |k| ensures k[i] != ':' {
      assert k[i] == d2[i - c2 - 1] && d2[i - c2 - 1] in d2;
    }
    assert c1 == c2;
    assert t1 == k[..c1] == t2;
    assert d1 == k[c1 + 1..] == d2;
    DecimalInjective(n1, n2);
  }

  // ----- Resolution -----------------------------------------------------------------

  function ResolveOne(backend: string -> Fetch, vin: Vin): Resolved {
    match backend(vin.txid)
    case Failed(e) => FetchFailed(vin.txid, e)
    case Found(vouts) => if vin.vout >= |vouts| then OutOfRange(vin.txid, vin.vout) else Prevouts([PrevoutOf(vouts[vin.vout])])
  }

  /** The result without any cache: inputs in order, up to the first failure. */
  function Uncached(backend: string -> Fetch, vins: seq<Vin>): Resolved {
    if vins == [] then Prevouts([])
    else
      var before := Uncached(backend, vins[..|vins| - 1]);
      var last := ResolveOne(backend, vins[|vins| - 1]);
      if !before.Prevouts? then before
      else if !last.Prevouts? then last
      else Prevouts(before.all + last.all)
  }

  /** The output that the input spends exists, and p is its value, addresses and type. */
  ghost predicate Spends(backend: string -> Fetch, vin: Vin, p: Prevout) {
    && backend(vin.txid).Found? && vin.vout < |backend(vin.txid).vouts|
    && var v := backend(vin.txid).vouts[vin.vout];
       p.valueSats == v.sats && p.addrs == VoutAddrs(v) && p.scriptType == v.code
  }

  /** The input cannot be resolved, and r says why. */
  ghost predicate FailsWith(backend: string -> Fetch, vin: Vin, r: Resolved) {
    match backend(vin.txid)
    case Failed(e) => r == FetchFailed(vin.txid, e)
    case Found(vouts) => vin.vout >= |vouts| && r == OutOfRange(vin.txid, vin.vout)
  }

  ghost predicate Resolvable(backend: string -> Fetch, vin: Vin) {
    backend(vin.txid).Found? && vin.vout < |backend(vin.txid).vouts|
  }

  /** Row by row: the spent output of every input, or the failure of the first input
      that has one. */
  ghost predicate IsResolution(backend: string -> Fetch, vins: seq<Vin>, r: Resolved) {
    if r.Prevouts? then
      |r.all| == |vins| && forall i :: 0 <= i < |vins| ==> Spends(backend, vins[i], r.all[i])
    else
      exists i :: 0 <= i < |vins| && FailsWith(backend, vins[i], r) && forall j :: 0 <= j < i ==> Resolvable(backend, vins[j])
  }

  lemma {:induction false} UncachedIsResolution(backend: string -> Fetch, vins: seq<Vin>)
    ensures IsResolution(backend, vins, Uncached(backend, vins))
  {
    if vins != [] {
      var n := |vins| - 1;
      var before, last := Uncached(backend, vins[..n]), ResolveOne(backend, vins[n]);
      UncachedIsResolution(backend, vins[..n]);
      if !before.Prevouts? {
        var i :| 0 <= i < n && FailsWith(backend, vins[..n][i], before)
                 && forall j :: 0 <= j < i ==> Resolvable(backend, vins[..n][j]);
        assert FailsWith(backend, vins[i], before);
        assert forall j :: 0 <= j < i ==> vins[j] == vins[..n][j];
      } else {
        forall j | 0 <= j < n ensures Spends(backend, vins[j], before.all[j]) && Resolvable(backend, vins[j]) {
          assert Spends(backend, vins[..n][j], before.all[j]);
        }
        if last.Prevouts? {
          assert Spends(backend, vins[n], last.all[0]);
        } else {
          assert FailsWith(backend, vins[n], last);
        }
      }
    }
  }

  lemma {:induction false} FailureIsFinal(backend: string -> Fetch, vins: seq<Vin>, n: nat)
    requires n <= |vins| && !Uncached(backend, vins[..n]).Prevouts?
    ensures Uncached(backend, vins) == Uncached(backend, vins[..n])
    decreases |vins|
  {
    if n == |vins| {
      assert vins[..n] == vins;
    } else {
      var front := vins[..|vins| - 1];
      assert front[..n] == vins[..n];
      FailureIsFinal(backend, front, n);
    }
  }

  /** Every entry is what the node would answer for its outpoint. */
  ghost predicate Consistent(c: Contents<Prevout>, backend: string -> Fetch) {
    forall txid, n: nat {:trigger Key(txid, n)} :: Holds(c, Key(txid, n)) ==>
      ResolveOne(backend, Vin(txid, n)) == Prevouts([Lookup(c, Key(txid, n)).value])
  }

  lemma GetKeepsConsistent(c: Contents<Prevout>, backend: string -> Fetch, key: string)
    requires Consistent(c, backend)
    ensures Consistent(AfterGet(c, key), backend)
  {
    forall txid, n: nat | Holds(AfterGet(c, key), Key(txid, n))
      ensures ResolveOne(backend, Vin(txid, n)) == Prevouts([Lookup(AfterGet(c, key), Key(txid, n)).value])
    {
      LookupAfterGet(c, key, Key(txid, n));
    }
  }

  lemma PutKeepsConsistent(c: Contents<Prevout>, cap: nat, backend: string -> Fetch, vin: Vin, p: Prevout)
    requires Consistent(c, backend) && ResolveOne(backend, vin) == Prevouts([p])
    ensures Consistent(AfterPut(c, cap, Key(vin.txid, vin.vout), p), backend)
  {
    var key := Key(vin.txid, vin.vout);
    var after := AfterPut(c, cap, key, p);
    forall txid, n: nat | Holds(after, Key(txid, n))
      ensures ResolveOne(backend, Vin(txid, n)) == Prevouts([Lookup(after, Key(txid, n)).value])
    {
      LookupAfterPut(c, cap, key, p, Key(txid, n));
      if Key(txid, n) == key {
        KeyInjective(txid, n, vin.txid, vin.vout);
      }
    }
  }

  ghost predicate AllHeld(c: Contents<Prevout>, vins: seq<Vin>) {
    forall i :: 0 <= i < |vins| ==> Holds(c, Key(vins[i].txid, vins[i].vout))
  }

  /** The parents fetched so far in this call, each once and as the node gave them. */
  ghost predicate Parents(parents: map<string, seq<Vout>>, fetched: seq<string>, backend: string -> Fetch) {
    && (forall t :: t in parents <==> t in fetched)
    && (forall t :: t in parents ==> backend(t) == Found(parents[t]))
    && Distinct(fetched)
  }

  lemma ParentsOneMore(parents: map<string, seq<Vout>>, fetched: seq<string>, backend: string -> Fetch, t: string)
    requires Parents(parents, fetched, backend) && t !in parents
    ensures Distinct(fetched + [t])
    ensures backend(t).Found? ==> Parents(parents[t := backend(t).vouts], fetched + [t], backend)
  {
    var more := fetched + [t];
    assert forall j :: 0 <= j < |fetched| ==> more[j] == fetched[j] && fetched[j] in fetched;
    assert forall x :: x in more <==> x in fetched || x == t;
  }

  /** One input that missed the cache: its parent is fetched unless this call has it. */
  method ResolveMiss(backend: string -> Fetch, vin: Vin, parents: map<string, seq<Vout>>, fetched: seq<string>)
      returns (r: Resolved, parents': map<string, seq<Vout>>, fetched': seq<string>)
    requires Parents(parents, fetched, backend)
    ensures r == ResolveOne(backend, vin)
    ensures r.Prevouts? ==> Parents(parents', fetched', backend)
    ensures Distinct(fetched')
  {
    parents', fetched' := parents, fetched;
    if vin.txid !in parents {
      ParentsOneMore(parents, fetched, backend, vin.txid);
      fetched' := fetched + [vin.txid];
      match backend(vin.txid) {
        case Failed(e) => return FetchFailed(vin.txid, e), parents', fetched';
        case Found(vouts) => parents' := parents[vin.txid := vouts];
      }
    }
    var parent := parents'[vin.txid];
    if vin.vout >= |parent| {
      return OutOfRange(vin.txid, vin.vout), parents', fetched';
    }
    r := Prevouts([PrevoutOf(parent[vin.vout])]);
  }

  lemma OneMore(backend: string -> Fetch, vins: seq<Vin>, i: nat, out: seq<Prevout>)
    requires i < |vins| && Uncached(backend, vins[..i]) == Prevouts(out)
    ensures var last := ResolveOne(backend, vins[i]);
      if last.Prevouts? then Uncached(backend, vins[..i + 1]) == Prevouts(out + last.all)
      else Uncached(backend, vins) == last
  {
    assert vins[..i + 1][..i] == vins[..i];
    if !ResolveOne(backend, vins[i]).Prevouts? {
      FailureIsFinal(backend, vins, i + 1);
    }
  }

  /** A get through the cache: a hit is what the node would have answered. */
  method GetThrough(cache: LruCache<Prevout>, ghost backend: string -> Fetch, vin: Vin) returns (hit: Option<Prevout>)
    requires cache.Valid() && Consistent(cache.View(), backend)
    modifies cache`order
    ensures cache.Valid() && Consistent(cache.View(), backend)
    ensures cache.Entries() == old(cache.Entries())
    ensures SameLookups(cache.View(), old(cache.View()))
    ensures hit == Lookup(old(cache.View()), Key(vin.txid, vin.vout))
    ensures hit.Some? ==> ResolveOne(backend, vin) == Prevouts([hit.value])
  {
    ghost var c := cache.View();
    hit := cache.Get(Key(vin.txid, vin.vout));
    GetKeepsConsistent(c, backend, Key(vin.txid, vin.vout));
    forall k ensures Lookup(cache.View(), k) == Lookup(c, k) {
      LookupAfterGet(c, Key(vin.txid, vin.vout), k);
    }
  }

  method PutThrough(cache: LruCache<Prevout>, ghost backend: string -> Fetch, vin: Vin, p: Prevout)
    requires cache.Valid() && Consistent(cache.View(), backend) && ResolveOne(backend, vin) == Prevouts([p])
    modifies cache, cache.Entries()
    ensures cache.Valid() && Consistent(cache.View(), backend)
    ensures fresh(cache.Entries() - old(cache.Entries()))
  {
    PutKeepsConsistent(cache.View(), cache.cap, backend, vin, p);
    cache.Put(Key(vin.txid, vin.vout), p);
  }

  ghost predicate SameLookups(a: Contents<Prevout>, b: Contents<Prevout>) {
    forall k :: Lookup(a, k) == Lookup(b, k)
  }

  /** One round of the loop: a hit fetches nothing and leaves all entries as they are. */
  method ResolveInput(cache: LruCache<Prevout>, backend: string -> Fetch, vin: Vin,
                      parents: map<string, seq<Vout>>, fetched: seq<string>)
      returns (r: Resolved, parents': map<string, seq<Vout>>, fetched': seq<string>)
    requires cache.Valid() && Consistent(cache.View(), backend) && Parents(parents, fetched, backend)
    modifies cache, cache.Entries()
    ensures cache.Valid() && Consistent(cache.View(), backend)
    ensures fresh(cache.Entries() - old(cache.Entries()))
    ensures r == ResolveOne(backend, vin)
    ensures r.Prevouts? ==> Parents(parents', fetched', backend)
    ensures Distinct(fetched')
    ensures Holds(old(cache.View()), Key(vin.txid, vin.vout)) ==>
      r.Prevouts? && fetched' == fetched && SameLookups(cache.View(), old(cache.View()))
  {
    var hit := GetThrough(cache, backend, vin);
    if hit.Some? {
      return Prevouts([hit.value]), parents, fetched;
    }
    r, parents', fetched' := ResolveMiss(backend, vin, parents, fetched);
    if r.Prevouts? {
      PutThrough(cache, backend, vin, r.all[0]);
    }
  }

  lemma HeldStays(c: Contents<Prevout>, c0: Contents<Prevout>, vins: seq<Vin>, i: nat)
    requires i < |vins| && AllHeld(c0, vins) && SameLookups(c, c0)
    ensures Holds(c, Key(vins[i].txid, vins[i].vout))
  {
    var key := Key(vins[i].txid, vins[i].vout);
    assert Lookup(c, key) == Lookup(c0, key);
  }

  /** `fetched` lists the parents asked for, in order. */
  method ResolvePrevouts(cache: LruCache<Prevout>, backend: string -> Fetch, vins: seq<Vin>)
      returns (r: Resolved, fetched: seq<string>)
    requires cache.Valid() && Consistent(cache.View(), backend)
    modifies cache, cache.Entries()
    ensures cache.Valid() && Consistent(cache.View(), backend)
    ensures r == Uncached(backend, vins) && IsResolution(backend, vins, r)
    ensures Distinct(fetched)
    ensures AllHeld(old(cache.View()), vins) ==> fetched == []
  {
    UncachedIsResolution(backend, vins);
    hide IsResolution;
    fetched := [];
    var out: seq<Prevout> := [];
    var parents: map<string, seq<Vout>> := map[];
    ghost var c0 := cache.View();
    ghost var held := AllHeld(c0, vins);
    for i := 0 to |vins|
      invariant cache.Valid() && Consistent(cache.View(), backend)
      invariant fresh(cache.Entries() - old(cache.Entries()))
      invariant Uncached(backend, vins[..i]) == Prevouts(out) && Parents(parents, fetched, backend)
      invariant held ==> fetched == [] && SameLookups(cache.View(), c0)
    {
      OneMore(backend, vins, i, out);
      if held {
        HeldStays(cache.View(), c0, vins, i);
      }
      r, parents, fetched := ResolveInput(cache, backend, vins[i], parents, fetched);
      if !r.Prevouts? {
        return;
      }
      out := out + r.all;
    }
    assert vins[..|vins|] == vins;
    r := Prevouts(out);
  }
}
