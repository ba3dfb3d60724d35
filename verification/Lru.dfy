/** The bounded least-recently-used cache (internal/explorer/cache.go): a map into a
    list of shared entries, against the recency order of all puts and hits. */
module Lru {
  import opened Options

  /** The contents as a value, most recently used first. */
  type Contents<V> = seq<(string, V)>

  function Find<V>(c: Contents<V>, key: string): (i: nat)
    ensures i <= |c| && (i < |c| ==> c[i].0 == key) && (forall j :: 0 <= j < i ==> c[j].0 != key)
  {
    if c == [] || c[0].0 == key then 0 else 1 + Find(c[1..], key)
  }

  function Holds<V>(c: Contents<V>, key: string): bool {
    Find(c, key) < |c|
  }

  function Without<V>(c: Contents<V>, i: nat): Contents<V>
    requires i < |c|
  {
    c[..i] + c[i + 1..]
  }

  function AfterGet<V>(c: Contents<V>, key: string): Contents<V> {
    if Holds(c, key) then [c[Find(c, key)]] + Without(c, Find(c, key)) else c
  }

  function AfterPut<V>(c: Contents<V>, cap: nat, key: string, val: V): Contents<V> {
    if Holds(c, key) then [(key, val)] + Without(c, Find(c, key))
    else if |c| + 1 > cap then ([(key, val)] + c)[..|c|]
    else [(key, val)] + c
  }

  function Lookup<V>(c: Contents<V>, key: string): Option<V> {
    if Holds(c, key) then Some(c[Find(c, key)].1) else None
  }

  lemma {:induction false} LookupConcat<V>(a: Contents<V>, b: Contents<V>, k: string)
    ensures Lookup(a + b, k) == if Holds(a, k) then Lookup(a, k) else Lookup(b, k)
    decreases |a|
  {
    if a == [] {
      assert a + b == b;
    } else {
      assert (a + b)[1..] == a[1..] + b;
      LookupConcat(a[1..], b, k);
    }
  }

  lemma LookupHead<V>(e: (string, V), c: Contents<V>, k: string)
    ensures Lookup([e] + c, k) == if k == e.0 then Some(e.1) else Lookup(c, k)
  {
    assert ([e] + c)[1..] == c;
  }

  lemma LookupMoved<V>(c: Contents<V>, f: nat, val: V, k: string)
    requires f < |c|
    ensures Lookup([(c[f].0, val)] + Without(c, f), k) == if k == c[f].0 then Some(val) else Lookup(c, k)
  {
    var front, back := c[..f], c[f + 1..];
    LookupHead((c[f].0, val), Without(c, f), k);
    if k != c[f].0 {
      LookupConcat(front, back, k);
      LookupConcat(front, [c[f]] + back, k);
      LookupHead(c[f], back, k);
      assert c == front + ([c[f]] + back);
    }
  }

  lemma LookupAfterGet<V>(c: Contents<V>, key: string, k: string)
    ensures Lookup(AfterGet(c, key), k) == Lookup(c, k)
  {
    if Holds(c, key) {
      LookupMoved(c, Find(c, key), c[Find(c, key)].1, k);
    }
  }

  /** A put changes no other value; it can only push other keys, or itself, out. */
  lemma LookupAfterPut<V>(c: Contents<V>, cap: nat, key: string, val: V, k: string)
    ensures Lookup(AfterPut(c, cap, key, val), k) == None
      || Lookup(AfterPut(c, cap, key, val), k) == if k == key then Some(val) else Lookup(c, k)
  {
    if Holds(c, key) {
      LookupMoved(c, Find(c, key), val, k);
    } else {
      var m := [(key, val)] + c;
      LookupHead((key, val), c, k);
      assert m == m[..|c|] + m[|c|..];
      LookupConcat(m[..|c|], m[|c|..], k);
    }
  }

  class LruEntry<V> {
    const key: string
    var val: V

    constructor (key: string, val: V)
      ensures this.key == key && this.val == val
    {
      this.key := key;
      this.val := val;
    }
  }

  ghost predicate DistinctKeys<V>(order: seq<LruEntry<V>>) {
    forall i, j :: 0 <= i < j < |order| ==> order[i].key != order[j].key
  }

  lemma MovedOrder<V>(s: seq<LruEntry<V>>, i: nat)
    requires i < |s| && DistinctKeys(s)
    ensures var m := [s[i]] + s[..i] + s[i + 1..]; |m| == |s| && DistinctKeys(m) && forall e :: e in m <==> e in s
  {
    var m := [s[i]] + s[..i] + s[i + 1..];
    assert forall j :: 0 <= j < |m| ==> m[j] == s[if j == 0 then i else if j <= i then j - 1 else j];
    assert s == s[..i] + [s[i]] + s[i + 1..];
  }

  lemma NewInFront<V>(e: LruEntry<V>, s: seq<LruEntry<V>>)
    requires DistinctKeys(s) && forall x :: x in s ==> x.key != e.key
    ensures DistinctKeys([e] + s) && forall x :: x in [e] + s <==> x == e || x in s
  {
    var m := [e] + s;
    forall i, j | 0 <= i < j < |m| ensures m[i].key != m[j].key {
      assert m[j] == s[j - 1];
      if i > 0 {
        assert m[i] == s[i - 1];
      }
    }
  }

  class LruCache<V> {
    const cap: nat
    var order: seq<LruEntry<V>>
    var items: map<string, LruEntry<V>>

    ghost predicate Valid()
      reads this
    {
      |order| <= cap && Linked()
    }

    /** Map and list hold the same entries, each under its own key. */
    ghost predicate Linked()
      reads this
    {
      && DistinctKeys(order)
      && (forall e :: e in order ==> e.key in items && items[e.key] == e)
      && (forall k :: k in items ==> items[k] in order && items[k].key == k)
    }

    /** The entries in the list. */
    ghost function Entries(): set<LruEntry<V>>
      reads this
    {
      set e | e in order
    }

    ghost function View(): Contents<V>
      reads this, order
    {
      Values(order)
    }

    constructor (capacity: nat)
      ensures Valid() && View() == [] && cap == capacity && order == []
    {
      cap := capacity;
      order := [];
      items := map[];
    }

    lemma FindIs(i: nat)
      requires Valid() && i < |order|
      ensures Find(View(), order[i].key) == i
    {
      var c, f := View(), Find(View(), order[i].key);
      assert c[i].0 == order[i].key;
      if f < |c| {
        assert c[f].0 == order[f].key;
      }
    }

    lemma FindNone(key: string)
      requires Valid() && key !in items
      ensures !Holds(View(), key)
    {
      assert forall j :: 0 <= j < |order| ==> View()[j].0 == order[j].key && order[j].key in items;
    }

    /** The list's MoveToFront. */
    method MoveToFront(i: nat)
      requires Valid() && i < |order|
      modifies this`order
      ensures Valid() && Entries() == old(Entries())
      ensures View() == [old(View())[i]] + Without(old(View()), i)
    {
      MovedOrder(order, i);
      MovedValues(order, i);
      order := [order[i]] + order[..i] + order[i + 1..];
    }

    /** Moving an entry moves its value. */
    lemma MovedValues(s: seq<LruEntry<V>>, i: nat)
      requires s == order && i < |s|
      ensures Values([s[i]] + s[..i] + s[i + 1..]) == [View()[i]] + Without(View(), i)
    {
    }

    ghost function Values(s: seq<LruEntry<V>>): Contents<V>
      reads s
    {
      seq(|s|, i requires 0 <= i < |s| reads s => (s[i].key, s[i].val))
    }

    method Get(key: string) returns (r: Option<V>)
      requires Valid()
      modifies this`order
      ensures Valid() && View() == AfterGet(old(View()), key)
      ensures r == Lookup(old(View()), key)
      ensures Entries() == old(Entries())
    {
      ghost var c := View();
      if key !in items {
        FindNone(key);
        return None;
      }
      var el := items[key];
      var i :| 0 <= i < |order| && order[i] == el;
      FindIs(i);
      assert c[i] == (key, el.val);
      MoveToFront(i);
      r := Some(el.val);
    }

    method Clear()
      requires Valid()
      modifies this`order, this`items
      ensures Valid() && View() == []
    {
      order := [];
      items := map[];
    }

    /** Replaces the value of a held key and moves it to the front. */
    method Refresh(key: string, val: V)
      requires Valid() && key in items
      modifies this`order, items[key]
      ensures Valid() && Entries() == old(Entries())
      ensures View() == AfterPut(old(View()), cap, key, val)
    {
      ghost var c := View();
      var el := items[key];
      var i :| 0 <= i < |order| && order[i] == el;
      FindIs(i);
      assert forall j :: 0 <= j < |order| && j != i ==> order[j] != el;
      el.val := val;
      assert View() == c[i := (key, val)];
      assert Without(View(), i) == Without(c, i);
      MoveToFront(i);
    }

    /** The list's PushFront and the map entry for it. */
    method PushFront(key: string, val: V)
      requires Linked() && key !in items
      modifies this`order, this`items
      ensures Linked() && View() == [(key, val)] + old(View())
      ensures |order| == |old(order)| + 1 && fresh(order[0]) && order[1..] == old(order)
    {
      ghost var c, was := View(), order;
      var front := new LruEntry(key, val);
      order := [front] + order;
      items := items[key := front];
      NewInFront(front, was);
      assert View() == [(key, val)] + c;
    }

    method RemoveOldest()
      requires Linked() && |order| == cap + 1
      modifies this`order, this`items
      ensures Valid() && order == old(order)[..cap] && View() == old(View())[..cap]
    {
      var oldest := order[cap];
      ghost var was := order;
      order := order[..cap];
      items := items - {oldest.key};
      forall k | k in items ensures items[k] in order {
        var j :| 0 <= j < |was| && was[j] == items[k];
        assert order[j] == was[j];
      }
    }

    method Put(key: string, val: V)
      requires Valid()
      modifies this, Entries()
      ensures Valid() && View() == AfterPut(old(View()), cap, key, val)
      ensures fresh(Entries() - old(Entries()))
    {
      if key in items {
        Refresh(key, val);
        return;
      }
      FindNone(key);
      PushFront(key, val);
      assert forall e :: e in order ==> e == order[0] || e in order[1..];
      if |order| > cap {
        RemoveOldest();
      }
    }
  }
}
