/** What "least recently used" means, over every history of calls
    (internal/explorer/cache.go): a key is held exactly when fewer than `cap` distinct
    other keys were put or hit after it. */
module LruRecency {
  import opened Options
  import opened Lru
  import opened Collections

  datatype Op<V> =
    | PutOp(key: string, val: V)
    | GetOp(key: string)
    | ClearOp

  /** One use of a key: a put with its value, or a hit. */
  datatype Touch<V> = Touch(key: string, val: Option<V>)

  /** The cache and the log of uses since the last clear. */
  datatype State<V> = State(contents: Contents<V>, log: seq<Touch<V>>)

  function Step<V>(s: State<V>, cap: nat, op: Op<V>): State<V> {
    match op
    case PutOp(k, v) => State(AfterPut(s.contents, cap, k, v), s.log + [Touch(k, Some(v))])
    case GetOp(k) =>
      if Holds(s.contents, k) then State(AfterGet(s.contents, k), s.log + [Touch(k, None)]) else s
    case ClearOp => State([], [])
  }

  function After<V>(cap: nat, ops: seq<Op<V>>): State<V> {
    if ops == [] then State([], []) else Step(After(cap, ops[..|ops| - 1]), cap, ops[|ops| - 1])
  }

  ghost predicate Touched<V>(log: seq<Touch<V>>, key: string) {
    exists i :: 0 <= i < |log| && log[i].key == key
  }

  /** The distinct keys used after the last use of `key`. */
  function Since<V>(log: seq<Touch<V>>, key: string): set<string> {
    if log == [] || log[|log| - 1].key == key then {}
    else Since(log[..|log| - 1], key) + {log[|log| - 1].key}
  }

  /** The value of the last put of `key`. */
  function LastPut<V>(log: seq<Touch<V>>, key: string): Option<V> {
    if log == [] then None
    else if log[|log| - 1].key == key && log[|log| - 1].val.Some? then log[|log| - 1].val
    else LastPut(log[..|log| - 1], key)
  }

  ghost function Keys<V>(c: Contents<V>): set<string> {
    set i | 0 <= i < |c| :: c[i].0
  }

  ghost predicate OncePerKey<V>(c: Contents<V>) {
    forall i, j :: 0 <= i < j < |c| ==> c[i].0 != c[j].0
  }

  /** The i-th entry is the one with exactly the keys before it used since. */
  ghost predicate Ranked<V>(e: (string, V), before: Contents<V>, log: seq<Touch<V>>) {
    Touched(log, e.0) && LastPut(log, e.0) == Some(e.1) && Since(log, e.0) == Keys(before)
  }

  ghost predicate RankedAll<V>(c: Contents<V>, log: seq<Touch<V>>) {
    forall i {:trigger c[i]} :: 0 <= i < |c| ==> Ranked(c[i], c[..i], log)
  }

  /** Used keys that are not held have at least `cap` keys used since. */
  ghost predicate OthersOut<V>(c: Contents<V>, log: seq<Touch<V>>, cap: nat) {
    forall k {:trigger Touched(log, k)} :: Touched(log, k) && k !in Keys(c) ==> |Since(log, k)| >= cap
  }

  ghost predicate Recency<V>(s: State<V>, cap: nat) {
    && |s.contents| <= cap && OncePerKey(s.contents)
    && RankedAll(s.contents, s.log) && OthersOut(s.contents, s.log, cap)
  }

  lemma {:induction false} KeysSize<V>(c: Contents<V>)
    requires OncePerKey(c)
    ensures |Keys(c)| == |c|
  {
    if c != [] {
      var n := |c| - 1;
      KeysSize(c[..n]);
      assert Keys(c) == Keys(c[..n]) + {c[n].0};
    }
  }

  lemma HoldsIffKey<V>(c: Contents<V>, key: string)
    ensures Holds(c, key) <==> key in Keys(c)
  {
    if key in Keys(c) {
      var i :| 0 <= i < |c| && c[i].0 == key;
    }
  }

  lemma UsedOnce<V>(log: seq<Touch<V>>, t: Touch<V>, k: string)
    ensures Touched(log + [t], k) <==> Touched(log, k) || k == t.key
    ensures Since(log + [t], k) == if k == t.key then {} else Since(log, k) + {t.key}
    ensures LastPut(log + [t], k) == if k == t.key && t.val.Some? then t.val else LastPut(log, k)
  {
    var more := log + [t];
    assert more[..|log|] == log;
    if Touched(log, k) {
      var i :| 0 <= i < |log| && log[i].key == k;
      assert more[i].key == k;
    }
    assert more[|log|] == t;
  }

  /** Another key's rank after a use of `t.key`. */
  lemma RankedAfter<V>(e: (string, V), before: Contents<V>, later: Contents<V>, log: seq<Touch<V>>, t: Touch<V>)
    requires Ranked(e, before, log) && e.0 != t.key
    requires Keys(later) == Keys(before) + {t.key}
    ensures Ranked(e, later, log + [t])
  {
    UsedOnce(log, t, e.0);
  }

  lemma NewestIsRanked<V>(log: seq<Touch<V>>, t: Touch<V>, val: V)
    requires t.val == Some(val) || (t.val == None && LastPut(log, t.key) == Some(val))
    ensures Ranked((t.key, val), [], log + [t])
  {
    UsedOnce(log, t, t.key);
    var empty: Contents<V> := [];
    assert Keys(empty) == {};
  }

  lemma MovedRank<V>(c: Contents<V>, log: seq<Touch<V>>, f: nat, val: V, t: Touch<V>, i: nat)
    requires RankedAll(c, log) && OncePerKey(c) && f < |c| && c[f].0 == t.key && i < |c|
    requires t.val == Some(val) || (t.val == None && c[f].1 == val)
    ensures var m := [(t.key, val)] + Without(c, f); Ranked(m[i], m[..i], log + [t])
  {
    var m := [(t.key, val)] + Without(c, f);
    if i == 0 {
      assert Ranked(c[f], c[..f], log);
      NewestIsRanked(log, t, val);
      assert m[..0] == [];
    } else if i <= f {
      assert m[i] == c[i - 1] && m[..i] == [(t.key, val)] + c[..i - 1];
      KeysOfFront(m[..i], (t.key, val), c[..i - 1]);
      RankedAfter(c[i - 1], c[..i - 1], m[..i], log, t);
    } else {
      assert m[i] == c[i] && c[..i] == c[..f] + [c[f]] + c[f + 1..i];
      assert m[..i] == [(t.key, val)] + (c[..f] + c[f + 1..i]);
      KeysOfFront(m[..i], (t.key, val), c[..f] + c[f + 1..i]);
      KeysOfParts(c[..f], c[f], c[f + 1..i]);
      RankedAfter(c[i], c[..i], m[..i], log, t);
    }
  }

  lemma MovedKeys<V>(c: Contents<V>, f: nat, e: (string, V))
    requires OncePerKey(c) && f < |c| && c[f].0 == e.0
    ensures OncePerKey([e] + Without(c, f)) && Keys([e] + Without(c, f)) == Keys(c)
  {
    assert c == c[..f] + [c[f]] + c[f + 1..];
    KeysOfParts(c[..f], c[f], c[f + 1..]);
    KeysOfFront([e] + Without(c, f), e, Without(c, f));
  }

  /** Contents with `t.key` taken out of position f and put in front. */
  lemma MovedToFront<V>(s: State<V>, cap: nat, f: nat, val: V, t: Touch<V>)
    requires Recency(s, cap) && f < |s.contents| && s.contents[f].0 == t.key
    requires t.val == Some(val) || (t.val == None && s.contents[f].1 == val)
    ensures Recency(State([(t.key, val)] + Without(s.contents, f), s.log + [t]), cap)
  {
    var m := [(t.key, val)] + Without(s.contents, f);
    assert RankedAll(m, s.log + [t]) by {
      forall i | 0 <= i < |m| ensures Ranked(m[i], m[..i], s.log + [t]) {
        MovedRank(s.contents, s.log, f, val, t, i);
      }
    }
    assert t.key in Keys(s.contents);
    MovedKeys(s.contents, f, (t.key, val));
    OthersStayOut(s.contents, s.log, m, cap, t);
  }

  lemma KeysConcat<V>(a: Contents<V>, b: Contents<V>)
    ensures Keys(a + b) == Keys(a) + Keys(b)
  {
    var m := a + b;
    forall k | k in Keys(m) ensures k in Keys(a) + Keys(b) {
      var i :| 0 <= i < |m| && m[i].0 == k;
      if i < |a| {
        assert a[i] == m[i];
      } else {
        assert b[i - |a|] == m[i];
      }
    }
    assert forall i :: 0 <= i < |a| ==> m[i] == a[i];
    assert forall i :: 0 <= i < |b| ==> m[|a| + i] == b[i];
  }

  lemma KeysOfOne<V>(e: (string, V))
    ensures Keys([e]) == {e.0}
  {
    assert [e][0] == e;
  }

  lemma KeysOfFront<V>(m: Contents<V>, e: (string, V), c: Contents<V>)
    requires m == [e] + c
    ensures Keys(m) == {e.0} + Keys(c)
  {
    KeysOfOne(e);
    KeysConcat([e], c);
  }

  lemma KeysOfParts<V>(a: Contents<V>, e: (string, V), b: Contents<V>)
    ensures Keys(a + [e] + b) == {e.0} + Keys(a + b)
  {
    KeysOfOne(e);
    KeysConcat(a + [e], b);
    KeysConcat(a, [e]);
    KeysConcat(a, b);
  }

  /** Keys outside the cache only sink further. */
  lemma OthersStayOut<V>(c: Contents<V>, log: seq<Touch<V>>, m: Contents<V>, cap: nat, t: Touch<V>)
    requires OthersOut(c, log, cap) && Keys(m) == Keys(c) + {t.key}
    ensures OthersOut(m, log + [t], cap)
  {
    forall k | Touched(log + [t], k) && k !in Keys(m) ensures |Since(log + [t], k)| >= cap {
      UsedOnce(log, t, k);
      SubsetSize(Since(log, k), Since(log, k) + {t.key});
    }
  }

  lemma NewRank<V>(c: Contents<V>, log: seq<Touch<V>>, key: string, val: V, i: nat)
    requires RankedAll(c, log) && key !in Keys(c) && i <= |c|
    ensures var m := [(key, val)] + c; Ranked(m[i], m[..i], log + [Touch(key, Some(val))])
  {
    var m, t := [(key, val)] + c, Touch(key, Some(val));
    if i == 0 {
      NewestIsRanked(log, t, val);
      assert m[..0] == [];
    } else {
      assert m[i] == c[i - 1] && m[..i] == [(key, val)] + c[..i - 1];
      KeysOfFront(m[..i], (key, val), c[..i - 1]);
      RankedAfter(c[i - 1], c[..i - 1], m[..i], log, t);
    }
  }

  lemma NewKeys<V>(c: Contents<V>, e: (string, V))
    requires OncePerKey(c) && e.0 !in Keys(c)
    ensures OncePerKey([e] + c) && Keys([e] + c) == {e.0} + Keys(c)
  {
    KeysOfFront([e] + c, e, c);
    forall i | 0 <= i < |c| ensures c[i].0 in Keys(c) {
    }
  }

  lemma PutNew<V>(s: State<V>, cap: nat, key: string, val: V)
    requires Recency(s, cap) && !Holds(s.contents, key)
    ensures Recency(Step(s, cap, PutOp(key, val)), cap)
  {
    var c, t := s.contents, Touch(key, Some(val));
    var m, log := [(key, val)] + c, s.log + [t];
    HoldsIffKey(c, key);
    assert RankedAll(m, log) by {
      forall i | 0 <= i < |m| ensures Ranked(m[i], m[..i], log) {
        NewRank(c, s.log, key, val, i);
      }
    }
    NewKeys(c, (key, val));
    OthersStayOut(c, s.log, m, cap, t);
    if |c| + 1 > cap {
      OldestIsOut(m, cap, log);
    }
  }

  lemma RankedFront<V>(m: Contents<V>, n: nat, log: seq<Touch<V>>)
    requires n <= |m| && RankedAll(m, log)
    ensures RankedAll(m[..n], log)
  {
    hide Ranked;
    var kept := m[..n];
    forall i | 0 <= i < |kept| ensures Ranked(kept[i], kept[..i], log) {
      assert kept[..i] == m[..i] && kept[i] == m[i];
    }
  }

  /** The entry that no longer fits has `cap` distinct keys after it. */
  lemma OldestIsOut<V>(m: Contents<V>, cap: nat, log: seq<Touch<V>>)
    requires |m| == cap + 1 && OncePerKey(m) && RankedAll(m, log) && OthersOut(m, log, cap)
    ensures Recency(State(m[..cap], log), cap)
  {
    hide Since, LastPut, Keys;
    var kept := m[..cap];
    RankedFront(m, cap, log);
    KeysSize(kept);
    assert Since(log, m[cap].0) == Keys(kept) by {
      assert Ranked(m[cap], m[..cap], log);
    }
    hide Ranked;
    forall k | Touched(log, k) && k !in Keys(kept) ensures |Since(log, k)| >= cap {
      KeysOfLast(m, k);
    }
  }

  lemma KeysOfLast<V>(m: Contents<V>, k: string)
    requires m != [] && k !in Keys(m[..|m| - 1])
    ensures k in Keys(m) ==> k == m[|m| - 1].0
  {
    var front, last := m[..|m| - 1], m[|m| - 1];
    assert m == front + [last] + [] && front + [] == front;
    KeysOfParts(front, last, []);
  }

  lemma RecencyStep<V>(s: State<V>, cap: nat, op: Op<V>)
    requires Recency(s, cap)
    ensures Recency(Step(s, cap, op), cap)
  {
    match op
    case PutOp(k, v) =>
      if Holds(s.contents, k) {
        MovedToFront(s, cap, Find(s.contents, k), v, Touch(k, Some(v)));
      } else {
        PutNew(s, cap, k, v);
      }
    case GetOp(k) =>
      if Holds(s.contents, k) {
        var f := Find(s.contents, k);
        assert s.contents[f] == (k, s.contents[f].1);
        MovedToFront(s, cap, f, s.contents[f].1, Touch(k, None));
      }
    case ClearOp =>
  }

  lemma {:induction false} RecencyHolds<V>(cap: nat, ops: seq<Op<V>>)
    ensures Recency(After(cap, ops), cap)
  {
    if ops != [] {
      RecencyHolds(cap, ops[..|ops| - 1]);
      RecencyStep(After(cap, ops[..|ops| - 1]), cap, ops[|ops| - 1]);
    }
  }

  /** After any history: held means used, with fewer than `cap` other keys used since;
      and a held key has the value of its last put. */
  lemma HeldIffRecent<V>(cap: nat, ops: seq<Op<V>>, key: string)
    ensures var s := After(cap, ops);
      && (Holds(s.contents, key) <==> Touched(s.log, key) && |Since(s.log, key)| < cap)
      && (Holds(s.contents, key) ==> Lookup(s.contents, key) == LastPut(s.log, key))
      && |s.contents| <= cap
  {
    RecencyHolds(cap, ops);
    var s := After(cap, ops);
    HoldsIffKey(s.contents, key);
    if Holds(s.contents, key) {
      var i := Find(s.contents, key);
      assert Ranked(s.contents[i], s.contents[..i], s.log);
      KeysSize(s.contents[..i]);
    }
  }
}
