/** The buffer of recent arrivals and its join with the mempool snapshot
    (internal/explorer/arrivals.go), against the log of all arrivals. */
module Arrivals {
  import opened Options
  import opened Lru
  import opened LruRecency
  import opened Collections
  import opened Snapshots

  const ARRIVALS_CAP := 12
  const ARRIVAL_MAX_AGE := 300_000_000_000

  /** What is remembered of an arrival besides its txid. */
  datatype Seen = Seen(amountSats: int, at: nat)

  predicate TooOld(e: (string, Seen), now: nat) {
    now - e.1.at > ARRIVAL_MAX_AGE
  }

  /** The older entries that a new arrival of `txid` leaves: none beyond the room or the
      first one that is too old, and not the same transaction again. */
  function Kept(older: Contents<Seen>, txid: string, now: nat, room: nat): Contents<Seen> {
    if older == [] || room == 0 || TooOld(older[0], now) then []
    else if older[0].0 == txid then Kept(older[1..], txid, now, room)
    else [older[0]] + Kept(older[1..], txid, now, room - 1)
  }

  function Noted(buffer: Contents<Seen>, txid: string, s: Seen): Contents<Seen> {
    [(txid, s)] + Kept(buffer, txid, s.at, ARRIVALS_CAP - 1)
  }

  datatype Arrival = Arrival(txid: string, amountSats: int, feeRate: real, vsize: nat, time: int)

  function RowOf(txid: string, s: Seen, snapshot: Snapshot): Arrival
    requires txid in snapshot
  {
    Arrival(txid, s.amountSats, snapshot[txid].feeRate, snapshot[txid].vsize, snapshot[txid].time)
  }

  function Joined(buffer: Contents<Seen>, snapshot: Snapshot): seq<Arrival> {
    if buffer == [] then []
    else
      var (txid, s) := buffer[|buffer| - 1];
      Joined(buffer[..|buffer| - 1], snapshot) + if txid in snapshot then [RowOf(txid, s, snapshot)] else []
  }

  class ArrivalsBuffer {
    var arrivals: Contents<Seen>

    constructor ()
      ensures arrivals == []
    {
      arrivals := [];
    }

    /** Newest first. */
    method NoteArrival(txid: string, amounts: seq<int>, now: nat)
      modifies this
      ensures arrivals == Noted(old(arrivals), txid, Seen(Sum(amounts), now))
    {
      var amount := 0;
      for n := 0 to |amounts|
        invariant amount == Sum(amounts[..n])
      {
        assert amounts[..n + 1][..n] == amounts[..n];
        amount := amount + amounts[n];
      }
      assert amounts[..|amounts|] == amounts;
      var buf := [(txid, Seen(amount, now))];
      ghost var target := buf + Kept(arrivals, txid, now, ARRIVALS_CAP - 1);
      var n := 0;
      while n < |arrivals|
        invariant n <= |arrivals| && 1 <= |buf| <= ARRIVALS_CAP && arrivals == old(arrivals)
        invariant buf + Kept(arrivals[n..], txid, now, ARRIVALS_CAP - |buf|) == target
      {
        assert arrivals[n..][1..] == arrivals[n + 1..];
        if |buf| == ARRIVALS_CAP || TooOld(arrivals[n], now) {
          break;
        }
        if arrivals[n].0 != txid {
          buf := buf + [arrivals[n]];
        }
        n := n + 1;
      }
      assert buf == target;
      arrivals := buf;
    }

    /** The feed of one consistent snapshot: buffered arrivals it does not hold are skipped. */
    method Join(snapshot: Snapshot) returns (feed: seq<Arrival>)
      ensures feed == Joined(arrivals, snapshot)
      ensures OncePerKey(arrivals) ==> IsFeedOf(feed, arrivals, snapshot)
    {
      feed := [];
      for n := 0 to |arrivals|
        invariant feed == Joined(arrivals[..n], snapshot)
      {
        assert arrivals[..n + 1][..n] == arrivals[..n];
        var (txid, s) := arrivals[n];
        if txid in snapshot {
          feed := feed + [RowOf(txid, s, snapshot)];
        }
      }
      assert arrivals[..|arrivals|] == arrivals;
      if OncePerKey(arrivals) {
        JoinedIsFeed(arrivals, snapshot);
      }
    }
  }

  /** What the feed contains, apart from how it is built: exactly the transactions that
      are both buffered and in the snapshot, each once and in buffer order, with the
      buffered amount and that snapshot's figures. */
  ghost predicate IsFeedOf(feed: seq<Arrival>, buffer: Contents<Seen>, snapshot: Snapshot) {
    && (forall k :: Listed(feed, k) <==> Holds(buffer, k) && k in snapshot)
    && (forall i :: 0 <= i < |feed| ==> IsRowOf(feed[i], buffer, snapshot))
    && (forall i, j :: 0 <= i < j < |feed| ==> Rank(buffer, feed[i].txid) < Rank(buffer, feed[j].txid))
  }

  /** The position of a transaction in the buffer. */
  ghost function Rank(buffer: Contents<Seen>, txid: string): nat {
    Find(buffer, txid)
  }

  ghost predicate Listed(feed: seq<Arrival>, k: string) {
    exists i :: 0 <= i < |feed| && feed[i].txid == k
  }

  ghost predicate IsRowOf(a: Arrival, buffer: Contents<Seen>, snapshot: Snapshot) {
    && a.txid in snapshot && Holds(buffer, a.txid)
    && a.amountSats == buffer[Find(buffer, a.txid)].1.amountSats
    && a.feeRate == snapshot[a.txid].feeRate && a.vsize == snapshot[a.txid].vsize && a.time == snapshot[a.txid].time
  }

  lemma FindInLonger(buffer: Contents<Seen>, n: nat, k: string)
    requires n <= |buffer| && Holds(buffer[..n], k)
    ensures Find(buffer, k) == Find(buffer[..n], k)
  {
    var i, j := Find(buffer, k), Find(buffer[..n], k);
    assert buffer[j].0 == k;
    assert forall m :: 0 <= m < j ==> buffer[m] == buffer[..n][m];
  }

  lemma FindLast(buffer: Contents<Seen>)
    requires OncePerKey(buffer) && buffer != []
    ensures var n := |buffer| - 1; Find(buffer, buffer[n].0) == n && !Holds(buffer[..n], buffer[n].0)
  {
    var n := |buffer| - 1;
    assert forall i :: 0 <= i < n ==> buffer[..n][i] == buffer[i];
  }

  lemma HoldsOneMore(buffer: Contents<Seen>, k: string)
    requires OncePerKey(buffer) && buffer != []
    ensures Holds(buffer, k) <==> Holds(buffer[..|buffer| - 1], k) || k == buffer[|buffer| - 1].0
  {
    var n := |buffer| - 1;
    FindLast(buffer);
    if Holds(buffer[..n], k) {
      FindInLonger(buffer, n, k);
    }
    if Holds(buffer, k) && k != buffer[n].0 {
      assert buffer[..n][Find(buffer, k)].0 == k;
    }
  }

  lemma ListedOneMore(feed: seq<Arrival>, a: Arrival, k: string)
    ensures Listed(feed + [a], k) <==> Listed(feed, k) || k == a.txid
  {
    var more := feed + [a];
    if Listed(feed, k) {
      var i :| 0 <= i < |feed| && feed[i].txid == k;
      assert more[i].txid == k;
    }
    assert more[|feed|] == a;
  }

  lemma RowOfLonger(a: Arrival, buffer: Contents<Seen>, n: nat, snapshot: Snapshot)
    requires n < |buffer| && IsRowOf(a, buffer[..n], snapshot)
    ensures IsRowOf(a, buffer, snapshot) && Rank(buffer, a.txid) == Rank(buffer[..n], a.txid) < n
  {
    FindInLonger(buffer, n, a.txid);
  }

  lemma FeedOfLonger(feed: seq<Arrival>, buffer: Contents<Seen>, snapshot: Snapshot)
    requires buffer != [] && IsFeedOf(feed, buffer[..|buffer| - 1], snapshot)
    ensures forall i :: 0 <= i < |feed| ==> IsRowOf(feed[i], buffer, snapshot) && Rank(buffer, feed[i].txid) < |buffer| - 1
    ensures forall i, j :: 0 <= i < j < |feed| ==> Rank(buffer, feed[i].txid) < Rank(buffer, feed[j].txid)
  {
    hide Listed, Rank, IsRowOf, Holds;
    forall i | 0 <= i < |feed|
      ensures IsRowOf(feed[i], buffer, snapshot)
      ensures Rank(buffer, feed[i].txid) == Rank(buffer[..|buffer| - 1], feed[i].txid) < |buffer| - 1
    {
      assert IsRowOf(feed[i], buffer[..|buffer| - 1], snapshot);
      RowOfLonger(feed[i], buffer, |buffer| - 1, snapshot);
    }
  }

  lemma {:induction false} JoinedIsFeed(buffer: Contents<Seen>, snapshot: Snapshot)
    requires OncePerKey(buffer)
    ensures IsFeedOf(Joined(buffer, snapshot), buffer, snapshot)
    decreases |buffer|
  {
    if buffer != [] {
      JoinedIsFeed(buffer[..|buffer| - 1], snapshot);
      FeedOneMore(Joined(buffer[..|buffer| - 1], snapshot), buffer, snapshot);
    }
  }

  lemma FeedOneMore(feed: seq<Arrival>, buffer: Contents<Seen>, snapshot: Snapshot)
    requires OncePerKey(buffer) && buffer != [] && IsFeedOf(feed, buffer[..|buffer| - 1], snapshot)
    requires feed == Joined(buffer[..|buffer| - 1], snapshot)
    ensures IsFeedOf(Joined(buffer, snapshot), buffer, snapshot)
  {
    hide Rank, IsRowOf, Listed, Holds, OncePerKey, RowOf;
    var (txid, s) := buffer[|buffer| - 1];
    FeedOfLonger(feed, buffer, snapshot);
    forall k ensures Holds(buffer, k) <==> Holds(buffer[..|buffer| - 1], k) || k == txid {
      HoldsOneMore(buffer, k);
    }
    if txid in snapshot {
      var a := RowOf(txid, s, snapshot);
      LastRow(buffer, snapshot);
      RowsOneMore(feed, a, buffer, snapshot);
      forall k ensures Listed(feed + [a], k) <==> Listed(feed, k) || k == txid {
        ListedOneMore(feed, a, k);
      }
    } else {
      assert Joined(buffer, snapshot) == feed;
    }
  }

  lemma LastRow(buffer: Contents<Seen>, snapshot: Snapshot)
    requires OncePerKey(buffer) && buffer != [] && buffer[|buffer| - 1].0 in snapshot
    ensures var (txid, s) := buffer[|buffer| - 1]; var a := RowOf(txid, s, snapshot);
      a.txid == txid && IsRowOf(a, buffer, snapshot) && Rank(buffer, txid) == |buffer| - 1
  {
    FindLast(buffer);
  }

  lemma RowsOneMore(feed: seq<Arrival>, a: Arrival, buffer: Contents<Seen>, snapshot: Snapshot)
    requires forall i :: 0 <= i < |feed| ==> IsRowOf(feed[i], buffer, snapshot) && Rank(buffer, feed[i].txid) < |buffer| - 1
    requires forall i, j :: 0 <= i < j < |feed| ==> Rank(buffer, feed[i].txid) < Rank(buffer, feed[j].txid)
    requires IsRowOf(a, buffer, snapshot) && Rank(buffer, a.txid) == |buffer| - 1
    ensures forall i :: 0 <= i < |feed + [a]| ==> IsRowOf((feed + [a])[i], buffer, snapshot)
    ensures forall i, j :: 0 <= i < j < |feed + [a]| ==> Rank(buffer, (feed + [a])[i].txid) < Rank(buffer, (feed + [a])[j].txid)
  {
    hide Rank, IsRowOf;
  }

  // ----- Against the log of all arrivals ------------------------------------------------

  function BufferOf(log: seq<Touch<Seen>>): Contents<Seen>
    requires forall i :: 0 <= i < |log| ==> log[i].val.Some?
  {
    if log == [] then []
    else Noted(BufferOf(log[..|log| - 1]), log[|log| - 1].key, log[|log| - 1].val.value)
  }

  ghost predicate Clocked(log: seq<Touch<Seen>>) {
    && (forall i :: 0 <= i < |log| ==> log[i].val.Some?)
    && (forall i, j :: 0 <= i < j < |log| ==> log[i].val.value.at <= log[j].val.value.at)
  }

  ghost predicate NewestFirst(c: Contents<Seen>) {
    forall i, j :: 0 <= i < j < |c| ==> c[i].1.at >= c[j].1.at
  }

  /** Followed by a bufferful of others, or not heard of for too long. */
  ghost predicate Gone(log: seq<Touch<Seen>>, now: nat, k: string) {
    |Since(log, k)| >= ARRIVALS_CAP || (LastPut(log, k).Some? && now - LastPut(log, k).value.at > ARRIVAL_MAX_AGE)
  }

  /** What is not buffered is gone. */
  ghost predicate RestIsGone(c: Contents<Seen>, log: seq<Touch<Seen>>, now: nat) {
    forall k {:trigger Touched(log, k)} :: Touched(log, k) && k !in Keys(c) ==>
      Gone(log, now, k)
  }

  ghost predicate Tracks(c: Contents<Seen>, log: seq<Touch<Seen>>, now: nat) {
    && |c| <= ARRIVALS_CAP && OncePerKey(c) && NewestFirst(c) && RankedAll(c, log) && RestIsGone(c, log, now)
    && (forall i :: 0 <= i < |c| ==> !TooOld(c[i], now) && c[i].1.at <= now)
  }

  /** The buffer with the transaction taken out. */
  function Others(c: Contents<Seen>, txid: string): Contents<Seen> {
    if c == [] then []
    else if c[0].0 == txid then Others(c[1..], txid)
    else [c[0]] + Others(c[1..], txid)
  }

  lemma {:induction false} OthersIn(c: Contents<Seen>, txid: string)
    ensures forall e :: e in Others(c, txid) ==> e in c
    decreases |c|
  {
    if c != [] {
      OthersIn(c[1..], txid);
    }
  }

  lemma {:induction false} OthersIsAll(c: Contents<Seen>, txid: string)
    requires forall i :: 0 <= i < |c| ==> c[i].0 != txid
    ensures Others(c, txid) == c
    decreases |c|
  {
    if c != [] {
      OthersIsAll(c[1..], txid);
    }
  }

  lemma {:induction false} OthersSkips(c: Contents<Seen>, f: nat, txid: string)
    requires f < |c| && forall i :: 0 <= i < |c| ==> (c[i].0 == txid <==> i == f)
    ensures Others(c, txid) == c[..f] + c[f + 1..]
    decreases |c|
  {
    var tail := c[1..];
    if f == 0 {
      OthersIsAll(tail, txid);
    } else {
      OthersSkips(tail, f - 1, txid);
      assert c[..f] == [c[0]] + tail[..f - 1];
    }
  }

  lemma OthersWithout(c: Contents<Seen>, txid: string)
    requires OncePerKey(c)
    ensures Others(c, txid) == if Holds(c, txid) then Lru.Without(c, Find(c, txid)) else c
  {
    if Holds(c, txid) {
      OthersSkips(c, Find(c, txid), txid);
    } else {
      OthersIsAll(c, txid);
    }
  }

  /** k is the longest prefix of o that has room and meets nothing too old. */
  ghost predicate IsCut(k: Contents<Seen>, o: Contents<Seen>, now: nat, room: nat) {
    && |k| <= room && k <= o
    && (forall i :: 0 <= i < |k| ==> !TooOld(k[i], now))
    && (|k| < |o| && |k| < room ==> TooOld(o[|k|], now))
  }

  lemma {:induction false} KeptIsCut(c: Contents<Seen>, txid: string, now: nat, room: nat)
    requires NewestFirst(c)
    ensures IsCut(Kept(c, txid, now, room), Others(c, txid), now, room)
    decreases |c|
  {
    if c != [] && room > 0 {
      var tail := c[1..];
      assert forall i :: 0 <= i < |tail| ==> tail[i] == c[i + 1];
      if TooOld(c[0], now) {
        OthersIn(c, txid);
        forall e | e in c ensures TooOld(e, now) {
          var i :| 0 <= i < |c| && c[i] == e;
        }
      } else if c[0].0 == txid {
        KeptIsCut(tail, txid, now, room);
      } else {
        KeptIsCut(tail, txid, now, room - 1);
      }
    }
  }

  /** Everything buffered or new, before the cut. */
  function Uncut(c: Contents<Seen>, txid: string, s: Seen): Contents<Seen> {
    [(txid, s)] + Others(c, txid)
  }

  lemma UncutRanked(c: Contents<Seen>, log: seq<Touch<Seen>>, txid: string, s: Seen, i: nat)
    requires OncePerKey(c) && RankedAll(c, log) && i < |Uncut(c, txid, s)|
    ensures Ranked(Uncut(c, txid, s)[i], Uncut(c, txid, s)[..i], log + [Touch(txid, Some(s))])
  {
    OthersWithout(c, txid);
    if Holds(c, txid) {
      MovedRank(c, log, Find(c, txid), s, Touch(txid, Some(s)), i);
    } else {
      HoldsIffKey(c, txid);
      NewRank(c, log, txid, s, i);
    }
  }

  lemma UncutNewestFirst(c: Contents<Seen>, now: nat, txid: string, s: Seen)
    requires OncePerKey(c) && NewestFirst(c) && (forall i :: 0 <= i < |c| ==> c[i].1.at <= now) && now <= s.at
    ensures NewestFirst(Uncut(c, txid, s))
  {
    OthersWithout(c, txid);
    if Holds(c, txid) {
      WithoutNewestFirst(c, Find(c, txid));
    }
    OthersIn(c, txid);
    FrontNewestFirst((txid, s), Others(c, txid), now);
  }

  lemma WithoutNewestFirst(c: Contents<Seen>, f: nat)
    requires NewestFirst(c) && f < |c|
    ensures NewestFirst(Lru.Without(c, f))
  {
    var o := Lru.Without(c, f);
    assert forall i :: 0 <= i < |o| ==> o[i] == c[if i < f then i else i + 1];
  }

  lemma FrontNewestFirst(e: (string, Seen), c: Contents<Seen>, now: nat)
    requires NewestFirst(c) && (forall x :: x in c ==> x.1.at <= now) && now <= e.1.at
    ensures NewestFirst([e] + c)
  {
    assert forall i :: 0 <= i < |c| ==> c[i] in c;
  }

  lemma UncutKeys(c: Contents<Seen>, txid: string, s: Seen)
    requires OncePerKey(c)
    ensures OncePerKey(Uncut(c, txid, s)) && Keys(Uncut(c, txid, s)) == Keys(c) + {txid}
  {
    OthersWithout(c, txid);
    HoldsIffKey(c, txid);
    if Holds(c, txid) {
      MovedKeys(c, Find(c, txid), (txid, s));
    } else {
      NewKeys(c, (txid, s));
    }
  }

  lemma RestStaysGone(c: Contents<Seen>, log: seq<Touch<Seen>>, now: nat, t: Touch<Seen>, later: nat, k: string)
    requires RestIsGone(c, log, now) && now <= later && t.val.Some?
    requires Touched(log + [t], k) && k !in Keys(c) && k != t.key
    ensures Gone(log + [t], later, k)
  {
    UsedOnce(log, t, k);
    SubsetSize(Since(log, k), Since(log, k) + {t.key});
  }

  /** Past the cut, an entry is outranked or too old. */
  lemma CutIsGone(m: Contents<Seen>, log: seq<Touch<Seen>>, n: nat, now: nat, i: nat)
    requires n <= i < |m| && OncePerKey(m[..i]) && Ranked(m[i], m[..i], log)
    requires m[n].1.at >= m[i].1.at
    requires n >= ARRIVALS_CAP || TooOld(m[n], now)
    ensures Gone(log, now, m[i].0)
  {
    if n >= ARRIVALS_CAP {
      KeysSize(m[..i]);
    }
  }

  lemma CutKeyGone(m: Contents<Seen>, log: seq<Touch<Seen>>, n: nat, now: nat, k: string)
    requires OncePerKey(m) && NewestFirst(m) && (forall i :: 0 <= i < |m| ==> Ranked(m[i], m[..i], log))
    requires n <= |m| && (n < |m| && n < ARRIVALS_CAP ==> TooOld(m[n], now))
    requires k in Keys(m) && k !in Keys(m[..n])
    ensures Gone(log, now, k)
  {
    hide Ranked, Gone;
    var i :| 0 <= i < |m| && m[i].0 == k;
    forall j | 0 <= j < n ensures m[j].0 in Keys(m[..n]) {
      assert m[..n][j] == m[j];
    }
    CutIsGone(m, log, n, now, i);
  }

  /** A cut of well-ordered, well-ranked entries leaves out only what is gone. */
  lemma CutTracks(c: Contents<Seen>, log: seq<Touch<Seen>>, now: nat, t: Touch<Seen>, later: nat, m: Contents<Seen>, n: nat)
    requires RestIsGone(c, log, now) && now <= later && t.val.Some?
    requires OncePerKey(m) && NewestFirst(m) && Keys(m) == Keys(c) + {t.key}
    requires forall i :: 0 <= i < |m| ==> Ranked(m[i], m[..i], log + [t])
    requires n <= |m| && (n < |m| && n < ARRIVALS_CAP ==> TooOld(m[n], later))
    ensures RestIsGone(m[..n], log + [t], later)
  {
    forall k | Touched(log + [t], k) && k !in Keys(m[..n]) ensures Gone(log + [t], later, k) {
      if k in Keys(m) {
        CutKeyGone(m, log + [t], n, later, k);
      } else {
        RestStaysGone(c, log, now, t, later, k);
      }
    }
  }

  lemma NotedTracks(c: Contents<Seen>, log: seq<Touch<Seen>>, now: nat, txid: string, s: Seen)
    requires Tracks(c, log, now) && now <= s.at
    ensures Tracks(Noted(c, txid, s), log + [Touch(txid, Some(s))], s.at)
  {
    hide Ranked, Gone, Since, LastPut;
    var m, r := Uncut(c, txid, s), Noted(c, txid, s);
    KeptIsCut(c, txid, s.at, ARRIVALS_CAP - 1);
    assert r == m[..|r|];
    assert |r| < |m| && |r| < ARRIVALS_CAP ==> TooOld(m[|r|], s.at);
    UncutNewestFirst(c, now, txid, s);
    UncutKeys(c, txid, s);
    forall i | 0 <= i < |m| ensures Ranked(m[i], m[..i], log + [Touch(txid, Some(s))]) {
      UncutRanked(c, log, txid, s, i);
    }
    CutTracks(c, log, now, Touch(txid, Some(s)), s.at, m, |r|);
    RankedFront(m, |r|, log + [Touch(txid, Some(s))]);
    OthersIn(c, txid);
    forall i | 0 <= i < |r| ensures !TooOld(r[i], s.at) && r[i].1.at <= s.at {
      assert i > 0 ==> r[i] in Others(c, txid);
    }
  }

  lemma {:induction false} BufferTracks(log: seq<Touch<Seen>>)
    requires Clocked(log) && log != []
    ensures Tracks(BufferOf(log), log, log[|log| - 1].val.value.at)
  {
    var n := |log| - 1;
    var front, last := log[..n], log[n];
    assert log == front + [last] && last == Touch(last.key, Some(last.val.value));
    if n == 0 {
      assert Tracks([], [], last.val.value.at);
      NotedTracks([], [], last.val.value.at, last.key, last.val.value);
    } else {
      BufferTracks(front);
      assert front[n - 1] == log[n - 1];
      NotedTracks(BufferOf(front), front, front[n - 1].val.value.at, last.key, last.val.value);
    }
  }

  /** After any log of arrivals: a transaction is buffered exactly when it arrived, fewer
      than twelve others arrived since, and it was last heard of within five minutes of
      the newest arrival; with the amount and time of its last arrival, newest first. */
  lemma BufferedIffRecent(log: seq<Touch<Seen>>, k: string)
    requires Clocked(log) && log != []
    ensures var c, now := BufferOf(log), log[|log| - 1].val.value.at;
      && (Holds(c, k) <==> Touched(log, k) && |Since(log, k)| < ARRIVALS_CAP
                           && LastPut(log, k).Some? && now - LastPut(log, k).value.at <= ARRIVAL_MAX_AGE)
      && (Holds(c, k) ==> Lookup(c, k) == LastPut(log, k))
      && |c| <= ARRIVALS_CAP && OncePerKey(c) && NewestFirst(c)
  {
    BufferTracks(log);
    TrackedIffRecent(BufferOf(log), log, log[|log| - 1].val.value.at, k);
  }

  lemma HeldIsRecent(c: Contents<Seen>, log: seq<Touch<Seen>>, now: nat, k: string)
    requires Tracks(c, log, now) && Holds(c, k)
    ensures Touched(log, k) && !Gone(log, now, k) && LastPut(log, k).Some? && Lookup(c, k) == LastPut(log, k)
  {
    var i := Find(c, k);
    assert Ranked(c[i], c[..i], log);
    KeysSize(c[..i]);
  }

  lemma TrackedIffRecent(c: Contents<Seen>, log: seq<Touch<Seen>>, now: nat, k: string)
    requires Tracks(c, log, now)
    ensures Holds(c, k) <==> Touched(log, k) && !Gone(log, now, k) && LastPut(log, k).Some?
    ensures Holds(c, k) ==> Lookup(c, k) == LastPut(log, k)
  {
    HoldsIffKey(c, k);
    if Holds(c, k) {
      HeldIsRecent(c, log, now, k);
    }
  }

  /** The feed after any log of arrivals: exactly the recent arrivals that the snapshot
      still holds, newest first. */
  lemma FeedIsRecentAndPending(log: seq<Touch<Seen>>, snapshot: Snapshot, k: string)
    requires Clocked(log) && log != []
    ensures var c, feed, now := BufferOf(log), Joined(BufferOf(log), snapshot), log[|log| - 1].val.value.at;
      && (Listed(feed, k) <==> k in snapshot && Touched(log, k) && |Since(log, k)| < ARRIVALS_CAP
                               && LastPut(log, k).Some? && now - LastPut(log, k).value.at <= ARRIVAL_MAX_AGE)
      && IsFeedOf(feed, c, snapshot) && NewestFirst(c)
  {
    BufferedIffRecent(log, k);
    JoinedIsFeed(BufferOf(log), snapshot);
  }
}
