/** The shared mempool snapshot (internal/explorer/mempool.go) and the weight of
    its transactions by fee rate, independent of the order in which the map is
    visited or its entries are sorted. */
module Snapshots {
  import opened Collections

  /** One mempool transaction; rates are exact reals. */
  datatype MempoolEntry = MempoolEntry(feeSats: int, vsize: nat, sizeBytes: int, time: int, feeRate: real)

  type Snapshot = map<string, MempoolEntry>

  /** A set of fee rates. */
  datatype Rates =
    | All
    | Above(r: real)
    | AtLeast(r: real)
    | AtMost(r: real)
    | Below(r: real)
    | Between(lo: real, hi: real)
  {
    predicate Has(x: real) {
      match this
      case All => true
      case Above(r) => x > r
      case AtLeast(r) => x >= r
      case AtMost(r) => x <= r
      case Below(r) => x < r
      case Between(lo, hi) => lo <= x < hi
    }
  }

  function Counted(rate: real, vsize: nat, s: Rates): nat {
    if s.Has(rate) then vsize else 0
  }

  /** The vbytes of the snapshot whose rate lies in `s`. */
  ghost function VBytes(snap: Snapshot, s: Rates): nat
    decreases snap.Keys
  {
    if snap == map[] then 0
    else
      var id :| id in snap;
      Counted(snap[id].feeRate, snap[id].vsize, s) + VBytes(snap - {id}, s)
  }

  ghost predicate Present(snap: Snapshot, r: real) {
    exists id :: id in snap && snap[id].feeRate == r
  }

  /** Any transaction may be taken out first. */
  lemma {:induction false} VBytesRemove(snap: Snapshot, s: Rates, id: string)
    requires id in snap
    ensures VBytes(snap, s) == Counted(snap[id].feeRate, snap[id].vsize, s) + VBytes(snap - {id}, s)
    decreases snap.Keys
  {
    var k :| k in snap && VBytes(snap, s) == Counted(snap[k].feeRate, snap[k].vsize, s) + VBytes(snap - {k}, s);
    if k != id {
      VBytesRemove(snap - {k}, s, id);
      VBytesRemove(snap - {id}, s, k);
      assert snap - {k} - {id} == snap - {id} - {k};
    }
  }

  /** What each listed transaction counts. */
  function Weights(snap: Snapshot, s: Rates, ids: seq<string>): seq<int>
    requires forall i :: 0 <= i < |ids| ==> ids[i] in snap
  {
    seq(|ids|, i requires 0 <= i < |ids| => if s.Has(snap[ids[i]].feeRate) then snap[ids[i]].vsize else 0)
  }

  /** `ids` lists the transactions, each once. */
  ghost predicate Enumerates(ids: seq<string>, snap: Snapshot) {
    Distinct(ids) && (forall i :: 0 <= i < |ids| ==> ids[i] in snap) && forall id :: id in snap ==> id in ids
  }

  lemma EnumeratesRest(ids: seq<string>, snap: Snapshot)
    requires Enumerates(ids, snap) && ids != []
    ensures var n := |ids| - 1; Enumerates(ids[..n], snap - {ids[n]})
  {
    var n := |ids| - 1;
    assert forall i :: 0 <= i < n ==> ids[..n][i] == ids[i];
    forall id | id in snap - {ids[n]} ensures id in ids[..n] {
      var i :| 0 <= i < |ids| && ids[i] == id;
      assert ids[..n][i] == id;
    }
  }

  lemma WeightsOneMore(snap: Snapshot, s: Rates, ids: seq<string>)
    requires Enumerates(ids, snap) && ids != []
    ensures var n := |ids| - 1; Enumerates(ids[..n], snap - {ids[n]})
    ensures var n := |ids| - 1;
      Weights(snap, s, ids) == Weights(snap - {ids[n]}, s, ids[..n]) + [Counted(snap[ids[n]].feeRate, snap[ids[n]].vsize, s)]
  {
    EnumeratesRest(ids, snap);
  }

  /** However the transactions are listed, each once, the vbytes are the sum of the sizes
      of those whose rate is in the set. */
  lemma {:induction false} VBytesIs(snap: Snapshot, s: Rates, ids: seq<string>)
    requires Enumerates(ids, snap)
    ensures VBytes(snap, s) == Sum(Weights(snap, s, ids))
    decreases |ids|
  {
    if ids == [] {
      assert snap == map[];
    } else {
      hide Enumerates, Weights, VBytes;
      var last := ids[|ids| - 1];
      WeightsOneMore(snap, s, ids);
      var rest := Weights(snap - {last}, s, ids[..|ids| - 1]);
      assert last in snap by {
        EnumeratedIn(ids, snap);
      }
      VBytesRemove(snap, s, last);
      VBytesIs(snap - {last}, s, ids[..|ids| - 1]);
      assert (rest + [Counted(snap[last].feeRate, snap[last].vsize, s)])[..|rest|] == rest;
    }
  }

  lemma EnumeratedIn(ids: seq<string>, snap: Snapshot)
    requires Enumerates(ids, snap) && ids != []
    ensures ids[|ids| - 1] in snap
  {
  }

  lemma {:induction false} VBytesMonotone(snap: Snapshot, s: Rates, t: Rates)
    requires forall x :: s.Has(x) ==> t.Has(x)
    ensures VBytes(snap, s) <= VBytes(snap, t)
    decreases snap.Keys
  {
    if snap != map[] {
      var id :| id in snap;
      VBytesRemove(snap, s, id);
      VBytesRemove(snap, t, id);
      VBytesMonotone(snap - {id}, s, t);
    }
  }

  /** Disjoint sets of rates add up. */
  lemma {:induction false} VBytesSplit(snap: Snapshot, s: Rates, t: Rates, u: Rates)
    requires forall x :: u.Has(x) <==> s.Has(x) || t.Has(x)
    requires forall x :: !(s.Has(x) && t.Has(x))
    ensures VBytes(snap, u) == VBytes(snap, s) + VBytes(snap, t)
    decreases snap.Keys
  {
    if snap != map[] {
      var id :| id in snap;
      VBytesRemove(snap, s, id);
      VBytesRemove(snap, t, id);
      VBytesRemove(snap, u, id);
      VBytesSplit(snap - {id}, s, t, u);
    }
  }

  /** A snapshot entry as the sorting code sees it: without its id. */
  datatype Line = Line(rate: real, vsize: nat)

  ghost function SeqVBytes(lines: seq<Line>, s: Rates): nat {
    if lines == [] then 0
    else SeqVBytes(lines[..|lines| - 1], s) + Counted(lines[|lines| - 1].rate, lines[|lines| - 1].vsize, s)
  }

  ghost predicate HasRate(lines: seq<Line>, r: real) {
    exists i :: 0 <= i < |lines| && lines[i].rate == r
  }

  /** `lines` lists the snapshot, in some order. */
  ghost predicate Lists(lines: seq<Line>, snap: Snapshot) {
    && |lines| == |snap|
    && (forall s :: SeqVBytes(lines, s) == VBytes(snap, s))
    && (forall r :: HasRate(lines, r) <==> Present(snap, r))
  }

  lemma {:induction false} SeqVBytesConcat(a: seq<Line>, b: seq<Line>, s: Rates)
    ensures SeqVBytes(a + b, s) == SeqVBytes(a, s) + SeqVBytes(b, s)
  {
    if b == [] {
      assert a + b == a;
    } else {
      assert (a + b)[..|a + b| - 1] == a + b[..|b| - 1];
      SeqVBytesConcat(a, b[..|b| - 1], s);
    }
  }

  /** Only the lines whose rate lies in `s` weigh anything; if all do, nothing is lost. */
  lemma {:induction false} SeqVBytesUniform(lines: seq<Line>, s: Rates)
    ensures SeqVBytes(lines, s) <= SeqVBytes(lines, All)
    ensures (forall i :: 0 <= i < |lines| ==> s.Has(lines[i].rate)) ==> SeqVBytes(lines, s) == SeqVBytes(lines, All)
    ensures (forall i :: 0 <= i < |lines| ==> !s.Has(lines[i].rate)) ==> SeqVBytes(lines, s) == 0
  {
    if lines != [] {
      SeqVBytesUniform(lines[..|lines| - 1], s);
    }
  }

  /** If every line from k on lies outside `s`, the first k lines bound its weight;
      if every line before k lies inside, they are part of it. */
  lemma PrefixBounds(lines: seq<Line>, k: nat, s: Rates)
    requires k <= |lines|
    ensures (forall i :: k <= i < |lines| ==> !s.Has(lines[i].rate)) ==> SeqVBytes(lines, s) <= SeqVBytes(lines[..k], All)
    ensures (forall i :: 0 <= i < k ==> s.Has(lines[i].rate)) ==> SeqVBytes(lines, s) >= SeqVBytes(lines[..k], All)
  {
    assert lines == lines[..k] + lines[k..];
    SeqVBytesConcat(lines[..k], lines[k..], s);
    SeqVBytesUniform(lines[..k], s);
    SeqVBytesUniform(lines[k..], s);
  }

  function Without(lines: seq<Line>, j: nat): seq<Line>
    requires j < |lines|
  {
    lines[..j] + lines[j + 1..]
  }

  lemma WithoutLine(lines: seq<Line>, j: nat, s: Rates)
    requires j < |lines|
    ensures multiset(Without(lines, j)) == multiset(lines) - multiset{lines[j]}
    ensures SeqVBytes(lines, s) == SeqVBytes(Without(lines, j), s) + Counted(lines[j].rate, lines[j].vsize, s)
  {
    var front, back := lines[..j], lines[j + 1..];
    assert lines == front + [lines[j]] + back;
    SeqVBytesConcat(front + [lines[j]], back, s);
    SeqVBytesConcat(front, back, s);
    assert (front + [lines[j]])[..j] == front;
  }

  lemma {:induction false} SeqVBytesPermutation(a: seq<Line>, b: seq<Line>, s: Rates)
    requires multiset(a) == multiset(b)
    ensures SeqVBytes(a, s) == SeqVBytes(b, s)
    decreases |a|
  {
    if a == [] {
      assert |multiset(b)| == 0;
    } else {
      assert a[0] in multiset(b);
      var j :| 0 <= j < |b| && b[j] == a[0];
      WithoutLine(a, 0, s);
      WithoutLine(b, j, s);
      SeqVBytesPermutation(Without(a, 0), Without(b, j), s);
    }
  }

  /** `lines` lists the part of the snapshot that is not in `todo`. */
  ghost predicate ListsRest(lines: seq<Line>, todo: Snapshot, snap: Snapshot) {
    && todo.Keys <= snap.Keys
    && (forall k :: k in todo ==> todo[k] == snap[k])
    && |lines| + |todo| == |snap|
    && (forall s :: SeqVBytes(lines, s) + VBytes(todo, s) == VBytes(snap, s))
    && (forall r :: HasRate(lines, r) <==> exists id :: id in snap && id !in todo && snap[id].feeRate == r)
  }

  lemma HasRateAppend(lines: seq<Line>, e: Line, r: real)
    ensures HasRate(lines + [e], r) <==> HasRate(lines, r) || r == e.rate
  {
    var more := lines + [e];
    if HasRate(lines, r) {
      var i :| 0 <= i < |lines| && lines[i].rate == r;
      assert more[i].rate == r;
    }
    assert more[|lines|].rate == e.rate;
  }

  lemma ListsOneMore(lines: seq<Line>, todo: Snapshot, snap: Snapshot, id: string)
    requires ListsRest(lines, todo, snap) && id in todo
    ensures ListsRest(lines + [Line(todo[id].feeRate, todo[id].vsize)], todo - {id}, snap)
  {
    var e := Line(todo[id].feeRate, todo[id].vsize);
    var left := todo - {id};
    assert todo.Keys == left.Keys + {id};
    forall s ensures SeqVBytes(lines + [e], s) + VBytes(left, s) == VBytes(snap, s) {
      VBytesRemove(todo, s, id);
      assert (lines + [e])[..|lines|] == lines;
    }
    forall r ensures HasRate(lines + [e], r) <==> exists k :: k in snap && k !in left && snap[k].feeRate == r {
      HasRateAppend(lines, e, r);
      if r == e.rate {
        assert id in snap && id !in left && snap[id].feeRate == r;
      }
    }
  }

  /** Appends the entries in the order of the map iteration, which is arbitrary. */
  method Collect(snapshot: Snapshot) returns (lines: seq<Line>)
    ensures Lists(lines, snapshot)
  {
    lines := [];
    var todo := snapshot;
    while todo != map[]
      invariant ListsRest(lines, todo, snapshot)
      decreases todo.Keys
    {
      var id :| id in todo;
      ListsOneMore(lines, todo, snapshot, id);
      lines := lines + [Line(todo[id].feeRate, todo[id].vsize)];
      todo := todo - {id};
    }
    forall r ensures HasRate(lines, r) <==> Present(snapshot, r) {
    }
  }

  predicate Ordered(descending: bool, a: Line, b: Line) {
    if descending then a.rate >= b.rate else a.rate <= b.rate
  }

  ghost predicate Sorted(descending: bool, lines: seq<Line>) {
    forall i, j :: 0 <= i < j < |lines| ==> Ordered(descending, lines[i], lines[j])
  }

  lemma {:induction false} FirstExists(descending: bool, lines: seq<Line>) returns (k: nat)
    requires lines != []
    ensures k < |lines| && forall j :: 0 <= j < |lines| ==> Ordered(descending, lines[k], lines[j])
  {
    if |lines| == 1 {
      k := 0;
    } else {
      var m := FirstExists(descending, lines[1..]);
      k := if Ordered(descending, lines[0], lines[m + 1]) then 0 else m + 1;
      forall j | 0 <= j < |lines| ensures Ordered(descending, lines[k], lines[j]) {
        if j > 0 {
          assert lines[1..][j - 1] == lines[j];
        }
      }
    }
  }

  /** A sorted front and a rest that follows it, together the given lines. */
  ghost predicate PartlySorted(descending: bool, sorted: seq<Line>, rest: seq<Line>, lines: seq<Line>) {
    && multiset(sorted) + multiset(rest) == multiset(lines)
    && Sorted(descending, sorted)
    && forall i, j :: 0 <= i < |sorted| && 0 <= j < |rest| ==> Ordered(descending, sorted[i], rest[j])
  }

  lemma SelectedNext(descending: bool, sorted: seq<Line>, rest: seq<Line>, lines: seq<Line>, k: nat)
    requires PartlySorted(descending, sorted, rest, lines) && k < |rest|
    requires forall j :: 0 <= j < |rest| ==> Ordered(descending, rest[k], rest[j])
    ensures PartlySorted(descending, sorted + [rest[k]], Without(rest, k), lines)
  {
    assert rest == rest[..k] + [rest[k]] + rest[k + 1..];
  }

  /** An unstable sort: lines of equal rate may come out in any order. */
  method SortByRate(descending: bool, lines: seq<Line>) returns (sorted: seq<Line>)
    ensures Sorted(descending, sorted)
    ensures multiset(sorted) == multiset(lines)
  {
    sorted := [];
    var rest := lines;
    while rest != []
      invariant PartlySorted(descending, sorted, rest, lines)
      decreases |rest|
    {
      ghost var w := FirstExists(descending, rest);
      var k :| 0 <= k < |rest| && forall j :: 0 <= j < |rest| ==> Ordered(descending, rest[k], rest[j]);
      SelectedNext(descending, sorted, rest, lines, k);
      sorted := sorted + [rest[k]];
      rest := Without(rest, k);
    }
  }

  /** Sorting a listing of the snapshot leaves a listing of the snapshot. */
  lemma SortedLists(lines: seq<Line>, sorted: seq<Line>, snap: Snapshot)
    requires Lists(lines, snap) && multiset(sorted) == multiset(lines)
    ensures Lists(sorted, snap)
  {
    assert |sorted| == |multiset(sorted)| == |multiset(lines)| == |lines|;
    forall s ensures SeqVBytes(sorted, s) == VBytes(snap, s) {
      SeqVBytesPermutation(sorted, lines, s);
    }
    forall r ensures HasRate(sorted, r) <==> HasRate(lines, r) {
      if HasRate(sorted, r) {
        var i :| 0 <= i < |sorted| && sorted[i].rate == r;
        assert sorted[i] in multiset(lines);
      }
      if HasRate(lines, r) {
        var i :| 0 <= i < |lines| && lines[i].rate == r;
        assert lines[i] in multiset(sorted);
      }
    }
  }
}
