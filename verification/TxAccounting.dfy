/** A transaction's amounts, change heuristic and type (GetTx, deriveOutputs,
    deriveTxType and dominantCode in internal/explorer/tx.go). */
module TxAccounting {
  import opened Options
  import opened Collections
  import opened Transactions

  datatype TxIO = TxIO(address: string, amountSats: int, change: bool)

  /** The first n rows together. */
  function SumRows(rows: seq<TxIO>, n: nat): int
    requires n <= |rows|
  {
    if n == 0 then 0 else SumRows(rows, n - 1) + rows[n - 1].amountSats
  }

  /** Those of the first n rows that are flagged as change, or those that are not. */
  function SumFlagged(rows: seq<TxIO>, change: bool, n: nat): int
    requires n <= |rows|
  {
    if n == 0 then 0 else SumFlagged(rows, change, n - 1) + if rows[n - 1].change == change then rows[n - 1].amountSats else 0
  }

  function SumIns(ins: seq<Prevout>): int {
    if ins == [] then 0 else SumIns(ins[..|ins| - 1]) + ins[|ins| - 1].valueSats
  }

  /** Appends the addresses that are not there yet. */
  function Extended(list: seq<string>, addrs: seq<string>): seq<string> {
    if addrs == [] then list
    else
      var l := Extended(list, addrs[..|addrs| - 1]);
      if addrs[|addrs| - 1] in l then l else l + [addrs[|addrs| - 1]]
  }

  function FromOf(ins: seq<Prevout>): seq<string> {
    if ins == [] then [] else Extended(FromOf(ins[..|ins| - 1]), ins[|ins| - 1].addrs)
  }

  function Labelled(addrs: seq<string>): seq<string> {
    if |addrs| == 0 then [NON_STANDARD] else addrs
  }

  /** Change: every address of the output is among the senders'. */
  predicate IsChange(v: Vout, from: seq<string>, isCoinbase: bool) {
    !isCoinbase && |VoutAddrs(v)| > 0 && forall a :: a in VoutAddrs(v) ==> a in from
  }

  /** What the heuristic flags. */
  function Flags(vouts: seq<Vout>, from: seq<string>, isCoinbase: bool): (flags: seq<bool>)
    ensures |flags| == |vouts| && forall i :: 0 <= i < |flags| ==> flags[i] == IsChange(vouts[i], from, isCoinbase)
  {
    seq(|vouts|, i requires 0 <= i < |vouts| => IsChange(vouts[i], from, isCoinbase))
  }

  /** In a self-send every output looks like change; then none is flagged. */
  function Settled(flags: seq<bool>): (final: seq<bool>)
    ensures |final| == |flags|
  {
    if forall i :: 0 <= i < |flags| ==> flags[i] then seq(|flags|, _ => false) else flags
  }

  /** One row per output, in order. */
  ghost predicate AreRows(rows: seq<TxIO>, vouts: seq<Vout>, flags: seq<bool>, n: nat) {
    && |rows| == n <= |vouts| == |flags|
    && forall i :: 0 <= i < |rows| ==> rows[i] == TxIO(FirstAddr(VoutAddrs(vouts[i])), vouts[i].sats, flags[i])
  }

  /** The recipients among the first n outputs: the addresses of those not flagged, each
      once, in order of first appearance. */
  function Recipients(vouts: seq<Vout>, flags: seq<bool>, n: nat): seq<string>
    requires n <= |vouts| == |flags|
  {
    if n == 0 then []
    else if flags[n - 1] then Recipients(vouts, flags, n - 1)
    else Extended(Recipients(vouts, flags, n - 1), Labelled(VoutAddrs(vouts[n - 1])))
  }

  /** The script-type codes of the outputs not flagged. */
  function Codes(vouts: seq<Vout>, flags: seq<bool>, n: nat): seq<string>
    requires n <= |vouts| == |flags|
  {
    if n == 0 then []
    else if flags[n - 1] then Codes(vouts, flags, n - 1)
    else Codes(vouts, flags, n - 1) + [vouts[n - 1].code]
  }

  function RateOf(fee: int, vsize: int): real
    requires vsize > 0
  {
    fee as real / vsize as real
  }

  /** Appends the addresses not seen yet. */
  method AddAll(list: seq<string>, seen: set<string>, addrs: seq<string>) returns (list': seq<string>, seen': set<string>)
    requires seen == set a | a in list
    ensures list' == Extended(list, addrs) && seen' == set a | a in list'
  {
    list', seen' := list, seen;
    for n := 0 to |addrs|
      invariant list' == Extended(list, addrs[..n]) && seen' == set a | a in list'
    {
      assert addrs[..n + 1][..n] == addrs[..n];
      if addrs[n] !in seen' {
        seen' := seen' + {addrs[n]};
        list' := list' + [addrs[n]];
      }
    }
    assert addrs[..|addrs|] == addrs;
  }

  /** What the pass has collected from the first n outputs. */
  ghost predicate Scanned(vouts: seq<Vout>, flags: seq<bool>, n: nat, rows: seq<TxIO>, sumOut: int, amount: int,
                          to: seq<string>, codes: seq<string>) {
    && AreRows(rows, vouts, flags, n)
    && sumOut == SumRows(rows, n) && amount == SumFlagged(rows, false, n)
    && to == Recipients(vouts, flags, n) && codes == Codes(vouts, flags, n)
  }

  lemma ScanOneMore(vouts: seq<Vout>, flags: seq<bool>, n: nat, rows: seq<TxIO>, sumOut: int, amount: int,
                    to: seq<string>, codes: seq<string>)
    requires n < |vouts| && Scanned(vouts, flags, n, rows, sumOut, amount, to, codes)
    ensures var v := vouts[n];
      Scanned(vouts, flags, n + 1, rows + [TxIO(FirstAddr(VoutAddrs(v)), v.sats, flags[n])], sumOut + v.sats,
              if flags[n] then amount else amount + v.sats,
              if flags[n] then to else Extended(to, Labelled(VoutAddrs(v))),
              if flags[n] then codes else codes + [v.code])
  {
    SumsOneMore(rows, TxIO(FirstAddr(VoutAddrs(vouts[n])), vouts[n].sats, flags[n]));
  }

  /** The pass over the outputs that flags and skips change. */
  method ScanOutputs(vouts: seq<Vout>, from: seq<string>, isCoinbase: bool)
      returns (rows: seq<TxIO>, sumOutSats: int, amount: int, toAddrs: seq<string>, outCodes: seq<string>)
    ensures AreRows(rows, vouts, Flags(vouts, from, isCoinbase), |vouts|)
    ensures sumOutSats == SumRows(rows, |rows|) && amount == SumFlagged(rows, false, |rows|)
    ensures toAddrs == Recipients(vouts, Flags(vouts, from, isCoinbase), |vouts|)
    ensures outCodes == Codes(vouts, Flags(vouts, from, isCoinbase), |vouts|)
  {
    hide IsChange, VoutAddrs, FirstAddr, Labelled, Extended;
    rows, sumOutSats, amount := [], 0, 0;
    var seen: set<string> := {};
    toAddrs, outCodes := [], [];
    ghost var flags := Flags(vouts, from, isCoinbase);
    for n := 0 to |vouts|
      invariant Scanned(vouts, flags, n, rows, sumOutSats, amount, toAddrs, outCodes)
      invariant seen == set a | a in toAddrs
    {
      var v := vouts[n];
      ScanOneMore(vouts, flags, n, rows, sumOutSats, amount, toAddrs, outCodes);
      var change := IsChange(v, from, isCoinbase);
      sumOutSats := sumOutSats + v.sats;
      rows := rows + [TxIO(FirstAddr(VoutAddrs(v)), v.sats, change)];
      if change {
        continue;
      }
      amount := amount + v.sats;
      toAddrs, seen := AddAll(toAddrs, seen, Labelled(VoutAddrs(v)));
      outCodes := outCodes + [v.code];
    }
  }

  /** The self-send fallback: every output counts and its row loses its flag. */
  method CountAll(vouts: seq<Vout>, rows: seq<TxIO>, ghost flags: seq<bool>)
      returns (rows': seq<TxIO>, toAddrs: seq<string>, outCodes: seq<string>)
    requires AreRows(rows, vouts, flags, |vouts|)
    ensures AreRows(rows', vouts, seq(|flags|, _ => false), |vouts|)
    ensures toAddrs == Recipients(vouts, seq(|flags|, _ => false), |vouts|)
    ensures outCodes == Codes(vouts, seq(|flags|, _ => false), |vouts|)
    ensures SumFlagged(rows', false, |rows'|) == SumRows(rows', |rows'|) == SumRows(rows, |rows|)
  {
    hide VoutAddrs, FirstAddr, Labelled, Extended;
    ghost var none: seq<bool> := seq(|flags|, _ => false);
    var seen: set<string> := {};
    rows', toAddrs, outCodes := rows, [], [];
    for n := 0 to |vouts|
      invariant Unflagged(rows', rows, n)
      invariant toAddrs == Recipients(vouts, none, n) && seen == set a | a in toAddrs
      invariant outCodes == Codes(vouts, none, n)
    {
      toAddrs, seen := AddAll(toAddrs, seen, Labelled(VoutAddrs(vouts[n])));
      outCodes := outCodes + [vouts[n].code];
      rows' := rows'[n := rows'[n].(change := false)];
    }
    SameAmounts(rows', rows, |rows|);
    UnflaggedIsAll(rows', |rows|);
  }

  /** The first n rows have lost their flag, nothing else has changed. */
  ghost predicate Unflagged(rows: seq<TxIO>, before: seq<TxIO>, n: nat) {
    |rows| == |before| && forall i :: 0 <= i < |rows| ==> rows[i] == if i < n then before[i].(change := false) else before[i]
  }

  /** The pass, and the fallback when it found no recipient. */
  method CountOutputs(vouts: seq<Vout>, from: seq<string>, isCoinbase: bool)
      returns (rows: seq<TxIO>, sumOutSats: int, amount: int, toAddrs: seq<string>, outCodes: seq<string>)
    ensures AreRows(rows, vouts, Settled(Flags(vouts, from, isCoinbase)), |vouts|)
    ensures sumOutSats == SumRows(rows, |rows|) && amount == SumFlagged(rows, false, |rows|)
    ensures toAddrs == Recipients(vouts, Settled(Flags(vouts, from, isCoinbase)), |vouts|)
    ensures outCodes == Codes(vouts, Settled(Flags(vouts, from, isCoinbase)), |vouts|)
  {
    ghost var flags := Flags(vouts, from, isCoinbase);
    rows, sumOutSats, amount, toAddrs, outCodes := ScanOutputs(vouts, from, isCoinbase);
    NoRecipientsIff(vouts, flags);
    if |toAddrs| == 0 {
      amount := sumOutSats;
      rows, toAddrs, outCodes := CountAll(vouts, rows, flags);
    }
  }

  class Tx {
    var amountSats: int
    var from: seq<string>
    var to: seq<string>
    var inputs: seq<TxIO>
    var outputs: seq<TxIO>
    var feeSats: Option<int>
    var feeRate: Option<real>
    const vsize: int

    constructor (vsize: int)
      ensures inputs == outputs == [] && from == to == [] && this.vsize == vsize
    {
      this.vsize := vsize;
      amountSats, from, to, inputs, outputs, feeSats, feeRate := 0, [], [], [], [], None, None;
    }

    /** The rows of a non-coinbase's resolved inputs, and the senders' addresses. */
    method DeriveInputs(ins: seq<Prevout>) returns (sumInSats: int, inCodes: seq<string>)
      requires inputs == [] && from == []
      modifies this`inputs, this`from
      ensures inputs == seq(|ins|, i requires 0 <= i < |ins| => TxIO(FirstAddr(ins[i].addrs), ins[i].valueSats, false))
      ensures from == FromOf(ins) && sumInSats == SumIns(ins)
      ensures inCodes == seq(|ins|, i requires 0 <= i < |ins| => ins[i].scriptType)
    {
      sumInSats, inCodes := 0, [];
      var seen: set<string> := {};
      for n := 0 to |ins|
        invariant inputs == seq(n, i requires 0 <= i < n => TxIO(FirstAddr(ins[i].addrs), ins[i].valueSats, false))
        invariant from == FromOf(ins[..n]) && seen == (set a | a in from) && sumInSats == SumIns(ins[..n])
        invariant inCodes == seq(n, i requires 0 <= i < n => ins[i].scriptType)
      {
        var p := ins[n];
        assert ins[..n + 1][..n] == ins[..n];
        sumInSats := sumInSats + p.valueSats;
        inCodes := inCodes + [p.scriptType];
        inputs := inputs + [TxIO(FirstAddr(p.addrs), p.valueSats, false)];
        from, seen := AddAll(from, seen, p.addrs);
      }
      assert ins[..|ins|] == ins;
    }

    /** Amount, recipients, rows, fee and fee rate; and the codes of the counted outputs. */
    method DeriveOutputs(vouts: seq<Vout>, isCoinbase: bool, sumInSats: int) returns (outCodes: seq<string>)
      requires outputs == []
      modifies this`amountSats, this`to, this`outputs, this`feeSats, this`feeRate
      ensures AreRows(outputs, vouts, Settled(Flags(vouts, from, isCoinbase)), |vouts|)
      ensures amountSats == SumFlagged(outputs, false, |outputs|)
      ensures to == Recipients(vouts, Settled(Flags(vouts, from, isCoinbase)), |vouts|)
      ensures outCodes == Codes(vouts, Settled(Flags(vouts, from, isCoinbase)), |vouts|)
      ensures feeSats == if isCoinbase then old(feeSats) else Some(sumInSats - SumRows(outputs, |outputs|))
      ensures feeRate == if isCoinbase || vsize <= 0 then old(feeRate)
                         else Some(RateOf(sumInSats - SumRows(outputs, |outputs|), vsize))
    {
      hide *;
      var rows, sumOutSats, amount, toAddrs;
      rows, sumOutSats, amount, toAddrs, outCodes := CountOutputs(vouts, from, isCoinbase);
      outputs := rows;
      amountSats := amount;
      to := toAddrs;
      if !isCoinbase {
        var fee := sumInSats - sumOutSats;
        feeSats := Some(fee);
        if vsize > 0 {
          feeRate := Some(RateOf(fee, vsize));
        }
      }
    }
  }

  lemma {:induction false} SumsPrefix(rows: seq<TxIO>, more: seq<TxIO>, n: nat)
    requires n <= |rows| && rows <= more
    ensures SumRows(more, n) == SumRows(rows, n) && SumFlagged(more, false, n) == SumFlagged(rows, false, n)
  {
    if n > 0 {
      SumsPrefix(rows, more, n - 1);
    }
  }

  lemma SumsOneMore(rows: seq<TxIO>, row: TxIO)
    ensures SumRows(rows + [row], |rows| + 1) == SumRows(rows, |rows|) + row.amountSats
    ensures SumFlagged(rows + [row], false, |rows| + 1) ==
            SumFlagged(rows, false, |rows|) + if row.change then 0 else row.amountSats
  {
    SumsPrefix(rows, rows + [row], |rows|);
  }

  lemma {:induction false} SameAmounts(a: seq<TxIO>, b: seq<TxIO>, n: nat)
    requires n <= |a| == |b| && forall i :: 0 <= i < |a| ==> a[i].amountSats == b[i].amountSats
    ensures SumRows(a, n) == SumRows(b, n)
  {
    if n > 0 {
      SameAmounts(a, b, n - 1);
    }
  }

  lemma {:induction false} UnflaggedIsAll(rows: seq<TxIO>, n: nat)
    requires n <= |rows| && forall i :: 0 <= i < |rows| ==> !rows[i].change
    ensures SumFlagged(rows, false, n) == SumRows(rows, n)
  {
    if n > 0 {
      UnflaggedIsAll(rows, n - 1);
    }
  }

  lemma {:induction false} ExtendedHas(list: seq<string>, addrs: seq<string>, x: string)
    ensures x in Extended(list, addrs) <==> x in list || x in addrs
  {
    if addrs != [] {
      ExtendedHas(list, addrs[..|addrs| - 1], x);
      assert addrs == addrs[..|addrs| - 1] + [addrs[|addrs| - 1]];
    }
  }

  lemma {:induction false} ExtendedDistinct(list: seq<string>, addrs: seq<string>)
    requires Distinct(list)
    ensures list <= Extended(list, addrs) && Distinct(Extended(list, addrs))
  {
    if addrs != [] {
      ExtendedDistinct(list, addrs[..|addrs| - 1]);
    }
  }

  /** The output is shown as paid to x: one of its addresses, or the label if it has none. */
  predicate PaidTo(v: Vout, x: string) {
    x in VoutAddrs(v) || (VoutAddrs(v) == [] && x == NON_STANDARD)
  }

  /** The recipients are exactly the addresses of the outputs not flagged, each once. */
  lemma {:induction false} RecipientsAre(vouts: seq<Vout>, flags: seq<bool>, n: nat)
    requires n <= |vouts| == |flags|
    ensures forall x :: x in Recipients(vouts, flags, n) <==>
      exists i :: 0 <= i < n && !flags[i] && PaidTo(vouts[i], x)
    ensures Distinct(Recipients(vouts, flags, n))
  {
    if n > 0 {
      RecipientsAre(vouts, flags, n - 1);
      var before, addrs := Recipients(vouts, flags, n - 1), Labelled(VoutAddrs(vouts[n - 1]));
      if !flags[n - 1] {
        ExtendedDistinct(before, addrs);
        forall x ensures x in Extended(before, addrs) <==> x in before || PaidTo(vouts[n - 1], x) {
          ExtendedHas(before, addrs, x);
        }
      }
    }
  }

  /** No recipient was found exactly when every output looked like change. */
  lemma NoRecipientsIff(vouts: seq<Vout>, flags: seq<bool>)
    requires |vouts| == |flags|
    ensures Recipients(vouts, flags, |vouts|) == [] <==> forall i :: 0 <= i < |flags| ==> flags[i]
  {
    var r := Recipients(vouts, flags, |vouts|);
    RecipientsAre(vouts, flags, |vouts|);
    if i :| 0 <= i < |flags| && !flags[i] {
      assert PaidTo(vouts[i], FirstAddr(VoutAddrs(vouts[i])));
      assert FirstAddr(VoutAddrs(vouts[i])) in r;
    }
    if r != [] {
      assert r[0] in r;
    }
  }

  /** Not every row is flagged: whoever sends everything to themselves is the recipient. */
  lemma SomethingIsPaid(rows: seq<TxIO>, vouts: seq<Vout>, flags: seq<bool>)
    requires AreRows(rows, vouts, Settled(flags), |vouts|) && vouts != []
    ensures exists i :: 0 <= i < |rows| && !rows[i].change
  {
    if i :| 0 <= i < |flags| && !flags[i] {
      assert !rows[i].change;
    } else {
      assert !rows[0].change;
    }
  }

  // ----- By position, without the folds above ---------------------------------------

  function InAmounts(ins: seq<Prevout>): seq<int> {
    seq(|ins|, i requires 0 <= i < |ins| => ins[i].valueSats)
  }

  function OutAmounts(vouts: seq<Vout>): seq<int> {
    seq(|vouts|, i requires 0 <= i < |vouts| => vouts[i].sats)
  }

  /** What the rows that are flagged, or are not, carry. */
  function AmountsWhere(rows: seq<TxIO>, change: bool): seq<int> {
    seq(|rows|, i requires 0 <= i < |rows| => if rows[i].change == change then rows[i].amountSats else 0)
  }

  /** Some input spends from the address. */
  ghost predicate IsSender(ins: seq<Prevout>, a: string) {
    exists i :: 0 <= i < |ins| && a in ins[i].addrs
  }

  /** The output pays only senders. */
  ghost predicate PaysSenders(v: Vout, ins: seq<Prevout>) {
    VoutAddrs(v) != [] && forall a :: a in VoutAddrs(v) ==> IsSender(ins, a)
  }

  lemma {:induction false} SumInsIs(ins: seq<Prevout>)
    ensures SumIns(ins) == Sum(InAmounts(ins))
  {
    if ins != [] {
      SumInsIs(ins[..|ins| - 1]);
      assert InAmounts(ins)[..|ins| - 1] == InAmounts(ins[..|ins| - 1]);
    }
  }

  lemma {:induction false} SumFlaggedIs(rows: seq<TxIO>, change: bool, n: nat)
    requires n <= |rows|
    ensures SumFlagged(rows, change, n) == Sum(AmountsWhere(rows, change)[..n])
  {
    if n > 0 {
      SumFlaggedIs(rows, change, n - 1);
      assert AmountsWhere(rows, change)[..n][..n - 1] == AmountsWhere(rows, change)[..n - 1];
    }
  }

  lemma {:induction false} SumRowsIs(rows: seq<TxIO>, vouts: seq<Vout>, n: nat)
    requires n <= |rows| == |vouts| && forall i :: 0 <= i < |rows| ==> rows[i].amountSats == vouts[i].sats
    ensures SumRows(rows, n) == Sum(OutAmounts(vouts)[..n])
  {
    if n > 0 {
      SumRowsIs(rows, vouts, n - 1);
      assert OutAmounts(vouts)[..n][..n - 1] == OutAmounts(vouts)[..n - 1];
    }
  }

  /** The senders are exactly the addresses of the inputs, each once. */
  lemma {:induction false} FromIsSenders(ins: seq<Prevout>)
    ensures forall a :: a in FromOf(ins) <==> IsSender(ins, a)
    ensures Distinct(FromOf(ins))
  {
    if ins != [] {
      var n := |ins| - 1;
      var before := FromOf(ins[..n]);
      FromIsSenders(ins[..n]);
      ExtendedDistinct(before, ins[n].addrs);
      forall a ensures a in FromOf(ins) <==> IsSender(ins, a) {
        ExtendedHas(before, ins[n].addrs, a);
        if i :| 0 <= i < n && a in ins[..n][i].addrs {
          assert a in ins[i].addrs;
        }
        if i :| 0 <= i < |ins| && a in ins[i].addrs {
          assert i < n ==> a in ins[..n][i].addrs;
        }
      }
    }
  }

  /** A row is flagged exactly when its output pays only senders and some output does not:
      a transaction that pays nobody else has no change. */
  lemma ChangeIff(ins: seq<Prevout>, vouts: seq<Vout>, i: nat)
    requires i < |vouts|
    ensures Settled(Flags(vouts, FromOf(ins), false))[i] <==>
            PaysSenders(vouts[i], ins) && exists j :: 0 <= j < |vouts| && !PaysSenders(vouts[j], ins)
  {
    FromIsSenders(ins);
    var flags := Flags(vouts, FromOf(ins), false);
    forall j | 0 <= j < |vouts| ensures flags[j] <==> PaysSenders(vouts[j], ins) {
      assert flags[j] == IsChange(vouts[j], FromOf(ins), false);
    }
    hide Flags, PaysSenders;
    if forall j :: 0 <= j < |flags| ==> flags[j] {
      assert !exists j :: 0 <= j < |vouts| && !PaysSenders(vouts[j], ins);
    } else {
      var j :| 0 <= j < |flags| && !flags[j];
      assert !PaysSenders(vouts[j], ins);
    }
  }

  /** The codes that are counted, by position: those of exactly the outputs not flagged, in
      the order of the outputs. */
  ghost predicate AreCodesAt(codes: seq<string>, at: seq<nat>, vouts: seq<Vout>, flags: seq<bool>, n: nat)
    requires n <= |vouts| == |flags|
  {
    && |codes| == |at|
    && (forall k :: 0 <= k < |at| ==> at[k] < n && !flags[at[k]] && codes[k] == vouts[at[k]].code)
    && (forall j, k :: 0 <= j < k < |at| ==> at[j] < at[k])
    && (forall i :: 0 <= i < n && !flags[i] ==> i in at)
  }

  lemma {:induction false} CodesAre(vouts: seq<Vout>, flags: seq<bool>, n: nat) returns (at: seq<nat>)
    requires n <= |vouts| == |flags|
    ensures AreCodesAt(Codes(vouts, flags, n), at, vouts, flags, n)
  {
    if n == 0 {
      at := [];
    } else {
      at := CodesAre(vouts, flags, n - 1);
      CodesOneMore(Codes(vouts, flags, n - 1), at, vouts, flags, n);
      hide AreCodesAt;
      if !flags[n - 1] {
        at := at + [n - 1];
      }
    }
  }

  lemma CodesOneMore(codes: seq<string>, at: seq<nat>, vouts: seq<Vout>, flags: seq<bool>, n: nat)
    requires 0 < n <= |vouts| == |flags| && AreCodesAt(codes, at, vouts, flags, n - 1)
    ensures if flags[n - 1] then AreCodesAt(codes, at, vouts, flags, n)
            else AreCodesAt(codes + [vouts[n - 1].code], at + [n - 1], vouts, flags, n)
  {
    var more := at + [n - 1];
    assert forall k :: 0 <= k < |at| ==> more[k] == at[k];
    forall i | 0 <= i < n && !flags[i] ensures i in if flags[n - 1] then at else more {
      if i < n - 1 {
        assert i in at;
      } else {
        assert more[|at|] == i;
      }
    }
  }

  /** Recipients and senders stand in the order of their first appearance: what later
      outputs or inputs, or later addresses of one, bring is appended. */
  lemma {:induction false} RecipientsInOrder(vouts: seq<Vout>, flags: seq<bool>, m: nat, n: nat)
    requires m <= n <= |vouts| == |flags|
    ensures Recipients(vouts, flags, m) <= Recipients(vouts, flags, n)
    decreases n
  {
    if m < n {
      RecipientsInOrder(vouts, flags, m, n - 1);
      RecipientsAre(vouts, flags, n - 1);
      if !flags[n - 1] {
        ExtendedDistinct(Recipients(vouts, flags, n - 1), Labelled(VoutAddrs(vouts[n - 1])));
      }
    }
  }

  lemma {:induction false} FromInOrder(ins: seq<Prevout>, m: nat)
    requires m <= |ins|
    ensures FromOf(ins[..m]) <= FromOf(ins)
    decreases |ins|
  {
    if m == |ins| {
      assert ins[..m] == ins;
    } else {
      var front := ins[..|ins| - 1];
      FromInOrder(front, m);
      assert front[..m] == ins[..m];
      FromIsSenders(front);
      ExtendedDistinct(FromOf(front), ins[|ins| - 1].addrs);
    }
  }

  lemma {:induction false} ExtendedInOrder(list: seq<string>, addrs: seq<string>, m: nat)
    requires m <= |addrs|
    ensures Extended(list, addrs[..m]) <= Extended(list, addrs)
    decreases |addrs|
  {
    if m == |addrs| {
      assert addrs[..m] == addrs;
    } else {
      var front := addrs[..|addrs| - 1];
      ExtendedInOrder(list, front, m);
      assert front[..m] == addrs[..m];
    }
  }

  /** A coinbase has no change: all it pays out is its amount. */
  method DeriveCoinbase(tx: Tx, vouts: seq<Vout>) returns (outCodes: seq<string>)
    requires tx.outputs == []
    modifies tx
    ensures |tx.outputs| == |vouts| && tx.amountSats == Sum(OutAmounts(vouts))
    ensures forall i :: 0 <= i < |vouts| ==> !tx.outputs[i].change && tx.outputs[i].amountSats == vouts[i].sats
    ensures tx.feeSats == old(tx.feeSats) && tx.feeRate == old(tx.feeRate)
  {
    outCodes := tx.DeriveOutputs(vouts, true, 0);
    UnflaggedIsAll(tx.outputs, |vouts|);
    SumRowsIs(tx.outputs, vouts, |vouts|);
    assert OutAmounts(vouts)[..|vouts|] == OutAmounts(vouts);
  }

  /** Both halves of GetTx in sequence. No satoshi appears or vanishes: the input rows
      equal the amount shown, the change rows and the fee. */
  method DeriveAmounts(tx: Tx, ins: seq<Prevout>, vouts: seq<Vout>) returns (inCodes: seq<string>, outCodes: seq<string>)
    requires tx.inputs == tx.outputs == [] && tx.from == []
    modifies tx
    ensures |tx.inputs| == |ins| && |tx.outputs| == |vouts|
    ensures tx.feeSats == Some(Sum(InAmounts(ins)) - Sum(OutAmounts(vouts)))
    ensures Sum(InAmounts(ins)) == tx.amountSats + Sum(AmountsWhere(tx.outputs, true)) + tx.feeSats.value
    ensures tx.amountSats == Sum(AmountsWhere(tx.outputs, false))
    ensures tx.vsize > 0 ==> tx.feeRate.Some? && tx.feeRate.value * tx.vsize as real == tx.feeSats.value as real
    ensures forall i :: 0 <= i < |ins| ==> tx.inputs[i].amountSats == ins[i].valueSats
    ensures forall i :: 0 <= i < |vouts| ==> tx.outputs[i].amountSats == vouts[i].sats
    ensures forall i :: 0 <= i < |vouts| ==>
      (tx.outputs[i].change <==> PaysSenders(vouts[i], ins) && exists j :: 0 <= j < |vouts| && !PaysSenders(vouts[j], ins))
    ensures vouts != [] ==> exists i :: 0 <= i < |vouts| && !tx.outputs[i].change
    ensures Distinct(tx.from) && forall a :: a in tx.from <==> IsSender(ins, a)
    ensures Distinct(tx.to)
    ensures forall a :: a in tx.to <==> exists i :: 0 <= i < |vouts| && !tx.outputs[i].change && PaidTo(vouts[i], a)
  {
    hide *;
    var sumInSats;
    sumInSats, inCodes := tx.DeriveInputs(ins);
    outCodes := tx.DeriveOutputs(vouts, false, sumInSats);
    AmountsBalance(ins, vouts, tx.outputs, tx.from);
    RecipientsByRow(vouts, tx.outputs, Settled(Flags(vouts, tx.from, false)));
    if tx.vsize > 0 {
      RateTimesSize(tx.feeSats.value, tx.vsize);
    }
  }

  lemma RateTimesSize(fee: int, vsize: int)
    requires vsize > 0
    ensures RateOf(fee, vsize) * vsize as real == fee as real
  {
  }

  lemma RecipientsByRow(vouts: seq<Vout>, rows: seq<TxIO>, flags: seq<bool>)
    requires AreRows(rows, vouts, flags, |vouts|)
    ensures Distinct(Recipients(vouts, flags, |vouts|)) && |rows| == |vouts|
    ensures forall a :: a in Recipients(vouts, flags, |vouts|) <==>
      exists i :: 0 <= i < |vouts| && !rows[i].change && PaidTo(vouts[i], a)
  {
    RecipientsAre(vouts, flags, |vouts|);
  }

  /** What the two halves leave behind, by position. */
  lemma AmountsBalance(ins: seq<Prevout>, vouts: seq<Vout>, rows: seq<TxIO>, from: seq<string>)
    requires from == FromOf(ins) && AreRows(rows, vouts, Settled(Flags(vouts, from, false)), |vouts|)
    ensures |rows| == |vouts| && forall i :: 0 <= i < |vouts| ==> rows[i].amountSats == vouts[i].sats
    ensures SumIns(ins) == Sum(InAmounts(ins)) && SumRows(rows, |vouts|) == Sum(OutAmounts(vouts))
    ensures SumFlagged(rows, false, |vouts|) == Sum(AmountsWhere(rows, false))
    ensures Sum(OutAmounts(vouts)) == Sum(AmountsWhere(rows, false)) + Sum(AmountsWhere(rows, true))
    ensures forall i :: 0 <= i < |vouts| ==>
      (rows[i].change <==> PaysSenders(vouts[i], ins) && exists j :: 0 <= j < |vouts| && !PaysSenders(vouts[j], ins))
    ensures vouts != [] ==> exists i :: 0 <= i < |vouts| && !rows[i].change
    ensures Distinct(from) && forall a :: a in from <==> IsSender(ins, a)
  {
    hide IsChange, PaysSenders, IsSender, FromOf, Flags, Settled;
    SumInsIs(ins);
    SumRowsIs(rows, vouts, |vouts|);
    SumFlaggedIs(rows, false, |vouts|);
    assert OutAmounts(vouts)[..|vouts|] == OutAmounts(vouts);
    assert AmountsWhere(rows, false)[..|vouts|] == AmountsWhere(rows, false);
    SumAdds(AmountsWhere(rows, false), AmountsWhere(rows, true), OutAmounts(vouts));
    FromIsSenders(ins);
    forall i | 0 <= i < |vouts|
      ensures rows[i].change <==> PaysSenders(vouts[i], ins) && exists j :: 0 <= j < |vouts| && !PaysSenders(vouts[j], ins)
    {
      ChangeIff(ins, vouts, i);
    }
    if vouts != [] {
      SomethingIsPaid(rows, vouts, Flags(vouts, from, false));
    }
  }

  // ----- Type classification ----------------------------------------------------------

  function Count(codes: seq<string>, c: string): nat {
    if codes == [] then 0 else Count(codes[..|codes| - 1], c) + if codes[|codes| - 1] == c then 1 else 0
  }

  /** The first position of a code, or the length. */
  function FirstAt(codes: seq<string>, c: string): (i: nat)
    ensures i <= |codes| && (i < |codes| ==> codes[i] == c) && forall j :: 0 <= j < i ==> codes[j] != c
  {
    if codes == [] then 0
    else
      var f := FirstAt(codes[..|codes| - 1], c);
      if f < |codes| - 1 || codes[|codes| - 1] == c then f else f + 1
  }

  /** At most as frequent, and on a tie no earlier. */
  predicate NoBetter(codes: seq<string>, c: string, best: string) {
    || Count(codes, c) < Count(codes, best)
    || (Count(codes, c) == Count(codes, best) && FirstAt(codes, best) <= FirstAt(codes, c))
  }

  ghost predicate IsDominant(codes: seq<string>, best: string) {
    if best == "" then forall i :: 0 <= i < |codes| ==> codes[i] == ""
    else best in codes && forall c :: c in codes && c != "" ==> NoBetter(codes, c, best)
  }

  lemma {:induction false} CountPositive(codes: seq<string>, c: string)
    ensures Count(codes, c) > 0 <==> c in codes
  {
    if codes != [] {
      CountPositive(codes[..|codes| - 1], c);
      assert codes == codes[..|codes| - 1] + [codes[|codes| - 1]];
    }
  }

  lemma DominantUnique(codes: seq<string>, a: string, b: string)
    requires IsDominant(codes, a) && IsDominant(codes, b)
    ensures a == b
  {
    if a != "" && b != "" {
      assert NoBetter(codes, a, b) && NoBetter(codes, b, a);
      CountPositive(codes, a);
      assert FirstAt(codes, a) == FirstAt(codes, b) < |codes|;
    }
  }

  lemma PrefixCounts(codes: seq<string>, n: nat, c: string)
    requires n < |codes|
    ensures Count(codes[..n + 1], c) == Count(codes[..n], c) + if codes[n] == c then 1 else 0
    ensures c in codes[..n] ==> FirstAt(codes[..n + 1], c) == FirstAt(codes[..n], c) < n
    ensures c !in codes[..n] && c == codes[n] ==> FirstAt(codes[..n + 1], c) == n
    ensures c in codes[..n + 1] <==> c in codes[..n] || c == codes[n]
  {
    assert codes[..n + 1][..n] == codes[..n];
    assert codes[..n + 1] == codes[..n] + [codes[n]];
    if c in codes[..n] {
      var i :| 0 <= i < n && codes[..n][i] == c;
    }
  }

  /** What the loop has found in a prefix. */
  ghost predicate Leading(prefix: seq<string>, best: string, bestCount: nat) {
    && (best == "" <==> forall i :: 0 <= i < |prefix| ==> prefix[i] == "")
    && (best == "" ==> bestCount == 0)
    && (best != "" ==>
          && best in prefix && bestCount == Count(prefix, best)
          && forall c :: c in prefix && c != "" ==> NoBetter(prefix, c, best))
  }

  /** One round for a non-empty code: only that code's count has grown. */
  lemma LeadingStep(codes: seq<string>, n: nat, best: string, bestCount: nat)
    requires n < |codes| && codes[n] != "" && Leading(codes[..n], best, bestCount)
    ensures var c, prefix := codes[n], codes[..n + 1];
      var wins := Count(prefix, c) > bestCount
                  || (best != "" && Count(prefix, c) == bestCount && FirstAt(prefix, c) < FirstAt(prefix, best));
      Leading(prefix, if wins then c else best, if wins then Count(prefix, c) else bestCount)
  {
    var c, prefix := codes[n], codes[..n + 1];
    assert prefix[n] == c;
    PrefixCounts(codes, n, c);
    PrefixCounts(codes, n, best);
    CountPositive(prefix, c);
    forall d | d in prefix && d != ""
      ensures d != c ==> d in codes[..n] && Count(prefix, d) == Count(codes[..n], d)
                         && FirstAt(prefix, d) == FirstAt(codes[..n], d)
    {
      PrefixCounts(codes, n, d);
    }
    if best == "" {
      forall d | d in prefix && d != "" ensures d == c {
        PrefixCounts(codes, n, d);
        assert forall x :: x in codes[..n] ==> x == "";
      }
    }
  }

  lemma EmptyStep(codes: seq<string>, n: nat, best: string, bestCount: nat)
    requires n < |codes| && codes[n] == "" && Leading(codes[..n], best, bestCount)
    ensures Leading(codes[..n + 1], best, bestCount)
  {
    var before, prefix := codes[..n], codes[..n + 1];
    assert prefix == before + [""];
    forall d | d in prefix && d != ""
      ensures d in before && Count(prefix, d) == Count(before, d) && FirstAt(prefix, d) == FirstAt(before, d)
    {
      PrefixCounts(codes, n, d);
    }
    PrefixCounts(codes, n, best);
    if best != "" {
      var i :| 0 <= i < n && before[i] == best;
      assert prefix[i] == best;
    } else {
      assert forall i :: 0 <= i < n ==> prefix[i] == before[i];
    }
  }

  /** The maps' entries for one code. */
  ghost predicate Tally(counts: map<string, nat>, firstAt: map<string, nat>, prefix: seq<string>, c: string) {
    && (c in counts <==> c in prefix && c != "") && (c in firstAt <==> c in counts)
    && (c in counts ==> counts[c] == Count(prefix, c) && c in firstAt && firstAt[c] == FirstAt(prefix, c))
  }

  ghost predicate Tallies(counts: map<string, nat>, firstAt: map<string, nat>, prefix: seq<string>) {
    forall c :: Tally(counts, firstAt, prefix, c)
  }

  lemma EmptyCodeKeepsTallies(counts: map<string, nat>, firstAt: map<string, nat>, codes: seq<string>, n: nat)
    requires n < |codes| && Tallies(counts, firstAt, codes[..n]) && codes[n] == ""
    ensures Tallies(counts, firstAt, codes[..n + 1])
  {
    var prefix := codes[..n + 1];
    forall c ensures Tally(counts, firstAt, prefix, c) {
      assert Tally(counts, firstAt, codes[..n], c);
      PrefixCounts(codes, n, c);
    }
  }

  lemma CodeIsTallied(counts: map<string, nat>, firstAt: map<string, nat>, codes: seq<string>, n: nat)
    requires n < |codes| && Tallies(counts, firstAt, codes[..n]) && codes[n] != ""
    ensures Tallies(counts[codes[n] := (if codes[n] in counts then counts[codes[n]] else 0) + 1],
                    if codes[n] in firstAt then firstAt else firstAt[codes[n] := n], codes[..n + 1])
  {
    var added := codes[n];
    var counts' := counts[added := (if added in counts then counts[added] else 0) + 1];
    var firstAt' := if added in firstAt then firstAt else firstAt[added := n];
    var prefix := codes[..n + 1];
    forall c ensures Tally(counts', firstAt', prefix, c) {
      assert Tally(counts, firstAt, codes[..n], c);
      PrefixCounts(codes, n, c);
      CountPositive(codes[..n], c);
    }
  }

  /** The online maximum over maps of counts and first positions. */
  method DominantCode(codes: seq<string>) returns (best: string)
    ensures IsDominant(codes, best)
  {
    hide Count, NoBetter;
    var counts: map<string, nat>, firstAt: map<string, nat> := map[], map[];
    best := "";
    var bestCount := 0;
    for n := 0 to |codes|
      invariant Tallies(counts, firstAt, codes[..n]) && Leading(codes[..n], best, bestCount)
    {
      var c := codes[n];
      if c == "" {
        EmptyCodeKeepsTallies(counts, firstAt, codes, n);
        EmptyStep(codes, n, best, bestCount);
        continue;
      }
      CodeIsTallied(counts, firstAt, codes, n);
      LeadingStep(codes, n, best, bestCount);
      if c !in firstAt {
        firstAt := firstAt[c := n];
      }
      counts := counts[c := (if c in counts then counts[c] else 0) + 1];
      assert Tally(counts, firstAt, codes[..n + 1], c) && Tally(counts, firstAt, codes[..n + 1], best);
      PrefixCounts(codes, n, best);
      if counts[c] > bestCount
         || (counts[c] == bestCount && firstAt[c] < if best in firstAt then firstAt[best] else 0) {
        best, bestCount := c, counts[c];
      }
    }
    assert codes[..|codes|] == codes;
  }

  datatype TxType = TxType(code: string, input: string, output: string)

  /** The headline is the dominant input code, else the dominant output code; no type
      when neither side has a code. */
  method DeriveTxType(inCodes: seq<string>, outCodes: seq<string>) returns (t: Option<TxType>)
    ensures t.None? <==> (forall i :: 0 <= i < |inCodes| ==> inCodes[i] == "") && (forall i :: 0 <= i < |outCodes| ==> outCodes[i] == "")
    ensures t.Some? ==>
      && IsDominant(inCodes, t.value.input) && IsDominant(outCodes, t.value.output)
      && t.value.code == (if t.value.input != "" then t.value.input else t.value.output) && t.value.code != ""
  {
    var input := DominantCode(inCodes);
    var output := DominantCode(outCodes);
    var code := if input == "" then output else input;
    t := if code == "" then None else Some(TxType(code, input, output));
  }
}
