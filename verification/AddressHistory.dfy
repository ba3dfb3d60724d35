/** Address totals, activity and pagination (internal/explorer/address.go). */
module AddressHistory {
  import opened Options
  import opened Collections
  import opened Transactions
  import opened Lru

  const SCAN_CHUNK := 100
  const TOTALS_TTL := 30_000_000_000

  /** An input's inlined origin; coinbase inputs have none. */
  datatype PrevOut = PrevOut(addresses: seq<string>, sats: int)

  /** One transaction of an address's history, newest first in a list. */
  datatype HistoryTx = HistoryTx(txid: string, vins: seq<Option<PrevOut>>, vouts: seq<Vout>, confirmations: int,
                                 blockHash: string, blockTime: int, time: int)

  datatype Totals = Totals(received: int, sent: int, txCount: nat, approximate: bool, fetchedAt: int)

  /** How often the address is listed: each mention counts. */
  function Mentions(addrs: seq<string>, addr: string): nat {
    if addrs == [] then 0 else Mentions(addrs[..|addrs| - 1], addr) + if addrs[|addrs| - 1] == addr then 1 else 0
  }

  function Received(addr: string, vouts: seq<Vout>): int {
    if vouts == [] then 0
    else
      Received(addr, vouts[..|vouts| - 1]) + Mentions(VoutAddrs(vouts[|vouts| - 1]), addr) * vouts[|vouts| - 1].sats
  }

  function Spent(p: Option<PrevOut>, addr: string): int {
    if p.None? then 0 else Mentions(p.value.addresses, addr) * p.value.sats
  }

  function Sent(addr: string, vins: seq<Option<PrevOut>>): int {
    if vins == [] then 0 else Sent(addr, vins[..|vins| - 1]) + Spent(vins[|vins| - 1], addr)
  }

  function TotalReceived(addr: string, txs: seq<HistoryTx>): int {
    if txs == [] then 0 else TotalReceived(addr, txs[..|txs| - 1]) + Received(addr, txs[|txs| - 1].vouts)
  }

  function TotalSent(addr: string, txs: seq<HistoryTx>): int {
    if txs == [] then 0 else TotalSent(addr, txs[..|txs| - 1]) + Sent(addr, txs[|txs| - 1].vins)
  }

  lemma MentionsOneMore(addrs: seq<string>, n: nat, addr: string)
    requires n < |addrs|
    ensures Mentions(addrs[..n + 1], addr) == Mentions(addrs[..n], addr) + if addrs[n] == addr then 1 else 0
  {
    assert addrs[..n + 1][..n] == addrs[..n];
  }

  /** Adds `sats` once per mention of the address. */
  method AddMentions(sum: int, addrs: seq<string>, addr: string, sats: int) returns (total: int)
    ensures total == sum + Mentions(addrs, addr) * sats
  {
    total := sum;
    for n := 0 to |addrs|
      invariant total == sum + Mentions(addrs[..n], addr) * sats
    {
      MentionsOneMore(addrs, n, addr);
      if addrs[n] == addr {
        total := total + sats;
      }
    }
    assert addrs[..|addrs|] == addrs;
  }

  method AddressDelta(addr: string, tx: HistoryTx) returns (recv: int, sent: int)
    ensures recv == Received(addr, tx.vouts) && sent == Sent(addr, tx.vins)
  {
    recv, sent := 0, 0;
    for n := 0 to |tx.vouts|
      invariant recv == Received(addr, tx.vouts[..n])
    {
      assert tx.vouts[..n + 1][..n] == tx.vouts[..n];
      recv := AddMentions(recv, VoutAddrs(tx.vouts[n]), addr, tx.vouts[n].sats);
    }
    for n := 0 to |tx.vins|
      invariant sent == Sent(addr, tx.vins[..n])
    {
      assert tx.vins[..n + 1][..n] == tx.vins[..n];
      if tx.vins[n].None? {
        continue;
      }
      sent := AddMentions(sent, tx.vins[n].value.addresses, addr, tx.vins[n].value.sats);
    }
    assert tx.vouts[..|tx.vouts|] == tx.vouts && tx.vins[..|tx.vins|] == tx.vins;
  }

  // ----- Activity -----------------------------------------------------------------

  function SumIn(vins: seq<Option<PrevOut>>): int
    requires forall i :: 0 <= i < |vins| ==> vins[i].Some?
  {
    if vins == [] then 0 else SumIn(vins[..|vins| - 1]) + vins[|vins| - 1].value.sats
  }

  function SumOut(vouts: seq<Vout>): int {
    if vouts == [] then 0 else SumOut(vouts[..|vouts| - 1]) + vouts[|vouts| - 1].sats
  }

  function Fee(tx: HistoryTx): Option<int> {
    if forall i :: 0 <= i < |tx.vins| ==> tx.vins[i].Some? then Some(SumIn(tx.vins) - SumOut(tx.vouts)) else None
  }

  method TxFee(tx: HistoryTx) returns (fee: Option<int>)
    ensures fee == Fee(tx)
  {
    var paidIn, paidOut := 0, 0;
    for n := 0 to |tx.vins|
      invariant forall i :: 0 <= i < n ==> tx.vins[i].Some?
      invariant paidIn == SumIn(tx.vins[..n])
    {
      assert tx.vins[..n + 1][..n] == tx.vins[..n];
      if tx.vins[n].None? {
        return None;
      }
      paidIn := paidIn + tx.vins[n].value.sats;
    }
    for n := 0 to |tx.vouts|
      invariant paidOut == SumOut(tx.vouts[..n])
    {
      assert tx.vouts[..n + 1][..n] == tx.vouts[..n];
      paidOut := paidOut + tx.vouts[n].sats;
    }
    assert tx.vins[..|tx.vins|] == tx.vins && tx.vouts[..|tx.vouts|] == tx.vouts;
    fee := Some(paidIn - paidOut);
  }

  datatype Direction = DReceived | DSent | DSelf

  datatype Activity = Activity(txid: string, direction: Direction, amountSats: int, confirmed: bool, confirmations: int,
                               time: int)

  /** The direction carries the sign of the effect on the balance. */
  function Signed(a: Activity): int {
    if a.direction == DReceived then a.amountSats else -a.amountSats
  }

  /** What an activity row says about its transaction. */
  ghost predicate IsActivity(a: Activity, addr: string, tx: HistoryTx) {
    var recv, sent := Received(addr, tx.vouts), Sent(addr, tx.vins);
    && a.txid == tx.txid && a.confirmations == tx.confirmations
    && a.confirmed == (tx.blockHash != "") && a.time == (if tx.blockHash != "" then tx.blockTime else tx.time)
    && Signed(a) == recv - sent
    && (a.direction == DReceived <==> sent == 0)
    && (a.direction == DSelf <==> sent != 0 && recv != 0 && Fee(tx).Some? && sent - recv <= Fee(tx).value)
  }

  method ActivityFor(addr: string, tx: HistoryTx) returns (a: Activity)
    ensures IsActivity(a, addr, tx)
  {
    var recv, sent := AddressDelta(addr, tx);
    var direction, amount;
    if sent == 0 {
      direction, amount := DReceived, recv;
    } else if recv == 0 {
      direction, amount := DSent, sent;
    } else {
      var net := sent - recv;
      var fee := TxFee(tx);
      direction := if fee.Some? && net <= fee.value then DSelf else DSent;
      amount := net;
    }
    a := Activity(tx.txid, direction, amount, tx.blockHash != "", tx.confirmations,
                  if tx.blockHash != "" then tx.blockTime else tx.time);
  }

  // ----- Conservation across addresses ----------------------------------------------

  /** Amounts by position, and how many addresses share each of them. */
  function OutAmounts(vouts: seq<Vout>): seq<int> {
    seq(|vouts|, i requires 0 <= i < |vouts| => vouts[i].sats)
  }

  function InAmounts(vins: seq<Option<PrevOut>>): seq<int> {
    seq(|vins|, i requires 0 <= i < |vins| => if vins[i].Some? then vins[i].value.sats else 0)
  }

  function ReceivedBy(addrs: seq<string>, vouts: seq<Vout>): seq<int> {
    seq(|addrs|, k requires 0 <= k < |addrs| => Received(addrs[k], vouts))
  }

  function SentBy(addrs: seq<string>, vins: seq<Option<PrevOut>>): seq<int> {
    seq(|addrs|, k requires 0 <= k < |addrs| => Sent(addrs[k], vins))
  }

  /** Every output, and every origin that is known, has exactly one address, a listed one. */
  ghost predicate PaysOne(vouts: seq<Vout>, addrs: seq<string>) {
    forall i :: 0 <= i < |vouts| ==> |VoutAddrs(vouts[i])| == 1 && VoutAddrs(vouts[i])[0] in addrs
  }

  ghost predicate SpendsOne(vins: seq<Option<PrevOut>>, addrs: seq<string>) {
    forall i :: 0 <= i < |vins| && vins[i].Some? ==> |vins[i].value.addresses| == 1 && vins[i].value.addresses[0] in addrs
  }

  lemma MentionsOfOne(only: seq<string>, addr: string)
    requires |only| == 1
    ensures Mentions(only, addr) == if only[0] == addr then 1 else 0
  {
    assert only[..0] == [];
  }

  /** What one amount adds to each of the listed addresses. */
  function Shares(addrs: seq<string>, only: seq<string>, sats: int): seq<int> {
    seq(|addrs|, k requires 0 <= k < |addrs| => Mentions(only, addrs[k]) * sats)
  }

  lemma SharesOfOne(addrs: seq<string>, only: seq<string>, sats: int)
    requires Distinct(addrs) && |only| == 1 && only[0] in addrs
    ensures Sum(Shares(addrs, only, sats)) == sats
  {
    var ones := Indicator(addrs, only[0]);
    forall k | 0 <= k < |addrs| ensures Shares(addrs, only, sats)[k] == ones[k] * sats {
      MentionsOfOne(only, addrs[k]);
    }
    IndicatorSum(addrs, only[0]);
    SumScales(ones, Shares(addrs, only, sats), sats);
  }

  lemma {:induction false} ReceivedIsPaid(addrs: seq<string>, vouts: seq<Vout>)
    requires Distinct(addrs) && PaysOne(vouts, addrs)
    ensures Sum(ReceivedBy(addrs, vouts)) == Sum(OutAmounts(vouts))
    decreases |vouts|
  {
    if vouts == [] {
      SumOfZeros(ReceivedBy(addrs, vouts));
    } else {
      var front, last := vouts[..|vouts| - 1], vouts[|vouts| - 1];
      var shares := Shares(addrs, VoutAddrs(last), last.sats);
      ReceivedIsPaid(addrs, front);
      SharesOfOne(addrs, VoutAddrs(last), last.sats);
      SumAdds(ReceivedBy(addrs, front), shares, ReceivedBy(addrs, vouts));
      assert OutAmounts(vouts)[..|vouts| - 1] == OutAmounts(front);
    }
  }

  lemma {:induction false} SentIsSpent(addrs: seq<string>, vins: seq<Option<PrevOut>>)
    requires Distinct(addrs) && SpendsOne(vins, addrs)
    ensures Sum(SentBy(addrs, vins)) == Sum(InAmounts(vins))
    decreases |vins|
  {
    if vins == [] {
      SumOfZeros(SentBy(addrs, vins));
    } else {
      var front, last := vins[..|vins| - 1], vins[|vins| - 1];
      var shares := seq(|addrs|, k requires 0 <= k < |addrs| => Spent(last, addrs[k]));
      SentIsSpent(addrs, front);
      if last.Some? {
        SharesOfOne(addrs, last.value.addresses, last.value.sats);
        assert shares == Shares(addrs, last.value.addresses, last.value.sats);
      } else {
        SumOfZeros(shares);
      }
      SumAdds(SentBy(addrs, front), shares, SentBy(addrs, vins));
      assert InAmounts(vins)[..|vins| - 1] == InAmounts(front);
    }
  }

  /** An address that is mentioned nowhere is neither paid nor charged. */
  lemma {:induction false} NotMentioned(addr: string, vouts: seq<Vout>, vins: seq<Option<PrevOut>>)
    requires forall i :: 0 <= i < |vouts| ==> addr !in VoutAddrs(vouts[i])
    requires forall i :: 0 <= i < |vins| && vins[i].Some? ==> addr !in vins[i].value.addresses
    ensures Received(addr, vouts) == 0 && Sent(addr, vins) == 0
    decreases |vouts| + |vins|
  {
    if vouts != [] {
      NoMentions(VoutAddrs(vouts[|vouts| - 1]), addr);
      NotMentioned(addr, vouts[..|vouts| - 1], vins);
    } else if vins != [] {
      if vins[|vins| - 1].Some? {
        NoMentions(vins[|vins| - 1].value.addresses, addr);
      }
      NotMentioned(addr, vouts, vins[..|vins| - 1]);
    }
  }

  lemma {:induction false} NoMentions(addrs: seq<string>, addr: string)
    requires addr !in addrs
    ensures Mentions(addrs, addr) == 0
  {
    if addrs != [] {
      NoMentions(addrs[..|addrs| - 1], addr);
    }
  }

  lemma {:induction false} SumOutIs(vouts: seq<Vout>)
    ensures SumOut(vouts) == Sum(OutAmounts(vouts))
  {
    if vouts != [] {
      SumOutIs(vouts[..|vouts| - 1]);
      assert OutAmounts(vouts)[..|vouts| - 1] == OutAmounts(vouts[..|vouts| - 1]);
    }
  }

  lemma {:induction false} SumInIs(vins: seq<Option<PrevOut>>)
    requires forall i :: 0 <= i < |vins| ==> vins[i].Some?
    ensures SumIn(vins) == Sum(InAmounts(vins))
  {
    if vins != [] {
      SumInIs(vins[..|vins| - 1]);
      assert InAmounts(vins)[..|vins| - 1] == InAmounts(vins[..|vins| - 1]);
    }
  }

  lemma FeeIs(tx: HistoryTx)
    ensures Fee(tx) == if forall i :: 0 <= i < |tx.vins| ==> tx.vins[i].Some?
                       then Some(Sum(InAmounts(tx.vins)) - Sum(OutAmounts(tx.vouts))) else None
  {
    SumOutIs(tx.vouts);
    if forall i :: 0 <= i < |tx.vins| ==> tx.vins[i].Some? {
      SumInIs(tx.vins);
    }
  }

  function SignedAmounts(rows: seq<Activity>): seq<int> {
    seq(|rows|, k requires 0 <= k < |rows| => Signed(rows[k]))
  }

  /** No satoshi appears or vanishes between address pages: the activity rows that one
      transaction has for all the addresses it touches add up to minus its fee. */
  lemma ActivityIsConserved(addrs: seq<string>, tx: HistoryTx, rows: seq<Activity>)
    requires Distinct(addrs) && PaysOne(tx.vouts, addrs) && SpendsOne(tx.vins, addrs)
    requires |rows| == |addrs| && forall k :: 0 <= k < |rows| ==> IsActivity(rows[k], addrs[k], tx)
    ensures Sum(SignedAmounts(rows)) == Sum(OutAmounts(tx.vouts)) - Sum(InAmounts(tx.vins))
    ensures Fee(tx).Some? ==> Sum(SignedAmounts(rows)) == -Fee(tx).value
  {
    ReceivedIsPaid(addrs, tx.vouts);
    SentIsSpent(addrs, tx.vins);
    SumAdds(SignedAmounts(rows), SentBy(addrs, tx.vins), ReceivedBy(addrs, tx.vouts));
    FeeIs(tx);
  }

  // ----- Totals -------------------------------------------------------------------

  function MinNat(a: nat, b: nat): nat {
    if a <= b then a else b
  }

  /** The node's page of an address's history; no information is an empty page. */
  function Page(history: seq<HistoryTx>, skip: nat, count: nat): seq<HistoryTx> {
    history[MinNat(skip, |history|)..MinNat(skip + count, |history|)]
  }

  /** The fold over the newest transactions, as far as the cap allows. */
  function TotalsOf(addr: string, history: seq<HistoryTx>, maxScan: nat, now: int): Totals {
    var scanned := history[..MinNat(|history|, maxScan)];
    Totals(TotalReceived(addr, scanned), TotalSent(addr, scanned), |scanned|, |history| >= maxScan, now)
  }

  /** Adds a page that reaches from `skip` up to `to`. */
  method AddPage(addr: string, ghost history: seq<HistoryTx>, ghost skip: nat, ghost to: nat, page: seq<HistoryTx>,
                 received: int, sent: int) returns (received': int, sent': int)
    requires skip <= to <= |history| && page == history[skip..to]
    requires received == TotalReceived(addr, history[..skip]) && sent == TotalSent(addr, history[..skip])
    ensures received' == TotalReceived(addr, history[..to]) && sent' == TotalSent(addr, history[..to])
  {
    hide Received, Sent;
    received', sent' := received, sent;
    for n := 0 to |page|
      invariant received' == TotalReceived(addr, history[..skip + n]) && sent' == TotalSent(addr, history[..skip + n])
    {
      assert history[..skip + n + 1][..skip + n] == history[..skip + n] && history[skip + n] == page[n];
      var dr, ds := AddressDelta(addr, page[n]);
      received', sent' := received' + dr, sent' + ds;
    }
  }

  /** The walk in pages of at most a hundred. None when the node fails on a page. */
  method ScanTotals(addr: string, history: seq<HistoryTx>, maxScan: nat, fails: nat -> bool, now: int)
      returns (t: Option<Totals>)
    requires maxScan > 0
    ensures t.Some? ==> t.value == TotalsOf(addr, history, maxScan, now)
    ensures t.None? ==> exists skip: nat :: skip < maxScan && fails(skip)
  {
    var received, sent, txCount := 0, 0, 0;
    var skip := 0;
    assert TotalReceived(addr, history[..0]) == TotalSent(addr, history[..0]) == 0;
    hide TotalReceived, TotalSent, TotalsOf, Page;
    while skip < maxScan
      invariant txCount == MinNat(skip, maxScan) <= |history|
      invariant received == TotalReceived(addr, history[..txCount]) && sent == TotalSent(addr, history[..txCount])
    {
      var count := MinNat(SCAN_CHUNK, maxScan - skip);
      if fails(skip) {
        return None;
      }
      var page := Page(history, skip, count);
      ghost var to := MinNat(skip + count, |history|);
      PageIs(history, skip, count);
      received, sent := AddPage(addr, history, skip, to, page, received, sent);
      txCount := txCount + |page|;
      if |page| < count {
        TotalsUpTo(addr, history, maxScan, now, txCount);
        return Some(Totals(received, sent, txCount, false, now));
      }
      skip := skip + SCAN_CHUNK;
    }
    TotalsUpTo(addr, history, maxScan, now, txCount);
    t := Some(Totals(received, sent, txCount, true, now));
  }

  lemma PageIs(history: seq<HistoryTx>, skip: nat, count: nat)
    requires skip <= |history|
    ensures Page(history, skip, count) == history[skip..MinNat(skip + count, |history|)]
  {
  }

  lemma TotalsUpTo(addr: string, history: seq<HistoryTx>, maxScan: nat, now: int, n: nat)
    requires n == MinNat(|history|, maxScan)
    ensures TotalsOf(addr, history, maxScan, now) ==
            Totals(TotalReceived(addr, history[..n]), TotalSent(addr, history[..n]), n, |history| >= maxScan, now)
  {
  }

  /** Cached for half a minute; only complete scans are cached. */
  method AddressTotals(cache: LruCache<Totals>, addr: string, history: seq<HistoryTx>, maxScan: nat, fails: nat -> bool,
                       now: int) returns (t: Option<Totals>)
    requires cache.Valid() && maxScan > 0
    modifies cache, cache.Entries()
    ensures cache.Valid()
    ensures var hit := Lookup(old(cache.View()), addr);
      if hit.Some? && now - hit.value.fetchedAt < TOTALS_TTL then
        t == hit && cache.View() == AfterGet(old(cache.View()), addr)
      else if t.Some? then
        && t.value == TotalsOf(addr, history, maxScan, now)
        && cache.View() == AfterPut(AfterGet(old(cache.View()), addr), cache.cap, addr, t.value)
      else cache.View() == AfterGet(old(cache.View()), addr) && exists skip: nat :: skip < maxScan && fails(skip)
  {
    var hit := cache.Get(addr);
    if hit.Some? && now - hit.value.fetchedAt < TOTALS_TTL {
      return hit;
    }
    t := ScanTotals(addr, history, maxScan, fails, now);
    if t.Some? {
      cache.Put(addr, t.value);
    }
  }

  /** The field's comment promises `approximate` when the history exceeds the cap. It
      says so unless the history ends exactly at the cap, where it is set for nothing. */
  lemma ApproximateIff(addr: string, history: seq<HistoryTx>, maxScan: nat, now: int)
    ensures (TotalsOf(addr, history, maxScan, now).approximate <==> |history| > maxScan) <==> |history| != maxScan
  {
  }

  /** One transaction and a cap of one: nothing is missing from the totals. */
  lemma CompleteYetApproximate(addr: string, tx: HistoryTx, now: int)
    ensures var t := TotalsOf(addr, [tx], 1, now);
      t.approximate && t == Totals(TotalReceived(addr, [tx]), TotalSent(addr, [tx]), |[tx]|, true, now)
  {
    assert [tx][..1] == [tx];
  }

  ghost predicate ActivityOf(rows: seq<Activity>, addr: string, txs: seq<HistoryTx>) {
    |rows| == |txs| && forall i :: 0 <= i < |rows| ==> IsActivity(rows[i], addr, txs[i])
  }

  lemma {:induction false} ActivitySums(rows: seq<Activity>, addr: string, txs: seq<HistoryTx>)
    requires ActivityOf(rows, addr, txs)
    ensures Sum(SignedAmounts(rows)) == TotalReceived(addr, txs) - TotalSent(addr, txs)
  {
    if rows != [] {
      var n := |rows| - 1;
      ActivitySums(rows[..n], addr, txs[..n]);
      assert SignedAmounts(rows)[..n] == SignedAmounts(rows[..n]);
    }
  }

  /** Unless the totals are approximate, the balance is the signed sum of the activity
      of the whole history. */
  lemma BalanceIsSignedActivity(rows: seq<Activity>, addr: string, history: seq<HistoryTx>, maxScan: nat, now: int)
    requires ActivityOf(rows, addr, history)
    requires !TotalsOf(addr, history, maxScan, now).approximate
    ensures var t := TotalsOf(addr, history, maxScan, now); t.received - t.sent == Sum(SignedAmounts(rows))
  {
    assert history[..|history|] == history;
    ActivitySums(rows, addr, history);
  }

  /** What each of the n newest transactions paid to the address, and spent from it. */
  function ReceivedIn(addr: string, history: seq<HistoryTx>, n: nat): seq<int>
    requires n <= |history|
  {
    seq(n, i requires 0 <= i < n => Received(addr, history[i].vouts))
  }

  function SentIn(addr: string, history: seq<HistoryTx>, n: nat): seq<int>
    requires n <= |history|
  {
    seq(n, i requires 0 <= i < n => Sent(addr, history[i].vins))
  }

  lemma {:induction false} TotalsAreSums(addr: string, history: seq<HistoryTx>, n: nat)
    requires n <= |history|
    ensures TotalReceived(addr, history[..n]) == Sum(ReceivedIn(addr, history, n))
    ensures TotalSent(addr, history[..n]) == Sum(SentIn(addr, history, n))
  {
    hide Received, Sent;
    if n > 0 {
      TotalsAreSums(addr, history, n - 1);
      assert history[..n][..n - 1] == history[..n - 1];
      assert ReceivedIn(addr, history, n)[..n - 1] == ReceivedIn(addr, history, n - 1);
      assert SentIn(addr, history, n)[..n - 1] == SentIn(addr, history, n - 1);
    }
  }

  /** The totals by position: both sums over the newest transactions, as many as the
      history has and the cap allows. */
  lemma TotalsCoverNewest(addr: string, history: seq<HistoryTx>, maxScan: nat, now: int)
    ensures var t := TotalsOf(addr, history, maxScan, now);
      && t.txCount <= |history| && t.txCount <= maxScan && (t.txCount == |history| || t.txCount == maxScan)
      && t.received == Sum(ReceivedIn(addr, history, t.txCount)) && t.sent == Sum(SentIn(addr, history, t.txCount))
  {
    TotalsAreSums(addr, history, MinNat(|history|, maxScan));
  }

  // ----- Pages --------------------------------------------------------------------

  datatype Summary = Summary(balanceSats: int, receivedSats: int, sentSats: int, txCount: nat, approximate: bool,
                             activity: seq<Activity>, hasMore: bool)

  function HasMore(t: Totals, offset: nat, limit: nat, pageLen: nat): bool {
    if t.approximate then pageLen == limit else offset + pageLen < t.txCount
  }

  /** The summary for one page, given the totals. */
  method Summarize(addr: string, history: seq<HistoryTx>, t: Totals, offset: nat, limit: nat) returns (s: Summary)
    ensures ActivityOf(s.activity, addr, Page(history, offset, limit))
    ensures s.balanceSats == t.received - t.sent && s.receivedSats == t.received && s.sentSats == t.sent
    ensures s.txCount == t.txCount && s.approximate == t.approximate
    ensures s.hasMore == HasMore(t, offset, limit, |Page(history, offset, limit)|)
  {
    var page := Page(history, offset, limit);
    var activity: seq<Activity> := [];
    for n := 0 to |page|
      invariant ActivityOf(activity, addr, page[..n])
    {
      var a := ActivityFor(addr, page[n]);
      activity := activity + [a];
    }
    assert page[..|page|] == page;
    s := Summary(t.received - t.sent, t.received, t.sent, t.txCount, t.approximate, activity,
                 if t.approximate then |activity| == limit else offset + |activity| < t.txCount);
  }

  /** A page says truthfully whether more follows, unless approximate totals meet a page
      that ends exactly at the end of the history. */
  lemma HasMoreIff(addr: string, history: seq<HistoryTx>, maxScan: nat, now: int, offset: nat, limit: nat)
    requires limit > 0
    ensures var t := TotalsOf(addr, history, maxScan, now);
      (HasMore(t, offset, limit, |Page(history, offset, limit)|) <==> offset + limit < |history|)
      <==> !(|history| >= maxScan && offset + limit == |history|)
  {
  }

  /** One transaction, a cap of one and pages of one: the first page announces another,
      which is empty. */
  lemma LastPageAnnouncesMore(addr: string, tx: HistoryTx, now: int)
    ensures HasMore(TotalsOf(addr, [tx], 1, now), 0, 1, |Page([tx], 0, 1)|) && Page([tx], 1, 1) == []
  {
  }

  /** Within the history only a full page announces more. */
  lemma MoreOnlyAfterFullPage(addr: string, history: seq<HistoryTx>, maxScan: nat, now: int, offset: nat, limit: nat)
    requires limit > 0 && offset <= |history|
    requires HasMore(TotalsOf(addr, history, maxScan, now), offset, limit, |Page(history, offset, limit)|)
    ensures |Page(history, offset, limit)| == limit && offset + limit <= |history|
  {
  }

  /** The transactions that a client collects from `offset` by following pages for as long
      as the flag announces another. */
  ghost function Followed(addr: string, history: seq<HistoryTx>, maxScan: nat, now: int, offset: nat, limit: nat): seq<HistoryTx>
    requires limit > 0 && offset <= |history|
    decreases |history| - offset
  {
    var page := Page(history, offset, limit);
    if HasMore(TotalsOf(addr, history, maxScan, now), offset, limit, |page|) then
      MoreOnlyAfterFullPage(addr, history, maxScan, now, offset, limit);
      page + Followed(addr, history, maxScan, now, offset + limit, limit)
    else page
  }

  /** Following the flag never skips, repeats or misses a transaction, approximate or not. */
  lemma {:induction false} PagesCoverHistory(addr: string, history: seq<HistoryTx>, maxScan: nat, now: int, offset: nat, limit: nat)
    requires limit > 0 && offset <= |history|
    ensures Followed(addr, history, maxScan, now, offset, limit) == history[offset..]
    decreases |history| - offset
  {
    if HasMore(TotalsOf(addr, history, maxScan, now), offset, limit, |Page(history, offset, limit)|) {
      MoreOnlyAfterFullPage(addr, history, maxScan, now, offset, limit);
      PagesCoverHistory(addr, history, maxScan, now, offset + limit, limit);
      assert history[offset..] == Page(history, offset, limit) + history[offset + limit..];
    }
  }
}
