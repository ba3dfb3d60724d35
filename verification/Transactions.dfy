/** The parts of the node's transaction results that the explorer reads. */
module Transactions {

  /** An output; amounts are satoshis, both result shapes carry addresses, and `code` is
      the script-type code of its script class, empty for a non-standard one. */
  datatype Vout = Vout(sats: int, addresses: seq<string>, address: string, code: string)

  const NON_STANDARD := "(non-standard output)"

  function VoutAddrs(v: Vout): seq<string> {
    if |v.addresses| > 0 then v.addresses
    else if v.address != "" then [v.address]
    else []
  }

  function FirstAddr(addrs: seq<string>): string {
    if |addrs| == 0 then NON_STANDARD else addrs[0]
  }

  /** What an input needs to know of the output it spends. */
  datatype Prevout = Prevout(valueSats: int, addrs: seq<string>, scriptType: string)

  function PrevoutOf(v: Vout): Prevout {
    Prevout(v.sats, VoutAddrs(v), v.code)
  }

  /** Every address of either field counts, and only those; a row shows one of them. */
  lemma AddrsAre(v: Vout)
    ensures forall a :: a in VoutAddrs(v) <==> a in v.addresses || (v.addresses == [] && v.address != "" && a == v.address)
    ensures if VoutAddrs(v) == [] then FirstAddr(VoutAddrs(v)) == NON_STANDARD
            else FirstAddr(VoutAddrs(v)) in VoutAddrs(v)
  {
  }
}
