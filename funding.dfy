/** `listFundingUtxos`: the address's unspent outputs that can pay fees, that is
    outputs of at least 0.5 coin that carry no inscription. */
module Funding {
  import opened Wrappers
  import opened AddressHistory
  import opened FetchOutputs
  import opened Listing

  /** A listed funding output. */
  datatype FundingUtxo = FundingUtxo(output: string, address: string, value: nat)

  const ONE_DOGE: nat := 50000000

  /** The filter: the queried address's output, worth at least `ONE_DOGE`, without
      inscriptions, and not spent by a fetched transaction. */
  predicate Eligible(out: OutputData, address: string, spent: set<string>)
  {
    out.address == Some(address) && out.value >= ONE_DOGE && |out.inscriptions| == 0 && out.output !in spent
  }

  /** The filtered outputs, reduced to `{output, address, value}`, in output order. */
  function FundingUtxos(outputs: seq<OutputData>, address: string, spent: set<string>): seq<FundingUtxo>
  {
    if outputs == [] then []
    else
      var out := outputs[|outputs| - 1];
      FundingUtxos(outputs[..|outputs| - 1], address, spent)
      + (if Eligible(out, address, spent) then [FundingUtxo(out.output, address, out.value)] else [])
  }

  /** `listFundingUtxos` over the explorer's pages (`fetchPage`, for this address) and
      output records (`fetchChunk`). Every input of the history counts as spending. */
  method ListFundingUtxos(address: string, fetchPage: Option<string> -> seq<AddressTx>, maxPages: nat,
                          fetchChunk: seq<string> -> seq<OutputData>)
    returns (fundingUtxos: seq<FundingUtxo>)
    ensures var txs := History(fetchPage, maxPages);
      fundingUtxos == FundingUtxos(OutputsFor(fetchChunk, txs), address, SpentOutpoints(txs, None))
  {
    var outputs, spent := Gather(fetchPage, maxPages, fetchChunk, None);
    fundingUtxos := FundingUtxos(outputs, address, spent);
  }

  /** A funding output is listed exactly when an eligible record names it, and it
      carries that record's name and value and the queried address. */
  lemma {:induction false} FundingMembership(outputs: seq<OutputData>, address: string, spent: set<string>, f: FundingUtxo)
    ensures f in FundingUtxos(outputs, address, spent) <==>
      exists i :: 0 <= i < |outputs| && Eligible(outputs[i], address, spent)
                  && f == FundingUtxo(outputs[i].output, address, outputs[i].value)
  {
    if outputs != [] {
      var n := |outputs| - 1;
      FundingMembership(outputs[..n], address, spent, f);
      assert forall i :: 0 <= i < n ==> outputs[..n][i] == outputs[i];
    }
  }

  /** The filter keeps output order: the listing of two runs of records is the two
      listings, one after the other. */
  lemma {:induction false} FundingConcat(a: seq<OutputData>, b: seq<OutputData>, address: string, spent: set<string>)
    ensures FundingUtxos(a + b, address, spent) == FundingUtxos(a, address, spent) + FundingUtxos(b, address, spent)
    decreases |b|
  {
    if b == [] {
      assert a + b == a;
    } else {
      var n := |b| - 1;
      assert (a + b)[..|a| + n] == a + b[..n];
      FundingConcat(a, b[..n], address, spent);
    }
  }

  /** No listed output is spent by an input of a fetched transaction, whatever address
      that input spent from. */
  lemma NeverSpentByHistory(outputs: seq<OutputData>, address: string, txs: seq<AddressTx>, f: FundingUtxo)
    requires f in FundingUtxos(outputs, address, SpentOutpoints(txs, None))
    ensures forall i, j :: 0 <= i < |txs| && 0 <= j < |txs[i].vin| ==>
      OutpointKey(txs[i].vin[j].txid, txs[i].vin[j].vout) != f.output
  {
    FundingMembership(outputs, address, SpentOutpoints(txs, None), f);
    SpentMembership(txs, None, f.output);
  }
}
