/** `listTickers`: the address's unspent inscriptions whose metadata names a ticker
    under the key `BONE`. */
module Tickers {
  import opened Wrappers
  import opened AddressHistory
  import opened FetchOutputs
  import opened Listing

  /** A listed ticker inscription. */
  datatype Ticker = Ticker(inscriptionId: string, output: string, value: nat, ticker: string)

  /** `inscription.metadata.BONE` is truthy: present and not the empty string. */
  predicate HasBone(ins: InscriptionData)
  {
    ins.metadataBone.Some? && ins.metadataBone.value != ""
  }

  /** The ticker entries among one output's inscriptions `ins`, in their order. */
  function InscriptionTickers(out: OutputData, ins: seq<InscriptionData>): seq<Ticker>
  {
    if ins == [] then []
    else
      var x := ins[|ins| - 1];
      InscriptionTickers(out, ins[..|ins| - 1])
      + (if HasBone(x) then [Ticker(x.inscriptionId, out.output, out.value, x.metadataBone.value)] else [])
  }

  /** `tickers`: the entries of every output that is neither spent nor an OP_RETURN
      output, output by output. The output's address is not looked at. */
  function TickersList(outputs: seq<OutputData>, spent: set<string>): seq<Ticker>
  {
    if outputs == [] then []
    else
      var out := outputs[|outputs| - 1];
      TickersList(outputs[..|outputs| - 1], spent) + (if Skipped(out, spent) then [] else InscriptionTickers(out, out.inscriptions))
  }

  /** The loop over the fetched outputs and, inside it, over each output's inscriptions. */
  method CollectTickers(outputs: seq<OutputData>, spent: set<string>) returns (tickers: seq<Ticker>)
    ensures tickers == TickersList(outputs, spent)
  {
    tickers := [];
    for i := 0 to |outputs|
      invariant tickers == TickersList(outputs[..i], spent)
    {
      assert outputs[..i + 1][..i] == outputs[..i];
      var out := outputs[i];
      if out.output in spent {
        continue;
      }
      if out.scriptPubkey.Some? && StartsWith(out.scriptPubkey.value, "OP_RETURN") {
        continue;
      }
      if |out.inscriptions| > 0 {
        for j := 0 to |out.inscriptions|
          invariant tickers == TickersList(outputs[..i], spent) + InscriptionTickers(out, out.inscriptions[..j])
        {
          assert out.inscriptions[..j + 1][..j] == out.inscriptions[..j];
          var inscription := out.inscriptions[j];
          if inscription.metadataBone.Some? && inscription.metadataBone.value != "" {
            tickers := tickers + [Ticker(inscription.inscriptionId, out.output, out.value, inscription.metadataBone.value)];
          }
        }
        assert out.inscriptions[..|out.inscriptions|] == out.inscriptions;
      }
    }
    assert outputs[..|outputs|] == outputs;
  }

  /** `listTickers(address)` over the explorer's pages and output records. Only inputs
      that spent one of the address's own outputs count as spending. */
  method ListTickers(address: string, fetchPage: Option<string> -> seq<AddressTx>, maxPages: nat,
                     fetchChunk: seq<string> -> seq<OutputData>)
    returns (tickers: seq<Ticker>)
    ensures var txs := History(fetchPage, maxPages);
      tickers == TickersList(OutputsFor(fetchChunk, txs), SpentOutpoints(txs, Some(address)))
  {
    var outputs, spent := Gather(fetchPage, maxPages, fetchChunk, Some(address));
    tickers := CollectTickers(outputs, spent);
  }

  lemma {:induction false} InscriptionTickersMembership(out: OutputData, ins: seq<InscriptionData>, t: Ticker)
    ensures t in InscriptionTickers(out, ins) <==>
      exists j :: 0 <= j < |ins| && HasBone(ins[j])
                  && t == Ticker(ins[j].inscriptionId, out.output, out.value, ins[j].metadataBone.value)
  {
    if ins != [] {
      var n := |ins| - 1;
      InscriptionTickersMembership(out, ins[..n], t);
      assert forall j :: 0 <= j < n ==> ins[..n][j] == ins[j];
    }
  }

  /** `t` is among the entries of the unskipped output `outputs[i]`. */
  predicate ListedAt(outputs: seq<OutputData>, spent: set<string>, i: int, t: Ticker)
  {
    0 <= i < |outputs| && !Skipped(outputs[i], spent) && t in InscriptionTickers(outputs[i], outputs[i].inscriptions)
  }

  /** An entry is listed exactly when it is among the entries of some unskipped output. */
  lemma {:induction false} TickersPieces(outputs: seq<OutputData>, spent: set<string>, t: Ticker)
    ensures t in TickersList(outputs, spent) <==> exists i :: ListedAt(outputs, spent, i, t)
  {
    if outputs != [] {
      var n := |outputs| - 1;
      TickersPieces(outputs[..n], spent, t);
      PiecesForward(outputs, outputs[..n], spent, t);
      PiecesBackward(outputs, outputs[..n], spent, t);
    }
  }

  lemma PiecesForward(outputs: seq<OutputData>, init: seq<OutputData>, spent: set<string>, t: Ticker)
    requires outputs != [] && init == outputs[..|outputs| - 1]
    requires t in TickersList(init, spent) ==> exists i :: ListedAt(init, spent, i, t)
    ensures t in TickersList(outputs, spent) ==> exists i :: ListedAt(outputs, spent, i, t)
  {
    var n := |init|;
    if t in TickersList(init, spent) {
      var i :| ListedAt(init, spent, i, t);
      assert init[i] == outputs[i];
      assert ListedAt(outputs, spent, i, t);
    } else if t in TickersList(outputs, spent) {
      assert ListedAt(outputs, spent, n, t);
    }
  }

  lemma PiecesBackward(outputs: seq<OutputData>, init: seq<OutputData>, spent: set<string>, t: Ticker)
    requires outputs != [] && init == outputs[..|outputs| - 1]
    requires (exists i :: ListedAt(init, spent, i, t)) ==> t in TickersList(init, spent)
    ensures (exists i :: ListedAt(outputs, spent, i, t)) ==> t in TickersList(outputs, spent)
  {
    var n := |init|;
    var out := outputs[n];
    var piece := if Skipped(out, spent) then [] else InscriptionTickers(out, out.inscriptions);
    assert TickersList(outputs, spent) == TickersList(init, spent) + piece;
    if exists i :: ListedAt(outputs, spent, i, t) {
      var i :| ListedAt(outputs, spent, i, t);
      if i < n {
        assert init[i] == outputs[i];
        assert ListedAt(init, spent, i, t);
      } else {
        assert i == n && outputs[i] == out;
        assert !Skipped(out, spent) && t in InscriptionTickers(out, out.inscriptions);
      }
    }
  }

  /** An entry is listed exactly when an unskipped output carries an inscription with a
      `BONE` ticker; the entry's ticker is that value. */
  lemma TickersMembership(outputs: seq<OutputData>, spent: set<string>, t: Ticker)
    ensures t in TickersList(outputs, spent) <==>
      exists i, j :: 0 <= i < |outputs| && 0 <= j < |outputs[i].inscriptions| && !Skipped(outputs[i], spent)
                     && HasBone(outputs[i].inscriptions[j])
                     && t == Ticker(outputs[i].inscriptions[j].inscriptionId, outputs[i].output, outputs[i].value,
                                    outputs[i].inscriptions[j].metadataBone.value)
  {
    TickersPieces(outputs, spent, t);
    if t in TickersList(outputs, spent) {
      var i :| ListedAt(outputs, spent, i, t);
      InscriptionTickersMembership(outputs[i], outputs[i].inscriptions, t);
    }
    if exists i, j :: 0 <= i < |outputs| && 0 <= j < |outputs[i].inscriptions| && !Skipped(outputs[i], spent)
                      && HasBone(outputs[i].inscriptions[j])
                      && t == Ticker(outputs[i].inscriptions[j].inscriptionId, outputs[i].output, outputs[i].value,
                                     outputs[i].inscriptions[j].metadataBone.value) {
      var i, j :| 0 <= i < |outputs| && 0 <= j < |outputs[i].inscriptions| && !Skipped(outputs[i], spent)
                  && HasBone(outputs[i].inscriptions[j])
                  && t == Ticker(outputs[i].inscriptions[j].inscriptionId, outputs[i].output, outputs[i].value,
                                 outputs[i].inscriptions[j].metadataBone.value);
      InscriptionTickersMembership(outputs[i], outputs[i].inscriptions, t);
      assert ListedAt(outputs, spent, i, t);
    }
  }

  /** Every listed ticker is non-empty and its output is not spent by one of the
      address's own outputs' spenders. */
  lemma TickerFacts(outputs: seq<OutputData>, txs: seq<AddressTx>, address: string, t: Ticker)
    requires t in TickersList(outputs, SpentOutpoints(txs, Some(address)))
    ensures t.ticker != ""
    ensures forall i, j :: 0 <= i < |txs| && 0 <= j < |txs[i].vin| && txs[i].vin[j].prevoutAddress == Some(address) ==>
      OutpointKey(txs[i].vin[j].txid, txs[i].vin[j].vout) != t.output
  {
    TickersMembership(outputs, SpentOutpoints(txs, Some(address)), t);
    SpentMembership(txs, Some(address), t.output);
  }
}
