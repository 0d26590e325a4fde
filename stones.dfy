/** `listStones`: the address's unspent "stone" inscriptions, that is inscriptions that
    delegate to one fixed inscription and were created below a fixed height; and the
    delegation `unwrapStones`. */
module Stones {
  import opened Wrappers
  import opened Types
  import opened AddressHistory
  import opened FetchOutputs
  import opened Listing
  import opened TxTypes
  import opened TxUtils
  import UnwrapTx

  /** A listed stone: its inscription id and the output holding it. */
  datatype Stone = Stone(inscriptionId: string, output: string, value: nat)

  /** The inscription every stone delegates to. */
  const DELEGATE_TO_MATCH := "babc46e7095a90c814d4c161b1d9d47f921c566ea93ad483d78741cc27c07debi0"
  /** Stones were created strictly below this block height. */
  const MAX_HEIGHT: int := 5444000

  predicate IsStone(ins: InscriptionData)
  {
    ins.delegate == Some(DELEGATE_TO_MATCH) && ins.genesisHeight < MAX_HEIGHT
  }

  /** The stones among one output's inscriptions `ins`, in their order. */
  function InscriptionStones(out: OutputData, ins: seq<InscriptionData>): seq<Stone>
  {
    if ins == [] then []
    else
      var x := ins[|ins| - 1];
      InscriptionStones(out, ins[..|ins| - 1])
      + (if IsStone(x) then [Stone(x.inscriptionId, out.output, out.value)] else [])
  }

  /** `stones`: the stones of every output that is neither spent nor an OP_RETURN
      output, output by output. The output's address is not looked at. */
  function StonesList(outputs: seq<OutputData>, spent: set<string>): seq<Stone>
  {
    if outputs == [] then []
    else
      var out := outputs[|outputs| - 1];
      StonesList(outputs[..|outputs| - 1], spent) + (if Skipped(out, spent) then [] else InscriptionStones(out, out.inscriptions))
  }

  /** The loop over the fetched outputs and, inside it, over each output's inscriptions. */
  method CollectStones(outputs: seq<OutputData>, spent: set<string>) returns (stones: seq<Stone>)
    ensures stones == StonesList(outputs, spent)
  {
    stones := [];
    for i := 0 to |outputs|
      invariant stones == StonesList(outputs[..i], spent)
    {
      assert outputs[..i + 1][..i] == outputs[..i];
      var out := outputs[i];
      if out.output in spent {
        continue;
      }
      if out.scriptPubkey.Some? && StartsWith(out.scriptPubkey.value, "OP_RETURN") {
        continue;
      }
      if |out.inscriptions| > 0 {
        for j := 0 to |out.inscriptions|
          invariant stones == StonesList(outputs[..i], spent) + InscriptionStones(out, out.inscriptions[..j])
        {
          assert out.inscriptions[..j + 1][..j] == out.inscriptions[..j];
          var inscription := out.inscriptions[j];
          if inscription.delegate == Some(DELEGATE_TO_MATCH) && inscription.genesisHeight < MAX_HEIGHT {
            stones := stones + [Stone(inscription.inscriptionId, out.output, out.value)];
          }
        }
        assert out.inscriptions[..|out.inscriptions|] == out.inscriptions;
      }
    }
    assert outputs[..|outputs|] == outputs;
  }

  /** `listStones(address)` over the explorer's pages and output records. Every input of
      the history counts as spending. */
  method ListStones(fetchPage: Option<string> -> seq<AddressTx>, maxPages: nat,
                    fetchChunk: seq<string> -> seq<OutputData>)
    returns (stones: seq<Stone>)
    ensures var txs := History(fetchPage, maxPages);
      stones == StonesList(OutputsFor(fetchChunk, txs), SpentOutpoints(txs, None))
  {
    var outputs, spent := Gather(fetchPage, maxPages, fetchChunk, None);
    stones := CollectStones(outputs, spent);
  }

  lemma {:induction false} InscriptionStonesMembership(out: OutputData, ins: seq<InscriptionData>, s: Stone)
    ensures s in InscriptionStones(out, ins) <==>
      exists j :: 0 <= j < |ins| && IsStone(ins[j]) && s == Stone(ins[j].inscriptionId, out.output, out.value)
  {
    if ins != [] {
      var n := |ins| - 1;
      InscriptionStonesMembership(out, ins[..n], s);
      assert forall j :: 0 <= j < n ==> ins[..n][j] == ins[j];
    }
  }

  /** Inscription `j` of output `i` is a stone of an unskipped output, described by `s`. */
  predicate StoneAt(outputs: seq<OutputData>, spent: set<string>, s: Stone, i: int, j: int)
  {
    0 <= i < |outputs| && 0 <= j < |outputs[i].inscriptions| && !Skipped(outputs[i], spent)
    && IsStone(outputs[i].inscriptions[j])
    && s == Stone(outputs[i].inscriptions[j].inscriptionId, outputs[i].output, outputs[i].value)
  }

  /** A stone is listed exactly when an unskipped output carries a matching inscription
      with that id; the stone names that output and its value. */
  lemma {:induction false} StonesMembership(outputs: seq<OutputData>, spent: set<string>, s: Stone)
    ensures s in StonesList(outputs, spent) <==> exists i, j :: StoneAt(outputs, spent, s, i, j)
  {
    if outputs != [] {
      var n := |outputs| - 1;
      StonesMembership(outputs[..n], spent, s);
      StonesForward(outputs, outputs[..n], spent, s);
      StonesBackward(outputs, outputs[..n], spent, s);
    }
  }

  lemma StonesForward(outputs: seq<OutputData>, init: seq<OutputData>, spent: set<string>, s: Stone)
    requires outputs != [] && init == outputs[..|outputs| - 1]
    requires s in StonesList(init, spent) ==> exists i, j :: StoneAt(init, spent, s, i, j)
    ensures s in StonesList(outputs, spent) ==> exists i, j :: StoneAt(outputs, spent, s, i, j)
  {
    var n := |init|;
    var out := outputs[n];
    StonesLast(outputs, spent);
    if s in StonesList(init, spent) {
      var i, j :| StoneAt(init, spent, s, i, j);
      assert init[i] == outputs[i];
      assert StoneAt(outputs, spent, s, i, j);
    } else if s in StonesList(outputs, spent) {
      InscriptionStonesMembership(out, out.inscriptions, s);
      var j :| 0 <= j < |out.inscriptions| && IsStone(out.inscriptions[j])
               && s == Stone(out.inscriptions[j].inscriptionId, out.output, out.value);
      assert StoneAt(outputs, spent, s, n, j);
    }
  }

  lemma StonesBackward(outputs: seq<OutputData>, init: seq<OutputData>, spent: set<string>, s: Stone)
    requires outputs != [] && init == outputs[..|outputs| - 1]
    requires (exists i, j :: StoneAt(init, spent, s, i, j)) ==> s in StonesList(init, spent)
    ensures (exists i, j :: StoneAt(outputs, spent, s, i, j)) ==> s in StonesList(outputs, spent)
  {
    var n := |init|;
    var out := outputs[n];
    StonesLast(outputs, spent);
    if exists i, j :: StoneAt(outputs, spent, s, i, j) {
      var i, j :| StoneAt(outputs, spent, s, i, j);
      if i < n {
        assert init[i] == outputs[i];
        assert StoneAt(init, spent, s, i, j);
      } else {
        assert i == n && !Skipped(out, spent);
        InscriptionStonesMembership(out, out.inscriptions, s);
        assert IsStone(out.inscriptions[j]) && s == Stone(out.inscriptions[j].inscriptionId, out.output, out.value);
        assert s in InscriptionStones(out, out.inscriptions);
      }
    }
  }

  lemma StonesLast(outputs: seq<OutputData>, spent: set<string>)
    requires outputs != []
    ensures var out := outputs[|outputs| - 1];
      StonesList(outputs, spent)
      == StonesList(outputs[..|outputs| - 1], spent) + (if Skipped(out, spent) then [] else InscriptionStones(out, out.inscriptions))
  {
  }

  /** No listed stone sits on an output spent by any input of the fetched history. */
  lemma StoneUnspent(outputs: seq<OutputData>, txs: seq<AddressTx>, s: Stone)
    requires s in StonesList(outputs, SpentOutpoints(txs, None))
    ensures forall i, j :: 0 <= i < |txs| && 0 <= j < |txs[i].vin| ==>
      OutpointKey(txs[i].vin[j].txid, txs[i].vin[j].vout) != s.output
  {
    StonesMembership(outputs, SpentOutpoints(txs, None), s);
    SpentMembership(txs, None, s.output);
  }

  /** `unwrapStones`: `createBonestoneUnwrap` with the same arguments. */
  method UnwrapStones(utxosToBurn: seq<Utxo>, fundingUtxos: seq<Utxo>, w: Wallet) returns (r: Result<Tx>)
    ensures r == UnwrapTx.UnwrapTxOf(utxosToBurn, fundingUtxos, w)
  {
    r := UnwrapTx.CreateBonestoneUnwrap(utxosToBurn, fundingUtxos, w);
  }
}
