/** `createBonestoneUnwrap`: burns the given UTXOs' value into a bare OP_RETURN output. */
module UnwrapTx {
  import opened Wrappers
  import opened Encoding
  import opened Script
  import opened Types
  import opened TxTypes
  import opened Constants
  import opened TxUtils

  const ESTIMATE_ERROR := "Failed to estimate relic swap transaction"
  const CREATE_ERROR := "Failed to create relic swap transaction"

  /** `utxosToBurn.reduce((acc, utxo) => acc + utxo.value, 0)`. */
  function BurnValue(utxos: seq<Utxo>): nat
  {
    if utxos == [] then 0 else BurnValue(utxos[..|utxos| - 1]) + utxos[|utxos| - 1].value
  }

  lemma {:induction false} BurnValueConcat(a: seq<Utxo>, b: seq<Utxo>)
    ensures BurnValue(a + b) == BurnValue(a) + BurnValue(b)
    decreases |b|
  {
    if b == [] {
      assert a + b == a;
    } else {
      assert (a + b)[..|a + b| - 1] == a + b[..|b| - 1];
      BurnValueConcat(a, b[..|b| - 1]);
    }
  }

  /** Every burned value counts towards the burn output. */
  lemma {:induction false} BurnValueBound(utxos: seq<Utxo>, i: nat)
    requires i < |utxos|
    ensures utxos[i].value <= BurnValue(utxos)
  {
    assert utxos == utxos[..i] + [utxos[i]] + utxos[i + 1..];
    BurnValueConcat(utxos[..i] + [utxos[i]], utxos[i + 1..]);
    BurnValueConcat(utxos[..i], [utxos[i]]);
    assert [utxos[i]][..0] == [];
  }

  /** The two requested outputs: the OP_RETURN burn, then the 100000 collector. */
  function UnwrapOutputs(utxosToBurn: seq<Utxo>, spender: Spender): seq<Output>
  {
    [ScriptOut(Serialize(GetOpReturnScript([])), BurnValue(utxosToBurn)),
     AddressOut(spender.address, BONES_UTXO_TARGET_SIZE)]
  }

  /** The unwrap: no estimation or inputs, no change, or no transaction is an error. */
  function UnwrapTxOf(utxosToBurn: seq<Utxo>, fundingUtxos: seq<Utxo>, w: Wallet): Result<Tx>
  {
    var candidates := InputsOf(w.spender, fundingUtxos);
    var required := InputsOf(w.spender, utxosToBurn);
    if candidates.None? || required.None? then Err(HEX_ERROR)
    else
      var e := w.select(candidates.value, UnwrapOutputs(utxosToBurn, w.spender), w.spender.address, required.value);
      if e.None? || e.value.inputs.None? then Err(ESTIMATE_ERROR)
      else if !e.value.change then Err(CREATE_ERROR)
      else if e.value.tx.None? then Err(CREATE_ERROR)
      else Ok(w.finalize(e.value.tx.value))
  }

  method CreateBonestoneUnwrap(utxosToBurn: seq<Utxo>, fundingUtxos: seq<Utxo>, w: Wallet) returns (r: Result<Tx>)
    ensures r == UnwrapTxOf(utxosToBurn, fundingUtxos, w)
  {
    var spender := w.spender;
    var opReturnScript := GetOpReturnScript([]);
    var outputs := [ScriptOut(Serialize(opReturnScript), BurnValue(utxosToBurn)),
                    AddressOut(spender.address, BONES_UTXO_TARGET_SIZE)];
    var candidates := InputsOf(spender, fundingUtxos);
    var required := InputsOf(spender, utxosToBurn);
    if candidates.None? || required.None? {
      return Err(HEX_ERROR);
    }
    var estimation := w.select(candidates.value, outputs, spender.address, required.value);
    if estimation.None? || estimation.value.inputs.None? {
      return Err(ESTIMATE_ERROR);
    }
    if !estimation.value.change {
      return Err(CREATE_ERROR);
    }
    if estimation.value.tx.None? {
      return Err(CREATE_ERROR);
    }
    r := Ok(w.finalize(estimation.value.tx.value));
  }

  /** Exactly two outputs: a bare OP_RETURN holding the sum of the burned values, and
      100000 to the spender; every burned UTXO is a required input of the selection. */
  lemma UnwrapOutputsShape(utxosToBurn: seq<Utxo>, spender: Spender)
    ensures var outs := UnwrapOutputs(utxosToBurn, spender);
      |outs| == 2
      && outs[0] == ScriptOut([OP_RETURN], BurnValue(utxosToBurn))
      && outs[1] == AddressOut(spender.address, 100000)
      && (forall i :: 0 <= i < |utxosToBurn| ==> utxosToBurn[i].value <= outs[0].amount)
  {
    EmptyOpReturnBytes();
    forall i | 0 <= i < |utxosToBurn| ensures utxosToBurn[i].value <= BurnValue(utxosToBurn) {
      BurnValueBound(utxosToBurn, i);
    }
  }

  /** Without change the unwrap is refused even when a transaction was built. */
  lemma UnwrapNeedsChange(utxosToBurn: seq<Utxo>, fundingUtxos: seq<Utxo>, w: Wallet)
    requires InputsOf(w.spender, fundingUtxos).Some? && InputsOf(w.spender, utxosToBurn).Some?
    ensures var e := w.select(InputsOf(w.spender, fundingUtxos).value, UnwrapOutputs(utxosToBurn, w.spender),
                              w.spender.address, InputsOf(w.spender, utxosToBurn).value);
      UnwrapTxOf(utxosToBurn, fundingUtxos, w).Ok? <==>
        e.Some? && e.value.inputs.Some? && e.value.change && e.value.tx.Some?
  {
  }
}
