/** Transaction helpers: the bare OP_RETURN script, the mapping of an unspent output to
    a coin-selection input, and the library calls every builder goes through (coin
    selection, signing and finalizing). */
module TxUtils {
  import opened Wrappers
  import opened Encoding
  import opened Script
  import opened Types
  import opened TxTypes

  /** `getOpReturnScript(data)`: OP_RETURN, followed by a push of the data unless it is
      empty. */
  function GetOpReturnScript(data: seq<byte>): (s: seq<Chunk>)
    ensures |s| == if data == [] then 1 else 2
    ensures s[0] == Op(OP_RETURN)
    ensures data != [] ==> s[1] == Push(data)
  {
    if |data| > 0 then [Op(OP_RETURN), Push(data)] else [Op(OP_RETURN)]
  }

  /** The default script is the single byte OP_RETURN. */
  lemma EmptyOpReturnBytes()
    ensures Serialize(GetOpReturnScript([])) == [OP_RETURN]
  {
    assert GetOpReturnScript([])[..0] == [];
  }

  /** `utxo2InputDoge(spender)(utxo)`: the decoded txid, the output index, and the
      spender's script with the output's value; `None` when the txid is not hex (where
      `hex.decode` throws). The confirmation status is not carried over. */
  function Utxo2InputDoge(spender: Spender, utxo: Utxo): (r: Option<Input>)
    ensures r.Some? <==> HexDecode(utxo.txid).Some?
    ensures r.Some? ==> HexDecode(utxo.txid) == Some(r.value.txid) && r.value.index == utxo.vout
    ensures r.Some? ==> r.value.script == spender.script && r.value.amount == utxo.value
  {
    var txid :- HexDecode(utxo.txid);
    Some(Input(txid, utxo.vout, spender.script, utxo.value))
  }

  /** `utxos.map(utxo2InputDoge(spender))`, failing when any txid fails to decode. */
  function InputsOf(spender: Spender, utxos: seq<Utxo>): (r: Option<seq<Input>>)
    ensures r.Some? <==> forall i :: 0 <= i < |utxos| ==> HexDecode(utxos[i].txid).Some?
    ensures r.Some? ==> |r.value| == |utxos|
    ensures r.Some? ==> forall i :: 0 <= i < |utxos| ==> Utxo2InputDoge(spender, utxos[i]) == Some(r.value[i])
  {
    if utxos == [] then Some([])
    else
      var init :- InputsOf(spender, utxos[..|utxos| - 1]);
      var last :- Utxo2InputDoge(spender, utxos[|utxos| - 1]);
      Some(init + [last])
  }

  /** An input list decodes back to the outpoints it was made from. */
  lemma InputsOfOutpoints(spender: Spender, utxos: seq<Utxo>, i: nat)
    requires InputsOf(spender, utxos).Some? && i < |utxos|
    ensures HexDecode(utxos[i].txid) == Some(InputsOf(spender, utxos).value[i].txid)
    ensures InputsOf(spender, utxos).value[i].index == utxos[i].vout
  {
  }

  /** What `selectUTXO` reports: whether it chose inputs, whether it added change, and
      the transaction it built, if any. */
  datatype Selection = Selection(inputs: Option<seq<Input>>, change: bool, tx: Option<Tx>)

  /** The wallet the builders act for, and the library calls made with its key:
      `selectUTXO(candidates, outputs, changeAddress, requiredInputs)` at the wallet's
      fee rate, `tx.sign(key); tx.finalize()`, and the key in WIF form. */
  datatype Wallet = Wallet(
    spender: Spender,
    wif: string,
    select: (seq<Input>, seq<Output>, string, seq<Input>) -> Option<Selection>,
    finalize: Tx -> Tx)

  /** A library behaviour the builders rely on: the signed transaction carries at least
      the requested outputs (selection appends change after them). */
  ghost predicate BuildsRequestedOutputs(w: Wallet)
  {
    forall candidates, outputs, change, required ::
      var e := w.select(candidates, outputs, change, required);
      e.Some? && e.value.tx.Some? ==> |w.finalize(e.value.tx.value).outputs| >= |outputs|
  }

  /** `selectUTXO` with the wallet's change address, its result checked the way every
      builder checks it: no estimation or no inputs is `noInputs`, no transaction is
      `noTx`; otherwise the transaction is signed and finalized. */
  function SelectAndSign(w: Wallet, candidates: seq<Input>, outputs: seq<Output>, required: seq<Input>,
                         noInputs: string, noTx: string): (r: Result<Tx>)
    ensures var e := w.select(candidates, outputs, w.spender.address, required);
      (e.None? || e.value.inputs.None? ==> r == Err(noInputs))
      && (e.Some? && e.value.inputs.Some? && e.value.tx.None? ==> r == Err(noTx))
      && (e.Some? && e.value.inputs.Some? && e.value.tx.Some? ==> r == Ok(w.finalize(e.value.tx.value)))
  {
    var e := w.select(candidates, outputs, w.spender.address, required);
    if e.None? || e.value.inputs.None? then Err(noInputs)
    else if e.value.tx.None? then Err(noTx)
    else Ok(w.finalize(e.value.tx.value))
  }

  /** A signed transaction has at least the outputs it was asked for. */
  lemma SelectAndSignOutputs(w: Wallet, candidates: seq<Input>, outputs: seq<Output>, required: seq<Input>,
                             noInputs: string, noTx: string)
    requires BuildsRequestedOutputs(w)
    requires SelectAndSign(w, candidates, outputs, required, noInputs, noTx).Ok?
    ensures |SelectAndSign(w, candidates, outputs, required, noInputs, noTx).value.outputs| >= |outputs|
  {
    var e := w.select(candidates, outputs, w.spender.address, required);
    assert e.Some? && e.value.tx.Some?;
  }

  const HEX_ERROR := "txid is not hex"
}
