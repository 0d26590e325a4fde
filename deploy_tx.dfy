/** `createDeployTransaction`: a commit paying the delegate inscription's
    pay-to-script-hash twice, and the reveal spending both outputs with the deploy
    marker. */
module DeployTx {
  import opened Wrappers
  import opened Encoding
  import opened Script
  import opened Types
  import opened TxTypes
  import opened Constants
  import opened KeepsakeCodec
  import opened ProtocolScripts
  import opened Inscriptions
  import opened DelegateInscriptions
  import opened TxUtils

  const ESTIMATE_ERROR := "Failed to estimate commit transaction"
  const CREATE_ERROR := "Failed to create commit transaction"

  /** `s.replace(/i0$/, "")`: drops one trailing "i0". */
  function StripI0(s: string): (r: string)
    ensures |s| >= 2 && s[|s| - 2..] == "i0" ==> r + "i0" == s
    ensures !(|s| >= 2 && s[|s| - 2..] == "i0") ==> r == s
  {
    if |s| >= 2 && s[|s| - 2..] == "i0" then s[..|s| - 2] else s
  }

  /** An inscription id `<txid>i0` gives back its txid. */
  lemma StripI0OfId(txid: string)
    ensures StripI0(txid + "i0") == txid
  {
    var s := txid + "i0";
    assert s[|s| - 2..] == "i0";
    assert s[..|s| - 2] == txid;
  }

  /** The deploy parameters. */
  datatype BoneDeployParams = BoneDeployParams(
    symbol: string, seed: nat, subsidy: nat, mintTerms: Option<MintTerms>, turbo: bool)

  /** The commit outputs, both to the delegate's pay-to-script-hash: 4371000 funding the
      reveal, 100000 carrying the delegate inscription. */
  function DeployCommitOutputs(p2sh: seq<Chunk>): (r: seq<Output>)
    ensures r == [ScriptOut(Serialize(p2sh), 4371000), ScriptOut(Serialize(p2sh), 100000)]
  {
    [ScriptOut(Serialize(p2sh), INSCRIPTION_TARGET_SIZE + 4271000), ScriptOut(Serialize(p2sh), INSCRIPTION_TARGET_SIZE)]
  }

  /** The reveal outputs: the delegate carrier, the sealing carrier, then the marker. */
  function DeployRevealOutputs(spender: Spender, params: BoneDeployParams, protocolOpcode: byte): seq<Output>
  {
    var d := Types.Deployment(params.symbol, params.seed, params.subsidy, params.mintTerms, params.turbo);
    [AddressOut(spender.address, INSCRIPTION_TARGET_SIZE),
     AddressOut(spender.address, INSCRIPTION_TARGET_SIZE),
     ScriptOut(Serialize(MessageScript(DeployOnlyMessage(d), protocolOpcode)), 0)]
  }

  /** The signed commit: the sealing UTXO is the only required input. */
  function DeployCommitOf(fundingUtxos: seq<Utxo>, sealingUtxo: Utxo, w: Wallet, crypto: Crypto, txid: string)
    : Result<Tx>
    requires IsTxid(txid)
  {
    var p := DelegateP2shFor(crypto.publicKey(w.wif), txid, crypto.hash160);
    var candidates := InputsOf(w.spender, fundingUtxos);
    var required := InputsOf(w.spender, [sealingUtxo]);
    if candidates.None? || required.None? then Err(HEX_ERROR)
    else SelectAndSign(w, candidates.value, DeployCommitOutputs(p.p2sh), required.value, ESTIMATE_ERROR, CREATE_ERROR)
  }

  /** The signed commit keeps both outputs paying the pay-to-script-hash. */
  lemma DeployCommitOutputsKept(fundingUtxos: seq<Utxo>, sealingUtxo: Utxo, w: Wallet, crypto: Crypto, txid: string)
    requires IsTxid(txid)
    requires BuildsRequestedOutputs(w)
    requires DeployCommitOf(fundingUtxos, sealingUtxo, w, crypto, txid).Ok?
    ensures |DeployCommitOf(fundingUtxos, sealingUtxo, w, crypto, txid).value.outputs| >= 2
  {
    var p := DelegateP2shFor(crypto.publicKey(w.wif), txid, crypto.hash160);
    var candidates := InputsOf(w.spender, fundingUtxos);
    var required := InputsOf(w.spender, [sealingUtxo]);
    SelectAndSignOutputs(w, candidates.value, DeployCommitOutputs(p.p2sh), required.value, ESTIMATE_ERROR, CREATE_ERROR);
  }

  /** Commit and reveal; the reveal spends commit outputs 1 then 0, each with its amount. */
  function DeployTxsOf(params: BoneDeployParams, fundingUtxos: seq<Utxo>, sealingUtxo: Utxo, w: Wallet,
                       crypto: Crypto, delegateInscription: string, protocolOpcode: byte): Result<(Tx, RevealTx)>
    requires BuildsRequestedOutputs(w)
  {
    var txid := StripI0(delegateInscription);
    if !IsTxid(txid) then Err(TXID_ERROR)
    else
      var commit :- DeployCommitOf(fundingUtxos, sealingUtxo, w, crypto, txid);
      DeployCommitOutputsKept(fundingUtxos, sealingUtxo, w, crypto, txid);
      Ok((commit, DelegateRevealOf(w.wif, commit.id, [commit.outputs[1], commit.outputs[0]], [1, 0],
                                   DeployRevealOutputs(w.spender, params, protocolOpcode), txid, crypto)))
  }

  method CreateDeployTransaction(params: BoneDeployParams, fundingUtxos: seq<Utxo>, sealingUtxo: Utxo, w: Wallet,
                                 feePerByte: nat, crypto: Crypto, delegateInscription: string, protocolOpcode: byte)
    returns (r: Result<(Tx, RevealTx)>)
    requires BuildsRequestedOutputs(w)
    ensures r == DeployTxsOf(params, fundingUtxos, sealingUtxo, w, crypto, delegateInscription, protocolOpcode)
  {
    var spender := w.spender;
    var res := GetDelegateP2sh(w.wif, StripI0(delegateInscription), crypto);
    if res.Err? {
      return Err(res.error);
    }
    var p2sh := res.value.p2sh;
    var commitOutputs := [ScriptOut(Serialize(p2sh), INSCRIPTION_TARGET_SIZE + 4271000),
                          ScriptOut(Serialize(p2sh), INSCRIPTION_TARGET_SIZE)];
    assert commitOutputs == DeployCommitOutputs(p2sh);
    var candidates := InputsOf(spender, fundingUtxos);
    var required := InputsOf(spender, [sealingUtxo]);
    if candidates.None? || required.None? {
      return Err(HEX_ERROR);
    }
    var estimation := w.select(candidates.value, commitOutputs, spender.address, required.value);
    if estimation.None? || estimation.value.inputs.None? {
      return Err(ESTIMATE_ERROR);
    }
    if estimation.value.tx.None? {
      return Err(CREATE_ERROR);
    }
    var commitTx := w.finalize(estimation.value.tx.value);
    assert |commitTx.outputs| >= |commitOutputs|;
    var deployScript := GetDeployScript(params.symbol, params.seed, params.subsidy, params.mintTerms, params.turbo,
                                        protocolOpcode);
    var revealOutputs := [AddressOut(spender.address, INSCRIPTION_TARGET_SIZE),
                          AddressOut(spender.address, INSCRIPTION_TARGET_SIZE),
                          ScriptOut(Serialize(deployScript), 0)];
    var revealed := GetDelegateRevealTx(w.wif, feePerByte, commitTx.id, [commitTx.outputs[1], commitTx.outputs[0]],
                                      [1, 0], revealOutputs, StripI0(delegateInscription), crypto);
    assert revealed.Ok?;
    r := Ok((commitTx, revealed.value));
  }

  /** The reveal spends commit output 1 with output 1's amount, then output 0 with
      output 0's amount; its outputs are the two 100000 carriers and the deploy marker,
      whose message is the deployment alone. */
  lemma DeployRevealSpendOrder(params: BoneDeployParams, fundingUtxos: seq<Utxo>, sealingUtxo: Utxo, w: Wallet,
                               crypto: Crypto, delegateInscription: string, protocolOpcode: byte)
    requires BuildsRequestedOutputs(w)
    requires IsTxid(StripI0(delegateInscription))
    requires DeployCommitOf(fundingUtxos, sealingUtxo, w, crypto, StripI0(delegateInscription)).Ok?
    ensures var commit := DeployCommitOf(fundingUtxos, sealingUtxo, w, crypto, StripI0(delegateInscription)).value;
      var txs := DeployTxsOf(params, fundingUtxos, sealingUtxo, w, crypto, delegateInscription, protocolOpcode);
      txs.Ok? && txs.value.0 == commit && |commit.outputs| >= 2
      && |txs.value.1.inputs| == 2 && txs.value.1.outputs == DeployRevealOutputs(w.spender, params, protocolOpcode)
      && txs.value.1.inputs[0].prevTxId == commit.id && txs.value.1.inputs[0].outputIndex == 1
      && txs.value.1.inputs[0].satoshis == commit.outputs[1]
      && txs.value.1.inputs[1].prevTxId == commit.id && txs.value.1.inputs[1].outputIndex == 0
      && txs.value.1.inputs[1].satoshis == commit.outputs[0]
  {
    var txid := StripI0(delegateInscription);
    var commit := DeployCommitOf(fundingUtxos, sealingUtxo, w, crypto, txid).value;
    DeployCommitOutputsKept(fundingUtxos, sealingUtxo, w, crypto, txid);
    var values := [commit.outputs[1], commit.outputs[0]];
    var indexes: seq<nat> := [1, 0];
    var outs := DeployRevealOutputs(w.spender, params, protocolOpcode);
    var spend := DelegateRevealOf(w.wif, commit.id, values, indexes, outs, txid, crypto);
    assert DeployTxsOf(params, fundingUtxos, sealingUtxo, w, crypto, delegateInscription, protocolOpcode)
        == Ok((commit, spend));
    DelegateRevealShape(w.wif, commit.id, values, indexes, outs, txid, crypto);
    assert spend.inputs[0].outputIndex == indexes[0] && spend.inputs[0].satoshis == values[0];
    assert spend.inputs[1].outputIndex == indexes[1] && spend.inputs[1].satoshis == values[1];
  }

  /** The reveal outputs pay 100000 to the spender twice before the marker. */
  lemma DeployRevealOutputsShape(spender: Spender, params: BoneDeployParams, protocolOpcode: byte)
    ensures var outs := DeployRevealOutputs(spender, params, protocolOpcode);
      |outs| == 3 && outs[0] == AddressOut(spender.address, 100000) && outs[1] == outs[0]
      && outs[2].ScriptOut? && outs[2].amount == 0
  {
  }
}
