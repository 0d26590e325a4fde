/** `createSealingTransactions`: a commit paying the ticker inscription's
    pay-to-script-hash, and the reveal that spends it with the sealing marker. */
module SealingTx {
  import opened Wrappers
  import opened Encoding
  import opened Seqs
  import opened Script
  import opened Types
  import opened TxTypes
  import opened Constants
  import opened KeepsakeCodec
  import opened ProtocolScripts
  import opened Inscriptions
  import opened TxUtils

  const ESTIMATE_ERROR := "Failed to estimate commit transaction"
  const CREATE_ERROR := "Failed to create commit transaction"

  /** The commit output: the two 100000 targets plus 4271000 for the reveal. */
  function CommitOutputs(p2sh: seq<Chunk>): (r: seq<Output>)
    ensures r == [ScriptOut(Serialize(p2sh), 4471000)]
  {
    [ScriptOut(Serialize(p2sh), BONES_UTXO_TARGET_SIZE + INSCRIPTION_TARGET_SIZE + 4271000)]
  }

  /** `{sealing: true, pointer: 1}`: unassigned bones go to the first output. */
  const SealingKeepsake := EmptyKeepsake.(sealing := true, pointer := Some(1))

  /** The reveal outputs: the bones change, the inscription carrier, then the marker. */
  function SealingRevealOutputs(spender: Spender, protocolOpcode: byte): seq<Output>
  {
    [AddressOut(spender.address, INSCRIPTION_TARGET_SIZE),
     AddressOut(spender.address, BONES_UTXO_TARGET_SIZE),
     ScriptOut(Serialize(MessageScript(ProtocolMessage(SealingKeepsake), protocolOpcode)), 0)]
  }

  /** The scripts of the ticker inscription, made with the wallet's key. */
  function TickerP2sh(ticker: string, w: Wallet, crypto: Crypto): P2sh
  {
    P2shFor(crypto.publicKey(w.wif), PartialOf(TextEnvelope(ticker, crypto)), crypto.hash160)
  }

  /** The signed commit. */
  function SealingCommitOf(ticker: string, fundingUtxos: seq<Utxo>, boneUtxos: seq<Utxo>, w: Wallet,
                           crypto: Crypto): Result<Tx>
  {
    var p := TickerP2sh(ticker, w, crypto);
    var candidates := InputsOf(w.spender, fundingUtxos);
    var required := InputsOf(w.spender, boneUtxos);
    if candidates.None? || required.None? then Err(HEX_ERROR)
    else SelectAndSign(w, candidates.value, CommitOutputs(p.p2sh), required.value, ESTIMATE_ERROR, CREATE_ERROR)
  }

  /** Commit and reveal; the reveal spends output 0 of the commit with its amount. */
  function SealingTxsOf(ticker: string, fundingUtxos: seq<Utxo>, boneUtxos: seq<Utxo>, w: Wallet,
                        crypto: Crypto, protocolOpcode: byte): Result<(Tx, RevealTx)>
    requires BuildsRequestedOutputs(w)
  {
    var commit :- SealingCommitOf(ticker, fundingUtxos, boneUtxos, w, crypto);
    SealingCommitOutputs(ticker, fundingUtxos, boneUtxos, w, crypto);
    Ok((commit, RevealOf(w.wif, ticker, commit.id, commit.outputs[0],
                         SealingRevealOutputs(w.spender, protocolOpcode), crypto)))
  }

  method CreateSealingTransactions(ticker: string, fundingUtxos: seq<Utxo>, boneUtxos: seq<Utxo>, w: Wallet,
                                   feePerByte: nat, crypto: Crypto, protocolOpcode: byte)
    returns (r: Result<(Tx, RevealTx)>)
    requires BuildsRequestedOutputs(w)
    ensures r == SealingTxsOf(ticker, fundingUtxos, boneUtxos, w, crypto, protocolOpcode)
  {
    var spender := w.spender;
    var res := GetP2sh(w.wif, ticker, crypto);
    var commitOutputs := [ScriptOut(Serialize(res.p2sh), BONES_UTXO_TARGET_SIZE + INSCRIPTION_TARGET_SIZE + 4271000)];
    var candidates := InputsOf(spender, fundingUtxos);
    var required := InputsOf(spender, boneUtxos);
    if candidates.None? || required.None? {
      return Err(HEX_ERROR);
    }
    var estimation := w.select(candidates.value, commitOutputs, spender.address, required.value);
    if estimation.None? || estimation.value.inputs.None? {
      return Err(ESTIMATE_ERROR);
    }
    if estimation.value.tx.None? {
      return Err(CREATE_ERROR);
    }
    var commitTx := w.finalize(estimation.value.tx.value);
    var sealingScript := CreateScript(SealingKeepsake, protocolOpcode);
    var revealOutputs := [AddressOut(spender.address, INSCRIPTION_TARGET_SIZE),
                          AddressOut(spender.address, BONES_UTXO_TARGET_SIZE),
                          ScriptOut(Serialize(sealingScript), 0)];
    var revealTx := GetRevealTx(w.wif, ticker, feePerByte, commitTx.id, commitTx.outputs[0], revealOutputs,
                                spender.address, crypto);
    r := Ok((commitTx, revealTx));
  }

  /** The commit pays 4471000 to the pay-to-script-hash; the sealing marker is the Flags
      pair with the Sealing bit and the Pointer pair to output 1, `[2, 2, 4, 1]`, in one
      push; the reveal's outputs are 100000 to the spender twice, then the marker. */
  lemma SealingShape(spender: Spender, protocolOpcode: byte)
    ensures var outs := SealingRevealOutputs(spender, protocolOpcode);
      |outs| == 3
      && outs[0] == AddressOut(spender.address, 100000)
      && outs[1] == AddressOut(spender.address, 100000)
      && outs[2] == ScriptOut(Serialize([Op(OP_RETURN), Op(protocolOpcode), Push([2, 2, 4, 1])]), 0)
  {
    SealingWithPointerMessage();
    var m: seq<byte> := [2, 2, 4, 1];
    ChunkedSingle(m, 80);
    assert MessageScript(m, protocolOpcode) == [Op(OP_RETURN), Op(protocolOpcode), Push(m)];
  }

  /** The reveal spends output 0 of the signed commit with that output's amount, under
      the ticker inscription's pay-to-script-hash script. */
  lemma SealingRevealSpendsCommit(ticker: string, fundingUtxos: seq<Utxo>, boneUtxos: seq<Utxo>, w: Wallet,
                                  crypto: Crypto, protocolOpcode: byte)
    requires BuildsRequestedOutputs(w)
    requires SealingCommitOf(ticker, fundingUtxos, boneUtxos, w, crypto).Ok?
    ensures var commit := SealingCommitOf(ticker, fundingUtxos, boneUtxos, w, crypto).value;
      var txs := SealingTxsOf(ticker, fundingUtxos, boneUtxos, w, crypto, protocolOpcode);
      var p := TickerP2sh(ticker, w, crypto);
      txs.Ok? && txs.value.0 == commit && |commit.outputs| >= 1
      && |txs.value.1.inputs| == 1
      && txs.value.1.inputs[0].prevTxId == commit.id && txs.value.1.inputs[0].outputIndex == 0
      && txs.value.1.inputs[0].satoshis == commit.outputs[0] && txs.value.1.inputs[0].prevScript == p.p2sh
  {
    var commit := SealingCommitOf(ticker, fundingUtxos, boneUtxos, w, crypto).value;
    SealingCommitOutputs(ticker, fundingUtxos, boneUtxos, w, crypto);
    var spend := RevealOf(w.wif, ticker, commit.id, commit.outputs[0],
                          SealingRevealOutputs(w.spender, protocolOpcode), crypto);
    assert SealingTxsOf(ticker, fundingUtxos, boneUtxos, w, crypto, protocolOpcode) == Ok((commit, spend));
    RevealShape(w.wif, ticker, commit.id, commit.outputs[0], SealingRevealOutputs(w.spender, protocolOpcode), crypto);
  }

  /** The signed commit keeps the output paying the pay-to-script-hash. */
  lemma SealingCommitOutputs(ticker: string, fundingUtxos: seq<Utxo>, boneUtxos: seq<Utxo>, w: Wallet,
                             crypto: Crypto)
    requires BuildsRequestedOutputs(w)
    requires SealingCommitOf(ticker, fundingUtxos, boneUtxos, w, crypto).Ok?
    ensures |SealingCommitOf(ticker, fundingUtxos, boneUtxos, w, crypto).value.outputs| >= 1
  {
    var p := TickerP2sh(ticker, w, crypto);
    var candidates := InputsOf(w.spender, fundingUtxos);
    var required := InputsOf(w.spender, boneUtxos);
    SelectAndSignOutputs(w, candidates.value, CommitOutputs(p.p2sh), required.value, ESTIMATE_ERROR, CREATE_ERROR);
  }
}
