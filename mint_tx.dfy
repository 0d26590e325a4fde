/** `createMintTransactions`: a chain of mint transactions, each spending the previous
    one's base collector output and the funding left over. */
module MintTx {
  import opened Wrappers
  import opened Encoding
  import opened Script
  import opened Types
  import opened TxTypes
  import opened Constants
  import opened Transfers
  import opened KeepsakeCodec
  import opened TxUtils
  import opened Utxos
  import ProtocolScripts

  const INSUFFICIENT_FUNDS := "Insufficient funds in funding UTXOs"
  const CREATE_ERROR := "Failed to create mint transaction"

  const BASE_COLLECTOR_OUTPUT_INDEX: nat := 1
  const MINT_COLLECTOR_OUTPUT_INDEX: nat := 2

  /** The mint keepsake: a zero transfer of the bone to output 2, and the mint field
      (which the encoder ignores). */
  function MintKeepsake(boneId: BoneId): Keepsake
  {
    EmptyKeepsake.(transfers := Some([Transfer(boneId, 0, MINT_COLLECTOR_OUTPUT_INDEX)]), mint := Some(boneId))
  }

  /** The serialized marker script of every mint: the mint field is not encoded, so it
      carries the zero transfer alone (`MintMarkerMessage`). */
  function MintMarker(boneId: BoneId, protocolOpcode: byte): seq<byte>
  {
    Serialize(MessageScript(TransfersMessage([Transfer(boneId, 0, MINT_COLLECTOR_OUTPUT_INDEX)]), protocolOpcode))
  }

  /** The outputs of every mint: the marker, then the two 100000 collectors. */
  function MintOutputs(boneId: BoneId, spender: Spender, protocolOpcode: byte): seq<Output>
  {
    [ScriptOut(MintMarker(boneId, protocolOpcode), 0),
     AddressOut(spender.address, BONES_UTXO_TARGET_SIZE),
     AddressOut(spender.address, BONES_UTXO_TARGET_SIZE)]
  }

  /** The two caches and the transactions built so far. */
  datatype MintState = MintState(funding: seq<Utxo>, bones: seq<Utxo>, txs: seq<Tx>)

  /** The funding pool after a transaction: the unspent funding outputs, plus the
      transaction's last output when selection added change. */
  function NextFunding(funding: seq<Utxo>, tx: Tx, change: bool): seq<Utxo>
    requires |tx.outputs| >= 1
  {
    var unused := UnusedFunding(funding, InputKeys(tx.inputs));
    var txOutputs := UtxosForTx(tx);
    if change then unused + [txOutputs[|txOutputs| - 1]] else unused
  }

  /** One round of the loop. */
  function MintStep(s: MintState, boneId: BoneId, w: Wallet, protocolOpcode: byte): (r: Result<MintState>)
    requires BuildsRequestedOutputs(w)
    ensures r.Ok? ==> |r.value.txs| == |s.txs| + 1 && r.value.txs[..|s.txs|] == s.txs
  {
    var candidates := InputsOf(w.spender, s.funding);
    var required := InputsOf(w.spender, s.bones);
    if candidates.None? || required.None? then Err(HEX_ERROR)
    else
      var e := w.select(candidates.value, MintOutputs(boneId, w.spender, protocolOpcode), w.spender.address,
                        required.value);
      if e.None? || e.value.inputs.None? then Err(INSUFFICIENT_FUNDS)
      else if e.value.tx.None? then Err(CREATE_ERROR)
      else
        var tx := w.finalize(e.value.tx.value);
        assert |tx.outputs| >= 3;
        Ok(MintAfter(s, tx, e.value.change))
  }

  /** The state after the signed mint `tx`: the reset caches, and `tx` appended. */
  function MintAfter(s: MintState, tx: Tx, change: bool): (r: MintState)
    requires |tx.outputs| >= 3
    ensures |r.txs| == |s.txs| + 1 && r.txs[..|s.txs|] == s.txs
  {
    MintState(NextFunding(s.funding, tx, change), [UtxosForTx(tx)[BASE_COLLECTOR_OUTPUT_INDEX]], s.txs + [tx])
  }

  /** The state after `n` rounds, or the first error met. */
  function MintChain(n: nat, init: MintState, boneId: BoneId, w: Wallet, protocolOpcode: byte): (r: Result<MintState>)
    requires BuildsRequestedOutputs(w)
  {
    Iterate(n, init, MintRoundOf(boneId, w, protocolOpcode))
  }

  /** `MintStep` as the step function of `Iterate`. */
  function MintRoundOf(boneId: BoneId, w: Wallet, protocolOpcode: byte): MintState -> Result<MintState>
    requires BuildsRequestedOutputs(w)
  {
    s => MintStep(s, boneId, w, protocolOpcode)
  }

  /** The number of rounds of `for (let i = 0; i < numOfMints; i++)`. */
  function RoundsOf(numOfMints: int): (n: nat)
    ensures numOfMints <= 0 ==> n == 0
    ensures numOfMints > 0 ==> n == numOfMints
  {
    if numOfMints > 0 then numOfMints else 0
  }

  /** `createMintTransactions`: the chain of `numOfMints` rounds from the given pools, or
      the first round's error. On success it returns exactly one transaction per round,
      in build order. */
  method CreateMintTransactions(boneId: BoneId, numOfMints: int, fundingUtxos: seq<Utxo>, boneUtxos: seq<Utxo>,
                                w: Wallet, protocolOpcode: byte)
    returns (r: Result<seq<Tx>>)
    requires BuildsRequestedOutputs(w)
    ensures var chain := MintChain(RoundsOf(numOfMints), MintState(fundingUtxos, boneUtxos, []), boneId, w,
                                   protocolOpcode);
      (r.Ok? <==> chain.Ok?) && (r.Ok? ==> r.value == chain.value.txs) && (r.Err? ==> r.error == chain.error)
    ensures r.Ok? ==> |r.value| == RoundsOf(numOfMints)
    ensures numOfMints <= 0 ==> r == Ok([])
  {
    var fundingUtxosCache := fundingUtxos;
    var boneUtxosCache := boneUtxos;
    var mintTxs: seq<Tx> := [];
    ghost var init := MintState(fundingUtxos, boneUtxos, []);
    var rounds := RoundsOf(numOfMints);
    for i := 0 to rounds
      invariant MintChain(i, init, boneId, w, protocolOpcode) == Ok(MintState(fundingUtxosCache, boneUtxosCache, mintTxs))
    {
      var next := MintRound(MintState(fundingUtxosCache, boneUtxosCache, mintTxs), boneId, w, protocolOpcode);
      if next.Err? {
        IterateAborts(i + 1, rounds, init, MintRoundOf(boneId, w, protocolOpcode));
        return Err(next.error);
      }
      fundingUtxosCache, boneUtxosCache, mintTxs := next.value.funding, next.value.bones, next.value.txs;
    }
    MintChainLength(rounds, init, boneId, w, protocolOpcode);
    return Ok(mintTxs);
  }

  /** The body of the `for` loop: build, sign and record one mint, then reset the two
      caches from it. */
  method MintRound(s: MintState, boneId: BoneId, w: Wallet, protocolOpcode: byte) returns (r: Result<MintState>)
    requires BuildsRequestedOutputs(w)
    ensures r == MintStep(s, boneId, w, protocolOpcode)
  {
    var spender := w.spender;
    var marker := MintMarkerScript(boneId, protocolOpcode);
    var mintOutputs := [ScriptOut(marker, 0),
                        AddressOut(spender.address, BONES_UTXO_TARGET_SIZE),
                        AddressOut(spender.address, BONES_UTXO_TARGET_SIZE)];
    assert mintOutputs == MintOutputs(boneId, spender, protocolOpcode);
    var candidates := InputsOf(spender, s.funding);
    var required := InputsOf(spender, s.bones);
    if candidates.None? || required.None? {
      return Err(HEX_ERROR);
    }
    var estimation := w.select(candidates.value, mintOutputs, spender.address, required.value);
    if estimation.None? || estimation.value.inputs.None? {
      return Err(INSUFFICIENT_FUNDS);
    }
    var change := estimation.value.change;
    if estimation.value.tx.None? {
      return Err(CREATE_ERROR);
    }
    var mintTx := w.finalize(estimation.value.tx.value);
    assert |mintTx.outputs| >= |mintOutputs|;
    var next := RecordMint(s, mintTx, change);
    r := Ok(next);
  }

  /** `getMintScript`-style marker of the loop: `createScript` on the mint keepsake,
      serialized. */
  method MintMarkerScript(boneId: BoneId, protocolOpcode: byte) returns (marker: seq<byte>)
    ensures marker == MintMarker(boneId, protocolOpcode)
  {
    var keepsake := MintKeepsake(boneId);
    var script := CreateScript(keepsake, protocolOpcode);
    MintMarkerMessage(boneId);
    marker := Serialize(script);
  }

  /** The cache updates after a signed mint. */
  method RecordMint(s: MintState, mintTx: Tx, change: bool) returns (next: MintState)
    requires |mintTx.outputs| >= 3
    ensures next == MintAfter(s, mintTx, change)
  {
    var unusedFundingUtxos, txOutputs := GetFundingUtxosAfterTx(mintTx, s.funding);
    var fundingUtxosCache;
    if change {
      fundingUtxosCache := unusedFundingUtxos + [txOutputs[|txOutputs| - 1]];
    } else {
      fundingUtxosCache := unusedFundingUtxos;
    }
    var boneUtxosCache := [txOutputs[BASE_COLLECTOR_OUTPUT_INDEX]];
    next := MintState(fundingUtxosCache, boneUtxosCache, s.txs + [mintTx]);
  }

  /** A successful chain of `n` rounds built exactly `n` transactions, and round by
      round the list only grows at its end. */
  lemma MintChainLength(n: nat, init: MintState, boneId: BoneId, w: Wallet, protocolOpcode: byte)
    requires BuildsRequestedOutputs(w)
    requires MintChain(n, init, boneId, w, protocolOpcode).Ok?
    ensures |MintChain(n, init, boneId, w, protocolOpcode).value.txs| == |init.txs| + n
    ensures MintChain(n, init, boneId, w, protocolOpcode).value.txs[..|init.txs|] == init.txs
  {
    var step := MintRoundOf(boneId, w, protocolOpcode);
    forall s | step(s).Ok?
      ensures |step(s).value.txs| == |s.txs| + 1 && step(s).value.txs[..|s.txs|] == s.txs
    {
      assert step(s) == MintStep(s, boneId, w, protocolOpcode);
    }
    IterateExtends(n, init, step, (s: MintState) => s.txs);
  }

  /** After a round, the next required inputs are exactly output 1 of the transaction
      just built, so the next mint spends it; the next funding pool holds the funding
      UTXOs it did not spend, plus its last output when there was change. */
  lemma MintStepThreading(s: MintState, boneId: BoneId, w: Wallet, protocolOpcode: byte, u: Utxo)
    requires BuildsRequestedOutputs(w)
    requires MintStep(s, boneId, w, protocolOpcode).Ok?
    requires ':' !in u.txid
    ensures var next := MintStep(s, boneId, w, protocolOpcode).value;
      var tx := next.txs[|next.txs| - 1];
      |tx.outputs| >= 3
      && next.bones == [Utxo(tx.id, 1, tx.outputs[1], false)]
      && (u in next.funding ==>
            (u in s.funding && forall i :: 0 <= i < |tx.inputs| ==>
               !(u.txid == HexEncode(tx.inputs[i].txid) && u.vout == tx.inputs[i].index))
            || u == Utxo(tx.id, |tx.outputs| - 1, tx.outputs[|tx.outputs| - 1], false))
      && (u in s.funding && (forall i :: 0 <= i < |tx.inputs| ==>
               !(u.txid == HexEncode(tx.inputs[i].txid) && u.vout == tx.inputs[i].index))
          ==> u in next.funding)
  {
    var candidates := InputsOf(w.spender, s.funding);
    var required := InputsOf(w.spender, s.bones);
    var e := w.select(candidates.value, MintOutputs(boneId, w.spender, protocolOpcode), w.spender.address,
                      required.value);
    var tx := w.finalize(e.value.tx.value);
    assert MintStep(s, boneId, w, protocolOpcode) == Ok(MintAfter(s, tx, e.value.change));
    MintAfterThreading(s, tx, e.value.change, u);
  }

  lemma MintAfterThreading(s: MintState, tx: Tx, change: bool, u: Utxo)
    requires |tx.outputs| >= 3
    requires ':' !in u.txid
    ensures var next := MintAfter(s, tx, change);
      next.txs[|next.txs| - 1] == tx
      && next.bones == [Utxo(tx.id, 1, tx.outputs[1], false)]
      && (u in next.funding ==>
            (u in s.funding && forall i :: 0 <= i < |tx.inputs| ==>
               !(u.txid == HexEncode(tx.inputs[i].txid) && u.vout == tx.inputs[i].index))
            || u == Utxo(tx.id, |tx.outputs| - 1, tx.outputs[|tx.outputs| - 1], false))
      && (u in s.funding && (forall i :: 0 <= i < |tx.inputs| ==>
               !(u.txid == HexEncode(tx.inputs[i].txid) && u.vout == tx.inputs[i].index))
          ==> u in next.funding)
  {
    var outs := UtxosForTx(tx);
    assert outs[1] == Utxo(tx.id, 1, tx.outputs[1], false);
    assert outs[|outs| - 1] == Utxo(tx.id, |tx.outputs| - 1, tx.outputs[|tx.outputs| - 1], false);
    UnusedFundingSpec(tx, s.funding, u);
  }

  /** Every mint's marker is the zero transfer of the bone to output 2: the mint field
      adds nothing to the message. */
  lemma MintMarkerMessage(boneId: BoneId)
    ensures ProtocolMessage(MintKeepsake(boneId)) == TransfersMessage([Transfer(boneId, 0, 2)])
  {
    var k := EmptyKeepsake.(transfers := Some([Transfer(boneId, 0, MINT_COLLECTOR_OUTPUT_INDEX)]));
    ProtocolScripts.TransferOnlyMessage([Transfer(boneId, 0, MINT_COLLECTOR_OUTPUT_INDEX)]);
    IgnoredFields(k, Some(boneId), None, None, None);
    assert k.(mint := Some(boneId), swap := None, summoning := None, encasing := None) == MintKeepsake(boneId);
  }

  /** The outputs are the marker with amount 0, then 100000 at output 1 (the base
      collector) and 100000 at output 2 (the mint collector), both to the spender. */
  lemma MintOutputsShape(boneId: BoneId, spender: Spender, protocolOpcode: byte)
    ensures var outs := MintOutputs(boneId, spender, protocolOpcode);
      |outs| == 3 && outs[0].ScriptOut? && outs[0].amount == 0
      && outs[BASE_COLLECTOR_OUTPUT_INDEX] == AddressOut(spender.address, 100000)
      && outs[MINT_COLLECTOR_OUTPUT_INDEX] == AddressOut(spender.address, 100000)
  {
  }
}
