/** `createBoneTransferTransaction`: one transaction moving `amount` of a bone to a
    receiver, with the protocol marker first. */
module TransferTx {
  import opened Wrappers
  import opened Encoding
  import opened Script
  import opened Types
  import opened TxTypes
  import opened Constants
  import opened Transfers
  import opened KeepsakeCodec
  import opened ProtocolScripts
  import opened TxUtils

  const ESTIMATE_ERROR := "Failed to estimate transfer transaction"
  const CREATE_ERROR := "Failed to create transaction"

  /** The output the transfer assigns the bones to. */
  const RECEIVER_OUTPUT: nat := 2

  /** The marker of a single transfer of `amount` of `boneId` to output 2. */
  function TransferMarker(boneId: BoneId, amount: nat, protocolOpcode: byte): seq<byte>
  {
    Serialize(MessageScript(TransfersMessage([Transfer(boneId, amount, RECEIVER_OUTPUT)]), protocolOpcode))
  }

  /** The requested outputs: the marker carrying nothing, the spender's collector, and
      the receiver's output. */
  function TransferOutputs(boneId: BoneId, amount: nat, receiver: string, spender: Spender, protocolOpcode: byte)
    : seq<Output>
  {
    [ScriptOut(TransferMarker(boneId, amount, protocolOpcode), 0),
     AddressOut(spender.address, BONES_UTXO_TARGET_SIZE),
     AddressOut(receiver, BONES_UTXO_TARGET_SIZE)]
  }

  /** The finished transfer: every bone UTXO is a required input, the funding UTXOs
      are the candidates, change goes to the spender. */
  function TransferTxOf(boneId: BoneId, amount: nat, receiver: string, fundingUtxos: seq<Utxo>,
                        boneUtxos: seq<Utxo>, w: Wallet, protocolOpcode: byte): Result<Tx>
  {
    var candidates := InputsOf(w.spender, fundingUtxos);
    var required := InputsOf(w.spender, boneUtxos);
    if candidates.None? || required.None? then Err(HEX_ERROR)
    else
      SelectAndSign(w, candidates.value, TransferOutputs(boneId, amount, receiver, w.spender, protocolOpcode),
                    required.value, ESTIMATE_ERROR, CREATE_ERROR)
  }

  method CreateBoneTransferTransaction(boneId: BoneId, amount: nat, receiver: string, fundingUtxos: seq<Utxo>,
                                       boneUtxos: seq<Utxo>, w: Wallet, protocolOpcode: byte)
    returns (r: Result<Tx>)
    ensures r == TransferTxOf(boneId, amount, receiver, fundingUtxos, boneUtxos, w, protocolOpcode)
  {
    var spender := w.spender;
    var transferOutputs := BuildTransferOutputs(boneId, amount, receiver, spender, protocolOpcode);
    var candidates := InputsOf(spender, fundingUtxos);
    var required := InputsOf(spender, boneUtxos);
    if candidates.None? || required.None? {
      return Err(HEX_ERROR);
    }
    var estimation := w.select(candidates.value, transferOutputs, spender.address, required.value);
    if estimation.None? || estimation.value.inputs.None? {
      return Err(ESTIMATE_ERROR);
    }
    if estimation.value.tx.None? {
      return Err(CREATE_ERROR);
    }
    r := Ok(w.finalize(estimation.value.tx.value));
  }

  /** The marker script and the three requested outputs of the transfer. */
  method BuildTransferOutputs(boneId: BoneId, amount: nat, receiver: string, spender: Spender, protocolOpcode: byte)
    returns (transferOutputs: seq<Output>)
    ensures transferOutputs == TransferOutputs(boneId, amount, receiver, spender, protocolOpcode)
  {
    var transferScript := GetTransferScript([boneId], [amount], Some([RECEIVER_OUTPUT]), protocolOpcode);
    var k := CreateTransferKeepsake([boneId], [amount], Some([RECEIVER_OUTPUT]));
    assert k.Ok? && k.value.transfers.value == [Transfer(boneId, amount, RECEIVER_OUTPUT)];
    transferOutputs := [ScriptOut(Serialize(transferScript.value), 0),
                        AddressOut(spender.address, BONES_UTXO_TARGET_SIZE),
                        AddressOut(receiver, BONES_UTXO_TARGET_SIZE)];
  }

  /** The outputs are the marker with amount 0, then 100000 to the spender, then 100000
      to the receiver, and the marker's single transfer reads back as `amount` of
      `boneId` to output 2, which is the receiver's. */
  lemma TransferOutputsShape(boneId: BoneId, amount: nat, receiver: string, spender: Spender, protocolOpcode: byte)
    ensures var outs := TransferOutputs(boneId, amount, receiver, spender, protocolOpcode);
      |outs| == 3
      && outs[0].ScriptOut? && outs[0].amount == 0
      && outs[1] == AddressOut(spender.address, 100000)
      && outs[2] == AddressOut(receiver, 100000)
      && DecodeTransfersMessage(TransfersMessage([Transfer(boneId, amount, RECEIVER_OUTPUT)]))
         == Some([Transfer(boneId, amount, 2)])
      && outs[RECEIVER_OUTPUT].AddressOut? && outs[RECEIVER_OUTPUT].address == receiver
  {
    var t := Transfer(boneId, amount, RECEIVER_OUTPUT);
    DecodeTransfersRoundTrip([t]);
    assert SortById([t]) == [t] by {
      assert [t][..0] == [];
    }
  }

  /** The transfer fails exactly when coin selection gives no estimation or inputs, or
      no transaction; the built transaction is the signed one. */
  lemma TransferTxErrors(boneId: BoneId, amount: nat, receiver: string, fundingUtxos: seq<Utxo>,
                         boneUtxos: seq<Utxo>, w: Wallet, protocolOpcode: byte)
    requires InputsOf(w.spender, fundingUtxos).Some? && InputsOf(w.spender, boneUtxos).Some?
    ensures var r := TransferTxOf(boneId, amount, receiver, fundingUtxos, boneUtxos, w, protocolOpcode);
      var e := w.select(InputsOf(w.spender, fundingUtxos).value,
                        TransferOutputs(boneId, amount, receiver, w.spender, protocolOpcode),
                        w.spender.address, InputsOf(w.spender, boneUtxos).value);
      (r == Err(ESTIMATE_ERROR) <==> e.None? || e.value.inputs.None?)
      && (r == Err(CREATE_ERROR) <==> e.Some? && e.value.inputs.Some? && e.value.tx.None?)
      && (r.Ok? <==> e.Some? && e.value.inputs.Some? && e.value.tx.Some?)
  {
    var outs := TransferOutputs(boneId, amount, receiver, w.spender, protocolOpcode);
    assert TransferTxOf(boneId, amount, receiver, fundingUtxos, boneUtxos, w, protocolOpcode)
        == SelectAndSign(w, InputsOf(w.spender, fundingUtxos).value, outs, InputsOf(w.spender, boneUtxos).value,
                         ESTIMATE_ERROR, CREATE_ERROR);
    ErrorsDistinct();
  }

  lemma ErrorsDistinct()
    ensures ESTIMATE_ERROR != CREATE_ERROR
  {
    assert |ESTIMATE_ERROR| != |CREATE_ERROR|;
  }
}
