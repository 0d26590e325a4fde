/** The script helpers of the protocol messages: each builds a keepsake with one field set
    and hands it to `createScript`. */
module ProtocolScripts {
  import opened Wrappers
  import opened Encoding
  import opened Seqs
  import opened Script
  import opened ProtocolUtils
  import opened Classes
  import opened Types
  import opened Transfers
  import opened Deploy
  import opened KeepsakeCodec

  /** `getTransferScript(id, amount, output?)`: the transfer keepsake's script, or the
      length error of `createTransferKeepsake`. */
  method GetTransferScript(ids: seq<BoneId>, amounts: seq<nat>, outputs: Option<seq<nat>>, protocolOpcode: byte)
    returns (r: Result<seq<Chunk>>)
    ensures CreateTransferKeepsake(ids, amounts, outputs).Err? ==>
      r == Err(TRANSFER_LENGTH_ERROR)
    ensures CreateTransferKeepsake(ids, amounts, outputs).Ok? ==>
      r == Ok(MessageScript(TransfersMessage(CreateTransferKeepsake(ids, amounts, outputs).value.transfers.value),
                            protocolOpcode))
  {
    var keepsake := CreateTransferKeepsake(ids, amounts, outputs);
    if keepsake.Err? {
      return Err(keepsake.error);
    }
    TransferOnlyMessage(keepsake.value.transfers.value);
    var script := CreateScript(keepsake.value, protocolOpcode);
    return Ok(script);
  }

  /** A keepsake carrying only transfers encodes to the transfer body alone. */
  lemma TransferOnlyMessage(ts: seq<Transfer>)
    ensures ProtocolMessage(EmptyKeepsake.(transfers := Some(ts))) == TransfersMessage(ts)
  {
    var k := EmptyKeepsake.(transfers := Some(ts));
    assert ProtocolFlags(k) == 0;
    assert DeploymentMessage(k.deployment) + FlagsBytes(0) + FurtherBytes(k) == [];
  }

  /** A single transfer writes the Body tag and one row holding the id itself (the first
      delta is taken against (0, 0)). */
  lemma SingleTransferMessage(t: Transfer)
    ensures TransfersMessage([t])
            == [0] + VarInt(t.id.block) + VarInt(t.id.tx) + VarInt(t.amount) + VarInt(t.output)
  {
    assert SortById([t]) == [t] by {
      assert [t][..0] == [];
    }
    assert [t][..0] == [];
    assert Chain([t]) == Step(Chain([]), t);
    var rows := Chain([t]).rows;
    assert rows == [Row(t.id.block, t.id.tx, t.amount, t.output)];
    FlatMapCons(RowBytes, rows[0], []);
    assert rows == [rows[0]] + [];
    VarIntZero();
    ConcatAssoc([0], VarInt(t.id.block) + VarInt(t.id.tx) + VarInt(t.amount), VarInt(t.output));
  }

  /** `getDeployScript(symbol, seed, subsidy, mintTerms, turbo)`: a keepsake whose only
      field is the deployment. */
  method GetDeployScript(symbol: string, seed: nat, subsidy: nat, mintTerms: Option<MintTerms>, turbo: bool,
                         protocolOpcode: byte)
    returns (script: seq<Chunk>)
    ensures script == MessageScript(DeployOnlyMessage(Types.Deployment(symbol, seed, subsidy, mintTerms, turbo)),
                                    protocolOpcode)
  {
    var d := Types.Deployment(symbol, seed, subsidy, mintTerms, turbo);
    DeployOnlyMessageOf(d);
    script := CreateScript(EmptyKeepsake.(deployment := Some(d)), protocolOpcode);
  }

  /** The message of a deployment-only keepsake: the deployment pairs, then the Flags
      pair with the deployment's flags. */
  function DeployOnlyMessage(d: Deployment): seq<byte>
  {
    DeploymentMessage(Some(d)) + PairBytes((Tag.Flags.Value(), DeploymentFlags(Some(d)) as int))
  }

  lemma DeployOnlyMessageOf(d: Deployment)
    ensures ProtocolMessage(EmptyKeepsake.(deployment := Some(d))) == DeployOnlyMessage(d)
  {
    var k := EmptyKeepsake.(deployment := Some(d));
    assert OwnFlags(k) == 0;
    assert ProtocolFlags(k) == DeploymentFlags(Some(d));
    DeploymentSetsFlags(k);
    assert FurtherBytes(k) == [] && TransfersBytes(k) == [];
    var m := DeploymentMessage(Some(d)) + FlagsBytes(ProtocolFlags(k));
    assert m + [] + [] == m;
  }

  /** The deployment-only message ends with the Flags pair whose value has the
      Deployment bit, and MintTerms and Turbo exactly as the deployment asks. */
  lemma DeployOnlyFlags(d: Deployment)
    ensures var flags := DeploymentFlags(Some(d));
      flags == 4 + (if d.mintTerms.Some? then 8 else 0) + (if d.turbo then 1024 else 0)
      && (forall i :: HasBit(flags, i) <==> i == 2 || (i == 3 && d.mintTerms.Some?) || (i == 10 && d.turbo))
  {
    DeploymentFlagsValue(Some(d));
    FlagBits(DeploymentFlags(Some(d)), Some(d));
  }

  /** `getMintScript(boneId)`: the mint field is not encoded, so the script is the marker
      alone. */
  method GetMintScript(boneId: BoneId, protocolOpcode: byte) returns (script: seq<Chunk>)
    ensures script == [Op(OP_RETURN), Op(protocolOpcode)]
  {
    var k := EmptyKeepsake.(mint := Some(boneId));
    assert ProtocolMessage(k) == [] by {
      assert ProtocolFlags(k) == 0;
    }
    script := CreateScript(k, protocolOpcode);
  }

  /** `getSealingScript()`: a keepsake with only the Sealing flag; its message is the
      Flags pair `[2, 2]`, carried in one push. */
  method GetSealingScript(protocolOpcode: byte) returns (script: seq<Chunk>)
    ensures script == [Op(OP_RETURN), Op(protocolOpcode), Push([2, 2])]
  {
    var k := EmptyKeepsake.(sealing := true);
    SealingMessage();
    script := CreateScript(k, protocolOpcode);
    var m: seq<byte> := [2, 2];
    ChunkedSingle(m, MAX_SCRIPT_ELEMENT_SIZE);
  }

  lemma SealingMessage()
    ensures ProtocolMessage(EmptyKeepsake.(sealing := true)) == [2, 2]
  {
    var k := EmptyKeepsake.(sealing := true);
    assert Mask(Flag.Sealing.Bit()) == 2;
    assert ProtocolFlags(k) == 2;
  }

  /** The sealing transaction's keepsake `{sealing: true, pointer: 1}` encodes to
      `[2, 2, 4, 1]`: the Flags pair, then the Pointer pair. */
  lemma SealingWithPointerMessage()
    ensures ProtocolMessage(EmptyKeepsake.(sealing := true, pointer := Some(1))) == [2, 2, 4, 1]
  {
    var k := EmptyKeepsake.(sealing := true, pointer := Some(1));
    assert Mask(Flag.Sealing.Bit()) == 2;
    assert ProtocolFlags(k) == 2;
    assert FurtherBytes(k) == [4, 1];
  }

  /** A zero pointer is still written. */
  lemma ZeroPointerWritten(k: Keepsake)
    requires k.pointer == Some(0)
    ensures FurtherBytes(k)[..2] == [4, 0]
  {
  }
}
