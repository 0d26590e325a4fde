/** Delegate inscriptions: an envelope that points at an existing inscription instead
    of carrying content, with its lock / pay-to-script-hash scripts and a reveal that
    may spend several commit outputs. */
module DelegateInscriptions {
  import opened Wrappers
  import opened Encoding
  import opened Seqs
  import opened Script
  import opened TxTypes
  import opened Inscriptions

  const TXID_ERROR := "Txid must be a hexadecimal string of length 64."

  /** The delegate's transaction id and output index (always 0 here). */
  datatype InscriptionId = InscriptionId(txid: string, index: nat)

  /** The check `^[0-9a-fA-F]{64}$`. */
  predicate IsTxid(s: string)
  {
    |s| == 64 && forall i :: 0 <= i < |s| ==> HexValue(s[i]).Some?
  }

  /** `new InscriptionId(txid)`: refuses anything but 64 hex digits, index 0. */
  function NewInscriptionId(txid: string): (r: Result<InscriptionId>)
    ensures r.Ok? <==> IsTxid(txid)
    ensures r.Ok? ==> r.value.txid == txid && r.value.index == 0
    ensures r.Err? ==> r.error == TXID_ERROR
  {
    if IsTxid(txid) then Ok(InscriptionId(txid, 0)) else Err(TXID_ERROR)
  }

  /** What the constructor guarantees, and what `writeUInt32LE` demands of the index. */
  predicate ValidId(id: InscriptionId)
  {
    IsTxid(id.txid) && id.index < 0x1_0000_0000
  }

  /** A string of hex digit pairs decodes, to half as many bytes. */
  lemma {:induction false} HexDecodeDigits(s: string)
    requires |s| % 2 == 0
    requires forall i :: 0 <= i < |s| ==> HexValue(s[i]).Some?
    ensures HexDecode(s).Some? && |HexDecode(s).value| == |s| / 2
    decreases |s|
  {
    if s != [] {
      assert HexValue(s[0]).Some? && HexValue(s[1]).Some?;
      var t := s[2..];
      assert forall i :: 0 <= i < |t| ==> HexValue(t[i]).Some? by {
        forall i | 0 <= i < |t| ensures HexValue(t[i]).Some? {
          assert t[i] == s[i + 2];
        }
      }
      HexDecodeDigits(t);
    }
  }

  /** Every accepted id decodes to the 32 bytes of a transaction hash. */
  lemma TxidBytes(txid: string)
    requires IsTxid(txid)
    ensures HexDecode(txid).Some? && |HexDecode(txid).value| == 32
  {
    HexDecodeDigits(txid);
  }

  /** `writeUInt32LE(index)` into a four-byte buffer. */
  function LittleEndian32(n: nat): (r: seq<byte>)
    requires n < 0x1_0000_0000
    ensures |r| == 4
    ensures r[0] as nat + 256 * (r[1] as nat + 256 * (r[2] as nat + 256 * r[3] as nat)) == n
  {
    var q1 := n / 256;
    var q2 := q1 / 256;
    var q3 := q2 / 256;
    assert q1 < 0x100_0000 && q2 < 0x1_0000 && q3 < 256;
    [n % 256, q1 % 256, q2 % 256, q3]
  }

  /** The index bytes with the trailing zero bytes cut off; an empty slice stops the
      loop because its last element is undefined, not zero. */
  function TrimTrailingZeros(s: seq<byte>): seq<byte>
  {
    if s == [] || s[|s| - 1] != 0 then s else TrimTrailingZeros(s[..|s| - 1])
  }

  /** The trimmed slice is a prefix with no trailing zero, and only zeros were cut. */
  lemma {:induction false} TrimTrailingZerosProperties(s: seq<byte>)
    ensures var r := TrimTrailingZeros(s);
      |r| <= |s| && r == s[..|r|]
      && (r != [] ==> r[|r| - 1] != 0)
      && (forall i :: |r| <= i < |s| ==> s[i] == 0)
  {
    if s != [] && s[|s| - 1] == 0 {
      TrimTrailingZerosProperties(s[..|s| - 1]);
    }
  }

  /** Index 0, the only index an id gets, trims to nothing. */
  lemma ZeroIndexTrimsAway()
    ensures TrimTrailingZeros(LittleEndian32(0)) == []
  {
    var s: seq<byte> := LittleEndian32(0);
    assert s == [0, 0, 0, 0];
    var s3: seq<byte> := [0, 0, 0];
    var s2: seq<byte> := [0, 0];
    var s1: seq<byte> := [0];
    assert s[..3] == s3 && s3[..2] == s2 && s2[..1] == s1 && s1[..0] == [];
    assert TrimTrailingZeros(s) == TrimTrailingZeros(s3);
    assert TrimTrailingZeros(s3) == TrimTrailingZeros(s2);
    assert TrimTrailingZeros(s2) == TrimTrailingZeros(s1);
    assert TrimTrailingZeros(s1) == TrimTrailingZeros([]);
  }

  /** The `while` loop of `value()` trimming the index bytes. */
  method TrimIndexBytes(index: nat) returns (indexSlice: seq<byte>)
    requires index < 0x1_0000_0000
    ensures indexSlice == TrimTrailingZeros(LittleEndian32(index))
  {
    indexSlice := LittleEndian32(index);
    while |indexSlice| > 0 && indexSlice[|indexSlice| - 1] == 0
      invariant TrimTrailingZeros(indexSlice) == TrimTrailingZeros(LittleEndian32(index))
      decreases |indexSlice|
    {
      indexSlice := indexSlice[..|indexSlice| - 1];
    }
  }

  /** `value()`: the txid bytes in reverse order. The trimmed index bytes are computed
      and then not used, so the index never reaches the result. */
  method Value(id: InscriptionId) returns (r: seq<byte>)
    requires ValidId(id)
    ensures |r| == 32
    ensures HexDecode(id.txid) == Some(Reverse(r))
  {
    var indexSlice := TrimIndexBytes(id.index);
    TxidBytes(id.txid);
    var txidBytes := HexDecode(id.txid).value;
    r := Reverse(txidBytes);
    ReverseReverse(txidBytes);
  }

  /** The delegate envelope: "ord", OP_1, three OP_0, OP_11, then the reversed id. */
  function DelegateEnvelope(idBytes: seq<byte>): seq<Chunk>
  {
    [BufferToChunk(ORD_TAG), NumberToChunk(1), NumberToChunk(0), NumberToChunk(0), NumberToChunk(0),
     NumberToChunk(11), BufferToChunk(idBytes)]
  }

  /** The id bytes of an accepted txid. */
  function IdBytes(txid: string): seq<byte>
    requires IsTxid(txid)
  {
    TxidBytes(txid);
    Reverse(HexDecode(txid).value)
  }

  /** The scripts of a delegate inscription. */
  function DelegateP2shFor(publicKey: seq<byte>, txid: string, hash160: seq<byte> -> seq<byte>): P2sh
    requires IsTxid(txid)
  {
    P2shFor(publicKey, PartialOf(DelegateEnvelope(IdBytes(txid))), hash160)
  }

  /** The delegate envelope serializes to 42 bytes, so all of it goes into the partial
      prefix. */
  lemma DelegateEnvelopeFits(idBytes: seq<byte>)
    requires |idBytes| == 32
    ensures Size(DelegateEnvelope(idBytes)) == 42
    ensures PartialOf(DelegateEnvelope(idBytes)) == DelegateEnvelope(idBytes)
  {
    var env := DelegateEnvelope(idBytes);
    var e1 := [Push(ORD_TAG)];
    assert Size(e1) == 4 by { SizeAppend([], Push(ORD_TAG)); }
    var e2 := e1 + [Op(81)];
    SizeAppend(e1, Op(81));
    var e3 := e2 + [Op(0)];
    SizeAppend(e2, Op(0));
    var e4 := e3 + [Op(0)];
    SizeAppend(e3, Op(0));
    var e5 := e4 + [Op(0)];
    SizeAppend(e4, Op(0));
    var e6 := e5 + [Op(91)];
    SizeAppend(e5, Op(91));
    SizeAppend(e6, Push(idBytes));
    assert env == e6 + [Push(idBytes)];
    SmallEnvelopeFits(env);
  }

  /** `getDelegateP2sh({privKey, delegate_inscription_tx})`: the envelope is split as in
      `getP2sh`; a malformed id is refused. */
  method GetDelegateP2sh(privKey: string, delegateTx: string, crypto: Crypto) returns (r: Result<P2sh>)
    ensures r.Err? <==> !IsTxid(delegateTx)
    ensures r.Err? ==> r.error == TXID_ERROR
    ensures r.Ok? ==> r.value == DelegateP2shFor(crypto.publicKey(privKey), delegateTx, crypto.hash160)
  {
    var publicKey := crypto.publicKey(privKey);
    var inscription := [BufferToChunk(ORD_TAG)];
    inscription := inscription + [NumberToChunk(1)];
    inscription := inscription + [NumberToChunk(0)];
    inscription := inscription + [NumberToChunk(0)];
    inscription := inscription + [NumberToChunk(0)];
    inscription := inscription + [NumberToChunk(11)];
    var id := NewInscriptionId(delegateTx);
    if id.Err? {
      return Err(id.error);
    }
    var idBytes := Value(id.value);
    ReverseReverse(idBytes);
    assert idBytes == IdBytes(delegateTx);
    inscription := inscription + [BufferToChunk(idBytes)];
    assert inscription == DelegateEnvelope(idBytes);
    DelegateEnvelopeFits(idBytes);
    var partial, _ := SplitPartial(inscription);
    var lock := BuildLock(publicKey, partial);
    var redeemScript := Serialize(lock);
    var lockHash := crypto.hash160(Serialize(lock));
    var p2sh := [OpcodeToChunk(OP_HASH160)];
    p2sh := p2sh + [BufferToChunk(lockHash)];
    p2sh := p2sh + [OpcodeToChunk(OP_EQUAL)];
    r := Ok(P2sh(redeemScript, p2sh, partial, lock));
  }

  /** All seven envelope chunks go into the partial prefix, so the lock holds seven
      OP_DROPs. */
  lemma DelegateP2shShape(publicKey: seq<byte>, txid: string, hash160: seq<byte> -> seq<byte>)
    requires IsTxid(txid)
    ensures var p := DelegateP2shFor(publicKey, txid, hash160);
      p.partial == DelegateEnvelope(IdBytes(txid))
      && |p.partial| == 7
      && p.partial[6] == Push(IdBytes(txid))
      && Count(p.lock, Op(OP_DROP)) == 7
      && p.p2sh == [Op(OP_HASH160), BufferToChunk(hash160(p.redeemScript)), Op(OP_EQUAL)]
  {
    TxidBytes(txid);
    DelegateEnvelopeFits(IdBytes(txid));
    LockShape(publicKey, 7);
  }

  // ---------------------------------------------------------------------------
  // The reveal transaction

  /** The inputs before signing: one per listed index, in list order, each spending that
      commit output with its paired value under the pay-to-script-hash script. */
  function UnsignedInputs(commitTxId: string, values: seq<nat>, indexes: seq<nat>, p2sh: seq<Chunk>)
    : (r: seq<RevealInput>)
    requires |values| >= |indexes|
    ensures |r| == |indexes|
    ensures forall i :: 0 <= i < |r| ==> r[i] == RevealInput(commitTxId, indexes[i], values[i], p2sh, [])
  {
    if indexes == [] then []
    else UnsignedInputs(commitTxId, values, indexes[..|indexes| - 1], p2sh)
         + [RevealInput(commitTxId, indexes[|indexes| - 1], values[|indexes| - 1], p2sh, [])]
  }

  /** The reveal after signing its first `n` inputs: input `i` is signed over the
      transaction as it stands after the inputs before it got their unlock scripts. */
  function SignInputs(tx: RevealTx, n: nat, privKey: string, p: P2sh, crypto: Crypto): (r: RevealTx)
    requires n <= |tx.inputs|
    ensures |r.inputs| == |tx.inputs| && r.outputs == tx.outputs
  {
    if n == 0 then tx
    else
      var t := SignInputs(tx, n - 1, privKey, p, crypto);
      var signature := crypto.sign(t, privKey, n - 1, p.redeemScript);
      t.(inputs := t.inputs[n - 1 := t.inputs[n - 1].(script := UnlockScript(p.partial, signature, p.redeemScript))])
  }

  /** An unlock script as `getDelegateRevealTx` sets it: the partial chunks, a push
      ending with the SIGHASH_ALL byte, and the redeem script push. */
  predicate IsUnlock(script: seq<Chunk>, p: P2sh)
  {
    |script| == |p.partial| + 2
    && script[..|p.partial|] == p.partial
    && script[|p.partial|].Push? && |script[|p.partial|].data| > 0
    && script[|p.partial|].data[|script[|p.partial|].data| - 1] == SIGHASH_ALL
    && script[|p.partial| + 1] == BufferToChunk(p.redeemScript)
  }

  lemma UnlockScriptIsUnlock(p: P2sh, signature: seq<byte>)
    ensures IsUnlock(UnlockScript(p.partial, signature, p.redeemScript), p)
  {
    var s := UnlockScript(p.partial, signature, p.redeemScript);
    assert s[..|p.partial|] == p.partial;
  }

  /** Signing the first `n` inputs gives them unlock scripts and changes nothing else. */
  lemma {:induction false} SignInputsEffect(tx: RevealTx, n: nat, privKey: string, p: P2sh, crypto: Crypto)
    requires n <= |tx.inputs|
    ensures var r := SignInputs(tx, n, privKey, p, crypto);
      forall i :: 0 <= i < |tx.inputs| ==>
        r.inputs[i].(script := tx.inputs[i].script) == tx.inputs[i]
        && (i < n ==> IsUnlock(r.inputs[i].script, p))
        && (i >= n ==> r.inputs[i] == tx.inputs[i])
  {
    if n > 0 {
      SignInputsEffect(tx, n - 1, privKey, p, crypto);
      var t := SignInputs(tx, n - 1, privKey, p, crypto);
      var signature := crypto.sign(t, privKey, n - 1, p.redeemScript);
      UnlockScriptIsUnlock(p, signature);
    }
  }

  /** The signed delegate reveal. */
  function DelegateRevealOf(privKey: string, commitTxId: string, values: seq<nat>, indexes: seq<nat>,
                            revealTxOutputs: seq<Output>, delegateTx: string, crypto: Crypto): RevealTx
    requires |values| >= |indexes|
    requires IsTxid(delegateTx)
  {
    var p := DelegateP2shFor(crypto.publicKey(privKey), delegateTx, crypto.hash160);
    var unsigned := RevealTx(UnsignedInputs(commitTxId, values, indexes, p.p2sh), revealTxOutputs);
    SignInputs(unsigned, |indexes|, privKey, p, crypto)
  }

  /** `getDelegateRevealTx`. The fee rate takes no part in the result. */
  method GetDelegateRevealTx(privKey: string, feePerByte: nat, commitTxId: string,
                             valuesOfOutputsToSpend: seq<nat>, indexesOfOutputsToSpend: seq<nat>,
                             revealTxOutputs: seq<Output>, delegateTx: string, crypto: Crypto)
    returns (r: Result<RevealTx>)
    requires |valuesOfOutputsToSpend| >= |indexesOfOutputsToSpend|
    ensures r.Err? <==> !IsTxid(delegateTx)
    ensures r.Err? ==> r.error == TXID_ERROR
    ensures r.Ok? ==> r.value == DelegateRevealOf(privKey, commitTxId, valuesOfOutputsToSpend,
                                                  indexesOfOutputsToSpend, revealTxOutputs, delegateTx, crypto)
  {
    var pr := GetDelegateP2sh(privKey, delegateTx, crypto);
    if pr.Err? {
      return Err(pr.error);
    }
    var p := pr.value;
    var inputs := AddInputs(commitTxId, valuesOfOutputsToSpend, indexesOfOutputsToSpend, p.p2sh);
    var outputs := AddOutputs(revealTxOutputs);
    var revealTx := SignAll(RevealTx(inputs, outputs), privKey, p, crypto);
    r := Ok(revealTx);
  }

  /** The first `forEach`: one input per listed index. */
  method AddInputs(commitTxId: string, values: seq<nat>, indexes: seq<nat>, p2sh: seq<Chunk>)
    returns (inputs: seq<RevealInput>)
    requires |values| >= |indexes|
    ensures inputs == UnsignedInputs(commitTxId, values, indexes, p2sh)
  {
    inputs := [];
    var i := 0;
    while i < |indexes|
      invariant i <= |indexes|
      invariant inputs == UnsignedInputs(commitTxId, values, indexes[..i], p2sh)
    {
      assert indexes[..i + 1][..i] == indexes[..i];
      inputs := inputs + [RevealInput(commitTxId, indexes[i], values[i], p2sh, [])];
      i := i + 1;
    }
    assert indexes[..i] == indexes;
  }

  /** The output loop: an address output and a script output are both added. */
  method AddOutputs(revealTxOutputs: seq<Output>) returns (outputs: seq<Output>)
    ensures outputs == revealTxOutputs
  {
    outputs := [];
    var i := 0;
    while i < |revealTxOutputs|
      invariant i <= |revealTxOutputs|
      invariant outputs == revealTxOutputs[..i]
    {
      var output := revealTxOutputs[i];
      if output.AddressOut? {
        outputs := outputs + [AddressOut(output.address, output.amount)];
      }
      if output.ScriptOut? {
        outputs := outputs + [ScriptOut(output.script, output.amount)];
      }
      i := i + 1;
    }
  }

  /** The signing `forEach`: each input's signature is over the transaction as it is
      when that input's turn comes. */
  method SignAll(unsigned: RevealTx, privKey: string, p: P2sh, crypto: Crypto) returns (revealTx: RevealTx)
    ensures revealTx == SignInputs(unsigned, |unsigned.inputs|, privKey, p, crypto)
  {
    revealTx := unsigned;
    var i := 0;
    while i < |revealTx.inputs|
      invariant |revealTx.inputs| == |unsigned.inputs|
      invariant i <= |unsigned.inputs|
      invariant revealTx == SignInputs(unsigned, i, privKey, p, crypto)
    {
      var signature := crypto.sign(revealTx, privKey, i, p.redeemScript);
      var unlock := p.partial;
      unlock := unlock + [BufferToChunk(signature + [SIGHASH_ALL])];
      unlock := unlock + [BufferToChunk(p.redeemScript)];
      assert unlock == UnlockScript(p.partial, signature, p.redeemScript);
      revealTx := revealTx.(inputs := revealTx.inputs[i := revealTx.inputs[i].(script := unlock)]);
      i := i + 1;
    }
  }

  /** The delegate reveal spends the listed commit outputs in list order, each with its
      paired value and under the same pay-to-script-hash script; every input carries an
      unlock script; the outputs are exactly the requested ones. */
  lemma DelegateRevealShape(privKey: string, commitTxId: string, values: seq<nat>, indexes: seq<nat>,
                            revealTxOutputs: seq<Output>, delegateTx: string, crypto: Crypto)
    requires |values| >= |indexes|
    requires IsTxid(delegateTx)
    ensures var tx := DelegateRevealOf(privKey, commitTxId, values, indexes, revealTxOutputs, delegateTx, crypto);
      var p := DelegateP2shFor(crypto.publicKey(privKey), delegateTx, crypto.hash160);
      |tx.inputs| == |indexes| && tx.outputs == revealTxOutputs
      && forall i :: 0 <= i < |indexes| ==>
           tx.inputs[i].prevTxId == commitTxId && tx.inputs[i].outputIndex == indexes[i]
           && tx.inputs[i].satoshis == values[i] && tx.inputs[i].prevScript == p.p2sh
           && IsUnlock(tx.inputs[i].script, p)
  {
    var p := DelegateP2shFor(crypto.publicKey(privKey), delegateTx, crypto.hash160);
    var unsigned := RevealTx(UnsignedInputs(commitTxId, values, indexes, p.p2sh), revealTxOutputs);
    SignInputsEffect(unsigned, |indexes|, privKey, p, crypto);
  }
}
