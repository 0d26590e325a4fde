/** The mint part of a protocol message: the Mint tag written twice, once for the
    bone id's block and once for its transaction index. */
module Mint {
  import opened Wrappers
  import opened Encoding
  import opened ProtocolUtils
  import opened Classes
  import opened Types

  /** The pairs for a mint of `id`: Mint with the block, then Mint with the index. */
  function MintPairs(id: BoneId): seq<(nat, int)>
  {
    [(Tag.Mint.Value(), id.block as int), (Tag.Mint.Value(), id.tx as int)]
  }

  /** The message bytes for a possibly absent mint. */
  function MintMessage(mint: Option<BoneId>): seq<byte>
  {
    match mint
    case Some(id) => PairBytes((Tag.Mint.Value(), id.block as int)) + PairBytes((Tag.Mint.Value(), id.tx as int))
    case None => []
  }

  /** `encodeMintProtocolMessage`: two Mint pairs for a present mint, nothing otherwise. */
  method EncodeMintProtocolMessage(mint: Option<BoneId>) returns (message: seq<byte>)
    ensures message == MintMessage(mint)
    ensures message == [] <==> mint.None?
  {
    var payload := new Payload();
    if mint.Some? {
      payload.EncodeTag(Tag.Mint.Value(), mint.value.block);
      payload.EncodeTag(Tag.Mint.Value(), mint.value.tx);
      assert [] + PairBytes((Tag.Mint.Value(), mint.value.block as int))
        == PairBytes((Tag.Mint.Value(), mint.value.block as int));
    }
    message := payload.Bytes();
  }

  /** The mint message starts with the Mint tag, 20. */
  lemma MintMessageStart(id: BoneId)
    ensures MintMessage(Some(id))[0] == 20
  {
    assert Tag.Mint.Value() == 20;
    VarIntShort(20);
  }

  /** The mint message is its two pairs written one after the other. */
  lemma MintMessageIsPairs(id: BoneId)
    ensures MintMessage(Some(id)) == PairsBytes(MintPairs(id))
  {
    PairsBytesTwo((Tag.Mint.Value(), id.block as int), (Tag.Mint.Value(), id.tx as int));
  }

  lemma ReadMintPairs(id: BoneId)
    ensures ReadPairs(PairsBytes(MintPairs(id))) == Some(([(20, id.block), (20, id.tx)], []))
  {
    var ps := MintPairs(id);
    assert Tag.Mint.Value() == 20;
    assert PositiveTags(ps);
    ReadPairsOf(ps, []);
    assert PairsBytes(ps) + [] == PairsBytes(ps);
    var c := Clipped(ps);
    assert Clip(id.block as int) == id.block && Clip(id.tx as int) == id.tx;
    assert |c| == 2 && c[0] == (20, id.block) && c[1] == (20, id.tx);
    assert c == [(20, id.block), (20, id.tx)];
  }

  /** Reading the mint message back gives the bone id's block and index under Mint. */
  lemma MintRoundTrip(id: BoneId)
    ensures ReadPairs(MintMessage(Some(id))) == Some(([(20, id.block), (20, id.tx)], []))
  {
    MintMessageIsPairs(id);
    ReadMintPairs(id);
  }
}
