/** The top-level protocol message: the merged flags, the field order of a keepsake's
    encoding, and the split of the encoded message into pushes behind the marker. */
module KeepsakeCodec {
  import opened Wrappers
  import opened Encoding
  import opened Seqs
  import opened Script
  import opened ProtocolUtils
  import opened Classes
  import opened Types
  import opened Transfers
  import opened Deploy

  /** The flag bits a keepsake's own booleans contribute: Commitment, Sealing, Reveal. */
  function OwnFlags(k: Keepsake): nat
  {
    (if k.commitment then Mask(Flag.Commitment.Bit()) else 0)
    + (if k.sealing then Mask(Flag.Sealing.Bit()) else 0)
    + (if k.revealFlag then Mask(Flag.Reveal.Bit()) else 0)
  }

  /** The merged flags: the keepsake's own bits plus those of its deployment. */
  function ProtocolFlags(k: Keepsake): nat
  {
    OwnFlags(k) + (if k.deployment.Some? then DeploymentFlags(k.deployment) else 0)
  }

  /** The Flags pair, present only when some flag is set. */
  function FlagsBytes(flags: nat): seq<byte>
  {
    if flags > 0 then PairBytes((Tag.Flags.Value(), flags as int)) else []
  }

  /** The Pointer pair (whenever a pointer is given, zero included), then the Claim pair. */
  function FurtherBytes(k: Keepsake): seq<byte>
  {
    (if k.pointer.Some? then PairBytes((Tag.Pointer.Value(), k.pointer.value as int)) else [])
    + (if k.claim.Some? then PairBytes((Tag.Claim.Value(), k.claim.value)) else [])
  }

  /** The transfers body, when a transfer list is given. */
  function TransfersBytes(k: Keepsake): seq<byte>
  {
    match k.transfers
    case Some(ts) => TransfersMessage(ts)
    case None => []
  }

  /** The encoded message: deployment pairs, the Flags pair, Pointer, Claim, then
      the transfers body. Mint, swap, summoning and encasing are not written. */
  function ProtocolMessage(k: Keepsake): seq<byte>
  {
    DeploymentMessage(k.deployment) + FlagsBytes(ProtocolFlags(k)) + FurtherBytes(k) + TransfersBytes(k)
  }

  /** `flags | mask` when the condition holds. */
  function OrIf(flags: nat, cond: bool, mask: nat): nat
  {
    if cond then BitOr(flags, mask) else flags
  }

  /** `encodeProtocolMessage`. */
  method EncodeProtocolMessage(k: Keepsake) returns (result: seq<byte>)
    ensures result == ProtocolMessage(k)
  {
    var flags: nat;
    flags, result := EncodeFlagsAndDeployment(k);
    var flagsBytes := EncodeFlags(flags);
    result := result + flagsBytes;
    var furtherBytes := EncodeFurther(k);
    result := result + furtherBytes;
    if k.transfers.Some? {
      var transfersMessage := EncodeTransfersProtocolMessage(k.transfers.value);
      result := result + transfersMessage;
    }
  }

  /** The Flags payload of `encodeProtocolMessage`, written only for non-zero flags. */
  method EncodeFlags(flags: nat) returns (bytes: seq<byte>)
    ensures bytes == FlagsBytes(flags)
  {
    var flagsPayload := new Payload();
    bytes := [];
    if flags > 0 {
      flagsPayload.EncodeTag(Tag.Flags.Value(), flags);
      bytes := flagsPayload.Bytes();
    }
  }

  /** The further payload of `encodeProtocolMessage`: Pointer, then Claim. */
  method EncodeFurther(k: Keepsake) returns (bytes: seq<byte>)
    ensures bytes == FurtherBytes(k)
  {
    var furtherPayload := new Payload();
    if k.pointer.Some? {
      furtherPayload.EncodeTag(Tag.Pointer.Value(), k.pointer.value);
    }
    ghost var afterPointer := furtherPayload.Bytes();
    assert afterPointer == if k.pointer.Some? then PairBytes((Tag.Pointer.Value(), k.pointer.value as int)) else [];
    if k.claim.Some? {
      furtherPayload.EncodeTag(Tag.Claim.Value(), k.claim.value);
    }
    bytes := furtherPayload.Bytes();
  }

  /** The first half of `encodeProtocolMessage`: the flags are OR-ed together from the
      keepsake's booleans and the deployment's flags, and the deployment's bytes start
      the message. */
  method EncodeFlagsAndDeployment(k: Keepsake) returns (flags: nat, result: seq<byte>)
    ensures flags == ProtocolFlags(k)
    ensures result == DeploymentMessage(k.deployment)
  {
    result := [];
    flags := 0;
    if k.commitment {
      flags := BitOr(flags, Mask(Flag.Commitment.Bit()));
    }
    ghost var f0 := flags;
    assert f0 == OrIf(0, k.commitment, Mask(Flag.Commitment.Bit()));
    if k.sealing {
      flags := BitOr(flags, Mask(Flag.Sealing.Bit()));
    }
    ghost var f1 := flags;
    assert f1 == OrIf(f0, k.sealing, Mask(Flag.Sealing.Bit()));
    if k.revealFlag {
      flags := BitOr(flags, Mask(Flag.Reveal.Bit()));
    }
    ghost var f2 := flags;
    assert f2 == OrIf(f1, k.revealFlag, Mask(Flag.Reveal.Bit()));
    if k.deployment.Some? {
      var deploymentFlags, deploymentMessage := EncodeDeploymentProtocolMessage(k.deployment);
      flags := BitOr(flags, deploymentFlags);
      assert [] + deploymentMessage == deploymentMessage;
      result := result + deploymentMessage;
    }
    assert flags == OrIf(f2, k.deployment.Some?,
                         4 + (if HasMintTerms(k.deployment) then 8 else 0) + (if IsTurbo(k.deployment) then 1024 else 0));
    FlagsChain(k);
  }

  lemma DeploymentFlagsValue(deployment: Option<Deployment>)
    ensures DeploymentFlags(deployment) == 4 + (if HasMintTerms(deployment) then 8 else 0)
                                             + (if IsTurbo(deployment) then 1024 else 0)
  {
    assert Mask(2) == 4 && Mask(3) == 8 && Mask(10) == 1024;
  }

  /** The OR chain of the encoder adds up to the merged flags, because no two of the
      masks share a bit. */
  lemma FlagsChain(k: Keepsake)
    ensures OrIf(OrIf(OrIf(OrIf(0, k.commitment, Mask(Flag.Commitment.Bit())),
                               k.sealing, Mask(Flag.Sealing.Bit())),
                          k.revealFlag, Mask(Flag.Reveal.Bit())),
                 k.deployment.Some?,
                 4 + (if HasMintTerms(k.deployment) then 8 else 0) + (if IsTurbo(k.deployment) then 1024 else 0))
            == ProtocolFlags(k)
  {
    CommitmentThenSealing(k.commitment, k.sealing);
    ThenReveal(k);
    ThenDeployment(k);
  }

  /** OR-ing a mask that shares no bit with the flags adds it. */
  lemma OrIfAdds(flags: nat, cond: bool, mask: nat)
    requires forall j :: HasBit(flags, j) ==> !HasBit(mask, j)
    ensures OrIf(flags, cond, mask) == flags + (if cond then mask else 0)
  {
    if cond {
      BitOrDisjoint(flags, mask);
    }
  }

  lemma CommitmentThenSealing(commitment: bool, sealing: bool)
    ensures OrIf(OrIf(0, commitment, Mask(0)), sealing, Mask(1))
            == (if commitment then Mask(0) else 0) + (if sealing then Mask(1) else 0)
  {
    var c := if commitment then Mask(0) else 0;
    assert OrIf(0, commitment, Mask(0)) == c;
    MaskBits(0);
    MaskBits(1);
    forall j | HasBit(c, j) ensures !HasBit(Mask(1), j) {
      if c == 0 {
        HasBitZero(j);
      }
    }
    OrIfAdds(c, sealing, Mask(1));
  }

  lemma ThenReveal(k: Keepsake)
    ensures var c := if k.commitment then Mask(0) else 0;
      var s := if k.sealing then Mask(1) else 0;
      OrIf(c + s, k.revealFlag, Mask(9)) == OwnFlags(k)
  {
    var c := if k.commitment then Mask(0) else 0;
    var s := if k.sealing then Mask(1) else 0;
    MaskBits(9);
    forall j | HasBit(c + s, j) ensures !HasBit(Mask(9), j) {
      OwnBitsPrefix(k, j);
    }
    OrIfAdds(c + s, k.revealFlag, Mask(9));
  }

  lemma ThenDeployment(k: Keepsake)
    ensures OrIf(OwnFlags(k), k.deployment.Some?,
                 4 + (if HasMintTerms(k.deployment) then 8 else 0) + (if IsTurbo(k.deployment) then 1024 else 0))
            == ProtocolFlags(k)
  {
    var dep := 4 + (if HasMintTerms(k.deployment) then 8 else 0) + (if IsTurbo(k.deployment) then 1024 else 0);
    DeploymentFlagsValue(k.deployment);
    if k.deployment.Some? {
      OwnDeploymentDisjoint(k);
      OrIfAdds(OwnFlags(k), true, dep);
    }
  }

  /** The keepsake's own bits and its deployment's bits never meet. */
  lemma OwnDeploymentDisjoint(k: Keepsake)
    ensures var dep := if k.deployment.Some? then DeploymentFlags(k.deployment) else 0;
      forall j :: HasBit(OwnFlags(k), j) ==> !HasBit(dep, j)
  {
    var dep := if k.deployment.Some? then DeploymentFlags(k.deployment) else 0;
    OwnFlagsBits(k);
    DeploymentFlagsValue(k.deployment);
    if k.deployment.Some? {
      FlagBits(dep, k.deployment);
    } else {
      forall j ensures !HasBit(dep, j) {
        HasBitZero(j);
      }
    }
  }

  lemma OwnBitsPrefix(k: Keepsake, j: nat)
    ensures var c := if k.commitment then Mask(0) else 0;
      var s := if k.sealing then Mask(1) else 0;
      HasBit(c + s, j) ==> j == 0 || j == 1
  {
    var c := if k.commitment then Mask(0) else 0;
    var s := if k.sealing then Mask(1) else 0;
    MaskBits(0);
    MaskBits(1);
    forall i | HasBit(c, i) ensures !HasBit(s, i) {
      if s == 0 {
        HasBitZero(i);
      }
    }
    HasBitAdd(c, s, j);
    if c == 0 || s == 0 {
      HasBitZero(j);
    }
  }

  /** The bits of the keepsake's own flags: Commitment, Sealing and Reveal as set. */
  lemma OwnFlagsBits(k: Keepsake)
    ensures forall i :: HasBit(OwnFlags(k), i) <==>
      (i == 0 && k.commitment) || (i == 1 && k.sealing) || (i == 9 && k.revealFlag)
  {
    var c := if k.commitment then Mask(0) else 0;
    var s := if k.sealing then Mask(1) else 0;
    var r := if k.revealFlag then Mask(9) else 0;
    MaskBits(0);
    MaskBits(1);
    MaskBits(9);
    forall i ensures HasBit(OwnFlags(k), i) <==>
      (i == 0 && k.commitment) || (i == 1 && k.sealing) || (i == 9 && k.revealFlag)
    {
      forall j | HasBit(c, j) ensures !HasBit(s, j) {
        if s == 0 {
          HasBitZero(j);
        }
      }
      HasBitAdd(c, s, i);
      forall j | HasBit(c + s, j) ensures !HasBit(r, j) {
        OwnBitsPrefix(k, j);
        if r == 0 {
          HasBitZero(j);
        }
      }
      HasBitAdd(c + s, r, i);
      HasBitZero(i);
    }
  }

  /** The bits of the merged flags: the keepsake's booleans, and with a deployment the
      Deployment bit, MintTerms with mint terms and Turbo with turbo; no other bit. */
  lemma ProtocolFlagsBits(k: Keepsake)
    ensures forall i :: HasBit(ProtocolFlags(k), i) <==>
      (i == Flag.Commitment.Bit() && k.commitment)
      || (i == Flag.Sealing.Bit() && k.sealing)
      || (i == Flag.Reveal.Bit() && k.revealFlag)
      || (k.deployment.Some? && i == Flag.Deployment.Bit())
      || (i == Flag.MintTerms.Bit() && HasMintTerms(k.deployment))
      || (i == Flag.Turbo.Bit() && IsTurbo(k.deployment))
  {
    forall i ensures HasBit(ProtocolFlags(k), i) <==>
      (i == 0 && k.commitment) || (i == 1 && k.sealing) || (i == 9 && k.revealFlag)
      || (k.deployment.Some? && i == 2)
      || (i == 3 && HasMintTerms(k.deployment)) || (i == 10 && IsTurbo(k.deployment))
    {
      ProtocolFlagsBitAt(k, i);
    }
  }

  lemma ProtocolFlagsBitAt(k: Keepsake, i: nat)
    ensures HasBit(ProtocolFlags(k), i) <==>
      (i == 0 && k.commitment) || (i == 1 && k.sealing) || (i == 9 && k.revealFlag)
      || (k.deployment.Some? && i == 2)
      || (i == 3 && HasMintTerms(k.deployment)) || (i == 10 && IsTurbo(k.deployment))
  {
    var own := OwnFlags(k);
    var dep := if k.deployment.Some? then DeploymentFlags(k.deployment) else 0;
    OwnFlagsBits(k);
    OwnDeploymentDisjoint(k);
    HasBitAdd(own, dep, i);
    if k.deployment.Some? {
      DeploymentFlagsValue(k.deployment);
      FlagBits(dep, k.deployment);
    } else {
      HasBitZero(i);
    }
  }

  /** A deployment always forces the Flags pair. */
  lemma DeploymentSetsFlags(k: Keepsake)
    requires k.deployment.Some?
    ensures ProtocolFlags(k) >= 4
    ensures FlagsBytes(ProtocolFlags(k)) == PairBytes((Tag.Flags.Value(), ProtocolFlags(k) as int))
  {
    DeploymentFlagsValue(k.deployment);
  }

  /** Without any flag source the Flags pair is left out entirely. */
  lemma NoFlagsNoFlagsPair(k: Keepsake)
    requires !k.commitment && !k.sealing && !k.revealFlag && k.deployment.None?
    ensures ProtocolFlags(k) == 0
    ensures ProtocolMessage(k) == FurtherBytes(k) + TransfersBytes(k)
  {
  }

  /** Mint, swap, summoning and encasing never reach the message. */
  lemma IgnoredFields(k: Keepsake, mint: Option<BoneId>, swap: Option<Swap>,
                      summoning: Option<Summoning>, encasing: Option<BoneId>)
    ensures ProtocolMessage(k.(mint := mint, swap := swap, summoning := summoning, encasing := encasing))
            == ProtocolMessage(k)
  {
    var k2 := k.(mint := mint, swap := swap, summoning := summoning, encasing := encasing);
    assert OwnFlags(k2) == OwnFlags(k);
    assert ProtocolFlags(k2) == ProtocolFlags(k);
    assert FurtherBytes(k2) == FurtherBytes(k);
    assert TransfersBytes(k2) == TransfersBytes(k);
  }

  /** The tag/value pairs of the message, before the transfers body. */
  function KeepsakePairs(k: Keepsake): seq<(nat, int)>
  {
    DeploymentPairsOf(k) + FlagsPairs(ProtocolFlags(k)) + PointerPairs(k) + ClaimPairs(k)
  }

  function DeploymentPairsOf(k: Keepsake): seq<(nat, int)>
  {
    if k.deployment.Some? then DeploymentPairs(k.deployment.value) else []
  }

  function FlagsPairs(flags: nat): seq<(nat, int)>
  {
    if flags > 0 then [(Tag.Flags.Value(), flags as int)] else []
  }

  function PointerPairs(k: Keepsake): seq<(nat, int)>
  {
    if k.pointer.Some? then [(Tag.Pointer.Value(), k.pointer.value as int)] else []
  }

  function ClaimPairs(k: Keepsake): seq<(nat, int)>
  {
    if k.claim.Some? then [(Tag.Claim.Value(), k.claim.value)] else []
  }

  /** The message is its pairs followed by the transfers body. */
  lemma ProtocolMessageIsPairs(k: Keepsake)
    ensures ProtocolMessage(k) == PairsBytes(KeepsakePairs(k)) + TransfersBytes(k)
  {
    var d := DeploymentPairsOf(k);
    var f := FlagsPairs(ProtocolFlags(k));
    var p := PointerPairs(k);
    var c := ClaimPairs(k);
    assert KeepsakePairs(k) == d + f + p + c;
    assert PairsBytes(d) == DeploymentMessage(k.deployment) by {
      if k.deployment.Some? {
        DeploymentMessageIsPairs(k.deployment.value);
      }
    }
    assert PairsBytes(f) == FlagsBytes(ProtocolFlags(k)) by {
      if f != [] {
        SinglePair(f[0]);
      }
    }
    assert PairsBytes(p) + PairsBytes(c) == FurtherBytes(k) by {
      if p != [] {
        SinglePair(p[0]);
      }
      if c != [] {
        SinglePair(c[0]);
      }
    }
    FourRuns(d, f, p, c);
  }

  lemma FourRuns(d: seq<(nat, int)>, f: seq<(nat, int)>, p: seq<(nat, int)>, c: seq<(nat, int)>)
    ensures PairsBytes(d + f + p + c) == PairsBytes(d) + PairsBytes(f) + (PairsBytes(p) + PairsBytes(c))
  {
    var pd, pf, pp, pc := PairsBytes(d), PairsBytes(f), PairsBytes(p), PairsBytes(c);
    assert PairsBytes(d + f) == pd + pf by {
      PairsBytesConcat(d, f);
    }
    assert PairsBytes(d + f + p) == pd + pf + pp by {
      PairsBytesConcat(d + f, p);
    }
    assert PairsBytes(d + f + p + c) == pd + pf + pp + pc by {
      PairsBytesConcat(d + f + p, c);
    }
    ConcatAssoc(pd + pf, pp, pc);
  }

  lemma SinglePair(p: (nat, int))
    ensures PairsBytes([p]) == PairBytes(p)
  {
    PairsBytesAppend([], p);
    assert [] + [p] == [p];
  }

  /** Every pair of the message has a non-zero tag, so no pair reads as the Body tag. */
  lemma KeepsakeTagsPositive(k: Keepsake)
    ensures PositiveTags(KeepsakePairs(k))
  {
    var d := DeploymentPairsOf(k);
    if k.deployment.Some? {
      DeploymentTagsPositive(k.deployment.value);
    }
    var f := FlagsPairs(ProtocolFlags(k));
    var p := PointerPairs(k);
    var c := ClaimPairs(k);
    assert PositiveTags(f) && PositiveTags(p) && PositiveTags(c);
    PositiveTagsConcat(d, f);
    PositiveTagsConcat(d + f, p);
    PositiveTagsConcat(d + f + p, c);
  }

  /** What a reader recovers from a message: its pairs and its transfers. */
  datatype Decoded = Decoded(pairs: seq<(nat, nat)>, transfers: seq<Transfer>)

  /** Reference reader of a protocol message: pairs up to the Body tag, then the
      transfers body. */
  function DecodeProtocolMessage(bs: seq<byte>): Option<Decoded>
  {
    var r := ReadPairs(bs);
    if r.None? then None
    else
      var ts :- DecodeTransfersMessage(r.value.1);
      Some(Decoded(r.value.0, ts))
  }

  /** The transfers a reader recovers: the given ones sorted by id, none when absent. */
  function TransfersOf(k: Keepsake): seq<Transfer>
  {
    match k.transfers
    case Some(ts) => SortById(ts)
    case None => []
  }

  /** Round trip: reading an encoded keepsake gives back its pairs (negative values
      read as zero) and its transfers sorted by id. */
  lemma DecodeProtocolMessageRoundTrip(k: Keepsake)
    ensures DecodeProtocolMessage(ProtocolMessage(k)) == Some(Decoded(Clipped(KeepsakePairs(k)), TransfersOf(k)))
  {
    ProtocolMessageIsPairs(k);
    KeepsakeTagsPositive(k);
    var tail := TransfersBytes(k);
    assert tail == [] || tail[0] == 0 by {
      if tail != [] {
        VarIntZero();
      }
    }
    ReadPairsOf(KeepsakePairs(k), tail);
    assert DecodeTransfersMessage(tail) == Some(TransfersOf(k)) by {
      if k.transfers.Some? {
        DecodeTransfersRoundTrip(k.transfers.value);
      }
    }
  }

  /** The reader finds the merged flags, the pointer and the claim under their tags
      (a negative claim reads as zero). */
  lemma DecodedFields(k: Keepsake)
    ensures var ps := Clipped(KeepsakePairs(k));
      Lookup(ps, Tag.Flags.Value()) == (if ProtocolFlags(k) > 0 then Some(ProtocolFlags(k)) else None)
      && Lookup(ps, Tag.Pointer.Value()) == (if k.pointer.Some? then Some(k.pointer.value) else None)
      && Lookup(ps, Tag.Claim.Value()) == (if k.claim.Some? then Some(Clip(k.claim.value)) else None)
  {
    var d := Clipped(DeploymentPairsOf(k));
    var f := Clipped(FlagsPairs(ProtocolFlags(k)));
    var p := Clipped(PointerPairs(k));
    var c := Clipped(ClaimPairs(k));
    ClippedFour(DeploymentPairsOf(k), FlagsPairs(ProtocolFlags(k)), PointerPairs(k), ClaimPairs(k));
    if k.deployment.Some? {
      DeploymentLookupAbsent(k.deployment.value, 2);
      DeploymentLookupAbsent(k.deployment.value, 4);
      DeploymentLookupAbsent(k.deployment.value, 6);
    }
    FlagsPairLookups(k);
    PointerPairLookups(k);
    ClaimPairLookups(k);
    FieldsFromRuns(d, f, p, c, Lookup(f, 2), Lookup(p, 4), Lookup(c, 6));
  }

  /** Four runs where the first carries none of the three tags, and each later run
      carries its own tag and none of those after it. */
  lemma FieldsFromRuns(d: seq<(nat, nat)>, f: seq<(nat, nat)>, p: seq<(nat, nat)>, c: seq<(nat, nat)>,
                       flags: Option<nat>, pointer: Option<nat>, claim: Option<nat>)
    requires Lookup(d, 2) == None && Lookup(d, 4) == None && Lookup(d, 6) == None
    requires Lookup(f, 2) == flags && Lookup(f, 4) == None && Lookup(f, 6) == None
    requires Lookup(p, 2) == None && Lookup(p, 4) == pointer && Lookup(p, 6) == None
    requires Lookup(c, 2) == None && Lookup(c, 4) == None && Lookup(c, 6) == claim
    ensures Lookup(d + f + p + c, 2) == flags
    ensures Lookup(d + f + p + c, 4) == pointer
    ensures Lookup(d + f + p + c, 6) == claim
  {
    LookupFour(d, f, p, c, 2);
    LookupFour(d, f, p, c, 4);
    LookupFour(d, f, p, c, 6);
  }

  lemma LookupFour(d: seq<(nat, nat)>, f: seq<(nat, nat)>, p: seq<(nat, nat)>, c: seq<(nat, nat)>, tag: nat)
    ensures Lookup(d + f + p + c, tag) == LookupIn4(d, f, p, c, tag)
  {
    LookupConcat(d + f + p, c, tag);
    LookupConcat(d + f, p, tag);
    LookupConcat(d, f, tag);
  }

  lemma FlagsPairLookups(k: Keepsake)
    ensures var f := Clipped(FlagsPairs(ProtocolFlags(k)));
      Lookup(f, 2) == (if ProtocolFlags(k) > 0 then Some(ProtocolFlags(k)) else None)
      && Lookup(f, 4) == None && Lookup(f, 6) == None
  {
    var f := Clipped(FlagsPairs(ProtocolFlags(k)));
    if f != [] {
      assert f == [(2, ProtocolFlags(k))];
      LookupSingle(f[0], 2);
      LookupSingle(f[0], 4);
      LookupSingle(f[0], 6);
    }
  }

  lemma PointerPairLookups(k: Keepsake)
    ensures var p := Clipped(PointerPairs(k));
      Lookup(p, 2) == None && Lookup(p, 4) == (if k.pointer.Some? then Some(k.pointer.value) else None)
      && Lookup(p, 6) == None
  {
    var p := Clipped(PointerPairs(k));
    if p != [] {
      assert p == [(4, k.pointer.value)];
      LookupSingle(p[0], 2);
      LookupSingle(p[0], 4);
      LookupSingle(p[0], 6);
    }
  }

  lemma ClaimPairLookups(k: Keepsake)
    ensures var c := Clipped(ClaimPairs(k));
      Lookup(c, 2) == None && Lookup(c, 4) == None
      && Lookup(c, 6) == (if k.claim.Some? then Some(Clip(k.claim.value)) else None)
  {
    var c := Clipped(ClaimPairs(k));
    if c != [] {
      assert c == [(6, Clip(k.claim.value))];
      LookupSingle(c[0], 2);
      LookupSingle(c[0], 4);
      LookupSingle(c[0], 6);
    }
  }

  lemma ClippedFour(d: seq<(nat, int)>, f: seq<(nat, int)>, p: seq<(nat, int)>, c: seq<(nat, int)>)
    ensures Clipped(d + f + p + c) == Clipped(d) + Clipped(f) + Clipped(p) + Clipped(c)
  {
    ClippedConcat(d, f);
    ClippedConcat(d + f, p);
    ClippedConcat(d + f + p, c);
  }

  /** The first hit among four consecutive runs. */
  function LookupIn4(a: seq<(nat, nat)>, b: seq<(nat, nat)>, c: seq<(nat, nat)>, d: seq<(nat, nat)>,
                     tag: nat): Option<nat>
  {
    if Lookup(a, tag).Some? then Lookup(a, tag)
    else if Lookup(b, tag).Some? then Lookup(b, tag)
    else if Lookup(c, tag).Some? then Lookup(c, tag)
    else Lookup(d, tag)
  }

  /** Deployment pairs carry none of the Flags, Pointer and Claim tags. */
  lemma DeploymentLookupAbsent(dep: Deployment, tag: nat)
    requires tag == 2 || tag == 4 || tag == 6
    ensures Lookup(Clipped(DeploymentPairs(dep)), tag) == None
  {
    var ps := DeploymentPairs(dep);
    DeploymentTagsKnown(dep);
    var cs := Clipped(ps);
    forall i | 0 <= i < |cs| ensures cs[i].0 != tag {
      assert cs[i].0 == ps[i].0;
    }
    LookupAbsent(cs, tag);
  }

  lemma {:induction false} LookupAbsent(ps: seq<(nat, nat)>, tag: nat)
    requires forall i :: 0 <= i < |ps| ==> ps[i].0 != tag
    ensures Lookup(ps, tag) == None
    decreases |ps|
  {
    if ps != [] {
      LookupAbsent(ps[1..], tag);
    }
  }

  /** Each part of the message becomes one push. */
  function Pushes(parts: seq<seq<byte>>): (r: seq<Chunk>)
    ensures |r| == |parts|
    ensures forall j :: 0 <= j < |parts| ==> r[j] == Push(parts[j])
  {
    if parts == [] then [] else Pushes(parts[..|parts| - 1]) + [Push(parts[|parts| - 1])]
  }

  /** The script a message becomes: the marker, then the message in pushes of at most
      `MAX_SCRIPT_ELEMENT_SIZE` bytes. */
  function MessageScript(message: seq<byte>, protocolOpcode: byte): seq<Chunk>
  {
    MarkerPrefix(protocolOpcode) + Pushes(Chunked(message, MAX_SCRIPT_ELEMENT_SIZE))
  }

  /** `encodedProtocolMessageToScript`: the marker, then one push per 80-byte slice. */
  method EncodedProtocolMessageToScript(message: seq<byte>, protocolOpcode: byte) returns (script: seq<Chunk>)
    ensures script == MessageScript(message, protocolOpcode)
  {
    script := MarkerPrefix(protocolOpcode);
    ghost var done: seq<seq<byte>> := [];
    var i := 0;
    while i < |message|
      invariant 0 <= i
      invariant done + Chunked(message[Min(i, |message|)..], MAX_SCRIPT_ELEMENT_SIZE)
                == Chunked(message, MAX_SCRIPT_ELEMENT_SIZE)
      invariant script == MarkerPrefix(protocolOpcode) + Pushes(done)
      decreases |message| - i
    {
      var end := Min(i + MAX_SCRIPT_ELEMENT_SIZE, |message|);
      var chunk := message[i..end];
      var push := FromSliceUnchecked(chunk);
      ChunkLoopStep(message, i, done);
      PushesSnoc(MarkerPrefix(protocolOpcode), done, chunk);
      script := script + [Push(push.AsBytes())];
      done := done + [chunk];
      i := i + MAX_SCRIPT_ELEMENT_SIZE;
    }
    assert message[Min(i, |message|)..] == [];
  }

  /** One round of the slicing loop: the slices already taken, the slice at `i`, then
      the slices after it are all the slices. */
  lemma ChunkLoopStep(message: seq<byte>, i: nat, done: seq<seq<byte>>)
    requires i < |message|
    requires done + Chunked(message[i..], MAX_SCRIPT_ELEMENT_SIZE) == Chunked(message, MAX_SCRIPT_ELEMENT_SIZE)
    ensures var end := Min(i + MAX_SCRIPT_ELEMENT_SIZE, |message|);
      (done + [message[i..end]]) + Chunked(message[end..], MAX_SCRIPT_ELEMENT_SIZE)
      == Chunked(message, MAX_SCRIPT_ELEMENT_SIZE)
  {
    ChunkedStep(message, MAX_SCRIPT_ELEMENT_SIZE, i);
    var end := Min(i + MAX_SCRIPT_ELEMENT_SIZE, |message|);
    ConcatAssoc(done, [message[i..end]], Chunked(message[end..], MAX_SCRIPT_ELEMENT_SIZE));
  }

  lemma PushesSnoc(prefix: seq<Chunk>, parts: seq<seq<byte>>, part: seq<byte>)
    ensures prefix + Pushes(parts + [part]) == (prefix + Pushes(parts)) + [Push(part)]
  {
    assert (parts + [part])[..|parts|] == parts;
    ConcatAssoc(prefix, Pushes(parts), [Push(part)]);
  }

  /** `createScript`: encode the keepsake, then split it into the script. */
  method CreateScript(k: Keepsake, protocolOpcode: byte) returns (script: seq<Chunk>)
    ensures script == MessageScript(ProtocolMessage(k), protocolOpcode)
  {
    var message := EncodeProtocolMessage(k);
    script := EncodedProtocolMessageToScript(message, protocolOpcode);
  }

  /** The script starts with OP_RETURN and the protocol opcode; every further chunk is a
      push of 1 to 80 bytes, all but the last exactly 80, and the pushed bytes put
      together are the message. */
  lemma MessageScriptShape(message: seq<byte>, protocolOpcode: byte)
    ensures var script := MessageScript(message, protocolOpcode);
      var parts := Chunked(message, MAX_SCRIPT_ELEMENT_SIZE);
      |script| == 2 + |parts|
      && script[0] == Op(OP_RETURN) && script[1] == Op(protocolOpcode)
      && (forall j :: 2 <= j < |script| ==> script[j] == Push(parts[j - 2]))
      && (forall j :: 0 <= j < |parts| ==> 0 < |parts[j]| <= MAX_SCRIPT_ELEMENT_SIZE)
      && (forall j :: 0 <= j < |parts| - 1 ==> |parts[j]| == MAX_SCRIPT_ELEMENT_SIZE)
      && Flatten(parts) == message
  {
    var parts := Chunked(message, MAX_SCRIPT_ELEMENT_SIZE);
    ChunkedFlatten(message, MAX_SCRIPT_ELEMENT_SIZE);
    ChunkedShape(message, MAX_SCRIPT_ELEMENT_SIZE);
    forall j | 0 <= j < |parts| ensures 0 < |parts[j]| <= MAX_SCRIPT_ELEMENT_SIZE {
      assert parts[j] in parts;
    }
    MarkerThenPushes(parts, protocolOpcode);
  }

  lemma MarkerThenPushes(parts: seq<seq<byte>>, protocolOpcode: byte)
    ensures var script := MarkerPrefix(protocolOpcode) + Pushes(parts);
      |script| == 2 + |parts|
      && script[0] == Op(OP_RETURN) && script[1] == Op(protocolOpcode)
      && (forall j :: 2 <= j < |script| ==> script[j] == Push(parts[j - 2]))
  {
    var script := MarkerPrefix(protocolOpcode) + Pushes(parts);
    forall j | 2 <= j < |script| ensures script[j] == Push(parts[j - 2]) {
      assert script[j] == Pushes(parts)[j - 2];
    }
  }

  /** The number of pushes is the message length divided by 80, rounded up. */
  lemma MessageScriptPushCount(message: seq<byte>, protocolOpcode: byte)
    ensures |MessageScript(message, protocolOpcode)| == 2 + (|message| + 79) / 80
  {
    var parts := Chunked(message, MAX_SCRIPT_ELEMENT_SIZE);
    ChunkedCount(message, MAX_SCRIPT_ELEMENT_SIZE);
    if parts == [] {
      ChunkedFlatten(message, MAX_SCRIPT_ELEMENT_SIZE);
    }
  }

  /** An empty message leaves only the marker. */
  lemma EmptyMessageScript(protocolOpcode: byte)
    ensures MessageScript([], protocolOpcode) == [Op(OP_RETURN), Op(protocolOpcode)]
  {
  }
}
