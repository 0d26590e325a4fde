/** The deployment part of a protocol message: the tag/value pairs that describe a
    bone being deployed, and the flag bits a deployment sets. */
module Deploy {
  import opened Wrappers
  import opened Encoding
  import opened Seqs
  import opened ProtocolUtils
  import opened Classes
  import opened Types

  /** The flags a deployment contributes: Deployment, plus MintTerms and Turbo. */
  function DeploymentFlags(deployment: Option<Deployment>): nat
  {
    Mask(Flag.Deployment.Bit())
    + (if HasMintTerms(deployment) then Mask(Flag.MintTerms.Bit()) else 0)
    + (if IsTurbo(deployment) then Mask(Flag.Turbo.Bit()) else 0)
  }

  predicate HasMintTerms(deployment: Option<Deployment>)
  {
    deployment.Some? && deployment.value.mintTerms.Some?
  }

  predicate IsTurbo(deployment: Option<Deployment>)
  {
    deployment.Some? && deployment.value.turbo
  }

  /** The Symbol pair, written only for a non-empty symbol. */
  function SymbolPairs(d: Deployment): seq<(nat, int)>
  {
    if d.symbol != [] then [(Tag.Symbol.Value(), SymbolAsNumber(d.symbol) as int)] else []
  }

  /** The Seed pair, written only when the seed is non-zero. */
  function SeedPairs(d: Deployment): seq<(nat, int)>
  {
    if d.seed != 0 then [(Tag.Seed.Value(), d.seed as int)] else []
  }

  /** The Subsidy pair, written only when the subsidy is non-zero. */
  function SubsidyPairs(d: Deployment): seq<(nat, int)>
  {
    if d.subsidy != 0 then [(Tag.Subsidy.Value(), d.subsidy as int)] else []
  }

  /** The pairs written before the mint terms: Symbol, then Seed, then Subsidy. */
  function LeadingPairs(d: Deployment): seq<(nat, int)>
  {
    SymbolPairs(d) + SeedPairs(d) + SubsidyPairs(d)
  }

  /** The mint terms' pairs: Amount, Cap and Price, written even when zero. */
  function MintTermsPairs(mintTerms: Option<MintTerms>): seq<(nat, int)>
  {
    match mintTerms
    case Some(mt) =>
      [(Tag.Amount.Value(), mt.amount as int), (Tag.Cap.Value(), mt.cap as int),
       (Tag.Price.Value(), mt.price as int)]
    case None => []
  }

  /** The pairs a deployment contributes, in the order they are written. */
  function DeploymentPairs(d: Deployment): seq<(nat, int)>
  {
    LeadingPairs(d) + MintTermsPairs(d.mintTerms)
  }

  /** The bytes of the leading pairs. */
  function LeadingBytes(d: Deployment): seq<byte>
  {
    (if d.symbol != [] then PairBytes((Tag.Symbol.Value(), SymbolAsNumber(d.symbol) as int)) else [])
    + (if d.seed != 0 then PairBytes((Tag.Seed.Value(), d.seed as int)) else [])
    + (if d.subsidy != 0 then PairBytes((Tag.Subsidy.Value(), d.subsidy as int)) else [])
  }

  /** The bytes of the mint terms' pairs. */
  function MintTermsBytes(mintTerms: Option<MintTerms>): seq<byte>
  {
    match mintTerms
    case Some(mt) =>
      PairBytes((Tag.Amount.Value(), mt.amount as int)) + PairBytes((Tag.Cap.Value(), mt.cap as int))
      + PairBytes((Tag.Price.Value(), mt.price as int))
    case None => []
  }

  /** The message bytes for a possibly absent deployment. */
  function DeploymentMessage(deployment: Option<Deployment>): seq<byte>
  {
    match deployment
    case Some(d) => LeadingBytes(d) + MintTermsBytes(d.mintTerms)
    case None => []
  }

  /** `encodeDeploymentProtocolMessage`: the Deployment bit is always set; MintTerms
      and Turbo are OR-ed in when present; the pairs go through `Tag.encode`. */
  method EncodeDeploymentProtocolMessage(deployment: Option<Deployment>)
    returns (flags: nat, message: seq<byte>)
    ensures flags == 4 + (if HasMintTerms(deployment) then 8 else 0)
                        + (if IsTurbo(deployment) then 1024 else 0)
    ensures message == DeploymentMessage(deployment)
  {
    var payload := new Payload();
    FlagSteps();
    flags := Mask(Flag.Deployment.Bit());
    if deployment.Some? {
      var d := deployment.value;
      EncodeLeading(payload, d);
      if d.mintTerms.Some? {
        flags := BitOr(flags, Mask(Flag.MintTerms.Bit()));
      }
      EncodeMintTerms(payload, d.mintTerms);
      if d.turbo {
        flags := BitOr(flags, Mask(Flag.Turbo.Bit()));
      }
      assert [] + LeadingBytes(d) == LeadingBytes(d);
    }
    message := payload.Bytes();
  }

  /** The Symbol, Seed and Subsidy steps of the encoder. */
  method EncodeLeading(payload: Payload, d: Deployment)
    modifies payload
    ensures payload.Bytes() == old(payload.Bytes()) + LeadingBytes(d)
  {
    ghost var start := payload.Bytes();
    var sym := if d.symbol != [] then PairBytes((Tag.Symbol.Value(), SymbolAsNumber(d.symbol) as int)) else [];
    var seed := if d.seed != 0 then PairBytes((Tag.Seed.Value(), d.seed as int)) else [];
    var sub := if d.subsidy != 0 then PairBytes((Tag.Subsidy.Value(), d.subsidy as int)) else [];
    if d.symbol != [] {
      payload.EncodeTag(Tag.Symbol.Value(), SymbolAsNumber(d.symbol));
    }
    assert payload.Bytes() == start + sym;
    if d.seed != 0 {
      payload.EncodeTag(Tag.Seed.Value(), d.seed);
    }
    assert payload.Bytes() == start + sym + seed;
    if d.subsidy != 0 {
      payload.EncodeTag(Tag.Subsidy.Value(), d.subsidy);
    }
    assert payload.Bytes() == start + sym + seed + sub;
    ConcatAssoc(start, sym + seed, sub);
    ConcatAssoc(start, sym, seed);
  }

  /** The Amount, Cap and Price steps, when mint terms are present. */
  method EncodeMintTerms(payload: Payload, mintTerms: Option<MintTerms>)
    modifies payload
    ensures payload.Bytes() == old(payload.Bytes()) + MintTermsBytes(mintTerms)
  {
    if mintTerms.Some? {
      var mt := mintTerms.value;
      payload.EncodeTag(Tag.Amount.Value(), mt.amount);
      payload.EncodeTag(Tag.Cap.Value(), mt.cap);
      payload.EncodeTag(Tag.Price.Value(), mt.price);
      var a, c := PairBytes((Tag.Amount.Value(), mt.amount as int)), PairBytes((Tag.Cap.Value(), mt.cap as int));
      ConcatAssoc(old(payload.Bytes()), a + c, PairBytes((Tag.Price.Value(), mt.price as int)));
      ConcatAssoc(old(payload.Bytes()), a, c);
    }
  }

  /** The message is the deployment's pairs written one after the other. */
  lemma DeploymentMessageIsPairs(d: Deployment)
    ensures DeploymentMessage(Some(d)) == PairsBytes(DeploymentPairs(d))
  {
    LeadingIsPairs(d);
    MintTermsIsPairs(d.mintTerms);
    PairsBytesConcat(LeadingPairs(d), MintTermsPairs(d.mintTerms));
  }

  lemma LeadingIsPairs(d: Deployment)
    ensures PairsBytes(LeadingPairs(d)) == LeadingBytes(d)
  {
    var a, b, c := SymbolPairs(d), SeedPairs(d), SubsidyPairs(d);
    PairsBytesConcat(a + b, c);
    PairsBytesConcat(a, b);
    if a != [] {
      PairsBytesSingle(a[0]);
    }
    if b != [] {
      PairsBytesSingle(b[0]);
    }
    if c != [] {
      PairsBytesSingle(c[0]);
    }
  }

  lemma MintTermsIsPairs(mintTerms: Option<MintTerms>)
    ensures PairsBytes(MintTermsPairs(mintTerms)) == MintTermsBytes(mintTerms)
  {
    if mintTerms.Some? {
      var mt := mintTerms.value;
      var a, c, p := (Tag.Amount.Value(), mt.amount as int), (Tag.Cap.Value(), mt.cap as int),
                     (Tag.Price.Value(), mt.price as int);
      assert MintTermsPairs(mintTerms) == [a, c] + [p];
      assert [a, c] == [a] + [c];
      assert [a] == [] + [a];
      PairsBytesAppend([], a);
      PairsBytesAppend([a], c);
      PairsBytesAppend([a, c], p);
    }
  }

  /** The flag values the encoder can reach. */
  lemma FlagSteps()
    ensures Mask(Flag.Deployment.Bit()) == 4
    ensures BitOr(4, Mask(Flag.MintTerms.Bit())) == 12
    ensures BitOr(4, Mask(Flag.Turbo.Bit())) == 1028
    ensures BitOr(12, Mask(Flag.Turbo.Bit())) == 1036
  {
    assert Mask(2) == 4 && Mask(3) == 8 && Mask(10) == 1024;
    OrNewFlag(4, 3);
    OrNewFlag(4, 10);
    OrNewFlag(12, 10);
  }

  /** The bits of the flags value the encoder returns: the Deployment bit always,
      MintTerms with mint terms, Turbo with turbo, and no other. */
  lemma FlagBits(flags: nat, deployment: Option<Deployment>)
    requires flags == 4 + (if HasMintTerms(deployment) then 8 else 0)
                        + (if IsTurbo(deployment) then 1024 else 0)
    ensures forall i :: HasBit(flags, i) <==>
      i == 2 || (i == 3 && HasMintTerms(deployment)) || (i == 10 && IsTurbo(deployment))
  {
    var m, t := HasMintTerms(deployment), IsTurbo(deployment);
    var a := Mask(2);
    var b := if m then Mask(3) else 0;
    var c := if t then Mask(10) else 0;
    assert a == 4 && (m ==> b == 8) && (t ==> c == 1024);
    MaskBits(2);
    MaskBits(3);
    MaskBits(10);
    forall i ensures HasBit(flags, i) <==> i == 2 || (i == 3 && m) || (i == 10 && t) {
      HasBitOfSum(a, b, c, i);
      if !m {
        HasBitZero(i);
      }
      if !t {
        HasBitZero(i);
      }
    }
  }

  /** Bits of a sum of disjoint single-bit masks. */
  lemma HasBitOfSum(a: nat, b: nat, c: nat, i: nat)
    requires a == Mask(2) && (b == 0 || b == Mask(3)) && (c == 0 || c == Mask(10))
    ensures HasBit(a + b + c, i) <==> HasBit(a, i) || HasBit(b, i) || HasBit(c, i)
  {
    MaskBits(2);
    MaskBits(3);
    MaskBits(10);
    if b == 0 || c == 0 {
      HasBitZero(i);
    }
    forall j | HasBit(a, j) ensures !HasBit(b, j) {
      if b == 0 {
        HasBitZero(j);
      }
    }
    HasBitAdd(a, b, i);
    forall j | HasBit(a + b, j) ensures !HasBit(c, j) {
      HasBitAdd(a, b, j);
      if b == 0 || c == 0 {
        HasBitZero(j);
      }
    }
    HasBitAdd(a + b, c, i);
  }

  /** A tag occurs among a deployment's pairs. */
  predicate HasTag(ps: seq<(nat, int)>, tag: nat)
  {
    exists i :: 0 <= i < |ps| && ps[i].0 == tag
  }

  /** The tags written, in order, keep the fixed order Symbol, Seed, Subsidy, Amount,
      Cap, Price: each present tag's position is fixed by which earlier ones are present. */
  lemma DeploymentTagOrder(d: Deployment)
    ensures var ps := DeploymentPairs(d);
      var s := if d.symbol != [] then 1 else 0;
      var e := s + (if d.seed != 0 then 1 else 0);
      var u := e + (if d.subsidy != 0 then 1 else 0);
      |ps| == u + (if d.mintTerms.Some? then 3 else 0)
      && (d.symbol != [] ==> ps[0] == (Tag.Symbol.Value(), SymbolAsNumber(d.symbol) as int))
      && (d.seed != 0 ==> ps[s] == (Tag.Seed.Value(), d.seed as int))
      && (d.subsidy != 0 ==> ps[e] == (Tag.Subsidy.Value(), d.subsidy as int))
      && (d.mintTerms.Some? ==>
            ps[u] == (Tag.Amount.Value(), d.mintTerms.value.amount as int)
            && ps[u + 1] == (Tag.Cap.Value(), d.mintTerms.value.cap as int)
            && ps[u + 2] == (Tag.Price.Value(), d.mintTerms.value.price as int))
  {
  }

  lemma HasTagConcat(a: seq<(nat, int)>, b: seq<(nat, int)>, tag: nat)
    ensures HasTag(a + b, tag) <==> HasTag(a, tag) || HasTag(b, tag)
  {
    if HasTag(a + b, tag) {
      var i :| 0 <= i < |a + b| && (a + b)[i].0 == tag;
      if i < |a| {
        assert a[i] == (a + b)[i];
      } else {
        assert b[i - |a|] == (a + b)[i];
      }
    }
    if HasTag(a, tag) {
      var i :| 0 <= i < |a| && a[i].0 == tag;
      assert (a + b)[i] == a[i];
    }
    if HasTag(b, tag) {
      var i :| 0 <= i < |b| && b[i].0 == tag;
      assert (a + b)[|a| + i] == b[i];
    }
  }

  lemma HasTagSingle(p: (nat, int), tag: nat)
    ensures HasTag([p], tag) <==> p.0 == tag
  {
    if p.0 == tag {
      assert [p][0].0 == tag;
    }
  }

  lemma HasTagMintTerms(mintTerms: Option<MintTerms>, tag: nat)
    ensures HasTag(MintTermsPairs(mintTerms), tag) <==> mintTerms.Some? && tag in {12, 14, 16}
  {
    var ps := MintTermsPairs(mintTerms);
    if mintTerms.Some? && tag in {12, 14, 16} {
      assert ps[(tag - 12) / 2].0 == tag;
    }
  }

  /** The tags among a deployment's pairs: Symbol (5) iff the symbol is non-empty, Seed
      (10) and Subsidy (18) iff non-zero, Amount (12), Cap (14) and Price (16) iff mint
      terms are given, and no other. */
  lemma DeploymentHasTag(d: Deployment, tag: nat)
    ensures HasTag(DeploymentPairs(d), tag) <==>
      (tag == 5 && d.symbol != []) || (tag == 10 && d.seed != 0) || (tag == 18 && d.subsidy != 0)
      || (tag in {12, 14, 16} && d.mintTerms.Some?)
  {
    var a, b, c := SymbolPairs(d), SeedPairs(d), SubsidyPairs(d);
    HasTagConcat(a + b + c, MintTermsPairs(d.mintTerms), tag);
    HasTagConcat(a + b, c, tag);
    HasTagConcat(a, b, tag);
    if a != [] {
      HasTagSingle(a[0], tag);
    }
    if b != [] {
      HasTagSingle(b[0], tag);
    }
    if c != [] {
      HasTagSingle(c[0], tag);
    }
    HasTagMintTerms(d.mintTerms, tag);
  }

  /** Every deployment pair is tagged Symbol, Seed, Subsidy, Amount, Cap or Price. */
  lemma DeploymentTagsKnown(d: Deployment)
    ensures var ps := DeploymentPairs(d);
      forall i :: 0 <= i < |ps| ==> ps[i].0 in {5, 10, 18, 12, 14, 16}
  {
    var ps := DeploymentPairs(d);
    forall i | 0 <= i < |ps| ensures ps[i].0 in {5, 10, 18, 12, 14, 16} {
      assert HasTag(ps, ps[i].0);
      DeploymentHasTag(d, ps[i].0);
    }
  }

  /** Deployment pairs never use the Body tag. */
  lemma DeploymentTagsPositive(d: Deployment)
    ensures PositiveTags(DeploymentPairs(d))
  {
    DeploymentTagsKnown(d);
  }

  /** What a reader can recover from a deployment's flags and pairs. */
  datatype DeploymentFields = DeploymentFields(
    symbolCode: Option<nat>, seed: nat, subsidy: nat, mintTerms: Option<MintTerms>, turbo: bool)

  /** The first value recorded under `tag`, if any. */
  function Lookup(ps: seq<(nat, nat)>, tag: nat): Option<nat>
  {
    if ps == [] then None
    else if ps[0].0 == tag then Some(ps[0].1)
    else Lookup(ps[1..], tag)
  }

  /** Reference reader of a deployment: the symbol's code point, seed and subsidy
      (absent means zero), the mint terms when the MintTerms bit is set, and turbo. */
  function DecodeDeployment(flags: nat, ps: seq<(nat, nat)>): DeploymentFields
  {
    DeploymentFields(
      Lookup(ps, Tag.Symbol.Value()),
      Lookup(ps, Tag.Seed.Value()).GetOr(0),
      Lookup(ps, Tag.Subsidy.Value()).GetOr(0),
      if HasBit(flags, Flag.MintTerms.Bit()) then
        Some(Types.MintTerms(Lookup(ps, Tag.Amount.Value()).GetOr(0), Lookup(ps, Tag.Cap.Value()).GetOr(0),
                       Lookup(ps, Tag.Price.Value()).GetOr(0)))
      else None,
      HasBit(flags, Flag.Turbo.Bit()))
  }

  lemma LookupConcat(a: seq<(nat, nat)>, b: seq<(nat, nat)>, tag: nat)
    ensures Lookup(a + b, tag) == if Lookup(a, tag).Some? then Lookup(a, tag) else Lookup(b, tag)
  {
    if a != [] {
      assert (a + b)[1..] == a[1..] + b;
      LookupConcat(a[1..], b, tag);
    } else {
      assert a + b == b;
    }
  }

  /** The deployment is recovered from what the encoder writes: everything but the
      symbol exactly, and the symbol as its first code point. */
  lemma DecodeDeploymentOfEncode(d: Deployment)
    ensures var flags := 4 + (if d.mintTerms.Some? then 8 else 0) + (if d.turbo then 1024 else 0);
      DecodeDeployment(flags, Clipped(DeploymentPairs(d)))
      == DeploymentFields(if d.symbol != [] then Some(d.symbol[0] as nat) else None,
                          d.seed, d.subsidy, d.mintTerms, d.turbo)
  {
    var flags := 4 + (if d.mintTerms.Some? then 8 else 0) + (if d.turbo then 1024 else 0);
    FlagBits(flags, Some(d));
    var sym: seq<(nat, nat)> := if d.symbol != [] then [(5, SymbolAsNumber(d.symbol))] else [];
    var seed: seq<(nat, nat)> := if d.seed != 0 then [(10, d.seed)] else [];
    var sub: seq<(nat, nat)> := if d.subsidy != 0 then [(18, d.subsidy)] else [];
    var mts: seq<(nat, nat)> := match d.mintTerms
      case Some(mt) => [(12, mt.amount), (14, mt.cap), (16, mt.price)]
      case None => [];
    ClippedDeploymentPairs(d, sym, seed, sub, mts);
    DecodeParts(d, flags, sym, seed, sub, mts);
  }

  lemma ClippedDeploymentPairs(d: Deployment, sym: seq<(nat, nat)>, seed: seq<(nat, nat)>,
                               sub: seq<(nat, nat)>, mts: seq<(nat, nat)>)
    requires sym == if d.symbol != [] then [(5, SymbolAsNumber(d.symbol))] else []
    requires seed == if d.seed != 0 then [(10, d.seed)] else []
    requires sub == if d.subsidy != 0 then [(18, d.subsidy)] else []
    requires mts == match d.mintTerms
      case Some(mt) => [(12, mt.amount), (14, mt.cap), (16, mt.price)]
      case None => []
    ensures Clipped(DeploymentPairs(d)) == sym + (seed + (sub + mts))
  {
    var a, b, c, m := SymbolPairs(d), SeedPairs(d), SubsidyPairs(d), MintTermsPairs(d.mintTerms);
    ClippedConcat(a + b + c, m);
    ClippedConcat(a + b, c);
    ClippedConcat(a, b);
    ClippedLeading(d);
    ClippedMintTerms(d.mintTerms, mts);
    ConcatAssoc(sym + seed, sub, mts);
    ConcatAssoc(sym, seed, sub + mts);
  }

  /** What a reader gets back from each leading pair: the values are never negative. */
  lemma ClippedLeading(d: Deployment)
    ensures Clipped(SymbolPairs(d)) == if d.symbol != [] then [(5, SymbolAsNumber(d.symbol))] else []
    ensures Clipped(SeedPairs(d)) == if d.seed != 0 then [(10, d.seed)] else []
    ensures Clipped(SubsidyPairs(d)) == if d.subsidy != 0 then [(18, d.subsidy)] else []
  {
    if d.symbol != [] {
      ClippedSingle(SymbolPairs(d)[0]);
    }
    if d.seed != 0 {
      ClippedSingle(SeedPairs(d)[0]);
    }
    if d.subsidy != 0 {
      ClippedSingle(SubsidyPairs(d)[0]);
    }
  }

  lemma ClippedSingle(p: (nat, int))
    ensures Clipped([p]) == [(p.0, Clip(p.1))]
  {
    assert [p][1..] == [];
  }

  lemma ClippedMintTerms(mintTerms: Option<MintTerms>, mts: seq<(nat, nat)>)
    requires mts == match mintTerms
      case Some(mt) => [(12, mt.amount), (14, mt.cap), (16, mt.price)]
      case None => []
    ensures Clipped(MintTermsPairs(mintTerms)) == mts
  {
    var ps := MintTermsPairs(mintTerms);
    assert |Clipped(ps)| == |mts|;
    forall i | 0 <= i < |mts| ensures Clipped(ps)[i] == mts[i] {
      assert Clipped(ps)[i] == (ps[i].0, Clip(ps[i].1));
    }
  }

  lemma ClippedConcat(a: seq<(nat, int)>, b: seq<(nat, int)>)
    ensures Clipped(a + b) == Clipped(a) + Clipped(b)
  {
    assert |Clipped(a + b)| == |Clipped(a) + Clipped(b)|;
    forall i | 0 <= i < |a + b| ensures Clipped(a + b)[i] == (Clipped(a) + Clipped(b))[i] {
      if i < |a| {
        assert (a + b)[i] == a[i];
      } else {
        assert (a + b)[i] == b[i - |a|];
      }
    }
  }

  lemma DecodeParts(d: Deployment, flags: nat, sym: seq<(nat, nat)>, seed: seq<(nat, nat)>,
                    sub: seq<(nat, nat)>, mts: seq<(nat, nat)>)
    requires HasBit(flags, 3) <==> d.mintTerms.Some?
    requires HasBit(flags, 10) <==> d.turbo
    requires sym == if d.symbol != [] then [(5, SymbolAsNumber(d.symbol))] else []
    requires seed == if d.seed != 0 then [(10, d.seed)] else []
    requires sub == if d.subsidy != 0 then [(18, d.subsidy)] else []
    requires mts == match d.mintTerms
      case Some(mt) => [(12, mt.amount), (14, mt.cap), (16, mt.price)]
      case None => []
    ensures DecodeDeployment(flags, sym + (seed + (sub + mts)))
      == DeploymentFields(if d.symbol != [] then Some(d.symbol[0] as nat) else None,
                          d.seed, d.subsidy, d.mintTerms, d.turbo)
  {
    LookupTag(d, sym, seed, sub, mts, 5);
    LookupTag(d, sym, seed, sub, mts, 10);
    LookupTag(d, sym, seed, sub, mts, 18);
    LookupTag(d, sym, seed, sub, mts, 12);
    LookupTag(d, sym, seed, sub, mts, 14);
    LookupTag(d, sym, seed, sub, mts, 16);
  }

  /** What the deployment pairs hold under one tag. */
  lemma LookupTag(d: Deployment, sym: seq<(nat, nat)>, seed: seq<(nat, nat)>,
                  sub: seq<(nat, nat)>, mts: seq<(nat, nat)>, tag: nat)
    requires sym == if d.symbol != [] then [(5, SymbolAsNumber(d.symbol))] else []
    requires seed == if d.seed != 0 then [(10, d.seed)] else []
    requires sub == if d.subsidy != 0 then [(18, d.subsidy)] else []
    requires mts == match d.mintTerms
      case Some(mt) => [(12, mt.amount), (14, mt.cap), (16, mt.price)]
      case None => []
    ensures Lookup(sym + (seed + (sub + mts)), tag)
      == if d.symbol != [] && tag == 5 then Some(d.symbol[0] as nat)
         else if d.seed != 0 && tag == 10 then Some(d.seed)
         else if d.subsidy != 0 && tag == 18 then Some(d.subsidy)
         else match d.mintTerms
           case Some(mt) =>
             if tag == 12 then Some(mt.amount) else if tag == 14 then Some(mt.cap)
             else if tag == 16 then Some(mt.price) else None
           case None => None
  {
    LookupParts(sym, seed, sub, mts, tag);
    LookupSingles(d, sym, seed, sub, tag);
    LookupMintTerms(d.mintTerms, mts, tag);
  }

  lemma LookupSingles(d: Deployment, sym: seq<(nat, nat)>, seed: seq<(nat, nat)>,
                      sub: seq<(nat, nat)>, tag: nat)
    requires sym == if d.symbol != [] then [(5, SymbolAsNumber(d.symbol))] else []
    requires seed == if d.seed != 0 then [(10, d.seed)] else []
    requires sub == if d.subsidy != 0 then [(18, d.subsidy)] else []
    ensures Lookup(sym, tag) == if d.symbol != [] && tag == 5 then Some(d.symbol[0] as nat) else None
    ensures Lookup(seed, tag) == if d.seed != 0 && tag == 10 then Some(d.seed) else None
    ensures Lookup(sub, tag) == if d.subsidy != 0 && tag == 18 then Some(d.subsidy) else None
  {
    if d.symbol != [] {
      assert sym[1..] == [];
    }
    if d.seed != 0 {
      assert seed[1..] == [];
    }
    if d.subsidy != 0 {
      assert sub[1..] == [];
    }
  }

  lemma LookupSingle(p: (nat, nat), tag: nat)
    ensures Lookup([p], tag) == if p.0 == tag then Some(p.1) else None
  {
    assert [p][1..] == [];
  }

  lemma LookupMintTerms(mintTerms: Option<MintTerms>, mts: seq<(nat, nat)>, tag: nat)
    requires mts == match mintTerms
      case Some(mt) => [(12, mt.amount), (14, mt.cap), (16, mt.price)]
      case None => []
    ensures Lookup(mts, tag) == match mintTerms
      case Some(mt) =>
        if tag == 12 then Some(mt.amount) else if tag == 14 then Some(mt.cap)
        else if tag == 16 then Some(mt.price) else None
      case None => None
  {
    if mintTerms.Some? {
      var mt := mintTerms.value;
      assert mts == [(12, mt.amount)] + [(14, mt.cap)] + [(16, mt.price)];
      LookupConcat([(12, mt.amount)] + [(14, mt.cap)], [(16, mt.price)], tag);
      LookupConcat([(12, mt.amount)], [(14, mt.cap)], tag);
      LookupSingle((12, mt.amount), tag);
      LookupSingle((14, mt.cap), tag);
      LookupSingle((16, mt.price), tag);
    }
  }

  lemma LookupParts(a: seq<(nat, nat)>, b: seq<(nat, nat)>, c: seq<(nat, nat)>, e: seq<(nat, nat)>, tag: nat)
    ensures Lookup(a + (b + (c + e)), tag)
      == if Lookup(a, tag).Some? then Lookup(a, tag)
         else if Lookup(b, tag).Some? then Lookup(b, tag)
         else if Lookup(c, tag).Some? then Lookup(c, tag) else Lookup(e, tag)
  {
    LookupConcat(a, b + (c + e), tag);
    LookupConcat(b, c + e, tag);
    LookupConcat(c, e, tag);
  }
}
