/** The protocol's field tags and flag bits, the tag/value writer that appends to a
    payload of byte groups, the flag mask helpers, and the PushBytes wrapper. */
module Classes {
  import opened Wrappers
  import opened Encoding
  import opened Seqs
  import opened ProtocolUtils

  /** Field tags; `Value` is the number written on the wire. */
  datatype Tag =
    | Body | Flags | Pointer | Claim | Seed | Amount | Cap | Price | Subsidy | Mint
    | SwapInput | SwapOutput | SwapInputAmount | SwapOutputAmount | Treasure | SyndicateCap
    | Lock | HeightStart | HeightEnd | Quota | Royalty | Reward | Syndicate | Cenotaph
    | Symbol | Nop
  {
    function Value(): nat
    {
      match this
      case Body => 0
      case Flags => 2
      case Pointer => 4
      case Claim => 6
      case Seed => 10
      case Amount => 12
      case Cap => 14
      case Price => 16
      case Subsidy => 18
      case Mint => 20
      case SwapInput => 30
      case SwapOutput => 32
      case SwapInputAmount => 34
      case SwapOutputAmount => 36
      case Treasure => 40
      case SyndicateCap => 42
      case Lock => 44
      case HeightStart => 46
      case HeightEnd => 48
      case Quota => 50
      case Royalty => 52
      case Reward => 54
      case Syndicate => 60
      case Cenotaph => 126
      case Symbol => 5
      case Nop => 127
    }
  }

  /** Flag bits; `Bit` is the bit position inside the flags bitmask. */
  datatype Flag =
    | Commitment | Sealing | Deployment | MintTerms | Swap | SwapExactInput | Summoning
    | Gated | LockSubsidy | Reveal | Turbo | CenotaphFlag
  {
    function Bit(): nat
    {
      match this
      case Commitment => 0
      case Sealing => 1
      case Deployment => 2
      case MintTerms => 3
      case Swap => 4
      case SwapExactInput => 5
      case Summoning => 6
      case Gated => 7
      case LockSubsidy => 8
      case Reveal => 9
      case Turbo => 10
      case CenotaphFlag => 127
    }
  }

  /** The byte groups `Tag.encode` appends: the tag's varint, then the value's varint
      when the value is positive and a single zero byte otherwise. */
  function TagGroups(tag: nat, value: int): seq<seq<byte>>
  {
    [VarInt(tag), if value > 0 then VarInt(value) else [0]]
  }

  /** For a non-negative value the pair is just the two varints (zero encodes as [0]). */
  lemma TagGroupsOfNat(tag: nat, value: nat)
    ensures TagGroups(tag, value) == [VarInt(tag), VarInt(value)]
    ensures Flatten(TagGroups(tag, value)) == VarInt(tag) + VarInt(value)
  {
    var g := TagGroups(tag, value);
    assert g == [VarInt(tag)] + [VarInt(value)];
    FlattenCons(VarInt(tag), [VarInt(value)]);
    FlattenCons(VarInt(value), []);
  }

  /** A payload under construction: the `number[][]` the encoders append to. */
  class Payload {
    var groups: seq<seq<byte>>

    constructor()
      ensures groups == []
    {
      groups := [];
    }

    /** The message bytes: `payload.flat()`. */
    function Bytes(): seq<byte>
      reads this
    {
      Flatten(groups)
    }

    method Append(g: seq<byte>)
      modifies this
      ensures groups == old(groups) + [g]
    {
      groups := groups + [g];
    }

    /** `Tag.encode(tag, value, payload)`. */
    method EncodeTag(tag: nat, value: int)
      modifies this
      ensures groups == old(groups) + TagGroups(tag, value)
      ensures Bytes() == old(Bytes()) + PairBytes((tag, value))
    {
      var t := VarIntEncode(tag);
      groups := groups + [t];
      if value > 0 {
        var v := VarIntEncode(value);
        groups := groups + [v];
      } else {
        groups := groups + [[0]];
      }
      var g := TagGroups(tag, value);
      FlattenConcat(old(groups), g);
      assert g == [g[0]] + [g[1]];
      FlattenCons(g[0], [g[1]]);
      FlattenCons(g[1], []);
    }
  }

  /** The bytes of one tag/value pair as `Tag.encode` writes it. */
  function PairBytes(p: (nat, int)): seq<byte>
  {
    VarInt(p.0) + (if p.1 > 0 then VarInt(p.1) else [0])
  }

  /** The bytes of a run of tag/value pairs written one after the other. */
  function PairsBytes(ps: seq<(nat, int)>): seq<byte>
  {
    if ps == [] then [] else PairsBytes(ps[..|ps| - 1]) + PairBytes(ps[|ps| - 1])
  }

  lemma PairsBytesSingle(p: (nat, int))
    ensures PairsBytes([p]) == PairBytes(p)
  {
    assert [p][..0] == [];
  }

  lemma PairsBytesAppend(ps: seq<(nat, int)>, p: (nat, int))
    ensures PairsBytes(ps + [p]) == PairsBytes(ps) + PairBytes(p)
  {
    assert (ps + [p])[..|ps|] == ps;
  }

  lemma PairsBytesTwo(p: (nat, int), q: (nat, int))
    ensures PairsBytes([p, q]) == PairBytes(p) + PairBytes(q)
  {
    assert [p, q] == [p] + [q];
    PairsBytesAppend([p], q);
    PairsBytesSingle(p);
  }

  lemma PairsBytesCons(p: (nat, int), ps: seq<(nat, int)>)
    ensures PairsBytes([p] + ps) == PairBytes(p) + PairsBytes(ps)
  {
    PairsBytesConcat([p], ps);
    PairsBytesSingle(p);
  }

  lemma PairsBytesConcatStep(a: seq<(nat, int)>, b: seq<(nat, int)>, x: (nat, int))
    requires PairsBytes(a + b) == PairsBytes(a) + PairsBytes(b)
    ensures PairsBytes(a + (b + [x])) == PairsBytes(a) + PairsBytes(b + [x])
  {
    ConcatAssoc(a, b, [x]);
    PairsBytesAppend(a + b, x);
    PairsBytesAppend(b, x);
    ConcatAssoc(PairsBytes(a), PairsBytes(b), PairBytes(x));
  }

  lemma {:induction false} PairsBytesConcat(a: seq<(nat, int)>, b: seq<(nat, int)>)
    ensures PairsBytes(a + b) == PairsBytes(a) + PairsBytes(b)
    decreases |b|
  {
    if b == [] {
      assert a + b == a;
    } else {
      var b', x := b[..|b| - 1], b[|b| - 1];
      assert b == b' + [x];
      PairsBytesConcat(a, b');
      PairsBytesConcatStep(a, b', x);
    }
  }

  /** What a decoder reads back for a value: non-positive values are written as zero. */
  function Clip(v: int): nat
  {
    if v > 0 then v else 0
  }

  function Clipped(ps: seq<(nat, int)>): (r: seq<(nat, nat)>)
    ensures |r| == |ps|
    ensures forall i :: 0 <= i < |ps| ==> r[i] == (ps[i].0, Clip(ps[i].1))
  {
    if ps == [] then [] else [(ps[0].0, Clip(ps[0].1))] + Clipped(ps[1..])
  }

  /** One pair's bytes are the tag's varint followed by the clipped value's varint. */
  lemma PairBytesClip(p: (nat, int))
    ensures PairBytes(p) == VarInt(p.0) + VarInt(Clip(p.1))
  {
    if p.1 <= 0 {
      VarIntZero();
    }
  }

  /** No pair uses the Body tag, which is the one that ends the run of pairs. */
  predicate PositiveTags(ps: seq<(nat, int)>)
  {
    forall i :: 0 <= i < |ps| ==> ps[i].0 > 0
  }

  /** Reference decoder for a run of pairs: reads tag/value pairs until the bytes run
      out or a Body tag (zero) starts, returning the pairs and the bytes from there on. */
  function ReadPairs(bs: seq<byte>): Option<(seq<(nat, nat)>, seq<byte>)>
    decreases |bs|
  {
    if bs == [] then Some(([], []))
    else
      ReadVarIntConsumes(bs);
      var tk := ReadVarInt(bs);
      if tk.None? then None
      else if tk.value.0 == 0 then Some(([], bs))
      else
        var vm := ReadVarInt(bs[tk.value.1..]);
        if vm.None? then None
        else
          var r := ReadPairs(bs[tk.value.1 + vm.value.1..]);
          if r.None? then None
          else Some(([(tk.value.0, vm.value.0)] + r.value.0, r.value.1))
  }

  /** The decoder's unfolding at a pair: a non-zero tag read, then a value read, then
      the rest. */
  lemma ReadPairsUnfold(bs: seq<byte>, t: nat, k: nat, v: nat, m: nat, ps: seq<(nat, nat)>, tail: seq<byte>)
    requires bs != [] && t > 0 && k + m <= |bs|
    requires ReadVarInt(bs) == Some((t, k))
    requires ReadVarInt(bs[k..]) == Some((v, m))
    requires ReadPairs(bs[k + m..]) == Some((ps, tail))
    ensures ReadPairs(bs) == Some(([(t, v)] + ps, tail))
  {
  }

  /** The bytes of a non-empty run followed by `tail`, cut after the first pair's tag
      and after its value. */
  lemma PairsBytesSplit(ps: seq<(nat, int)>, tail: seq<byte>)
    requires ps != []
    ensures PairsBytes(ps) + tail
         == VarInt(ps[0].0) + (VarInt(Clip(ps[0].1)) + (PairsBytes(ps[1..]) + tail))
  {
    var a, b, c := VarInt(ps[0].0), VarInt(Clip(ps[0].1)), PairsBytes(ps[1..]);
    assert ps == [ps[0]] + ps[1..];
    PairsBytesCons(ps[0], ps[1..]);
    PairBytesClip(ps[0]);
    ConcatAssoc(a + b, c, tail);
    ConcatAssoc(a, b, c + tail);
  }

  lemma PositiveTagsConcat(a: seq<(nat, int)>, b: seq<(nat, int)>)
    requires PositiveTags(a) && PositiveTags(b)
    ensures PositiveTags(a + b)
  {
    forall i | 0 <= i < |a + b| ensures (a + b)[i].0 > 0 {
      if i < |a| {
        assert (a + b)[i] == a[i];
      } else {
        assert (a + b)[i] == b[i - |a|];
      }
    }
  }

  lemma PositiveTagsTail(ps: seq<(nat, int)>)
    requires ps != [] && PositiveTags(ps)
    ensures PositiveTags(ps[1..])
  {
    forall i | 0 <= i < |ps[1..]| ensures ps[1..][i].0 > 0 {
      assert ps[1..][i] == ps[i + 1];
    }
  }

  /** The decoder at a pair whose tag and value reads are known, followed by `rest`. */
  lemma ReadPairsStep(a: seq<byte>, b: seq<byte>, rest: seq<byte>, t: nat, v: nat,
                      ps: seq<(nat, nat)>, tail: seq<byte>)
    requires t > 0
    requires ReadVarInt(a + (b + rest)) == Some((t, |a|))
    requires ReadVarInt(b + rest) == Some((v, |b|))
    requires ReadPairs(rest) == Some((ps, tail))
    ensures ReadPairs(a + (b + rest)) == Some(([(t, v)] + ps, tail))
  {
    DropConcat(a, b, rest);
    ReadPairsUnfold(a + (b + rest), t, |a|, v, |b|, ps, tail);
  }

  /** The decoder over a non-empty run, given that it reads the run's tail back. */
  lemma ReadPairsOfCons(ps: seq<(nat, int)>, tail: seq<byte>)
    requires ps != [] && ps[0].0 > 0
    requires ReadPairs(PairsBytes(ps[1..]) + tail) == Some((Clipped(ps[1..]), tail))
    ensures ReadPairs(PairsBytes(ps) + tail) == Some((Clipped(ps), tail))
  {
    var p := ps[0];
    var a, b := VarInt(p.0), VarInt(Clip(p.1));
    var rest := PairsBytes(ps[1..]) + tail;
    PairsBytesSplit(ps, tail);
    ReadVarIntOfVarInt(p.0, b + rest);
    ReadVarIntOfVarInt(Clip(p.1), rest);
    ReadPairsStep(a, b, rest, p.0, Clip(p.1), Clipped(ps[1..]), tail);
  }

  /** The decoder stops at once on nothing or on a Body tag. */
  lemma ReadPairsEnd(tail: seq<byte>)
    requires tail == [] || tail[0] == 0
    ensures ReadPairs(tail) == Some(([], tail))
  {
    if tail != [] {
      assert ReadVarInt(tail) == Some((0, 1));
    }
  }

  /** Round trip: the decoder reads back every pair (values clipped at zero) and
      stops exactly at what follows, when that is empty or starts a Body. */
  lemma {:induction false} ReadPairsOf(ps: seq<(nat, int)>, tail: seq<byte>)
    requires PositiveTags(ps)
    requires tail == [] || tail[0] == 0
    ensures ReadPairs(PairsBytes(ps) + tail) == Some((Clipped(ps), tail))
    decreases |ps|
  {
    if ps == [] {
      assert PairsBytes(ps) + tail == tail;
      ReadPairsEnd(tail);
    } else {
      PositiveTagsTail(ps);
      ReadPairsOf(ps[1..], tail);
      ReadPairsOfCons(ps, tail);
    }
  }

  function Pow2(k: nat): nat
  {
    if k == 0 then 1 else 2 * Pow2(k - 1)
  }

  /** Bit `i` of `x`. */
  predicate HasBit(x: nat, i: nat)
  {
    if i == 0 then x % 2 == 1 else HasBit(x / 2, i - 1)
  }

  /** The bigint `|` operator on non-negative values. */
  function BitOr(a: nat, b: nat): nat
  {
    if a == 0 then b
    else if b == 0 then a
    else 2 * BitOr(a / 2, b / 2) + (if a % 2 == 1 || b % 2 == 1 then 1 else 0)
  }

  /** The bigint `&` operator on non-negative values. */
  function BitAnd(a: nat, b: nat): nat
  {
    if a == 0 || b == 0 then 0
    else 2 * BitAnd(a / 2, b / 2) + (if a % 2 == 1 && b % 2 == 1 then 1 else 0)
  }

  lemma {:induction false} HasBitZero(i: nat)
    ensures !HasBit(0, i)
  {
    if i > 0 {
      HasBitZero(i - 1);
    }
  }

  lemma {:induction false} BitOrBits(a: nat, b: nat, i: nat)
    ensures HasBit(BitOr(a, b), i) <==> HasBit(a, i) || HasBit(b, i)
    decreases i
  {
    if a == 0 {
      HasBitZero(i);
    } else if b == 0 {
      HasBitZero(i);
    } else if i > 0 {
      BitOrBits(a / 2, b / 2, i - 1);
    }
  }

  lemma {:induction false} BitAndBits(a: nat, b: nat, i: nat)
    ensures HasBit(BitAnd(a, b), i) <==> HasBit(a, i) && HasBit(b, i)
    decreases i
  {
    if a == 0 || b == 0 {
      HasBitZero(i);
    } else if i > 0 {
      BitAndBits(a / 2, b / 2, i - 1);
    }
  }

  /** `a | b` plus `a & b` is `a + b`; so OR-ing values without common bits adds them. */
  lemma {:induction false} BitOrPlusBitAnd(a: nat, b: nat)
    ensures BitOr(a, b) + BitAnd(a, b) == a + b
  {
    if a != 0 && b != 0 {
      BitOrPlusBitAnd(a / 2, b / 2);
    }
  }

  lemma {:induction false} Pow2Bits(k: nat, i: nat)
    ensures HasBit(Pow2(k), i) <==> i == k
    decreases k
  {
    if k == 0 {
      if i > 0 {
        HasBitZero(i - 1);
      }
    } else if i > 0 {
      Pow2Bits(k - 1, i - 1);
    }
  }

  /** `Flag.mask(flag)` is `1n << flag`. */
  function Mask(flag: nat): (m: nat)
    ensures m > 0
  {
    Pow2Positive(flag);
    Pow2(flag)
  }

  /** Exactly the one bit `flag` is set in `Flag.mask(flag)`. */
  lemma MaskBits(flag: nat)
    ensures forall i :: HasBit(Mask(flag), i) <==> i == flag
  {
    forall i ensures HasBit(Pow2(flag), i) <==> i == flag {
      Pow2Bits(flag, i);
    }
  }

  lemma {:induction false} Pow2Positive(k: nat)
    ensures Pow2(k) > 0
  {
    if k > 0 {
      Pow2Positive(k - 1);
    }
  }

  lemma {:induction false} NonZeroHasBit(x: nat) returns (i: nat)
    requires x > 0
    ensures HasBit(x, i)
    decreases x
  {
    if x % 2 == 1 {
      i := 0;
    } else {
      var j := NonZeroHasBit(x / 2);
      i := j + 1;
    }
  }

  /** Distinct flags have disjoint masks. */
  lemma MasksDisjoint(f: Flag, g: Flag)
    requires f != g
    ensures BitAnd(Mask(f.Bit()), Mask(g.Bit())) == 0
  {
    var a := BitAnd(Mask(f.Bit()), Mask(g.Bit()));
    MaskBits(f.Bit());
    MaskBits(g.Bit());
    if a > 0 {
      var i := NonZeroHasBit(a);
      BitAndBits(Mask(f.Bit()), Mask(g.Bit()), i);
    }
  }

  /** OR-ing in a flag that is not yet set adds its mask. */
  lemma OrNewFlag(flags: nat, flag: nat)
    requires !HasBit(flags, flag)
    ensures BitOr(flags, Mask(flag)) == flags + Mask(flag)
  {
    MaskBits(flag);
    var a := BitAnd(flags, Mask(flag));
    if a > 0 {
      var i := NonZeroHasBit(a);
      BitAndBits(flags, Mask(flag), i);
    }
    BitOrPlusBitAnd(flags, Mask(flag));
  }

  /** OR-ing two values that share no bit adds them. */
  lemma BitOrDisjoint(a: nat, b: nat)
    requires forall i :: HasBit(a, i) ==> !HasBit(b, i)
    ensures BitOr(a, b) == a + b
  {
    var c := BitAnd(a, b);
    if c > 0 {
      var i := NonZeroHasBit(c);
      BitAndBits(a, b, i);
    }
    BitOrPlusBitAnd(a, b);
  }

  /** The bits of a sum of two values that share no bit. */
  lemma HasBitAdd(a: nat, b: nat, i: nat)
    requires forall j :: HasBit(a, j) ==> !HasBit(b, j)
    ensures HasBit(a + b, i) <==> HasBit(a, i) || HasBit(b, i)
  {
    BitOrDisjoint(a, b);
    BitOrBits(a, b, i);
  }

  lemma AndMaskIsBit(flags: nat, flag: nat)
    ensures BitAnd(flags, Mask(flag)) != 0 <==> HasBit(flags, flag)
  {
    MaskBits(flag);
    var a := BitAnd(flags, Mask(flag));
    if a > 0 {
      var i := NonZeroHasBit(a);
      BitAndBits(flags, Mask(flag), i);
    } else {
      BitAndBits(flags, Mask(flag), flag);
      HasBitZero(flag);
    }
  }

  /** `Flag.take(flag, flags)`: whether the bit is set (only a local copy is cleared). */
  function Take(flag: nat, flags: nat): (isSet: bool)
    ensures isSet <==> HasBit(flags, flag)
  {
    AndMaskIsBit(flags, flag);
    BitAnd(flags, Mask(flag)) != 0
  }

  /** `Flag.set(flag, flags)` ORs the mask into its own by-value parameter and returns
      nothing, so the caller's bitmask is what it was before the call. */
  method Set(flag: nat, flags: nat) returns (callerFlags: nat)
    ensures callerFlags == flags
  {
    var local := flags;
    local := BitOr(local, Mask(flag));
    callerFlags := flags;
  }

  /** `PushBytes`: a byte sequence wrapped unchanged. */
  datatype PushBytes = PushBytes(bytes: seq<byte>)
  {
    function AsBytes(): seq<byte> { bytes }
  }

  function FromSliceUnchecked(b: seq<byte>): (p: PushBytes)
    ensures p.AsBytes() == b
  {
    PushBytes(b)
  }

  function EmptyPushBytes(): (p: PushBytes)
    ensures p.AsBytes() == []
  {
    PushBytes([])
  }
}
