/** The protocol's encoding primitives: the LEB128 variable-length integer, the
    marker prefix every protocol script starts with, the maximum push size, and the
    symbol-to-number conversion used for the deployment symbol. */
module ProtocolUtils {
  import opened Wrappers
  import opened Encoding
  import opened Script

  /** Largest push the protocol script is cut into. */
  const MAX_SCRIPT_ELEMENT_SIZE: nat := 80

  /** Every protocol script begins with OP_RETURN followed by the configured protocol
      opcode (the environment variable PROTOCOL_OPCODE, already looked up by name). */
  function MarkerPrefix(protocolOpcode: byte): (r: seq<Chunk>)
    ensures |r| == 2 && r[0] == Op(OP_RETURN) && r[1] == Op(protocolOpcode)
  {
    [Op(OP_RETURN), Op(protocolOpcode)]
  }

  function Pow128(k: nat): nat
  {
    if k == 0 then 1 else 128 * Pow128(k - 1)
  }

  /** Seven-bit groups of a positive number, low group first, with the continuation
      bit (128) set on every group except the last. */
  function Leb(n: int): seq<byte>
    decreases if n > 0 then n else 0
  {
    if n <= 0 then []
    else
      var low := n % 128;
      var rest := n / 128;
      [if rest > 0 then low + 128 else low] + Leb(rest)
  }

  /** What `varIntEncode` returns: the seven-bit groups low group first, with the
      continuation bit on all but the last; `[0]` for zero, and nothing for a
      negative number (its loop never runs). */
  function VarInt(n: int): seq<byte>
    decreases if n > 0 then n else 0
  {
    if n < 0 then []
    else
      var low := n % 128;
      var rest := n / 128;
      if rest > 0 then [low + 128] + VarInt(rest) else [low]
  }

  lemma {:induction false} VarIntIsLeb(n: int)
    requires n > 0
    ensures VarInt(n) == Leb(n)
    decreases n
  {
    if n / 128 > 0 {
      VarIntIsLeb(n / 128);
    }
  }

  /** `varIntEncode`: emit the low seven bits, shift right by seven, and set the
      continuation bit while anything is left. */
  method VarIntEncode(n: int) returns (out: seq<byte>)
    ensures out == VarInt(n)
  {
    if n == 0 {
      return [0];
    }
    if n > 0 {
      VarIntIsLeb(n);
    }
    out := [];
    var m := n;
    while m > 0
      invariant out + Leb(m) == Leb(n)
      decreases m
    {
      var b := m % 128;
      m := m / 128;
      if m > 0 {
        b := b + 128;
      }
      out := out + [b];
    }
  }

  lemma VarIntNegative(n: int)
    requires n < 0
    ensures VarInt(n) == []
  {
  }

  /** Shape of an encoding: every byte but the last carries the continuation bit and
      the last does not; the last is non-zero for a positive number, and the encoding
      is the shortest one, `Pow128(len - 1) <= n < Pow128(len)`. */
  lemma {:induction false} VarIntShape(n: int)
    requires n >= 0
    ensures |VarInt(n)| > 0
    ensures forall i :: 0 <= i < |VarInt(n)| - 1 ==> VarInt(n)[i] >= 128
    ensures VarInt(n)[|VarInt(n)| - 1] < 128
    ensures n > 0 ==> VarInt(n)[|VarInt(n)| - 1] > 0
    ensures n > 0 ==> Pow128(|VarInt(n)| - 1) <= n < Pow128(|VarInt(n)|)
    decreases n
  {
    var rest := n / 128;
    if rest > 0 {
      VarIntShape(rest);
      var t := VarInt(rest);
      assert VarInt(n) == [n % 128 + 128] + t;
      assert Pow128(|t|) == 128 * Pow128(|t| - 1);
      assert Pow128(|t| + 1) == 128 * Pow128(|t|);
    }
  }

  lemma VarIntZero()
    ensures VarInt(0) == [0]
  {
  }

  /** The value of a continuation byte `b` followed by groups worth `v`. */
  function Join(b: byte, v: nat): nat
    requires b >= 128
  {
    b - 128 + 128 * v
  }

  /** Reference decoder: reads one varint off the front of `bs`, returning its value
      and the number of bytes it took; `None` if `bs` ends before a final byte. */
  function ReadVarInt(bs: seq<byte>): (r: Option<(nat, nat)>)
    ensures r.Some? ==> r.value.1 <= |bs|
  {
    if bs == [] then None
    else if bs[0] < 128 then Some((bs[0], 1))
    else
      var t := ReadVarInt(bs[1..]);
      if t.None? then None else Some((Join(bs[0], t.value.0), t.value.1 + 1))
  }

  /** The decoder always consumes at least one byte. */
  lemma ReadVarIntConsumes(bs: seq<byte>)
    ensures ReadVarInt(bs).Some? ==> ReadVarInt(bs).value.1 >= 1
  {
  }

  /** One step of the decoder: a continuation byte in front of a readable tail. */
  lemma ReadVarIntStep(bs: seq<byte>)
    requires |bs| > 0 && bs[0] >= 128 && ReadVarInt(bs[1..]).Some?
    ensures ReadVarInt(bs) == Some((Join(bs[0], ReadVarInt(bs[1..]).value.0), ReadVarInt(bs[1..]).value.1 + 1))
  {
  }

  /** A number below 128 is written as the single byte it is. */
  lemma VarIntShort(n: int)
    requires 0 <= n < 128
    ensures VarInt(n) == [n]
  {
  }

  /** The encoding of a number of two or more groups: a continuation byte carrying the
      low seven bits, then the encoding of the rest. */
  lemma VarIntLong(n: int)
    requires n / 128 > 0
    ensures VarInt(n) == [n % 128 + 128] + VarInt(n / 128)
  {
  }

  /** The decoder reads a long encoding from a read of its tail. */
  lemma ReadVarIntLong(n: int, rest: seq<byte>)
    requires n / 128 > 0
    requires ReadVarInt(VarInt(n / 128) + rest) == Some((n / 128, |VarInt(n / 128)|))
    ensures ReadVarInt(VarInt(n) + rest) == Some((n, |VarInt(n)|))
  {
    var bs := VarInt(n) + rest;
    VarIntLong(n);
    assert bs[0] == n % 128 + 128 && bs[1..] == VarInt(n / 128) + rest;
    ReadVarIntStep(bs);
    assert Join(n % 128 + 128, n / 128) == n;
  }

  /** Round trip and prefix property: whatever follows a non-negative number's
      encoding, the decoder reads back exactly that number and that many bytes. */
  lemma {:induction false} ReadVarIntOfVarInt(n: int, rest: seq<byte>)
    requires n >= 0
    ensures ReadVarInt(VarInt(n) + rest) == Some((n, |VarInt(n)|))
    decreases n
  {
    if n / 128 > 0 {
      ReadVarIntOfVarInt(n / 128, rest);
      ReadVarIntLong(n, rest);
    } else {
      assert VarInt(n) == [n];
      assert (VarInt(n) + rest)[0] == n;
    }
  }

  function UpperHexDigit(d: nat): char
    requires d < 16
  {
    if d < 10 then ('0' as int + d) as char else ('A' as int + d - 10) as char
  }

  /** `n.toString(16).toUpperCase()`. */
  function ToUpperHex(n: nat): string
  {
    if n < 16 then [UpperHexDigit(n)] else ToUpperHex(n / 16) + [UpperHexDigit(n % 16)]
  }

  predicate AllHex(s: string)
  {
    forall i :: 0 <= i < |s| ==> HexValue(s[i]).Some?
  }

  /** `parseInt(s, 16)` on a string of hex digits. */
  function ParseHexNumber(s: string): nat
    requires AllHex(s)
  {
    if s == [] then 0 else ParseHexNumber(s[..|s| - 1]) * 16 + HexValue(s[|s| - 1]).value
  }

  lemma {:induction false} UpperHexRoundTrip(n: nat)
    ensures AllHex(ToUpperHex(n))
    ensures ParseHexNumber(ToUpperHex(n)) == n
  {
    if n >= 16 {
      UpperHexRoundTrip(n / 16);
      var s := ToUpperHex(n);
      assert s[..|s| - 1] == ToUpperHex(n / 16);
    }
  }

  /** `symbolAsNumber`: the first code point, taken through its upper-case hex
      spelling and parsed back, which is the code point itself. */
  function SymbolAsNumber(symbol: string): (r: nat)
    requires |symbol| > 0
    ensures r == symbol[0] as int
  {
    UpperHexRoundTrip(symbol[0] as int);
    ParseHexNumber(ToUpperHex(symbol[0] as int))
  }
}
