/** Bitcoin/Dogecoin script chunks as bitcore builds them: a bare opcode, or a data push
    whose opcode is fixed by the data length (direct push up to 75 bytes, then
    OP_PUSHDATA1, then OP_PUSHDATA2), with the serialized byte layout and its size. */
module Script {
  import opened Wrappers
  import opened Encoding

  const OP_0: byte := 0
  const OP_PUSHDATA1: byte := 76
  const OP_PUSHDATA2: byte := 77
  const OP_TRUE: byte := 81
  const OP_RETURN: byte := 106
  const OP_DROP: byte := 117
  const OP_EQUAL: byte := 135
  const OP_HASH160: byte := 169
  const OP_CHECKSIGVERIFY: byte := 173

  datatype Chunk = Op(code: byte) | Push(data: seq<byte>)

  /** The opcode bitcore picks for a push of `len` bytes. */
  function PushOpcode(len: nat): byte
  {
    if len <= 75 then len else if len <= 255 then OP_PUSHDATA1 else OP_PUSHDATA2
  }

  /** The chunk's `opcodenum`. */
  function OpcodeNum(c: Chunk): byte
  {
    match c
    case Op(code) => code
    case Push(data) => PushOpcode(|data|)
  }

  /** The chunk's `buf`, absent for a bare opcode. */
  function Buf(c: Chunk): Option<seq<byte>>
  {
    match c
    case Op(_) => None
    case Push(data) => Some(data)
  }

  /** The chunk's `len`. */
  function Len(c: Chunk): nat
  {
    match c
    case Op(_) => 0
    case Push(data) => |data|
  }

  /** Length field written after OP_PUSHDATA1 / OP_PUSHDATA2 (little-endian). */
  function LengthField(len: nat): seq<byte>
  {
    if len <= 75 then [] else if len <= 255 then [len] else [len % 256, (len / 256) % 256]
  }

  function ChunkBytes(c: Chunk): seq<byte>
  {
    match c
    case Op(code) => [code]
    case Push(data) => [PushOpcode(|data|)] + LengthField(|data|) + data
  }

  /** `script.toBuffer()`. */
  function Serialize(s: seq<Chunk>): seq<byte>
  {
    if s == [] then [] else Serialize(s[..|s| - 1]) + ChunkBytes(s[|s| - 1])
  }

  /** Bytes one chunk occupies once serialized. */
  function ChunkSize(c: Chunk): nat
  {
    match c
    case Op(_) => 1
    case Push(data) => 1 + |LengthField(|data|)| + |data|
  }

  function Size(s: seq<Chunk>): nat
  {
    if s == [] then 0 else Size(s[..|s| - 1]) + ChunkSize(s[|s| - 1])
  }

  lemma ChunkSizePositive(c: Chunk)
    ensures ChunkSize(c) >= 1
    ensures ChunkSize(c) == |ChunkBytes(c)|
  {
  }

  /** The size function is the length of the serialization. */
  lemma {:induction false} SerializeSize(s: seq<Chunk>)
    ensures |Serialize(s)| == Size(s)
  {
    if s != [] {
      SerializeSize(s[..|s| - 1]);
      ChunkSizePositive(s[|s| - 1]);
    }
  }

  lemma SizeAppend(s: seq<Chunk>, c: Chunk)
    ensures Size(s + [c]) == Size(s) + ChunkSize(c)
  {
    assert (s + [c])[..|s|] == s;
  }

  lemma {:induction false} SizeConcat(a: seq<Chunk>, b: seq<Chunk>)
    ensures Size(a + b) == Size(a) + Size(b)
    decreases |b|
  {
    if b == [] {
      assert a + b == a;
    } else {
      var b' := b[..|b| - 1];
      assert (a + b)[..|a + b| - 1] == a + b';
      SizeConcat(a, b');
    }
  }

  lemma {:induction false} SerializeConcat(a: seq<Chunk>, b: seq<Chunk>)
    ensures Serialize(a + b) == Serialize(a) + Serialize(b)
    decreases |b|
  {
    if b == [] {
      assert a + b == a;
    } else {
      var b', x := b[..|b| - 1], b[|b| - 1];
      assert (a + b)[..|a + b| - 1] == a + b';
      SerializeConcat(a, b');
      calc {
        Serialize(a + b);
        Serialize(a + b') + ChunkBytes(x);
        (Serialize(a) + Serialize(b')) + ChunkBytes(x);
        Serialize(a) + (Serialize(b') + ChunkBytes(x));
        Serialize(a) + Serialize(b);
      }
    }
  }

  /** A longer prefix of a script never serializes smaller: every chunk takes a byte. */
  lemma SizeOfPrefixGrows(s: seq<Chunk>, i: nat, j: nat)
    requires i < j <= |s|
    ensures Size(s[..i]) < Size(s[..j])
  {
    assert s[..j] == s[..i] + s[i..j];
    SizeConcat(s[..i], s[i..j]);
    assert s[i..j] == s[i..j - 1] + [s[j - 1]];
    SizeConcat(s[i..j - 1], [s[j - 1]]);
    assert [s[j - 1]][..0] == [];
    ChunkSizePositive(s[j - 1]);
  }
}
