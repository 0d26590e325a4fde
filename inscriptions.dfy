/** Inscription envelopes: the chunk helpers, the content cut into 240-byte parts, the
    envelope with count-down part indices, the greedy "partial" prefix that fits the
    1500-byte payload budget, the lock / pay-to-script-hash scripts (BIP 16), and the
    reveal transaction that spends the commit output. */
module Inscriptions {
  import opened Wrappers
  import opened Encoding
  import opened Seqs
  import opened Script
  import opened TxTypes

  const MAX_CHUNK_LEN: nat := 240
  const MAX_PAYLOAD_LEN: nat := 1500
  const SIGHASH_ALL: byte := 1

  /** The bytes of "ord". */
  const ORD_TAG: seq<byte> := [111, 114, 100]

  /** The content type every inscription here declares: "text/plain;charset=utf-8". */
  const CONTENT_TYPE: seq<byte> :=
    [116, 101, 120, 116, 47, 112, 108, 97, 105, 110, 59, 99, 104, 97, 114, 115, 101, 116, 61, 117, 116, 102, 45, 56]

  // ---------------------------------------------------------------------------
  // Chunk helpers

  /** `bufferToChunk`: bytes become a push whose opcode follows the length; an empty
      buffer has no data and opcode 0. */
  function BufferToChunk(b: seq<byte>): (c: Chunk)
    ensures Len(c) == |b|
    ensures Buf(c).None? <==> |b| == 0
    ensures Buf(c).Some? ==> Buf(c).value == b
    ensures OpcodeNum(c) == if |b| <= 75 then |b| else if |b| <= 255 then 76 else 77
  {
    if b == [] then Op(OP_0) else Push(b)
  }

  /** `numberToChunk`: 0 is OP_0, 1..16 are OP_1..OP_16, 17..127 a one-byte push, and
      larger numbers a two-byte little-endian push whose high byte is `n / 256`
      truncated to a byte, as a byte buffer stores it. */
  function NumberToChunk(n: nat): (c: Chunk)
    ensures Len(c) == if n <= 16 then 0 else if n < 128 then 1 else 2
    ensures Buf(c).None? <==> n <= 16
    ensures OpcodeNum(c) == if n == 0 then 0 else if n <= 16 then 80 + n else if n < 128 then 1 else 2
  {
    if n == 0 then Op(OP_0)
    else if n <= 16 then Op(80 + n)
    else if n < 128 then Push([n])
    else Push([n % 256, (n / 256) % 256])
  }

  /** `opcodeToChunk`. */
  function OpcodeToChunk(op: byte): (c: Chunk)
    ensures OpcodeNum(c) == op && Len(c) == 0 && Buf(c).None?
  {
    Op(op)
  }

  /** Reference reader of a small-number chunk: the inverse of `NumberToChunk`. */
  function ChunkNumber(c: Chunk): Option<nat>
  {
    match c
    case Op(code) =>
      if code == 0 then Some(0) else if 81 <= code <= 96 then Some(code - 80) else None
    case Push(data) =>
      if |data| == 1 then Some(data[0] as nat)
      else if |data| == 2 then Some(data[0] as nat + 256 * data[1] as nat)
      else None
  }

  /** Every number below 65536 reads back from its chunk. */
  lemma NumberToChunkRoundTrip(n: nat)
    requires n < 65536
    ensures ChunkNumber(NumberToChunk(n)) == Some(n)
  {
  }

  // ---------------------------------------------------------------------------
  // Parts and envelope

  /** The content cut into parts: `while (data.length)` takes up to 240 bytes at a time. */
  method SplitParts(content: seq<byte>) returns (parts: seq<seq<byte>>)
    ensures parts == Chunked(content, MAX_CHUNK_LEN)
  {
    var data := content;
    parts := [];
    while |data| > 0
      invariant parts + Chunked(data, MAX_CHUNK_LEN) == Chunked(content, MAX_CHUNK_LEN)
      decreases |data|
    {
      var part := data[..Min(MAX_CHUNK_LEN, |data|)];
      assert Chunked(data, MAX_CHUNK_LEN) == [part] + Chunked(data[|part|..], MAX_CHUNK_LEN);
      data := data[|part|..];
      parts := parts + [part];
    }
  }

  /** The parts are non-empty, at most 240 bytes, all but the last exactly 240, there are
      `ceil(|content| / 240)` of them, and together they are the content. */
  lemma PartsShape(content: seq<byte>)
    ensures var parts := Chunked(content, MAX_CHUNK_LEN);
      Flatten(parts) == content
      && |parts| == (|content| + MAX_CHUNK_LEN - 1) / MAX_CHUNK_LEN
      && (forall j :: 0 <= j < |parts| ==> 0 < |parts[j]| <= MAX_CHUNK_LEN)
      && (forall j :: 0 <= j < |parts| - 1 ==> |parts[j]| == MAX_CHUNK_LEN)
  {
    var parts := Chunked(content, MAX_CHUNK_LEN);
    ChunkedFlatten(content, MAX_CHUNK_LEN);
    ChunkedShape(content, MAX_CHUNK_LEN);
    ChunkedCount(content, MAX_CHUNK_LEN);
    forall j | 0 <= j < |parts| ensures 0 < |parts[j]| <= MAX_CHUNK_LEN {
      assert parts[j] in parts;
    }
    if parts == [] {
      assert content == [];
    }
  }

  /** The first `n` part entries: the count-down index `|parts| - i - 1`, then the part. */
  function PartEntries(parts: seq<seq<byte>>, n: nat): (r: seq<Chunk>)
    requires n <= |parts|
    ensures |r| == 2 * n
    ensures forall j :: 0 <= j < |r| ==>
      r[j] == if j % 2 == 0 then NumberToChunk(|parts| - j / 2 - 1) else BufferToChunk(parts[j / 2])
  {
    if n == 0 then [] else PartEntries(parts, n - 1) + [NumberToChunk(|parts| - n), BufferToChunk(parts[n - 1])]
  }

  /** The inscription envelope: "ord", the part count, the content type, the entries,
      then tag 5 with the CBOR metadata. */
  function Envelope(parts: seq<seq<byte>>, metadata: seq<byte>): seq<Chunk>
  {
    [BufferToChunk(ORD_TAG), NumberToChunk(|parts|), BufferToChunk(CONTENT_TYPE)]
    + PartEntries(parts, |parts|)
    + [NumberToChunk(5), BufferToChunk(metadata)]
  }

  /** Builds the envelope chunk by chunk, as `inscription.chunks.push` does. */
  method BuildEnvelope(parts: seq<seq<byte>>, metadata: seq<byte>) returns (inscription: seq<Chunk>)
    ensures inscription == Envelope(parts, metadata)
  {
    inscription := [BufferToChunk(ORD_TAG)];
    inscription := inscription + [NumberToChunk(|parts|)];
    inscription := inscription + [BufferToChunk(CONTENT_TYPE)];
    var header := inscription;
    var n := 0;
    while n < |parts|
      invariant n <= |parts|
      invariant inscription == header + PartEntries(parts, n)
    {
      inscription := inscription + [NumberToChunk(|parts| - n - 1)];
      inscription := inscription + [BufferToChunk(parts[n])];
      n := n + 1;
    }
    inscription := inscription + [NumberToChunk(5)];
    inscription := inscription + [BufferToChunk(metadata)];
  }

  /** Layout of the envelope: an odd number of chunks, "ord" first, the part count and
      content type next, each part after its count-down index, the metadata last. */
  lemma EnvelopeShape(parts: seq<seq<byte>>, metadata: seq<byte>)
    ensures var env := Envelope(parts, metadata);
      |env| == 2 * |parts| + 5
      && env[0] == Push(ORD_TAG) && env[1] == NumberToChunk(|parts|) && env[2] == Push(CONTENT_TYPE)
      && (forall j :: 3 <= j < |env| - 2 ==>
            env[j] == if j % 2 == 1 then NumberToChunk(|parts| - (j - 3) / 2 - 1)
                      else BufferToChunk(parts[(j - 3) / 2]))
      && env[|env| - 2] == Op(85) && env[|env| - 1] == BufferToChunk(metadata)
  {
    var head := [BufferToChunk(ORD_TAG), NumberToChunk(|parts|), BufferToChunk(CONTENT_TYPE)];
    var entries := PartEntries(parts, |parts|);
    var tail := [NumberToChunk(5), BufferToChunk(metadata)];
    var env := Envelope(parts, metadata);
    assert env == head + entries + tail;
    forall j | 3 <= j < |env| - 2
      ensures env[j] == if j % 2 == 1 then NumberToChunk(|parts| - (j - 3) / 2 - 1)
                        else BufferToChunk(parts[(j - 3) / 2])
    {
      assert env[j] == entries[j - 3];
    }
  }

  /** A count-down index reads back when there are fewer than 65536 parts, and a part
      count that big would need more than 15 MB of content. */
  lemma EntryIndexNumber(parts: seq<seq<byte>>, i: nat)
    requires i < |parts|
    ensures |parts| < 65536 ==> ChunkNumber(NumberToChunk(|parts| - i - 1)) == Some(|parts| - i - 1)
  {
  }

  // ---------------------------------------------------------------------------
  // The partial prefix

  /** Where the greedy loop stops: from an odd prefix length `n`, grow by two chunks
      while the prefix still fits and chunks are left. */
  function GreedyEnd(ins: seq<Chunk>, n: nat): (r: nat)
    requires n <= |ins| && n % 2 == |ins| % 2
    ensures n <= r <= |ins| && r % 2 == |ins| % 2
    decreases |ins| - n
  {
    if Size(ins[..n]) <= MAX_PAYLOAD_LEN && n < |ins| then GreedyEnd(ins, n + 2) else n
  }

  /** The chunks that go into the unlock script: the longest odd-length prefix within
      the budget, found by growing two chunks at a time and stepping back once. */
  function PartialOf(ins: seq<Chunk>): (r: seq<Chunk>)
    requires |ins| % 2 == 1
    ensures |r| <= |ins| && |r| % 2 == 1 && r == ins[..|r|]
  {
    var n := GreedyEnd(ins, 1);
    if Size(ins[..n]) > MAX_PAYLOAD_LEN && n >= 2 then ins[..n - 2] else ins[..n]
  }

  /** The split loop of `getP2sh`: shift one chunk into `partial`, then two at a time
      while it serializes within the budget, and push the last two back if it overran. */
  method SplitPartial(inscription: seq<Chunk>) returns (partial: seq<Chunk>, remainder: seq<Chunk>)
    requires |inscription| % 2 == 1
    requires Size(inscription[..1]) <= MAX_PAYLOAD_LEN
    ensures partial == PartialOf(inscription)
    ensures partial + remainder == inscription
  {
    partial, remainder := GrowPartial(inscription);
    SerializeSize(partial);
    if |Serialize(partial)| > MAX_PAYLOAD_LEN {
      assert |partial| != 1;
      partial, remainder := UnshiftTwo(inscription, partial, remainder);
    }
  }

  /** The step back: the last two chunks of `partial` return, in order, to the front of
      `remainder`. */
  method UnshiftTwo(ghost ins: seq<Chunk>, partial: seq<Chunk>, remainder: seq<Chunk>)
    returns (partial': seq<Chunk>, remainder': seq<Chunk>)
    requires partial + remainder == ins && partial == ins[..|partial|]
    requires |partial| >= 2
    ensures partial' == ins[..|partial| - 2]
    ensures partial' + remainder' == ins
  {
    var last := partial[|partial| - 1];
    partial' := partial[..|partial| - 1];
    remainder' := [last] + remainder;
    assert partial' + remainder' == ins;
    last := partial'[|partial'| - 1];
    ghost var mid := partial';
    partial' := partial'[..|partial'| - 1];
    remainder' := [last] + remainder';
    assert partial' + remainder' == mid + (remainder' [1..]);
  }

  /** The `while` loop of the split: it stops where `GreedyEnd` says. */
  method GrowPartial(inscription: seq<Chunk>) returns (partial: seq<Chunk>, remainder: seq<Chunk>)
    requires |inscription| % 2 == 1
    ensures partial + remainder == inscription
    ensures partial == inscription[..|partial|]
    ensures |partial| == GreedyEnd(inscription, 1)
  {
    partial := [inscription[0]];
    remainder := inscription[1..];
    assert partial == inscription[..1];
    var fits := FitsBudget(partial);
    while fits && |remainder| > 0
      invariant partial + remainder == inscription
      invariant |partial| % 2 == 1 && |remainder| % 2 == 0
      invariant fits <==> Size(partial) <= MAX_PAYLOAD_LEN
      invariant GreedyEnd(inscription, |partial|) == GreedyEnd(inscription, 1)
      decreases |remainder|
    {
      assert partial == inscription[..|partial|];
      GreedyStep(inscription, |partial|);
      partial, remainder := ShiftTwo(inscription, partial, remainder);
      fits := FitsBudget(partial);
    }
    assert partial == inscription[..|partial|];
    GreedyStop(inscription, |partial|);
  }

  /** The loop condition `partial` serializes to at most `MAX_PAYLOAD_LEN` bytes. */
  method FitsBudget(partial: seq<Chunk>) returns (fits: bool)
    ensures fits <==> Size(partial) <= MAX_PAYLOAD_LEN
  {
    SerializeSize(partial);
    fits := |Serialize(partial)| <= MAX_PAYLOAD_LEN;
  }

  /** One round of the loop: two chunks move from the front of `remainder` to the end
      of `partial`. */
  method ShiftTwo(ghost ins: seq<Chunk>, partial: seq<Chunk>, remainder: seq<Chunk>)
    returns (partial': seq<Chunk>, remainder': seq<Chunk>)
    requires partial + remainder == ins && partial == ins[..|partial|]
    requires |remainder| > 0 && |remainder| % 2 == 0
    ensures partial' + remainder' == ins
    ensures partial' == ins[..|partial| + 2] && |remainder'| == |remainder| - 2
    ensures |partial'| % 2 == |partial| % 2 && |remainder'| % 2 == |remainder| % 2
  {
    partial' := partial + [remainder[0]];
    remainder' := remainder[1..];
    partial' := partial' + [remainder'[0]];
    remainder' := remainder'[1..];
    PrefixGrowsByTwo(ins, partial, partial');
  }

  lemma GreedyStep(ins: seq<Chunk>, n: nat)
    requires n < |ins| && n % 2 == |ins| % 2
    requires Size(ins[..n]) <= MAX_PAYLOAD_LEN
    ensures GreedyEnd(ins, n) == GreedyEnd(ins, n + 2)
  {
  }

  lemma GreedyStop(ins: seq<Chunk>, n: nat)
    requires n <= |ins| && n % 2 == |ins| % 2
    requires Size(ins[..n]) > MAX_PAYLOAD_LEN || n == |ins|
    ensures GreedyEnd(ins, n) == n
  {
  }

  lemma PrefixGrowsByTwo(ins: seq<Chunk>, before: seq<Chunk>, after: seq<Chunk>)
    requires |before| + 2 <= |ins|
    requires before == ins[..|before|]
    requires after == before + [ins[|before|]] + [ins[|before| + 1]]
    ensures after == ins[..|before| + 2]
  {
  }

  lemma {:induction false} GreedyEndProperties(ins: seq<Chunk>, n: nat)
    requires n <= |ins| && n % 2 == |ins| % 2 && n >= 1
    requires n >= 3 ==> Size(ins[..n - 2]) <= MAX_PAYLOAD_LEN
    requires Size(ins[..1]) <= MAX_PAYLOAD_LEN
    ensures var r := GreedyEnd(ins, n);
      (r >= 3 ==> Size(ins[..r - 2]) <= MAX_PAYLOAD_LEN)
      && (Size(ins[..r]) <= MAX_PAYLOAD_LEN ==> r == |ins|)
      && (r == 1 ==> Size(ins[..r]) <= MAX_PAYLOAD_LEN)
    decreases |ins| - n
  {
    if Size(ins[..n]) <= MAX_PAYLOAD_LEN && n < |ins| {
      assert (ins[..n + 2])[..n] == ins[..n];
      GreedyEndProperties(ins, n + 2);
    }
  }

  /** The partial prefix is a prefix of odd length that fits the budget, and it is the
      longest such prefix: two more chunks would not fit. */
  lemma PartialOfProperties(ins: seq<Chunk>)
    requires |ins| % 2 == 1
    requires Size(ins[..1]) <= MAX_PAYLOAD_LEN
    ensures var p := PartialOf(ins);
      p == ins[..|p|] && |p| % 2 == 1
      && Size(p) <= MAX_PAYLOAD_LEN
      && (|p| < |ins| ==> Size(ins[..|p| + 2]) > MAX_PAYLOAD_LEN)
  {
    GreedyEndProperties(ins, 1);
    var n := GreedyEnd(ins, 1);
    if Size(ins[..n]) > MAX_PAYLOAD_LEN && n >= 2 {
      assert ins[..n - 2] == ins[..n][..n - 2];
    }
  }

  /** A whole envelope within the budget goes into the partial prefix entirely. */
  lemma SmallEnvelopeFits(ins: seq<Chunk>)
    requires |ins| % 2 == 1
    requires Size(ins) <= MAX_PAYLOAD_LEN
    ensures PartialOf(ins) == ins
  {
    forall n: nat | n <= |ins| ensures Size(ins[..n]) <= MAX_PAYLOAD_LEN {
      if n < |ins| {
        assert ins[..|ins|] == ins;
        SizeOfPrefixGrows(ins, n, |ins|);
      }
    }
    GreedyEndReachesEnd(ins, 1);
    assert ins[..|ins|] == ins;
  }

  lemma {:induction false} GreedyEndReachesEnd(ins: seq<Chunk>, n: nat)
    requires n <= |ins| && n % 2 == |ins| % 2
    requires forall m: nat :: m <= |ins| ==> Size(ins[..m]) <= MAX_PAYLOAD_LEN
    ensures GreedyEnd(ins, n) == |ins|
    decreases |ins| - n
  {
    if n < |ins| {
      GreedyEndReachesEnd(ins, n + 2);
    }
  }

  /** The first envelope chunk, "ord", takes four bytes. */
  lemma EnvelopeHeadSize(parts: seq<seq<byte>>, metadata: seq<byte>)
    ensures Size(Envelope(parts, metadata)[..1]) == 4
  {
    var h := Envelope(parts, metadata)[..1];
    assert h == [Push(ORD_TAG)];
    assert h[..0] == [];
  }

  // ---------------------------------------------------------------------------
  // Lock, pay-to-script-hash and unlock scripts

  function Drops(n: nat): (r: seq<Chunk>)
    ensures |r| == n && forall i :: 0 <= i < n ==> r[i] == Op(OP_DROP)
  {
    if n == 0 then [] else Drops(n - 1) + [Op(OP_DROP)]
  }

  /** The lock script: the public key, OP_CHECKSIGVERIFY, one OP_DROP per partial
      chunk, OP_TRUE. */
  function LockScript(publicKey: seq<byte>, drops: nat): seq<Chunk>
  {
    [BufferToChunk(publicKey), Op(OP_CHECKSIGVERIFY)] + Drops(drops) + [Op(OP_TRUE)]
  }

  /** Builds the lock as the `forEach` over the partial chunks does. */
  method BuildLock(publicKey: seq<byte>, partial: seq<Chunk>) returns (lock: seq<Chunk>)
    ensures lock == LockScript(publicKey, |partial|)
  {
    lock := [BufferToChunk(publicKey)];
    lock := lock + [OpcodeToChunk(OP_CHECKSIGVERIFY)];
    var i := 0;
    while i < |partial|
      invariant i <= |partial|
      invariant lock == [BufferToChunk(publicKey), Op(OP_CHECKSIGVERIFY)] + Drops(i)
    {
      lock := lock + [OpcodeToChunk(OP_DROP)];
      i := i + 1;
    }
    lock := lock + [OpcodeToChunk(OP_TRUE)];
  }

  /** Occurrences of a chunk in a script. */
  function Count(s: seq<Chunk>, c: Chunk): nat
  {
    if s == [] then 0 else Count(s[..|s| - 1], c) + (if s[|s| - 1] == c then 1 else 0)
  }

  lemma {:induction false} CountConcat(a: seq<Chunk>, b: seq<Chunk>, c: Chunk)
    ensures Count(a + b, c) == Count(a, c) + Count(b, c)
    decreases |b|
  {
    if b == [] {
      assert a + b == a;
    } else {
      assert (a + b)[..|a + b| - 1] == a + b[..|b| - 1];
      CountConcat(a, b[..|b| - 1], c);
    }
  }

  lemma {:induction false} CountDrops(n: nat)
    ensures Count(Drops(n), Op(OP_DROP)) == n
  {
    if n > 0 {
      CountDrops(n - 1);
      assert Drops(n)[..n - 1] == Drops(n - 1);
    }
  }

  /** The lock drops exactly one element per partial chunk: it holds exactly `n`
      OP_DROPs, between OP_CHECKSIGVERIFY and the closing OP_TRUE. */
  lemma LockShape(publicKey: seq<byte>, n: nat)
    ensures var lock := LockScript(publicKey, n);
      |lock| == n + 3
      && lock[1] == Op(OP_CHECKSIGVERIFY) && lock[|lock| - 1] == Op(OP_TRUE)
      && (forall i :: 2 <= i < n + 2 ==> lock[i] == Op(OP_DROP))
      && Count(lock, Op(OP_DROP)) == n
  {
    var head := [BufferToChunk(publicKey), Op(OP_CHECKSIGVERIFY)];
    CountConcat(head, Drops(n), Op(OP_DROP));
    CountConcat(head + Drops(n), [Op(OP_TRUE)], Op(OP_DROP));
    CountDrops(n);
    assert head[..1] == [head[0]];
    assert [head[0]][..0] == [];
    assert [Op(OP_TRUE)][..0] == [];
  }

  /** `OP_HASH160 <hash160(lock)> OP_EQUAL`. */
  function P2shScript(lockHash: seq<byte>): seq<Chunk>
  {
    [OpcodeToChunk(OP_HASH160), BufferToChunk(lockHash), OpcodeToChunk(OP_EQUAL)]
  }

  /** The unlock script: the partial chunks, then the signature with the SIGHASH_ALL byte,
      then the redeem script. */
  function UnlockScript(partial: seq<Chunk>, signature: seq<byte>, redeemScript: seq<byte>): seq<Chunk>
  {
    partial + [BufferToChunk(signature + [SIGHASH_ALL]), BufferToChunk(redeemScript)]
  }

  /** What `getP2sh` returns. */
  datatype P2sh = P2sh(redeemScript: seq<byte>, p2sh: seq<Chunk>, partial: seq<Chunk>, lock: seq<Chunk>)

  /** The library calls the builders lean on: key derivation, HASH160, the signature of
      one input, and the JSON / CBOR encoders of the ticker text. */
  datatype Crypto = Crypto(
    publicKey: string -> seq<byte>,
    hash160: seq<byte> -> seq<byte>,
    sign: (RevealTx, string, nat, seq<byte>) -> seq<byte>,
    jsonUtf8: string -> seq<byte>,
    cborBone: string -> seq<byte>)

  /** The scripts built around a partial prefix. */
  function P2shFor(publicKey: seq<byte>, partial: seq<Chunk>, hash160: seq<byte> -> seq<byte>): P2sh
  {
    var lock := LockScript(publicKey, |partial|);
    P2sh(Serialize(lock), P2shScript(hash160(Serialize(lock))), partial, lock)
  }

  /** The envelope of a ticker text. */
  function TextEnvelope(text: string, crypto: Crypto): (r: seq<Chunk>)
    ensures |r| % 2 == 1
  {
    EnvelopeOdd(Chunked(crypto.jsonUtf8(text), MAX_CHUNK_LEN), crypto.cborBone(text));
    Envelope(Chunked(crypto.jsonUtf8(text), MAX_CHUNK_LEN), crypto.cborBone(text))
  }

  lemma EnvelopeOdd(parts: seq<seq<byte>>, metadata: seq<byte>)
    ensures |Envelope(parts, metadata)| % 2 == 1
  {
  }

  /** `getP2sh({privKey, text})`. Chunks beyond the partial prefix are dropped. */
  method GetP2sh(privKey: string, text: string, crypto: Crypto) returns (r: P2sh)
    ensures r == P2shFor(crypto.publicKey(privKey), PartialOf(TextEnvelope(text, crypto)), crypto.hash160)
  {
    var publicKey := crypto.publicKey(privKey);
    var parts := SplitParts(crypto.jsonUtf8(text));
    var inscription := BuildEnvelope(parts, crypto.cborBone(text));
    EnvelopeOdd(parts, crypto.cborBone(text));
    EnvelopeHeadSize(parts, crypto.cborBone(text));
    var partial, _ := SplitPartial(inscription);
    var lock := BuildLock(publicKey, partial);
    var redeemScript := Serialize(lock);
    var lockHash := crypto.hash160(Serialize(lock));
    var p2sh := [OpcodeToChunk(OP_HASH160)];
    p2sh := p2sh + [BufferToChunk(lockHash)];
    p2sh := p2sh + [OpcodeToChunk(OP_EQUAL)];
    r := P2sh(redeemScript, p2sh, partial, lock);
  }

  /** The envelope's partial prefix always fits the budget and cannot take two more
      chunks; the lock drops one element per partial chunk. */
  lemma GetP2shProperties(privKey: string, text: string, crypto: Crypto)
    ensures var env := TextEnvelope(text, crypto);
      var r := P2shFor(crypto.publicKey(privKey), PartialOf(env), crypto.hash160);
      r.partial == env[..|r.partial|]
      && Size(r.partial) <= MAX_PAYLOAD_LEN
      && (|r.partial| < |env| ==> Size(env[..|r.partial| + 2]) > MAX_PAYLOAD_LEN)
      && Count(r.lock, Op(OP_DROP)) == |r.partial|
      && |Serialize(r.lock)| == Size(r.lock)
      && r.redeemScript == Serialize(r.lock)
  {
    var env := TextEnvelope(text, crypto);
    EnvelopeHeadSize(Chunked(crypto.jsonUtf8(text), MAX_CHUNK_LEN), crypto.cborBone(text));
    PartialOfProperties(env);
    var partial := PartialOf(env);
    var lock := LockScript(crypto.publicKey(privKey), |partial|);
    LockShape(crypto.publicKey(privKey), |partial|);
    SerializeSize(lock);
    assert P2shFor(crypto.publicKey(privKey), partial, crypto.hash160)
        == P2sh(Serialize(lock), P2shScript(crypto.hash160(Serialize(lock))), partial, lock);
  }

  // ---------------------------------------------------------------------------
  // The reveal transaction

  /** An input of the reveal: the spent outpoint, the spent output (amount and script),
      and the unlock script (empty until it is set). */
  datatype RevealInput = RevealInput(
    prevTxId: string, outputIndex: nat, satoshis: nat, prevScript: seq<Chunk>, script: seq<Chunk>)

  datatype RevealTx = RevealTx(inputs: seq<RevealInput>, outputs: seq<Output>)

  /** `getRevealTx` adds an address output only when the address is non-empty. */
  predicate Kept(o: Output)
  {
    o.ScriptOut? || o.address != ""
  }

  function KeptOutputs(outs: seq<Output>): seq<Output>
  {
    if outs == [] then []
    else KeptOutputs(outs[..|outs| - 1]) + (if Kept(outs[|outs| - 1]) then [outs[|outs| - 1]] else [])
  }

  /** An output is added iff it is requested and kept. */
  lemma {:induction false} KeptOutputsMembership(outs: seq<Output>, o: Output)
    ensures o in KeptOutputs(outs) <==> o in outs && Kept(o)
  {
    if outs != [] {
      KeptOutputsMembership(outs[..|outs| - 1], o);
      SplitLast(outs);
    }
  }

  /** Without empty addresses the outputs are added exactly as requested, in order. */
  lemma {:induction false} KeptOutputsAll(outs: seq<Output>)
    requires forall i :: 0 <= i < |outs| ==> Kept(outs[i])
    ensures KeptOutputs(outs) == outs
  {
    if outs != [] {
      KeptOutputsAll(outs[..|outs| - 1]);
    }
  }

  /** The reveal before signing: one input spending output 0 of the commit. */
  function UnsignedReveal(commitTxId: string, valueOfOutputToSpend: nat, p2sh: seq<Chunk>,
                          revealTxOutputs: seq<Output>): RevealTx
  {
    RevealTx([RevealInput(commitTxId, 0, valueOfOutputToSpend, p2sh, [])], KeptOutputs(revealTxOutputs))
  }

  /** The signed reveal. */
  function RevealOf(privKey: string, text: string, commitTxId: string, valueOfOutputToSpend: nat,
                    revealTxOutputs: seq<Output>, crypto: Crypto): RevealTx
  {
    var p := P2shFor(crypto.publicKey(privKey), PartialOf(TextEnvelope(text, crypto)), crypto.hash160);
    var unsigned := UnsignedReveal(commitTxId, valueOfOutputToSpend, p.p2sh, revealTxOutputs);
    var signature := crypto.sign(unsigned, privKey, 0, p.redeemScript);
    unsigned.(inputs := [unsigned.inputs[0].(script := UnlockScript(p.partial, signature, p.redeemScript))])
  }

  /** `getRevealTx`. The fee rate and the change receiver take no part in the result. */
  method GetRevealTx(privKey: string, text: string, feePerByte: nat, commitTxId: string,
                     valueOfOutputToSpend: nat, revealTxOutputs: seq<Output>, changeReceiver: string,
                     crypto: Crypto)
    returns (revealTx: RevealTx)
    ensures revealTx == RevealOf(privKey, text, commitTxId, valueOfOutputToSpend, revealTxOutputs, crypto)
  {
    var p := GetP2sh(privKey, text, crypto);
    revealTx := RevealTx([RevealInput(commitTxId, 0, valueOfOutputToSpend, p.p2sh, [])], []);
    var i := 0;
    while i < |revealTxOutputs|
      invariant i <= |revealTxOutputs|
      invariant revealTx.inputs == [RevealInput(commitTxId, 0, valueOfOutputToSpend, p.p2sh, [])]
      invariant revealTx.outputs == KeptOutputs(revealTxOutputs[..i])
    {
      var output := revealTxOutputs[i];
      assert revealTxOutputs[..i + 1][..i] == revealTxOutputs[..i];
      if output.AddressOut? && output.address != "" {
        revealTx := revealTx.(outputs := revealTx.outputs + [output]);
      } else if output.ScriptOut? {
        revealTx := revealTx.(outputs := revealTx.outputs + [output]);
      }
      i := i + 1;
    }
    assert revealTxOutputs[..i] == revealTxOutputs;
    assert revealTx == UnsignedReveal(commitTxId, valueOfOutputToSpend, p.p2sh, revealTxOutputs);
    var signature := crypto.sign(revealTx, privKey, 0, p.redeemScript);
    var unlock := p.partial;
    unlock := unlock + [BufferToChunk(signature + [SIGHASH_ALL])];
    unlock := unlock + [BufferToChunk(p.redeemScript)];
    assert unlock == UnlockScript(p.partial, signature, p.redeemScript);
    revealTx := revealTx.(inputs := [revealTx.inputs[0].(script := unlock)]);
  }

  /** The reveal spends output 0 of the commit with the given amount, locked by the
      pay-to-script-hash script, and its unlock script ends with the signature push
      and the redeem script push after the partial chunks. */
  lemma RevealShape(privKey: string, text: string, commitTxId: string, valueOfOutputToSpend: nat,
                    revealTxOutputs: seq<Output>, crypto: Crypto)
    ensures var tx := RevealOf(privKey, text, commitTxId, valueOfOutputToSpend, revealTxOutputs, crypto);
      var p := P2shFor(crypto.publicKey(privKey), PartialOf(TextEnvelope(text, crypto)), crypto.hash160);
      |tx.inputs| == 1
      && tx.inputs[0].prevTxId == commitTxId && tx.inputs[0].outputIndex == 0
      && tx.inputs[0].satoshis == valueOfOutputToSpend && tx.inputs[0].prevScript == p.p2sh
      && tx.inputs[0].script[..|p.partial|] == p.partial
      && |tx.inputs[0].script| == |p.partial| + 2
      && tx.inputs[0].script[|p.partial| + 1] == BufferToChunk(p.redeemScript)
      && (forall o :: o in tx.outputs <==> o in revealTxOutputs && Kept(o))
  {
    forall o ensures o in KeptOutputs(revealTxOutputs) <==> o in revealTxOutputs && Kept(o) {
      KeptOutputsMembership(revealTxOutputs, o);
    }
  }
}
