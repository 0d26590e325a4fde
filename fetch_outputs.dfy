/** `fetchOutputs`: the explorer's output records for a list of output ids, requested
    in chunks of 100 ids and put back together in chunk order. The explorer is an
    oracle from one chunk of ids to the records it returns. */
module FetchOutputs {
  import opened Wrappers
  import opened Seqs

  /** An inscription on an output: its id, the inscription it delegates to, its
      genesis height and the `BONE` entry of its metadata, when it has one. */
  datatype InscriptionData = InscriptionData(inscriptionId: string, delegate: Option<string>, genesisHeight: int,
                                             metadataBone: Option<string>)

  /** The balance of one bone on an output; `ticker` is its key in the output's `bones`
      object, so the list is in key order. */
  datatype BoneBalance = BoneBalance(ticker: string, symbol: string, amount: nat, divisibility: nat)

  /** An output record: its `txid:vout` name, its address, value and script text when
      the explorer gives them, its inscriptions and its bone balances (an absent list is
      the empty one). */
  datatype OutputData = OutputData(output: string, address: Option<string>, value: nat, scriptPubkey: Option<string>,
                                   inscriptions: seq<InscriptionData>, bones: seq<BoneBalance>)

  const CHUNK_SIZE: nat := 100

  /** `chunkArray`: the loop that pushes `array.slice(i, i + size)` for `i = 0, size,
      2 size, ...` while `i` is below the length. */
  method ChunkArray<T>(items: seq<T>, size: nat) returns (chunks: seq<seq<T>>)
    requires size > 0
    ensures chunks == Chunked(items, size)
  {
    chunks := [];
    var i := 0;
    while i < |items|
      invariant chunks + Chunked(items[Min(i, |items|)..], size) == Chunked(items, size)
      decreases |items| - i
    {
      var end := Min(i + size, |items|);
      ChunkedStep(items, size, i);
      chunks := chunks + [items[i..end]];
      i := i + size;
    }
  }

  /** The records of several chunks of ids, in chunk order. */
  function Fetched(fetchChunk: seq<string> -> seq<OutputData>, chunks: seq<seq<string>>): seq<OutputData>
  {
    if chunks == [] then [] else Fetched(fetchChunk, chunks[..|chunks| - 1]) + fetchChunk(chunks[|chunks| - 1])
  }

  /** `fetchOutputs`: the ids cut into chunks of 100, one request per chunk (`requests`,
      each joined into one query), and the answers flattened in chunk order
      (`results.flat()`). */
  method FetchOutputs(outputIds: seq<string>, fetchChunk: seq<string> -> seq<OutputData>)
    returns (outputs: seq<OutputData>, requests: seq<seq<string>>)
    ensures requests == Chunked(outputIds, CHUNK_SIZE)
    ensures outputs == Fetched(fetchChunk, requests)
  {
    requests := ChunkArray(outputIds, CHUNK_SIZE);
    outputs := Fetched(fetchChunk, requests);
  }

  /** The records for each id one by one, in id order. */
  function Lookup(lookup: string -> OutputData, ids: seq<string>): (r: seq<OutputData>)
    ensures |r| == |ids|
  {
    if ids == [] then [] else Lookup(lookup, ids[..|ids| - 1]) + [lookup(ids[|ids| - 1])]
  }

  /** An explorer that answers every chunk with the record of each of its ids in order. */
  ghost predicate AnswersInOrder(fetchChunk: seq<string> -> seq<OutputData>, lookup: string -> OutputData)
  {
    forall chunk :: fetchChunk(chunk) == Lookup(lookup, chunk)
  }

  lemma {:induction false} LookupConcat(lookup: string -> OutputData, a: seq<string>, b: seq<string>)
    ensures Lookup(lookup, a + b) == Lookup(lookup, a) + Lookup(lookup, b)
    decreases |b|
  {
    if b != [] {
      var n := |b| - 1;
      assert (a + b)[..|a| + n] == a + b[..n];
      LookupConcat(lookup, a, b[..n]);
    } else {
      assert a + b == a;
    }
  }

  /** Chunking loses nothing and reorders nothing: against an explorer that answers
      each chunk in order, the result is one record per id, in the order of the ids. */
  lemma FetchedInIdOrder(outputIds: seq<string>, fetchChunk: seq<string> -> seq<OutputData>, lookup: string -> OutputData)
    requires AnswersInOrder(fetchChunk, lookup)
    ensures Fetched(fetchChunk, Chunked(outputIds, CHUNK_SIZE)) == Lookup(lookup, outputIds)
  {
    ChunkedFlatten(outputIds, CHUNK_SIZE);
    FetchedFlatten(Chunked(outputIds, CHUNK_SIZE), fetchChunk, lookup);
  }

  lemma {:induction false} FetchedFlatten(chunks: seq<seq<string>>, fetchChunk: seq<string> -> seq<OutputData>,
                                          lookup: string -> OutputData)
    requires AnswersInOrder(fetchChunk, lookup)
    ensures Fetched(fetchChunk, chunks) == Lookup(lookup, Flatten(chunks))
  {
    if chunks != [] {
      var n := |chunks| - 1;
      FetchedFlatten(chunks[..n], fetchChunk, lookup);
      assert chunks == chunks[..n] + [chunks[n]];
      FlattenAppend(chunks[..n], chunks[n]);
      LookupConcat(lookup, Flatten(chunks[..n]), chunks[n]);
    }
  }

  /** The requests: at most 100 ids each, all but the last exactly 100, their number the
      number of ids divided by 100 rounded up, and together the ids in order. */
  lemma RequestsShape(outputIds: seq<string>)
    ensures Flatten(Chunked(outputIds, CHUNK_SIZE)) == outputIds
    ensures forall c :: c in Chunked(outputIds, CHUNK_SIZE) ==> 0 < |c| <= CHUNK_SIZE
    ensures forall i :: 0 <= i < |Chunked(outputIds, CHUNK_SIZE)| - 1 ==> |Chunked(outputIds, CHUNK_SIZE)[i]| == CHUNK_SIZE
    ensures |outputIds| <= |Chunked(outputIds, CHUNK_SIZE)| * CHUNK_SIZE
    ensures |Chunked(outputIds, CHUNK_SIZE)| > 0 ==> (|Chunked(outputIds, CHUNK_SIZE)| - 1) * CHUNK_SIZE < |outputIds|
  {
    ChunkedFlatten(outputIds, CHUNK_SIZE);
    ChunkedShape(outputIds, CHUNK_SIZE);
    ChunkedCount(outputIds, CHUNK_SIZE);
  }
}
