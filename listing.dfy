/** What the four listing commands share before their own filter: the address's
    deduplicated history, the spent set built from it, and the records of every output
    of that history. */
module Listing {
  import opened Wrappers
  import opened Seqs
  import opened AddressHistory
  import opened FetchOutputs

  /** The transactions the paging loop keeps, for at most `maxPages` requests. */
  function History(fetchPage: Option<string> -> seq<AddressTx>, maxPages: nat): seq<AddressTx>
  {
    Dedupe(Stream(PagingAfter(fetchPage, maxPages).pages))
  }

  /** The records of every output of the history, as `fetchOutputs` returns them. */
  function OutputsFor(fetchChunk: seq<string> -> seq<OutputData>, txs: seq<AddressTx>): seq<OutputData>
  {
    Fetched(fetchChunk, Chunked(OutputIds(txs), CHUNK_SIZE))
  }

  /** The steps every listing takes before filtering: page through the history, build
      the spent set (`onlyFrom` restricts it to inputs that spent the address's own
      outputs), name the outputs, and return no records when there are none to fetch. */
  method Gather(fetchPage: Option<string> -> seq<AddressTx>, maxPages: nat,
                fetchChunk: seq<string> -> seq<OutputData>, onlyFrom: Option<string>)
    returns (outputs: seq<OutputData>, spent: set<string>)
    ensures outputs == OutputsFor(fetchChunk, History(fetchPage, maxPages))
    ensures spent == SpentOutpoints(History(fetchPage, maxPages), onlyFrom)
  {
    var allTxs, pages := FetchAllTransactions(fetchPage, maxPages);
    spent := CollectSpentOutpoints(allTxs, onlyFrom);
    var outputIds := CollectOutputIds(allTxs);
    if |outputIds| == 0 {
      return [], spent;
    }
    var requests;
    outputs, requests := FetchOutputs.FetchOutputs(outputIds, fetchChunk);
  }

  /** `s.startsWith(prefix)`. */
  predicate StartsWith(s: string, prefix: string)
  {
    |prefix| <= |s| && s[..|prefix|] == prefix
  }

  /** The outputs the bones, stones and tickers listings pass over: spent ones, and ones
      whose script text starts with `OP_RETURN` (an output without script text is
      kept). */
  predicate Skipped(out: OutputData, spent: set<string>)
  {
    out.output in spent || (out.scriptPubkey.Some? && StartsWith(out.scriptPubkey.value, "OP_RETURN"))
  }
}
