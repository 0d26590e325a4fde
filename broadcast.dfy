/** Broadcasting: each record's hex is posted to the node, one at a time and in order;
    the records whose post was accepted are returned. The node's replies are given as
    inputs, one per post. */
module Broadcast {
  import opened Wrappers
  import opened TxTypes
  import opened Records

  /** The node's reply to one post: whether the response was OK, and its body text. */
  datatype Response = Response(ok: bool, text: string)

  const POST_ERROR_PREFIX := "Failed to post transaction: "

  /** `postTransactionRaw`: the response body, or an error carrying it when the response
      is not OK. */
  function PostTransactionRaw(txhex: string, response: Response): (r: Result<string>)
    ensures r.Ok? <==> response.ok
    ensures r.Ok? ==> r.value == response.text
    ensures r.Err? ==> r.error == POST_ERROR_PREFIX + response.text
  {
    if !response.ok then Err(POST_ERROR_PREFIX + response.text) else Ok(response.text)
  }

  /** The items whose reply was OK, in their order; defined from the right end like the
      loop that pushes them. */
  function Accepted<T>(items: seq<T>, responses: seq<Response>): seq<T>
    requires |responses| == |items|
  {
    if items == [] then []
    else
      var n := |items| - 1;
      Accepted(items[..n], responses[..n]) + (if responses[n].ok then [items[n]] else [])
  }

  /** `postTransactions`: posts every record's hex in input order (`requests`), never
      stopping at a rejection, and returns the accepted records. Broadcasting changes no
      record. */
  method PostTransactions(transactions: seq<TransactionRecord>, responses: seq<Response>)
    returns (posted: seq<TransactionRecord>, requests: seq<string>)
    requires |responses| == |transactions|
    ensures posted == Accepted(transactions, responses)
    ensures |requests| == |transactions|
    ensures forall i :: 0 <= i < |transactions| ==> requests[i] == transactions[i].tx.hex
  {
    posted := [];
    requests := [];
    for i := 0 to |transactions|
      invariant posted == Accepted(transactions[..i], responses[..i])
      invariant |requests| == i
      invariant forall j :: 0 <= j < i ==> requests[j] == transactions[j].tx.hex
    {
      var tx := transactions[i];
      requests := requests + [tx.tx.hex];
      var response := responses[i];
      assert transactions[..i + 1][..i] == transactions[..i];
      assert responses[..i + 1][..i] == responses[..i];
      if response.ok {
        posted := posted + [tx];
      }
    }
    assert transactions[..|transactions|] == transactions;
    assert responses[..|responses|] == responses;
  }

  /** An item is returned exactly when one of its posts was accepted. */
  lemma {:induction false} AcceptedMembership<T>(items: seq<T>, responses: seq<Response>, x: T)
    requires |responses| == |items|
    ensures x in Accepted(items, responses) <==> exists i :: 0 <= i < |items| && items[i] == x && responses[i].ok
  {
    if items != [] {
      var n := |items| - 1;
      AcceptedMembership(items[..n], responses[..n], x);
      assert forall i :: 0 <= i < n ==> items[..n][i] == items[i] && responses[..n][i] == responses[i];
    }
  }

  /** The number of items returned is the number of accepted posts. */
  function CountOk(responses: seq<Response>): nat
  {
    if responses == [] then 0
    else CountOk(responses[..|responses| - 1]) + (if responses[|responses| - 1].ok then 1 else 0)
  }

  lemma {:induction false} AcceptedLength<T>(items: seq<T>, responses: seq<Response>)
    requires |responses| == |items|
    ensures |Accepted(items, responses)| == CountOk(responses) <= |items|
  {
    if items != [] {
      AcceptedLength(items[..|items| - 1], responses[..|responses| - 1]);
    }
  }

  /** Order-preserving: the result of a concatenation is the results of the two parts,
      concatenated, so earlier accepted items always come first. */
  lemma {:induction false} AcceptedConcat<T>(a: seq<T>, ra: seq<Response>, b: seq<T>, rb: seq<Response>)
    requires |ra| == |a| && |rb| == |b|
    ensures Accepted(a + b, ra + rb) == Accepted(a, ra) + Accepted(b, rb)
    decreases |b|
  {
    if b == [] {
      assert a + b == a && ra + rb == ra;
    } else {
      var n := |b| - 1;
      assert (a + b)[..|a| + n] == a + b[..n];
      assert (ra + rb)[..|ra| + n] == ra + rb[..n];
      AcceptedConcat(a, ra, b[..n], rb[..n]);
      assert (a + b)[|a| + n] == b[n] && (ra + rb)[|ra| + n] == rb[n];
    }
  }

  /** All replies OK: everything is returned; all rejected: nothing is. */
  lemma {:induction false} AcceptedExtremes<T>(items: seq<T>, responses: seq<Response>)
    requires |responses| == |items|
    ensures (forall i :: 0 <= i < |responses| ==> responses[i].ok) ==> Accepted(items, responses) == items
    ensures (forall i :: 0 <= i < |responses| ==> !responses[i].ok) ==> Accepted(items, responses) == []
  {
    if items != [] {
      var n := |items| - 1;
      AcceptedExtremes(items[..n], responses[..n]);
      assert items == items[..n] + [items[n]];
    }
  }
}
