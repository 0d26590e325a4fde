/** The address-history half of the listing commands, which the funding, bones, stones
    and tickers listings repeat word for word: paging through an address's
    transactions with duplicates dropped, building the set of spent outpoints, and
    naming every output of the fetched transactions. The explorer's pages are given by
    an oracle from the paging cursor to the page. */
module AddressHistory {
  import opened Wrappers
  import opened Encoding
  import opened Seqs

  /** A transaction input as the explorer reports it: the spent outpoint and the
      address of the spent output, when it has one. */
  datatype Vin = Vin(txid: string, vout: nat, prevoutAddress: Option<string>)

  /** A transaction of the address's history: its id, whether it is confirmed, its
      inputs and its number of outputs. */
  datatype AddressTx = AddressTx(txid: string, confirmed: bool, vin: seq<Vin>, voutCount: nat)

  predicate IsConfirmed(t: AddressTx) { t.confirmed }
  predicate IsMempool(t: AddressTx) { !t.confirmed }

  /** The order in which a page is scanned: its mempool transactions, then its chain
      transactions, each in page order. */
  function PageOrder(page: seq<AddressTx>): (r: seq<AddressTx>)
    ensures |r| == |page|
  {
    FilterSplits(page);
    Filter(page, IsMempool) + Filter(page, IsConfirmed)
  }

  /** The txid of the last chain transaction of a page, if it has one: the cursor of
      the next request. */
  function LastConfirmed(page: seq<AddressTx>): Option<string>
  {
    if page == [] then None
    else if page[|page| - 1].confirmed then Some(page[|page| - 1].txid)
    else LastConfirmed(page[..|page| - 1])
  }

  /** The cursor is the last element of the page's chain transactions, so a page
      continues exactly when it has a chain transaction. */
  lemma {:induction false} LastConfirmedIsLastChainTx(page: seq<AddressTx>)
    ensures var chainTxs := Filter(page, IsConfirmed);
      LastConfirmed(page) == if chainTxs == [] then None else Some(chainTxs[|chainTxs| - 1].txid)
  {
    if page != [] {
      LastConfirmedIsLastChainTx(page[..|page| - 1]);
    }
  }

  /** Where the paging stands after some requests: the pages fetched so far, the cursor
      of the next request, and whether the last page stopped the paging. */
  datatype Paging = Paging(pages: seq<seq<AddressTx>>, cursor: Option<string>, stopped: bool)

  /** The paging after `k` rounds. Each round requests a page with the cursor the
      previous page left; the paging stops after an empty page or a page without
      chain transactions, and rounds after that request nothing. */
  function PagingAfter(fetch: Option<string> -> seq<AddressTx>, k: nat): Paging
  {
    if k == 0 then Paging([], None, false)
    else
      var p := PagingAfter(fetch, k - 1);
      if p.stopped then p
      else
        var page := fetch(p.cursor);
        Paging(p.pages + [page], LastConfirmed(page), LastConfirmed(page).None?)
  }

  /** All fetched transactions in scanning order. */
  function Stream(pages: seq<seq<AddressTx>>): seq<AddressTx>
  {
    if pages == [] then [] else Stream(pages[..|pages| - 1]) + PageOrder(pages[|pages| - 1])
  }

  /** The txids of a list of transactions. */
  function TxIds(txs: seq<AddressTx>): set<string>
  {
    if txs == [] then {} else TxIds(txs[..|txs| - 1]) + {txs[|txs| - 1].txid}
  }

  /** The first transaction of each txid, in scanning order. */
  function Dedupe(txs: seq<AddressTx>): seq<AddressTx>
  {
    if txs == [] then []
    else
      var n := |txs| - 1;
      Dedupe(txs[..n]) + (if txs[n].txid in TxIds(txs[..n]) then [] else [txs[n]])
  }

  /** The paging loop: fetch a page, add its unseen transactions (mempool first), stop
      on an empty page or one without chain transactions, otherwise continue after its
      last chain transaction. `maxPages` bounds the number of requests. */
  method FetchAllTransactions(fetch: Option<string> -> seq<AddressTx>, maxPages: nat)
    returns (allTxs: seq<AddressTx>, pages: seq<seq<AddressTx>>)
    ensures pages == PagingAfter(fetch, maxPages).pages
    ensures allTxs == Dedupe(Stream(pages))
  {
    allTxs := [];
    var seenTxids: set<string> := {};
    var afterTxid: Option<string> := None;
    pages := [];
    for round := 0 to maxPages
      invariant PagingAfter(fetch, round) == Paging(pages, afterTxid, false)
      invariant Collected(allTxs, seenTxids, pages)
    {
      var page, next;
      page, allTxs, seenTxids, next := ScanPage(fetch, afterTxid, allTxs, seenTxids, pages);
      pages := pages + [page];
      if next.None? {
        PagingStays(fetch, round + 1, maxPages);
        return;
      }
      afterTxid := next.value;
    }
  }

  /** Once stopped, the paging requests nothing more. */
  lemma {:induction false} PagingStays(fetch: Option<string> -> seq<AddressTx>, k: nat, n: nat)
    requires k <= n
    requires PagingAfter(fetch, k).stopped
    ensures PagingAfter(fetch, n) == PagingAfter(fetch, k)
    decreases n - k
  {
    if k < n {
      PagingStays(fetch, k, n - 1);
    }
  }

  /** What the paging loop has gathered after `pages`: the first copy of each
      transaction, and their txids. */
  predicate Collected(allTxs: seq<AddressTx>, seenTxids: set<string>, pages: seq<seq<AddressTx>>)
  {
    allTxs == Dedupe(Stream(pages)) && seenTxids == TxIds(Stream(pages))
  }

  /** The request and the scan of one page. */
  method ScanPage(fetch: Option<string> -> seq<AddressTx>, afterTxid: Option<string>,
                  allTxs: seq<AddressTx>, seenTxids: set<string>, ghost pages: seq<seq<AddressTx>>)
    returns (page: seq<AddressTx>, allTxs': seq<AddressTx>, seenTxids': set<string>, next: Option<Option<string>>)
    requires Collected(allTxs, seenTxids, pages)
    ensures page == fetch(afterTxid)
    ensures Collected(allTxs', seenTxids', pages + [page])
    ensures next == if LastConfirmed(page).Some? then Some(LastConfirmed(page)) else None
  {
    page := fetch(afterTxid);
    assert (pages + [page])[..|pages|] == pages;
    assert Stream(pages + [page]) == Stream(pages) + PageOrder(page);
    if |page| == 0 {
      assert PageOrder(page) == [];
      assert Stream(pages) + [] == Stream(pages);
      return page, allTxs, seenTxids, None;
    }
    var chainTxs := Filter(page, IsConfirmed);
    var mempoolTxs := Filter(page, IsMempool);
    LastConfirmedIsLastChainTx(page);
    allTxs', seenTxids' := AddUnseen(allTxs, seenTxids, mempoolTxs + chainTxs, Stream(pages));
    if |chainTxs| == 0 {
      next := None;
    } else {
      next := Some(Some(chainTxs[|chainTxs| - 1].txid));
    }
  }

  /** The inner `for ... of [...mempoolTxs, ...chainTxs]` loop: a transaction whose txid
      was not seen yet is added and its txid recorded. */
  method AddUnseen(allTxs: seq<AddressTx>, seenTxids: set<string>, ordered: seq<AddressTx>, ghost stream: seq<AddressTx>)
    returns (allTxs': seq<AddressTx>, seenTxids': set<string>)
    requires allTxs == Dedupe(stream) && seenTxids == TxIds(stream)
    ensures allTxs' == Dedupe(stream + ordered) && seenTxids' == TxIds(stream + ordered)
  {
    allTxs', seenTxids' := allTxs, seenTxids;
    assert stream + ordered[..0] == stream;
    for j := 0 to |ordered|
      invariant allTxs' == Dedupe(stream + ordered[..j]) && seenTxids' == TxIds(stream + ordered[..j])
    {
      var tx := ordered[j];
      ghost var prefix := stream + ordered[..j];
      PrefixSnoc(stream, ordered, j);
      DedupeStep(prefix, tx);
      if tx.txid !in seenTxids' {
        seenTxids' := seenTxids' + {tx.txid};
        allTxs' := allTxs' + [tx];
      }
    }
    assert ordered[..|ordered|] == ordered;
  }

  /** One more transaction: kept when its txid is new, and its txid recorded. */
  lemma DedupeStep(prefix: seq<AddressTx>, tx: AddressTx)
    ensures Dedupe(prefix + [tx]) == Dedupe(prefix) + (if tx.txid in TxIds(prefix) then [] else [tx])
    ensures TxIds(prefix + [tx]) == TxIds(prefix) + {tx.txid}
  {
    assert (prefix + [tx])[..|prefix|] == prefix;
  }

  lemma {:induction false} FilterSplits(page: seq<AddressTx>)
    ensures |Filter(page, IsMempool)| + |Filter(page, IsConfirmed)| == |page|
  {
    if page != [] {
      FilterSplits(page[..|page| - 1]);
    }
  }

  /** The shape of the paging: the first request has no cursor, every page but the last
      has a chain transaction and the next page was requested with its last one, at
      most `k` pages are requested, and when fewer were, or the paging has stopped, the
      last page ended it. */
  lemma {:induction false} PagingShape(fetch: Option<string> -> seq<AddressTx>, k: nat)
    ensures var p := PagingAfter(fetch, k);
      |p.pages| <= k
      && (k > 0 ==> |p.pages| > 0 && p.pages[0] == fetch(None))
      && (forall j :: 0 <= j < |p.pages| - 1 ==>
            LastConfirmed(p.pages[j]).Some? && p.pages[j + 1] == fetch(LastConfirmed(p.pages[j])))
      && (p.stopped || |p.pages| < k ==> |p.pages| > 0 && LastConfirmed(p.pages[|p.pages| - 1]).None?)
      && (!p.stopped ==> |p.pages| == k && p.cursor == if k == 0 then None else LastConfirmed(p.pages[k - 1]))
  {
    if k > 0 {
      PagingShape(fetch, k - 1);
      var q := PagingAfter(fetch, k - 1);
      if !q.stopped {
        var page := fetch(q.cursor);
        var pages := q.pages + [page];
        assert forall j :: 0 <= j < |q.pages| ==> pages[j] == q.pages[j];
      }
    }
  }

  /** A txid is seen exactly when some transaction of the list has it. */
  lemma {:induction false} TxIdsMembership(txs: seq<AddressTx>, id: string)
    ensures id in TxIds(txs) <==> exists i :: 0 <= i < |txs| && txs[i].txid == id
  {
    if txs != [] {
      var n := |txs| - 1;
      TxIdsMembership(txs[..n], id);
      assert forall i :: 0 <= i < n ==> txs[..n][i] == txs[i];
    }
  }

  /** Deduplication keeps every txid exactly once: the kept transactions come from the
      list, their txids are the list's txids, and no two of them share a txid. */
  lemma DedupeProperties(txs: seq<AddressTx>)
    ensures forall t :: t in Dedupe(txs) ==> t in txs
    ensures TxIds(Dedupe(txs)) == TxIds(txs)
    ensures forall i, j :: 0 <= i < j < |Dedupe(txs)| ==> Dedupe(txs)[i].txid != Dedupe(txs)[j].txid
  {
    DedupeFromList(txs);
    DedupeTxIds(txs);
    DedupeDistinct(txs);
  }

  lemma {:induction false} DedupeFromList(txs: seq<AddressTx>)
    ensures forall t :: t in Dedupe(txs) ==> t in txs
  {
    if txs != [] {
      var n := |txs| - 1;
      DedupeFromList(txs[..n]);
      assert forall t :: t in txs[..n] ==> t in txs;
    }
  }

  lemma {:induction false} DedupeTxIds(txs: seq<AddressTx>)
    ensures TxIds(Dedupe(txs)) == TxIds(txs)
  {
    if txs != [] {
      var n := |txs| - 1;
      var init := txs[..n];
      DedupeTxIds(init);
      var d := Dedupe(init);
      assert TxIds(txs) == TxIds(init) + {txs[n].txid};
      if txs[n].txid !in TxIds(init) {
        assert Dedupe(txs) == d + [txs[n]];
        DedupeStep(d, txs[n]);
      } else {
        assert Dedupe(txs) == d;
      }
    }
  }

  lemma {:induction false} DedupeDistinct(txs: seq<AddressTx>)
    ensures forall i, j :: 0 <= i < j < |Dedupe(txs)| ==> Dedupe(txs)[i].txid != Dedupe(txs)[j].txid
  {
    if txs != [] {
      var n := |txs| - 1;
      var init := txs[..n];
      DedupeDistinct(init);
      var d := Dedupe(init);
      if txs[n].txid !in TxIds(init) {
        DedupeTxIds(init);
        forall i | 0 <= i < |d|
          ensures d[i].txid != txs[n].txid
        {
          TxIdsMembership(d, d[i].txid);
        }
        DistinctSnoc(d, txs[n]);
      }
    }
  }

  lemma DistinctSnoc(d: seq<AddressTx>, tx: AddressTx)
    requires forall i, j :: 0 <= i < j < |d| ==> d[i].txid != d[j].txid
    requires forall i :: 0 <= i < |d| ==> d[i].txid != tx.txid
    ensures var d' := d + [tx];
      forall i, j :: 0 <= i < j < |d'| ==> d'[i].txid != d'[j].txid
  {
  }

  /** A transaction is kept exactly when no earlier transaction has its txid, so of
      a tx seen first in the mempool and again on chain, the mempool copy is kept. */
  lemma {:induction false} DedupeKeepsFirst(txs: seq<AddressTx>, k: nat)
    requires k < |txs|
    ensures txs[k] in Dedupe(txs) <== txs[k].txid !in TxIds(txs[..k])
  {
    var n := |txs| - 1;
    if k == n {
    } else {
      assert txs[..n][..k] == txs[..k];
      DedupeKeepsFirst(txs[..n], k);
    }
  }

  /** The key `txid:vout` of an outpoint. */
  function OutpointKey(txid: string, vout: nat): string
  {
    txid + ":" + Decimal(vout)
  }

  /** Whether an input is recorded as spending: always for the funding and stones
      listings (`onlyFrom` is None), only when the spent output was the queried
      address's for the bones and tickers listings. */
  predicate Counts(v: Vin, onlyFrom: Option<string>)
  {
    onlyFrom.None? || v.prevoutAddress == onlyFrom
  }

  function VinKeys(vin: seq<Vin>, onlyFrom: Option<string>): set<string>
  {
    if vin == [] then {}
    else
      var v := vin[|vin| - 1];
      VinKeys(vin[..|vin| - 1], onlyFrom) + (if Counts(v, onlyFrom) then {OutpointKey(v.txid, v.vout)} else {})
  }

  /** The set `spentOutpoints`. */
  function SpentOutpoints(txs: seq<AddressTx>, onlyFrom: Option<string>): set<string>
  {
    if txs == [] then {} else SpentOutpoints(txs[..|txs| - 1], onlyFrom) + VinKeys(txs[|txs| - 1].vin, onlyFrom)
  }

  /** The nested loops over every input of every transaction. */
  method CollectSpentOutpoints(allTxs: seq<AddressTx>, onlyFrom: Option<string>) returns (spent: set<string>)
    ensures spent == SpentOutpoints(allTxs, onlyFrom)
  {
    spent := {};
    for i := 0 to |allTxs|
      invariant spent == SpentOutpoints(allTxs[..i], onlyFrom)
    {
      assert allTxs[..i + 1][..i] == allTxs[..i];
      spent := AddVinKeys(spent, allTxs[i].vin, onlyFrom);
    }
    assert allTxs[..|allTxs|] == allTxs;
  }

  /** The inner loop over one transaction's inputs. */
  method AddVinKeys(spent: set<string>, vin: seq<Vin>, onlyFrom: Option<string>) returns (spent': set<string>)
    ensures spent' == spent + VinKeys(vin, onlyFrom)
  {
    spent' := spent;
    for j := 0 to |vin|
      invariant spent' == spent + VinKeys(vin[..j], onlyFrom)
    {
      assert vin[..j + 1][..j] == vin[..j];
      var input := vin[j];
      if Counts(input, onlyFrom) {
        spent' := spent' + {OutpointKey(input.txid, input.vout)};
      }
    }
    assert vin[..|vin|] == vin;
  }

  lemma {:induction false} VinKeysMembership(vin: seq<Vin>, onlyFrom: Option<string>, key: string)
    ensures key in VinKeys(vin, onlyFrom) <==>
      exists j :: 0 <= j < |vin| && Counts(vin[j], onlyFrom) && OutpointKey(vin[j].txid, vin[j].vout) == key
  {
    if vin != [] {
      var n := |vin| - 1;
      VinKeysMembership(vin[..n], onlyFrom, key);
      assert forall j :: 0 <= j < n ==> vin[..n][j] == vin[j];
    }
  }

  /** A key is spent exactly when some counted input of some fetched transaction spends
      it. */
  lemma {:induction false} SpentMembership(txs: seq<AddressTx>, onlyFrom: Option<string>, key: string)
    ensures key in SpentOutpoints(txs, onlyFrom) <==>
      exists i, j :: 0 <= i < |txs| && 0 <= j < |txs[i].vin| && Counts(txs[i].vin[j], onlyFrom)
                     && OutpointKey(txs[i].vin[j].txid, txs[i].vin[j].vout) == key
  {
    if txs != [] {
      var n := |txs| - 1;
      SpentMembership(txs[..n], onlyFrom, key);
      VinKeysMembership(txs[n].vin, onlyFrom, key);
      assert forall i :: 0 <= i < n ==> txs[..n][i] == txs[i];
    }
  }

  /** The restricted set is part of the full one. */
  lemma {:induction false} RestrictedSpentIsSmaller(txs: seq<AddressTx>, address: string)
    ensures SpentOutpoints(txs, Some(address)) <= SpentOutpoints(txs, None)
  {
    if txs != [] {
      RestrictedSpentIsSmaller(txs[..|txs| - 1], address);
      VinKeysSmaller(txs[|txs| - 1].vin, address);
    }
  }

  lemma {:induction false} VinKeysSmaller(vin: seq<Vin>, address: string)
    ensures VinKeys(vin, Some(address)) <= VinKeys(vin, None)
  {
    if vin != [] {
      VinKeysSmaller(vin[..|vin| - 1], address);
    }
  }

  /** The names `txid:index` of a transaction's outputs. */
  function TxOutputIds(t: AddressTx): (r: seq<string>)
    ensures |r| == t.voutCount
    ensures forall i :: 0 <= i < |r| ==> r[i] == OutpointKey(t.txid, i)
  {
    seq(t.voutCount, i requires 0 <= i < t.voutCount => OutpointKey(t.txid, i))
  }

  /** `outputIds`: every output of every transaction, transaction by transaction. */
  function OutputIds(txs: seq<AddressTx>): seq<string>
  {
    if txs == [] then [] else OutputIds(txs[..|txs| - 1]) + TxOutputIds(txs[|txs| - 1])
  }

  function VoutTotal(txs: seq<AddressTx>): nat
  {
    if txs == [] then 0 else VoutTotal(txs[..|txs| - 1]) + txs[|txs| - 1].voutCount
  }

  /** One id per output. */
  lemma {:induction false} OutputIdsCount(txs: seq<AddressTx>)
    ensures |OutputIds(txs)| == VoutTotal(txs)
  {
    if txs != [] {
      OutputIdsCount(txs[..|txs| - 1]);
    }
  }

  /** There are no ids exactly when no transaction has outputs. */
  lemma {:induction false} OutputIdsEmpty(txs: seq<AddressTx>)
    ensures OutputIds(txs) == [] <==> forall i :: 0 <= i < |txs| ==> txs[i].voutCount == 0
  {
    if txs != [] {
      var n := |txs| - 1;
      OutputIdsEmpty(txs[..n]);
      assert forall i :: 0 <= i < n ==> txs[..n][i] == txs[i];
    }
  }

  /** Every id names an output of a fetched transaction. */
  lemma {:induction false} OutputIdsMembership(txs: seq<AddressTx>, id: string)
    ensures id in OutputIds(txs) <==>
      exists i, k :: 0 <= i < |txs| && 0 <= k < txs[i].voutCount && id == OutpointKey(txs[i].txid, k)
  {
    if txs != [] {
      var n := |txs| - 1;
      OutputIdsMembership(txs[..n], id);
      assert forall i :: 0 <= i < n ==> txs[..n][i] == txs[i];
      var own := TxOutputIds(txs[n]);
      assert id in own <==> exists k :: 0 <= k < txs[n].voutCount && id == OutpointKey(txs[n].txid, k);
    }
  }

  /** The method that builds the `outputIds` list. */
  method CollectOutputIds(allTxs: seq<AddressTx>) returns (ids: seq<string>)
    ensures ids == OutputIds(allTxs)
  {
    ids := [];
    for i := 0 to |allTxs|
      invariant ids == OutputIds(allTxs[..i])
    {
      assert allTxs[..i + 1][..i] == allTxs[..i];
      ids := ids + TxOutputIds(allTxs[i]);
    }
    assert allTxs[..|allTxs|] == allTxs;
  }
}
