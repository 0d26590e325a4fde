/** `listBones`: one entry per bone balance held by an unspent output of the queried
    address, optionally restricted to one ticker; and the two thin delegations
    `transferBones` and `unwrapStones`. */
module Bones {
  import opened Wrappers
  import opened Seqs
  import opened Encoding
  import opened Types
  import opened AddressHistory
  import opened FetchOutputs
  import opened Listing
  import opened TxTypes
  import opened TxUtils
  import TransferTx
  import UnwrapTx

  /** A listed balance; `amount` is the indexed amount as BigNumber prints it. */
  datatype BoneEntry = BoneEntry(ticker: string, symbol: string, amount: string, divisibility: nat,
                                 output: string, address: Option<string>, value: nat)

  /** `ticker && boneTicker !== ticker` fails: no ticker (or the empty one) lets every
      balance through, otherwise only balances of that ticker. */
  predicate TickerWanted(boneTicker: string, ticker: Option<string>)
  {
    ticker.None? || ticker.value == "" || boneTicker == ticker.value
  }

  /** 10^21: from this value on, a BigNumber with the default `EXPONENTIAL_AT` of 20
      prints in exponential notation. */
  const EXPONENTIAL_LIMIT: nat := 1000000000000000000000

  /** The digits of `s` without its trailing zeros. */
  function DropTrailingZeros(s: string): (r: string)
    ensures |r| <= |s| && r == s[..|r|]
    ensures forall i :: |r| <= i < |s| ==> s[i] == '0'
    ensures r == [] || r[|r| - 1] != '0'
  {
    if s != [] && s[|s| - 1] == '0' then DropTrailingZeros(s[..|s| - 1]) else s
  }

  /** `amount.toString()` on the BigNumber the fetched balance was read into: plain
      decimal digits below 10^21, otherwise the leading digit, the remaining digits
      without trailing zeros after a point, and `e+` with the exponent. */
  function AmountText(n: nat): string
  {
    DecimalDigits(n);
    var d := Decimal(n);
    if n < EXPONENTIAL_LIMIT then d
    else
      var frac := DropTrailingZeros(d[1..]);
      [d[0]] + (if frac == [] then "" else "." + frac) + "e+" + Decimal(|d| - 1)
  }

  /** The text reads back as the amount exactly when it is below 10^21; the exponential
      form is not a run of digits. */
  lemma AmountTextParse(n: nat)
    ensures ParseDecimal(AmountText(n)) == if n < EXPONENTIAL_LIMIT then Some(n) else None
  {
    DecimalDigits(n);
    if n < EXPONENTIAL_LIMIT {
      DecimalRoundTrip(n);
    } else {
      var d := Decimal(n);
      var frac := DropTrailingZeros(d[1..]);
      var head := [d[0]] + (if frac == [] then "" else "." + frac);
      assert AmountText(n) == head + "e+" + Decimal(|d| - 1);
      assert AmountText(n)[|head|] == 'e';
      assert !IsDigit(AmountText(n)[|head|]);
    }
  }

  /** Every balance of the fetched outputs is below 10^21, so all print as digits. */
  predicate AmountsBelowLimit(outputs: seq<OutputData>)
  {
    forall i, j :: 0 <= i < |outputs| && 0 <= j < |outputs[i].bones| ==> outputs[i].bones[j].amount < EXPONENTIAL_LIMIT
  }

  /** The entry of balance `b` on output `out`; its address is `out.address || null`,
      where `out.address` is the queried one. */
  function EntryOf(out: OutputData, b: BoneBalance, address: string): BoneEntry
  {
    BoneEntry(b.ticker, b.symbol, AmountText(b.amount), b.divisibility, out.output,
              if address == "" then None else Some(address), out.value)
  }

  /** The entries of one output's balances `bones`, in key order: none unless the output
      belongs to the queried address. */
  function BalanceEntries(out: OutputData, bones: seq<BoneBalance>, address: string, ticker: Option<string>)
    : seq<BoneEntry>
  {
    if bones == [] then []
    else
      var b := bones[|bones| - 1];
      BalanceEntries(out, bones[..|bones| - 1], address, ticker)
      + (if out.address == Some(address) && TickerWanted(b.ticker, ticker) then [EntryOf(out, b, address)] else [])
  }

  /** `bonesList`: the entries of every output that is neither spent nor an OP_RETURN
      output, output by output. */
  function BonesList(outputs: seq<OutputData>, spent: set<string>, address: string, ticker: Option<string>)
    : seq<BoneEntry>
  {
    if outputs == [] then []
    else
      var out := outputs[|outputs| - 1];
      BonesList(outputs[..|outputs| - 1], spent, address, ticker)
      + (if Skipped(out, spent) then [] else BalanceEntries(out, out.bones, address, ticker))
  }

  /** The loop over the fetched outputs and, inside it, over each output's balances. */
  method CollectBones(outputs: seq<OutputData>, spent: set<string>, address: string, ticker: Option<string>)
    returns (bonesList: seq<BoneEntry>)
    ensures bonesList == BonesList(outputs, spent, address, ticker)
  {
    bonesList := [];
    for i := 0 to |outputs|
      invariant bonesList == BonesList(outputs[..i], spent, address, ticker)
    {
      var out := outputs[i];
      assert outputs[..i + 1] == outputs[..i] + [out];
      BonesAppend(outputs[..i], out, spent, address, ticker);
      if out.output in spent {
        continue;
      }
      if out.scriptPubkey.Some? && StartsWith(out.scriptPubkey.value, "OP_RETURN") {
        continue;
      }
      if |out.bones| > 0 {
        bonesList := AppendBalances(bonesList, out, address, ticker);
      }
    }
    assert outputs[..|outputs|] == outputs;
  }

  /** The inner loop over one output's balances, appending the wanted ones. */
  method AppendBalances(bonesList: seq<BoneEntry>, out: OutputData, address: string, ticker: Option<string>)
    returns (bonesList': seq<BoneEntry>)
    ensures bonesList' == bonesList + BalanceEntries(out, out.bones, address, ticker)
  {
    bonesList' := bonesList;
    for j := 0 to |out.bones|
      invariant bonesList' == bonesList + BalanceEntries(out, out.bones[..j], address, ticker)
    {
      BalanceEntriesStep(out, out.bones, j, address, ticker);
      ghost var listed := BalanceEntries(out, out.bones[..j], address, ticker);
      var boneData := out.bones[j];
      if out.address != Some(address) {
        continue;
      }
      if ticker.Some? && ticker.value != "" && boneData.ticker != ticker.value {
        assert !TickerWanted(boneData.ticker, ticker);
        continue;
      }
      assert TickerWanted(boneData.ticker, ticker);
      ghost var entry := BoneEntry(boneData.ticker, boneData.symbol, AmountText(boneData.amount),
                                   boneData.divisibility, out.output,
                                   if address == "" then None else Some(address), out.value);
      assert entry == EntryOf(out, boneData, address);
      bonesList' := bonesList' + [BoneEntry(boneData.ticker, boneData.symbol, AmountText(boneData.amount),
                                            boneData.divisibility, out.output,
                                            if address == "" then None else Some(address), out.value)];
      ConcatAssoc(bonesList, listed, [entry]);
    }
    assert out.bones[..|out.bones|] == out.bones;
  }

  lemma BalanceEntriesStep(out: OutputData, bones: seq<BoneBalance>, j: nat, address: string, ticker: Option<string>)
    requires j < |bones|
    ensures BalanceEntries(out, bones[..j + 1], address, ticker)
         == BalanceEntries(out, bones[..j], address, ticker)
            + (if out.address == Some(address) && TickerWanted(bones[j].ticker, ticker)
               then [EntryOf(out, bones[j], address)] else [])
  {
    assert bones[..j + 1][..j] == bones[..j];
  }

  /** `listBones(address, ticker)` over the explorer's pages and output records. Only
      inputs that spent one of the address's own outputs count as spending. */
  method ListBones(address: string, ticker: Option<string>, fetchPage: Option<string> -> seq<AddressTx>,
                   maxPages: nat, fetchChunk: seq<string> -> seq<OutputData>)
    returns (bonesList: seq<BoneEntry>)
    ensures var txs := History(fetchPage, maxPages);
      bonesList == BonesList(OutputsFor(fetchChunk, txs), SpentOutpoints(txs, Some(address)), address, ticker)
  {
    var outputs, spent := Gather(fetchPage, maxPages, fetchChunk, Some(address));
    bonesList := CollectBones(outputs, spent, address, ticker);
  }

  lemma {:induction false} BalanceEntriesMembership(out: OutputData, bones: seq<BoneBalance>, address: string,
                                                    ticker: Option<string>, e: BoneEntry)
    ensures e in BalanceEntries(out, bones, address, ticker) <==>
      out.address == Some(address) && exists j :: 0 <= j < |bones| && TickerWanted(bones[j].ticker, ticker)
                                                  && e == EntryOf(out, bones[j], address)
  {
    if bones != [] {
      var n := |bones| - 1;
      BalanceEntriesMembership(out, bones[..n], address, ticker, e);
      assert forall j :: 0 <= j < n ==> bones[..n][j] == bones[j];
    }
  }

  /** `e` is among the entries of the unskipped output `outputs[i]`. */
  predicate ListedAt(outputs: seq<OutputData>, spent: set<string>, address: string, ticker: Option<string>,
                     i: int, e: BoneEntry)
  {
    0 <= i < |outputs| && !Skipped(outputs[i], spent) && e in BalanceEntries(outputs[i], outputs[i].bones, address, ticker)
  }

  /** An entry is listed exactly when it is among the entries of some unskipped output. */
  lemma {:induction false} BonesPieces(outputs: seq<OutputData>, spent: set<string>, address: string,
                                       ticker: Option<string>, e: BoneEntry)
    ensures e in BonesList(outputs, spent, address, ticker) <==> exists i :: ListedAt(outputs, spent, address, ticker, i, e)
  {
    if outputs != [] {
      var n := |outputs| - 1;
      BonesPieces(outputs[..n], spent, address, ticker, e);
      PiecesForward(outputs, outputs[..n], spent, address, ticker, e);
      PiecesBackward(outputs, outputs[..n], spent, address, ticker, e);
    }
  }

  lemma PiecesForward(outputs: seq<OutputData>, init: seq<OutputData>, spent: set<string>, address: string,
                      ticker: Option<string>, e: BoneEntry)
    requires outputs != [] && init == outputs[..|outputs| - 1]
    requires e in BonesList(init, spent, address, ticker) ==> exists i :: ListedAt(init, spent, address, ticker, i, e)
    ensures e in BonesList(outputs, spent, address, ticker) ==> exists i :: ListedAt(outputs, spent, address, ticker, i, e)
  {
    var n := |init|;
    if e in BonesList(init, spent, address, ticker) {
      var i :| ListedAt(init, spent, address, ticker, i, e);
      assert init[i] == outputs[i];
      assert ListedAt(outputs, spent, address, ticker, i, e);
    } else if e in BonesList(outputs, spent, address, ticker) {
      assert ListedAt(outputs, spent, address, ticker, n, e);
    }
  }

  lemma PiecesBackward(outputs: seq<OutputData>, init: seq<OutputData>, spent: set<string>, address: string,
                       ticker: Option<string>, e: BoneEntry)
    requires outputs != [] && init == outputs[..|outputs| - 1]
    requires (exists i :: ListedAt(init, spent, address, ticker, i, e)) ==> e in BonesList(init, spent, address, ticker)
    ensures (exists i :: ListedAt(outputs, spent, address, ticker, i, e)) ==> e in BonesList(outputs, spent, address, ticker)
  {
    var n := |init|;
    var out := outputs[n];
    var piece := if Skipped(out, spent) then [] else BalanceEntries(out, out.bones, address, ticker);
    SplitLast(outputs);
    BonesAppend(init, out, spent, address, ticker);
    if exists i :: ListedAt(outputs, spent, address, ticker, i, e) {
      var i :| ListedAt(outputs, spent, address, ticker, i, e);
      if i < n {
        assert init[i] == outputs[i];
        assert ListedAt(init, spent, address, ticker, i, e);
      } else {
        assert e in piece;
      }
    }
  }

  /** An entry is listed exactly when some unskipped output of the queried address holds
      a wanted balance that the entry describes. */
  lemma BonesMembership(outputs: seq<OutputData>, spent: set<string>, address: string,
                        ticker: Option<string>, e: BoneEntry)
    ensures e in BonesList(outputs, spent, address, ticker) <==>
      exists i, j :: 0 <= i < |outputs| && 0 <= j < |outputs[i].bones| && !Skipped(outputs[i], spent)
                     && outputs[i].address == Some(address) && TickerWanted(outputs[i].bones[j].ticker, ticker)
                     && e == EntryOf(outputs[i], outputs[i].bones[j], address)
  {
    BonesPieces(outputs, spent, address, ticker, e);
    if e in BonesList(outputs, spent, address, ticker) {
      var i :| ListedAt(outputs, spent, address, ticker, i, e);
      BalanceEntriesMembership(outputs[i], outputs[i].bones, address, ticker, e);
    }
    if exists i, j :: 0 <= i < |outputs| && 0 <= j < |outputs[i].bones| && !Skipped(outputs[i], spent)
                      && outputs[i].address == Some(address) && TickerWanted(outputs[i].bones[j].ticker, ticker)
                      && e == EntryOf(outputs[i], outputs[i].bones[j], address) {
      var i, j :| 0 <= i < |outputs| && 0 <= j < |outputs[i].bones| && !Skipped(outputs[i], spent)
                  && outputs[i].address == Some(address) && TickerWanted(outputs[i].bones[j].ticker, ticker)
                  && e == EntryOf(outputs[i], outputs[i].bones[j], address);
      BalanceEntriesMembership(outputs[i], outputs[i].bones, address, ticker, e);
      assert ListedAt(outputs, spent, address, ticker, i, e);
    }
  }

  /** What every entry carries: the given ticker when one is given, the queried address
      (null for the empty one), an unspent non-OP_RETURN output's name and value, and,
      when every balance is below 10^21, an amount written as decimal digits. */
  lemma BonesEntryFacts(outputs: seq<OutputData>, spent: set<string>, address: string, ticker: Option<string>,
                        e: BoneEntry)
    requires e in BonesList(outputs, spent, address, ticker)
    ensures ticker.Some? && ticker.value != "" ==> e.ticker == ticker.value
    ensures e.address == if address == "" then None else Some(address)
    ensures e.output !in spent
    ensures exists i :: 0 <= i < |outputs| && !Skipped(outputs[i], spent) && outputs[i].address == Some(address)
                        && e.output == outputs[i].output && e.value == outputs[i].value
    ensures AmountsBelowLimit(outputs) ==> ParseDecimal(e.amount).Some?
  {
    BonesMembership(outputs, spent, address, ticker, e);
    var i, j :| 0 <= i < |outputs| && 0 <= j < |outputs[i].bones| && !Skipped(outputs[i], spent)
                && outputs[i].address == Some(address) && TickerWanted(outputs[i].bones[j].ticker, ticker)
                && e == EntryOf(outputs[i], outputs[i].bones[j], address);
    AmountTextParse(outputs[i].bones[j].amount);
  }

  /** The listing keeps output order: two runs of outputs list as the two listings one
      after the other. */
  lemma {:induction false} BonesConcat(a: seq<OutputData>, b: seq<OutputData>, spent: set<string>, address: string,
                                       ticker: Option<string>)
    ensures BonesList(a + b, spent, address, ticker) == BonesList(a, spent, address, ticker) + BonesList(b, spent, address, ticker)
    decreases |b|
  {
    if b == [] {
      assert a + b == a;
    } else {
      var n := |b| - 1;
      var init, last := b[..n], b[n];
      var e := if Skipped(last, spent) then [] else BalanceEntries(last, last.bones, address, ticker);
      assert a + b == (a + init) + [last];
      SplitLast(b);
      calc {
        BonesList(a + b, spent, address, ticker);
        { BonesAppend(a + init, last, spent, address, ticker); }
        BonesList(a + init, spent, address, ticker) + e;
        { BonesConcat(a, init, spent, address, ticker); }
        (BonesList(a, spent, address, ticker) + BonesList(init, spent, address, ticker)) + e;
        { ConcatAssoc(BonesList(a, spent, address, ticker), BonesList(init, spent, address, ticker), e); }
        BonesList(a, spent, address, ticker) + (BonesList(init, spent, address, ticker) + e);
        { BonesAppend(init, last, spent, address, ticker); }
        BonesList(a, spent, address, ticker) + BonesList(b, spent, address, ticker);
      }
    }
  }

  lemma BonesAppend(s: seq<OutputData>, out: OutputData, spent: set<string>, address: string, ticker: Option<string>)
    ensures BonesList(s + [out], spent, address, ticker)
         == BonesList(s, spent, address, ticker) + (if Skipped(out, spent) then [] else BalanceEntries(out, out.bones, address, ticker))
  {
    assert (s + [out])[..|s|] == s;
  }

  /** `transferBones`: `createBoneTransferTransaction` with the same arguments. */
  method TransferBones(boneId: BoneId, amount: nat, receiver: string, fundingUtxos: seq<Utxo>, boneUtxos: seq<Utxo>,
                       w: Wallet, protocolOpcode: byte)
    returns (r: Result<Tx>)
    ensures r == TransferTx.TransferTxOf(boneId, amount, receiver, fundingUtxos, boneUtxos, w, protocolOpcode)
  {
    r := TransferTx.CreateBoneTransferTransaction(boneId, amount, receiver, fundingUtxos, boneUtxos, w, protocolOpcode);
  }

  /** `unwrapStones`: `createBonestoneUnwrap` with the same arguments. */
  method UnwrapStones(utxosToBurn: seq<Utxo>, fundingUtxos: seq<Utxo>, w: Wallet) returns (r: Result<Tx>)
    ensures r == UnwrapTx.UnwrapTxOf(utxosToBurn, fundingUtxos, w)
  {
    r := UnwrapTx.CreateBonestoneUnwrap(utxosToBurn, fundingUtxos, w);
  }
}
