/** Bookkeeping of unspent outputs between chained transactions: the outputs a new
    transaction creates, and the funding outputs it leaves unspent. */
module Utxos {
  import opened Encoding
  import opened Types
  import opened TxTypes
  import opened Seqs

  /** `getUtxosForTxHex({txHex})`: one unconfirmed UTXO per output of the transaction,
      numbered by position. The transaction is given already parsed. */
  function UtxosForTx(tx: Tx): (r: seq<Utxo>)
    ensures |r| == |tx.outputs|
    ensures forall i :: 0 <= i < |r| ==>
      r[i].txid == tx.id && r[i].vout == i && r[i].value == tx.outputs[i] && !r[i].confirmed
  {
    seq(|tx.outputs|, i requires 0 <= i < |tx.outputs| => Utxo(tx.id, i, tx.outputs[i], false))
  }

  /** The `txid:vout` key of a funding UTXO. */
  function UtxoKey(u: Utxo): string
  {
    u.txid + ":" + Decimal(u.vout)
  }

  /** The `txid:index` key of a transaction input, with the txid hex-encoded. */
  function InputKey(o: OutPoint): string
  {
    HexEncode(o.txid) + ":" + Decimal(o.index)
  }

  /** The set `inputUtxoIds`. */
  function InputKeys(inputs: seq<OutPoint>): set<string>
  {
    if inputs == [] then {}
    else InputKeys(inputs[..|inputs| - 1]) + {InputKey(inputs[|inputs| - 1])}
  }

  /** The set holds the key of every input and nothing else. */
  lemma {:induction false} InputKeysMembership(inputs: seq<OutPoint>, k: string)
    ensures k in InputKeys(inputs) <==> exists i :: 0 <= i < |inputs| && InputKey(inputs[i]) == k
  {
    if inputs != [] {
      var init := inputs[..|inputs| - 1];
      InputKeysMembership(init, k);
      assert forall i :: 0 <= i < |init| ==> init[i] == inputs[i];
    }
  }

  /** The loop over `tx.inputsLength` adding each input's key. */
  method CollectInputKeys(inputs: seq<OutPoint>) returns (keys: set<string>)
    ensures keys == InputKeys(inputs)
  {
    keys := {};
    var i := 0;
    while i < |inputs|
      invariant i <= |inputs|
      invariant keys == InputKeys(inputs[..i])
    {
      assert inputs[..i + 1][..i] == inputs[..i];
      keys := keys + {InputKey(inputs[i])};
      i := i + 1;
    }
    assert inputs[..i] == inputs;
  }

  /** The funding UTXOs whose key is not among the spent keys, in their order. */
  function UnusedFunding(funding: seq<Utxo>, keys: set<string>): seq<Utxo>
  {
    if funding == [] then []
    else
      UnusedFunding(funding[..|funding| - 1], keys)
      + (if UtxoKey(funding[|funding| - 1]) !in keys then [funding[|funding| - 1]] else [])
  }

  /** `getFundingUtxosAfterTx({tx, fundingUtxos})`. */
  method GetFundingUtxosAfterTx(tx: Tx, fundingUtxos: seq<Utxo>)
    returns (unusedFundingUtxos: seq<Utxo>, txOutputs: seq<Utxo>)
    ensures unusedFundingUtxos == UnusedFunding(fundingUtxos, InputKeys(tx.inputs))
    ensures txOutputs == UtxosForTx(tx)
  {
    var inputUtxoIds := CollectInputKeys(tx.inputs);
    txOutputs := UtxosForTx(tx);
    unusedFundingUtxos := UnusedFunding(fundingUtxos, inputUtxoIds);
  }

  /** A UTXO is kept iff it is a funding UTXO whose key is not spent. */
  lemma {:induction false} UnusedFundingMembership(funding: seq<Utxo>, keys: set<string>, u: Utxo)
    ensures u in UnusedFunding(funding, keys) <==> u in funding && UtxoKey(u) !in keys
  {
    if funding != [] {
      UnusedFundingMembership(funding[..|funding| - 1], keys, u);
      SplitLast(funding);
    }
  }

  /** Filtering never adds UTXOs. */
  lemma {:induction false} UnusedFundingLength(funding: seq<Utxo>, keys: set<string>)
    ensures |UnusedFunding(funding, keys)| <= |funding|
  {
    if funding != [] {
      UnusedFundingLength(funding[..|funding| - 1], keys);
    }
  }

  /** With no spent keys nothing is removed. */
  lemma {:induction false} UnusedFundingNoKeys(funding: seq<Utxo>)
    ensures UnusedFunding(funding, {}) == funding
  {
    if funding != [] {
      UnusedFundingNoKeys(funding[..|funding| - 1]);
    }
  }

  /** `a + ":" + b` splits back into `a` and `b` when `a` has no colon. */
  lemma ColonSplit(a: string, b: string, c: string, d: string)
    requires ':' !in a && ':' !in c
    requires a + ":" + b == c + ":" + d
    ensures a == c && b == d
  {
    var s := a + ":" + b;
    FirstColon(a, b);
    FirstColon(c, d);
    assert |a| == |c|;
    assert a == s[..|a|] == c;
    assert b == s[|a| + 1..] == d;
  }

  /** The first colon of `a + ":" + b` is the one after `a`. */
  lemma FirstColon(a: string, b: string)
    requires ':' !in a
    ensures forall i :: 0 <= i < |a| ==> (a + ":" + b)[i] != ':'
    ensures (a + ":" + b)[|a|] == ':'
  {
    forall i | 0 <= i < |a| ensures (a + ":" + b)[i] != ':' {
      assert (a + ":" + b)[i] == a[i];
    }
  }

  lemma DecimalInjective(m: nat, n: nat)
    requires Decimal(m) == Decimal(n)
    ensures m == n
  {
    DecimalRoundTrip(m);
    DecimalRoundTrip(n);
  }

  /** A UTXO and an input have the same key exactly when the UTXO's txid is the input's
      hex txid and the output indexes agree (txids have no colon). */
  lemma KeysMatch(u: Utxo, o: OutPoint)
    requires ':' !in u.txid
    ensures UtxoKey(u) == InputKey(o) <==> u.txid == HexEncode(o.txid) && u.vout == o.index
  {
    if UtxoKey(u) == InputKey(o) {
      HexEncodeHasNoColon(o.txid);
      ColonSplit(u.txid, Decimal(u.vout), HexEncode(o.txid), Decimal(o.index));
      DecimalInjective(u.vout, o.index);
    }
  }

  /** The unused list drops exactly the funding UTXOs that the transaction spends, and
      keeps every other one. */
  lemma UnusedFundingSpec(tx: Tx, funding: seq<Utxo>, u: Utxo)
    requires ':' !in u.txid
    ensures u in UnusedFunding(funding, InputKeys(tx.inputs)) <==>
      u in funding && forall i :: 0 <= i < |tx.inputs| ==>
        !(u.txid == HexEncode(tx.inputs[i].txid) && u.vout == tx.inputs[i].index)
  {
    UnusedFundingMembership(funding, InputKeys(tx.inputs), u);
    InputKeysMembership(tx.inputs, UtxoKey(u));
    forall i | 0 <= i < |tx.inputs| {
      KeysMatch(u, tx.inputs[i]);
    }
  }

  /** The outputs of one transaction have distinct keys. */
  lemma UtxosForTxDistinct(tx: Tx, i: nat, j: nat)
    requires ':' !in tx.id
    requires i < j < |tx.outputs|
    ensures UtxoKey(UtxosForTx(tx)[i]) != UtxoKey(UtxosForTx(tx)[j])
  {
    var r := UtxosForTx(tx);
    if UtxoKey(r[i]) == UtxoKey(r[j]) {
      ColonSplit(tx.id, Decimal(i), tx.id, Decimal(j));
      DecimalInjective(i, j);
    }
  }
}
