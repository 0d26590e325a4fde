/** The computations inside the command handlers: turning listing entries into UTXOs,
    the owned-balance check, the greedy choice of bone UTXOs for a transfer, the ticker
    trimming and pricing of a claim, the supply figures of a deploy, and the number of
    stones an unwrap takes. Prompts, console output, wallet access and the network calls
    around them are not part of this module. */
module CliActions {
  import opened Wrappers
  import opened Seqs
  import opened Encoding
  import opened Types
  import opened Constants
  import opened AddressHistory
  import opened Records
  import opened Bones
  import opened Stones
  import opened Tickers
  import opened UnwrapTx
  import FetchOutputs
  import Listing

  const INSUFFICIENT_BONES := "Insufficient bones!"
  const PRICE_ERROR := "Could not get sealing price!"
  const TICKER_NOT_OWNED := "Ticker not owned!"
  const DIVISION_BY_ZERO := "Division by zero"
  /** Stand-in for an output name without a numeric index, whose `NaN` index the
      signing library would refuse. */
  const OUTPUT_NAME_ERROR := "Output name has no numeric index"

  /** `10e8`, which is 10^9: the handlers record ten whole tokens per UTXO. */
  const TEN_E8: nat := 1000000000

  // ---------------------------------------------------------------------------
  // Output names back to UTXOs

  /** The text before the first colon (all of `s` when there is none). */
  function UpToColon(s: string): (r: string)
    ensures |r| <= |s| && r == s[..|r|] && ':' !in r
    ensures |r| < |s| ==> s[|r|] == ':'
  {
    if s == [] || s[0] == ':' then [] else [s[0]] + UpToColon(s[1..])
  }

  /** `const [txid, voutStr] = output.split(":")` and `parseInt(voutStr, 10)`: the UTXO
      named `txid:vout`, or `None` when the name has no decimal index. */
  function OutputUtxo(output: string, value: nat, confirmed: bool): Option<Utxo>
  {
    var txid := UpToColon(output);
    if |txid| == |output| then None
    else
      var voutText := UpToColon(output[|txid| + 1..]);
      match ParseDecimal(voutText)
      case None => None
      case Some(vout) => Some(Utxo(txid, vout, value, confirmed))
  }

  /** Splitting a listing's own `txid:vout` name gives the outpoint back. */
  lemma OutputUtxoOfKey(txid: string, vout: nat, value: nat, confirmed: bool)
    requires ':' !in txid
    ensures OutputUtxo(OutpointKey(txid, vout), value, confirmed) == Some(Utxo(txid, vout, value, confirmed))
  {
    var s := OutpointKey(txid, vout);
    assert s == txid + (":" + Decimal(vout));
    TxidPrefix(txid, ":" + Decimal(vout));
    assert s[|txid| + 1..] == Decimal(vout);
    DecimalHasNoColon(vout);
    DecimalRoundTrip(vout);
    NoColonWhole(Decimal(vout));
  }

  lemma {:induction false} TxidPrefix(txid: string, rest: string)
    requires ':' !in txid && rest != [] && rest[0] == ':'
    ensures UpToColon(txid + rest) == txid
  {
    if txid != [] {
      assert txid[0] in txid;
      assert (txid + rest)[1..] == txid[1..] + rest;
      assert ':' !in txid[1..] by {
        forall c | c in txid[1..] ensures c in txid { }
      }
      TxidPrefix(txid[1..], rest);
    }
  }

  lemma NoColonWhole(s: string)
    requires ':' !in s
    ensures UpToColon(s) == s
  {
  }

  /** The `map` from `(output, value)` pairs to UTXOs, failing on the first unusable
      name. */
  function OutputsToUtxos(outs: seq<(string, nat)>, confirmed: bool): (r: Option<seq<Utxo>>)
    ensures r.Some? <==> forall i :: 0 <= i < |outs| ==> OutputUtxo(outs[i].0, outs[i].1, confirmed).Some?
    ensures r.Some? ==> (|r.value| == |outs| &&
      forall i :: 0 <= i < |outs| ==> Some(r.value[i]) == OutputUtxo(outs[i].0, outs[i].1, confirmed))
  {
    if outs == [] then Some([])
    else
      var n := |outs| - 1;
      var init := OutputsToUtxos(outs[..n], confirmed);
      var last := OutputUtxo(outs[n].0, outs[n].1, confirmed);
      assert forall i :: 0 <= i < n ==> outs[..n][i] == outs[i];
      if init.None? || last.None? then None else Some(init.value + [last.value])
  }

  function EntryOutputs(entries: seq<BoneEntry>): (r: seq<(string, nat)>)
    ensures |r| == |entries| && forall i :: 0 <= i < |r| ==> r[i] == (entries[i].output, entries[i].value)
  {
    seq(|entries|, i requires 0 <= i < |entries| => (entries[i].output, entries[i].value))
  }

  /** The same projection for the stone listing, whose records are a different type
      from the bone entries. */
  function StoneOutputs(stones: seq<Stone>): (r: seq<(string, nat)>)
    ensures |r| == |stones| && forall i :: 0 <= i < |r| ==> r[i] == (stones[i].output, stones[i].value)
  {
    seq(|stones|, i requires 0 <= i < |stones| => (stones[i].output, stones[i].value))
  }

  // ---------------------------------------------------------------------------
  // Owned balance

  /** `totalAmountOwned`: the sum of `BigInt(b.amount)` over the entries; `BigInt`
      throws on text that is not a number. */
  function AmountTotal(entries: seq<BoneEntry>): (r: Result<nat>)
    ensures r.Err? ==> r.error == BIGINT_ERROR
  {
    if entries == [] then Ok(0)
    else
      var init := AmountTotal(entries[..|entries| - 1]);
      var last := ParseBigInt(entries[|entries| - 1].amount);
      if init.Err? then init
      else if last.Err? then Err(last.error)
      else Ok(init.value + last.value)
  }

  /** The accumulation loop of the transfer and claim handlers. */
  method TotalAmountOwned(bonesList: seq<BoneEntry>) returns (total: Result<nat>)
    ensures total == AmountTotal(bonesList)
  {
    var sum := 0;
    for i := 0 to |bonesList|
      invariant AmountTotal(bonesList[..i]) == Ok(sum)
    {
      assert bonesList[..i + 1][..i] == bonesList[..i];
      var amount := ParseBigInt(bonesList[i].amount);
      if amount.Err? {
        AmountTotalAborts(bonesList, i + 1, |bonesList|);
        assert bonesList[..|bonesList|] == bonesList;
        return Err(amount.error);
      }
      sum := sum + amount.value;
    }
    assert bonesList[..|bonesList|] == bonesList;
    return Ok(sum);
  }

  /** Once a prefix fails, every longer prefix fails with the same error. */
  lemma {:induction false} AmountTotalAborts(entries: seq<BoneEntry>, k: nat, n: nat)
    requires k <= n <= |entries|
    requires AmountTotal(entries[..k]).Err?
    ensures AmountTotal(entries[..n]) == AmountTotal(entries[..k])
    decreases n - k
  {
    if k < n {
      AmountTotalAborts(entries, k, n - 1);
      assert entries[..n][..n - 1] == entries[..n - 1];
    }
  }

  /** A listing of bones never makes the sum throw: every entry's amount is decimal
      text. */
  lemma {:induction false} ListedAmountsParse(entries: seq<BoneEntry>)
    requires forall e :: e in entries ==> ParseDecimal(e.amount).Some?
    ensures AmountTotal(entries).Ok?
  {
    if entries != [] {
      var n := |entries| - 1;
      assert forall e :: e in entries[..n] ==> e in entries;
      ListedAmountsParse(entries[..n]);
      assert entries[n] in entries;
    }
  }

  /** One amount that `BigInt` refuses makes the whole sum throw. */
  lemma {:induction false} AmountTotalFails(entries: seq<BoneEntry>, k: nat)
    requires k < |entries| && ParseBigInt(entries[k].amount).Err?
    ensures AmountTotal(entries) == Err(BIGINT_ERROR)
  {
    var n := |entries| - 1;
    if k < n {
      assert entries[..n][k] == entries[k];
      AmountTotalFails(entries[..n], k);
    }
  }

  /** The total of a `listBones` result is a number when every balance is below 10^21. */
  lemma BonesTotalOk(outputs: seq<FetchOutputs.OutputData>, spent: set<string>, address: string, ticker: Option<string>)
    ensures AmountsBelowLimit(outputs) ==> AmountTotal(BonesList(outputs, spent, address, ticker)).Ok?
  {
    var list := BonesList(outputs, spent, address, ticker);
    if AmountsBelowLimit(outputs) {
      forall e | e in list
        ensures ParseDecimal(e.amount).Some?
      {
        BonesEntryFacts(outputs, spent, address, ticker, e);
      }
      ListedAmountsParse(list);
    }
  }

  /** A listed balance of 10^21 or more prints in exponential notation, which `BigInt`
      refuses, so the sum over the listing throws. */
  lemma LargeBalanceFailsTotal(outputs: seq<FetchOutputs.OutputData>, spent: set<string>, address: string,
                               ticker: Option<string>, i: nat, j: nat)
    requires i < |outputs| && j < |outputs[i].bones| && !Listing.Skipped(outputs[i], spent)
    requires outputs[i].address == Some(address) && TickerWanted(outputs[i].bones[j].ticker, ticker)
    requires outputs[i].bones[j].amount >= EXPONENTIAL_LIMIT
    ensures AmountTotal(BonesList(outputs, spent, address, ticker)) == Err(BIGINT_ERROR)
  {
    var list := BonesList(outputs, spent, address, ticker);
    var e := EntryOf(outputs[i], outputs[i].bones[j], address);
    BonesMembership(outputs, spent, address, ticker, e);
    var k :| 0 <= k < |list| && list[k] == e;
    AmountTextParse(outputs[i].bones[j].amount);
    AmountTotalFails(list, k);
  }

  /** The check `totalAmountOwned < need`: the failure of the sum, "Insufficient
      bones!", or the total. */
  function OwnedAtLeast(bonesList: seq<BoneEntry>, need: nat): (r: Result<nat>)
    ensures r.Ok? <==> AmountTotal(bonesList).Ok? && AmountTotal(bonesList).value >= need
    ensures r.Ok? ==> r.value == AmountTotal(bonesList).value
    ensures AmountTotal(bonesList).Ok? && AmountTotal(bonesList).value < need ==> r == Err(INSUFFICIENT_BONES)
  {
    var total := AmountTotal(bonesList);
    if total.Err? then total
    else if total.value < need then Err(INSUFFICIENT_BONES)
    else total
  }

  // ---------------------------------------------------------------------------
  // Stable descending sorts

  /** Inserts `x` after every element whose key is at least as large, so that equal
      keys keep their order as the stable `Array.prototype.sort` does. */
  function InsertDesc<T>(x: T, sorted: seq<T>, key: T -> nat): (r: seq<T>)
    ensures |r| == |sorted| + 1
  {
    if sorted == [] then [x]
    else if key(x) > key(sorted[0]) then [x] + sorted
    else [sorted[0]] + InsertDesc(x, sorted[1..], key)
  }

  /** A stable sort by `key`, largest first: `sort((a, b) => key(b) - key(a))`. */
  function SortDesc<T>(s: seq<T>, key: T -> nat): seq<T>
  {
    if s == [] then [] else InsertDesc(s[|s| - 1], SortDesc(s[..|s| - 1], key), key)
  }

  predicate Descending<T>(s: seq<T>, key: T -> nat)
  {
    forall i, j :: 0 <= i < j < |s| ==> key(s[i]) >= key(s[j])
  }

  lemma {:induction false} InsertDescPermutes<T>(x: T, sorted: seq<T>, key: T -> nat)
    ensures multiset(InsertDesc(x, sorted, key)) == multiset(sorted) + multiset{x}
  {
    if sorted != [] && key(x) <= key(sorted[0]) {
      InsertDescPermutes(x, sorted[1..], key);
      assert sorted == [sorted[0]] + sorted[1..];
    }
  }

  lemma {:induction false} InsertDescBounded<T>(x: T, sorted: seq<T>, key: T -> nat, bound: nat)
    requires key(x) <= bound
    requires forall i :: 0 <= i < |sorted| ==> key(sorted[i]) <= bound
    ensures forall i :: 0 <= i < |sorted| + 1 ==> key(InsertDesc(x, sorted, key)[i]) <= bound
  {
    if sorted != [] && key(x) <= key(sorted[0]) {
      InsertDescBounded(x, sorted[1..], key, bound);
      var rest := InsertDesc(x, sorted[1..], key);
      assert forall i :: 1 <= i < |sorted| + 1 ==> InsertDesc(x, sorted, key)[i] == rest[i - 1];
    }
  }

  lemma {:induction false} InsertDescSorted<T>(x: T, sorted: seq<T>, key: T -> nat)
    requires Descending(sorted, key)
    ensures Descending(InsertDesc(x, sorted, key), key)
  {
    if sorted != [] && key(x) <= key(sorted[0]) {
      InsertDescSorted(x, sorted[1..], key);
      InsertDescBounded(x, sorted[1..], key, key(sorted[0]));
      var rest := InsertDesc(x, sorted[1..], key);
      assert forall i :: 1 <= i < |sorted| + 1 ==> InsertDesc(x, sorted, key)[i] == rest[i - 1];
    }
  }

  /** The sort returns the same elements, largest key first. */
  lemma {:induction false} SortDescProperties<T>(s: seq<T>, key: T -> nat)
    ensures Descending(SortDesc(s, key), key)
    ensures multiset(SortDesc(s, key)) == multiset(s)
  {
    if s != [] {
      var n := |s| - 1;
      SortDescProperties(s[..n], key);
      InsertDescSorted(s[n], SortDesc(s[..n], key), key);
      InsertDescPermutes(s[n], SortDesc(s[..n], key), key);
      assert s == s[..n] + [s[n]];
    }
  }

  /** The filter that keeps the elements whose key is `v`. */
  function KeyIs<T>(key: T -> nat, v: nat): T -> bool
  {
    (x: T) => key(x) == v
  }

  /** No element of a descending run has a key above the run's head. */
  lemma NoneAboveHead<T>(sorted: seq<T>, key: T -> nat, v: nat)
    requires sorted != [] && Descending(sorted, key) && key(sorted[0]) < v
    ensures Filter(sorted, KeyIs(key, v)) == []
  {
    var p := KeyIs(key, v);
    forall x: T | x in sorted ensures !p(x) {
      var j :| 0 <= j < |sorted| && sorted[j] == x;
      if j > 0 {
        assert key(sorted[0]) >= key(sorted[j]);
      }
    }
    if Filter(sorted, p) != [] {
      FilterMembership(sorted, p, Filter(sorted, p)[0]);
    }
  }

  /** Inserting `x` puts it after every element of equal key. */
  lemma {:induction false} InsertDescStable<T>(x: T, sorted: seq<T>, key: T -> nat, v: nat)
    requires Descending(sorted, key)
    ensures Filter(InsertDesc(x, sorted, key), KeyIs(key, v))
      == Filter(sorted, KeyIs(key, v)) + (if key(x) == v then [x] else [])
  {
    var p := KeyIs(key, v);
    if sorted == [] {
      assert Filter([x], p) == Filter([], p) + (if p(x) then [x] else []);
    } else if key(x) > key(sorted[0]) {
      FilterCons(x, sorted, p);
      if key(x) == v {
        NoneAboveHead(sorted, key, v);
      }
    } else {
      assert Descending(sorted[1..], key);
      InsertDescStable(x, sorted[1..], key, v);
      FilterCons(sorted[0], InsertDesc(x, sorted[1..], key), p);
      FilterCons(sorted[0], sorted[1..], p);
      assert [sorted[0]] + sorted[1..] == sorted;
      ConcatAssoc(if p(sorted[0]) then [sorted[0]] else [], Filter(sorted[1..], p), if key(x) == v then [x] else []);
    }
  }

  /** The sort is stable: the elements of any one key keep their relative order. */
  lemma {:induction false} SortDescStable<T>(s: seq<T>, key: T -> nat, v: nat)
    ensures Filter(SortDesc(s, key), KeyIs(key, v)) == Filter(s, KeyIs(key, v))
  {
    if s != [] {
      var n := |s| - 1;
      SplitLast(s);
      SortDescStable(s[..n], key, v);
      SortDescProperties(s[..n], key);
      InsertDescStable(s[n], SortDesc(s[..n], key), key, v);
      FilterAppend(s[..n], s[n], KeyIs(key, v));
    }
  }

  function UtxoValue(u: Utxo): nat
  {
    u.value
  }

  /** `BigInt(b.amount)` as a sort key; an amount that does not parse never reaches the
      sort, because the sum before it has already thrown. */
  function EntryAmount(e: BoneEntry): nat
  {
    var a := ParseBigInt(e.amount);
    if a.Ok? then a.value else 0
  }

  /** `sort((a, b) => Number(BigInt(b.value) - BigInt(a.value)))` on the bone UTXOs. */
  function SortByValue(utxos: seq<Utxo>): (r: seq<Utxo>)
    ensures Descending(r, UtxoValue) && multiset(r) == multiset(utxos)
    ensures forall v: nat :: Filter(r, KeyIs(UtxoValue, v)) == Filter(utxos, KeyIs(UtxoValue, v))
  {
    SortDescProperties(utxos, UtxoValue);
    forall v: nat ensures Filter(SortDesc(utxos, UtxoValue), KeyIs(UtxoValue, v)) == Filter(utxos, KeyIs(UtxoValue, v)) {
      SortDescStable(utxos, UtxoValue, v);
    }
    SortDesc(utxos, UtxoValue)
  }

  /** Sorting the bone UTXOs keeps their total value. */
  lemma {:induction false} SortKeepsValue(utxos: seq<Utxo>)
    ensures BurnValue(SortDesc(utxos, UtxoValue)) == BurnValue(utxos)
  {
    if utxos != [] {
      var n := |utxos| - 1;
      SortKeepsValue(utxos[..n]);
      InsertDescValue(utxos[n], SortDesc(utxos[..n], UtxoValue));
    }
  }

  lemma {:induction false} InsertDescValue(x: Utxo, sorted: seq<Utxo>)
    ensures BurnValue(InsertDesc(x, sorted, UtxoValue)) == BurnValue(sorted) + x.value
  {
    if sorted == [] {
      assert BurnValue([x]) == BurnValue([]) + x.value;
    } else if x.value > sorted[0].value {
      BurnValueConcat([x], sorted);
      assert BurnValue([x]) == BurnValue([]) + x.value;
    } else {
      InsertDescValue(x, sorted[1..]);
      BurnValueConcat([sorted[0]], InsertDesc(x, sorted[1..], UtxoValue));
      BurnValueConcat([sorted[0]], sorted[1..]);
      assert [sorted[0]] + sorted[1..] == sorted;
    }
  }

  /** `sort((a, b) => Number(BigInt(b.amount) - BigInt(a.amount)))` on the BONE entries. */
  function SortByAmount(entries: seq<BoneEntry>): (r: seq<BoneEntry>)
    ensures Descending(r, EntryAmount) && multiset(r) == multiset(entries)
    ensures forall v: nat :: Filter(r, KeyIs(EntryAmount, v)) == Filter(entries, KeyIs(EntryAmount, v))
  {
    SortDescProperties(entries, EntryAmount);
    forall v: nat ensures Filter(SortDesc(entries, EntryAmount), KeyIs(EntryAmount, v)) == Filter(entries, KeyIs(EntryAmount, v)) {
      SortDescStable(entries, EntryAmount, v);
    }
    SortDesc(entries, EntryAmount)
  }

  // ---------------------------------------------------------------------------
  // bones transfer

  /** The entries of one ticker. */
  function OfTicker(ticker: string): BoneEntry -> bool
  {
    (e: BoneEntry) => e.ticker == ticker
  }

  /** `bonesList.filter((b) => b.ticker === ticker)`: the ticker's entries, in listing
      order and with their multiplicity. */
  function EntriesOfTicker(entries: seq<BoneEntry>, ticker: string): (r: seq<BoneEntry>)
    ensures forall e :: e in r <==> e in entries && e.ticker == ticker
    ensures r == Filter(entries, OfTicker(ticker))
  {
    if entries == [] then []
    else
      var n := |entries| - 1;
      var init := EntriesOfTicker(entries[..n], ticker);
      assert entries == entries[..n] + [entries[n]];
      init + (if entries[n].ticker == ticker then [entries[n]] else [])
  }

  /** The loop that takes UTXOs in the given order until the collected value reaches
      `amount`. The result is the shortest non-empty prefix whose total reaches the
      amount, or everything when none does; the total counts the UTXOs' `value`, not
      their bone amounts. */
  method SelectBoneUtxos(rawBoneUtxos: seq<Utxo>, amount: nat) returns (selected: seq<Utxo>)
    ensures |selected| <= |rawBoneUtxos| && selected == rawBoneUtxos[..|selected|]
    ensures rawBoneUtxos != [] ==> selected != []
    ensures BurnValue(selected) >= amount || selected == rawBoneUtxos
    ensures forall k :: 0 < k < |selected| ==> BurnValue(rawBoneUtxos[..k]) < amount
  {
    selected := [];
    var collected := 0;
    for i := 0 to |rawBoneUtxos|
      invariant selected == rawBoneUtxos[..i]
      invariant collected == BurnValue(selected)
      invariant forall k :: 0 < k <= i ==> BurnValue(rawBoneUtxos[..k]) < amount
    {
      assert rawBoneUtxos[..i + 1][..i] == rawBoneUtxos[..i];
      selected := selected + [rawBoneUtxos[i]];
      collected := collected + rawBoneUtxos[i].value;
      if collected >= amount {
        return;
      }
    }
    assert rawBoneUtxos[..|rawBoneUtxos|] == rawBoneUtxos;
  }

  /** The transfer handler from the listing on: check the owned total, keep the entries
      of the ticker, turn them into UTXOs, sort them by value (largest first) and take
      them until their value reaches `amount`. */
  method PlanBoneTransfer(bonesList: seq<BoneEntry>, ticker: string, amount: nat) returns (r: Result<seq<Utxo>>)
    ensures OwnedAtLeast(bonesList, amount).Err? ==> r == Err(OwnedAtLeast(bonesList, amount).error)
    ensures OwnedAtLeast(bonesList, amount).Ok?
            && OutputsToUtxos(EntryOutputs(EntriesOfTicker(bonesList, ticker)), true).None?
            ==> r == Err(OUTPUT_NAME_ERROR)
    ensures r.Ok? ==> (OwnedAtLeast(bonesList, amount).Ok? &&
      var raw := OutputsToUtxos(EntryOutputs(EntriesOfTicker(bonesList, ticker)), true);
      raw.Some? && var sorted := SortByValue(raw.value);
      |r.value| <= |sorted| && r.value == sorted[..|r.value|]
      && (sorted != [] ==> r.value != [])
      && (BurnValue(r.value) >= amount || r.value == sorted)
      && (forall k :: 0 < k < |r.value| ==> BurnValue(sorted[..k]) < amount))
    ensures OwnedAtLeast(bonesList, amount).Ok?
            && OutputsToUtxos(EntryOutputs(EntriesOfTicker(bonesList, ticker)), true).Some?
            ==> r.Ok?
    ensures r.Ok? && BurnValue(OutputsToUtxos(EntryOutputs(EntriesOfTicker(bonesList, ticker)), true).value) >= amount
            ==> BurnValue(r.value) >= amount
  {
    var total := TotalAmountOwned(bonesList);
    if total.Err? {
      return Err(total.error);
    }
    if total.value < amount {
      return Err(INSUFFICIENT_BONES);
    }
    var raw := OutputsToUtxos(EntryOutputs(EntriesOfTicker(bonesList, ticker)), true);
    if raw.None? {
      return Err(OUTPUT_NAME_ERROR);
    }
    var rawBoneUtxos := SortByValue(raw.value);
    SortKeepsValue(raw.value);
    var selected := SelectBoneUtxos(rawBoneUtxos, amount);
    return Ok(selected);
  }

  /** The `relicTransfer` record's fields: the amount is ten whole tokens per selected
      UTXO, whatever amount was requested. */
  function TransferRecordDetails(selected: seq<Utxo>, receiver: string, ticker: string): (d: Details)
    ensures d.RelicTransferDetails? && d.TypeName() == "relicTransfer"
    ensures d.amount == |selected| * 10 * BONE_DECIMALS_DIVISOR && d.receiver == receiver && d.ticker == ticker
  {
    RelicTransferDetails(ticker, receiver, |selected| * TEN_E8)
  }

  // ---------------------------------------------------------------------------
  // tickers claim

  const BULLET: char := '•'

  /** The regular expression `^•+` applied once: the leading run of bullets removed. */
  function StripLeading(s: string): (r: string)
    ensures |r| <= |s| && r == s[|s| - |r|..]
    ensures forall i :: 0 <= i < |s| - |r| ==> s[i] == BULLET
    ensures r == [] || r[0] != BULLET
  {
    if s != [] && s[0] == BULLET then StripLeading(s[1..]) else s
  }

  /** `•+$`: the trailing run of bullets removed. */
  function StripTrailing(s: string): (r: string)
    ensures |r| <= |s| && r == s[..|r|]
    ensures forall i :: |r| <= i < |s| ==> s[i] == BULLET
    ensures r == [] || r[|r| - 1] != BULLET
  {
    if s != [] && s[|s| - 1] == BULLET then StripTrailing(s[..|s| - 1]) else s
  }

  /** `ticker.replace(/^•+|•+$/g, "")`: the ticker without its leading and trailing
      bullets; bullets inside it stay. */
  function TrimBullets(ticker: string): (r: string)
  {
    StripTrailing(StripLeading(ticker))
  }

  /** How many bullets the ticker starts with. */
  function LeadingBullets(ticker: string): nat
  {
    |ticker| - |StripLeading(ticker)|
  }

  /** The trimmed ticker is the slice of the ticker between its leading and its trailing
      run of bullets, and it neither starts nor ends with a bullet. */
  lemma TrimBulletsShape(ticker: string)
    ensures var r, lead := TrimBullets(ticker), LeadingBullets(ticker);
      lead + |r| <= |ticker| && r == ticker[lead..lead + |r|]
      && (forall i :: 0 <= i < lead ==> ticker[i] == BULLET)
      && (forall i :: lead + |r| <= i < |ticker| ==> ticker[i] == BULLET)
      && (r == [] || (r[0] != BULLET && r[|r| - 1] != BULLET))
  {
    TrimSlice(ticker);
    TrailingBullets(ticker);
    TrimEnds(ticker);
  }

  lemma TrimSlice(ticker: string)
    ensures var r, lead := TrimBullets(ticker), LeadingBullets(ticker);
      lead + |r| <= |ticker| && r == ticker[lead..lead + |r|]
  {
    var l := StripLeading(ticker);
    var r := StripTrailing(l);
    var lead := |ticker| - |l|;
    assert l == ticker[lead..] && r == l[..|r|];
    assert ticker[lead..][..|r|] == ticker[lead..lead + |r|];
  }

  lemma TrailingBullets(ticker: string)
    ensures var r, lead := TrimBullets(ticker), LeadingBullets(ticker);
      forall i :: lead + |r| <= i < |ticker| ==> ticker[i] == BULLET
  {
    var l := StripLeading(ticker);
    var r := StripTrailing(l);
    var lead := |ticker| - |l|;
    forall i | lead + |r| <= i < |ticker|
      ensures ticker[i] == BULLET
    {
      assert ticker[i] == l[i - lead];
    }
  }

  lemma TrimEnds(ticker: string)
    ensures var r := TrimBullets(ticker);
      r == [] || (r[0] != BULLET && r[|r| - 1] != BULLET)
  {
    var l := StripLeading(ticker);
    var r := StripTrailing(l);
    if r != [] {
      assert r[0] == l[0];
    }
  }

  /** JavaScript's `length`: characters outside the basic plane count twice. */
  function Utf16Length(s: string): (n: nat)
    ensures |s| <= n <= 2 * |s|
  {
    if s == [] then 0 else Utf16Length(s[..|s| - 1]) + (if s[|s| - 1] as int >= 0x10000 then 2 else 1)
  }

  /** The claim handler up to the sealing: trim the ticker, price it (no price for an
      empty one), check that the BONE entries cover the price, and take them as UTXOs,
      largest amount first. */
  method PlanClaim(ticker: string, boneEntries: seq<BoneEntry>) returns (r: Result<(string, nat, seq<Utxo>)>)
    ensures var price := SealPrice(Utf16Length(TrimBullets(ticker)));
      (price.None? ==> r == Err(PRICE_ERROR))
      && (price.Some? && OwnedAtLeast(boneEntries, price.value).Err? ==> r == Err(OwnedAtLeast(boneEntries, price.value).error))
      && (r.Ok? <==> price.Some? && OwnedAtLeast(boneEntries, price.value).Ok?
                     && OutputsToUtxos(EntryOutputs(SortByAmount(boneEntries)), true).Some?)
      && (r.Ok? ==> r.value == (TrimBullets(ticker), price.value,
                                OutputsToUtxos(EntryOutputs(SortByAmount(boneEntries)), true).value))
  {
    var deployableTicker := TrimBullets(ticker);
    var sealingPrice := SealPrice(Utf16Length(deployableTicker));
    if sealingPrice.None? {
      return Err(PRICE_ERROR);
    }
    var total := TotalAmountOwned(boneEntries);
    if total.Err? {
      return Err(total.error);
    }
    if total.value < sealingPrice.value {
      return Err(INSUFFICIENT_BONES);
    }
    var boneUtxos := OutputsToUtxos(EntryOutputs(SortByAmount(boneEntries)), true);
    if boneUtxos.None? {
      return Err(OUTPUT_NAME_ERROR);
    }
    return Ok((deployableTicker, sealingPrice.value, boneUtxos.value));
  }

  /** A ticker of bullets only has no price, so it can never be claimed. */
  lemma BulletsOnlyHaveNoPrice(ticker: string)
    requires forall i :: 0 <= i < |ticker| ==> ticker[i] == BULLET
    ensures SealPrice(Utf16Length(TrimBullets(ticker))).None?
  {
  }

  /** The `sealing` record's fields: the ticker as typed, bullets included, although
      the inscription carries the trimmed one. */
  function ClaimRecordDetails(ticker: string): (d: Details)
    ensures d.SealingDetails? && d.TypeName() == "sealing" && d.tick == ticker
  {
    SealingDetails(ticker)
  }

  // ---------------------------------------------------------------------------
  // bones deploy

  /** The position of the first entry of `ticker` (the length when there is none). */
  function FirstTickerIndex(tickers: seq<Ticker>, ticker: string): (i: nat)
    ensures i <= |tickers|
    ensures forall k :: 0 <= k < i ==> tickers[k].ticker != ticker
    ensures i < |tickers| ==> tickers[i].ticker == ticker
  {
    if tickers == [] || tickers[0].ticker == ticker then 0 else 1 + FirstTickerIndex(tickers[1..], ticker)
  }

  /** `tickerUtxos.find((t) => t.ticker === ticker)`: the first entry of that ticker. */
  function FindTicker(tickers: seq<Ticker>, ticker: string): (r: Option<Ticker>)
    ensures r.None? <==> forall i :: 0 <= i < |tickers| ==> tickers[i].ticker != ticker
    ensures r.Some? ==> exists i :: 0 <= i < |tickers| && tickers[i] == r.value && r.value.ticker == ticker
                                    && forall k :: 0 <= k < i ==> tickers[k].ticker != ticker
  {
    var i := FirstTickerIndex(tickers, ticker);
    if i < |tickers| then Some(tickers[i]) else None
  }

  /** The deploy handler's sealing UTXO: the first owned entry of the ticker, as a UTXO. */
  function SealingUtxoFor(tickers: seq<Ticker>, ticker: string): (r: Result<Utxo>)
    ensures (forall i :: 0 <= i < |tickers| ==> tickers[i].ticker != ticker) <==> r == Err(TICKER_NOT_OWNED)
    ensures var i := FirstTickerIndex(tickers, ticker);
      i < |tickers| ==>
        (r.Ok? <==> OutputUtxo(tickers[i].output, tickers[i].value, true).Some?)
        && (r.Ok? ==> Some(r.value) == OutputUtxo(tickers[i].output, tickers[i].value, true))
        && (r.Err? ==> r == Err(OUTPUT_NAME_ERROR))
  {
    var owned := FindTicker(tickers, ticker);
    if owned.None? then Err(TICKER_NOT_OWNED)
    else
      var u := OutputUtxo(owned.value.output, owned.value.value, true);
      if u.None? then Err(OUTPUT_NAME_ERROR) else Ok(u.value)
  }

  /** `totalSupply = amount * cap` and `liquidityShare = seed * 100n / totalSupply`;
      BigInt division by zero throws. */
  function DeployFigures(terms: MintTerms, seed: nat): (r: Result<(nat, nat)>)
    ensures r.Err? <==> terms.amount == 0 || terms.cap == 0
    ensures r.Err? ==> r.error == DIVISION_BY_ZERO
    ensures r.Ok? ==> r.value.0 == terms.amount * terms.cap
                      && r.value.1 * r.value.0 <= seed * 100 < (r.value.1 + 1) * r.value.0
  {
    var totalSupply := terms.amount * terms.cap;
    if totalSupply == 0 then Err(DIVISION_BY_ZERO) else Ok((totalSupply, seed * 100 / totalSupply))
  }

  /** The `deploy` record's fields: the untrimmed ticker, the symbol, the supply figures,
      the amount per mint and the price. */
  function DeployRecordDetails(tick: string, symbol: string, terms: MintTerms, seed: nat): (r: Result<Details>)
    ensures r.Err? <==> terms.amount * terms.cap == 0
    ensures r.Ok? ==> r.value.DeployDetails? && r.value.TypeName() == "deploy" && r.value.tick == tick
                      && r.value.symbol == symbol && r.value.totalSupply == terms.amount * terms.cap
                      && r.value.amountPerMint == terms.amount && r.value.priceInRelic == terms.price
                      && r.value.liquidityShare * r.value.totalSupply <= seed * 100
                      && seed * 100 < (r.value.liquidityShare + 1) * r.value.totalSupply
  {
    var figures := DeployFigures(terms, seed);
    if figures.Err? then Err(figures.error)
    else Ok(DeployDetails(tick, symbol, figures.value.0, terms.amount, terms.price, figures.value.1))
  }

  // ---------------------------------------------------------------------------
  // stones unwrap

  const DEFAULT_MAX_UNWRAP: nat := 100

  /** `amount || 100` as `slice` reads it: no argument (or an empty one) means 100, a
      decimal argument its value, any other text 0. */
  function MaxUnwrap(amount: Option<string>): nat
  {
    if amount.None? || amount.value == "" then DEFAULT_MAX_UNWRAP
    else ParseDecimal(amount.value).GetOr(0)
  }

  /** `stonesData.slice(0, maxUnwrap)` as UTXOs (without a status). */
  function UtxosToBurn(stones: seq<Stone>, amount: Option<string>): (r: Option<seq<Utxo>>)
    ensures var n := if MaxUnwrap(amount) < |stones| then MaxUnwrap(amount) else |stones|;
      (r.Some? <==> forall i :: 0 <= i < n ==> OutputUtxo(stones[i].output, stones[i].value, false).Some?)
      && (r.Some? ==> (|r.value| == n
        && forall i :: 0 <= i < n ==> Some(r.value[i]) == OutputUtxo(stones[i].output, stones[i].value, false)))
  {
    var limit := MaxUnwrap(amount);
    var taken := if limit < |stones| then stones[..limit] else stones;
    OutputsToUtxos(StoneOutputs(taken), false)
  }

  /** The `boneStoneUnwrap` record's fields: ten whole tokens per burned UTXO, received
      by the wallet's own address. */
  function UnwrapRecordDetails(utxosToBurn: seq<Utxo>, address: string): (d: Details)
    ensures d.BonestoneUnwrapDetails? && d.TypeName() == "boneStoneUnwrap"
    ensures d.amount == |utxosToBurn| * 10 * BONE_DECIMALS_DIVISOR && d.receiver == address
  {
    BonestoneUnwrapDetails(address, |utxosToBurn| * TEN_E8)
  }
}
