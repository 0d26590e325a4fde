/** Transfer lists: building the transfer-only keepsake, and the transfer body of the
    protocol message (sorted by bone id, then delta-chained row by row). */
module Transfers {
  import opened Wrappers
  import opened Encoding
  import opened Seqs
  import opened ProtocolUtils
  import opened Classes
  import opened Types

  const TRANSFER_LENGTH_ERROR := "transfer: id, amount, and output must have the same length"

  /** `createTransferKeepsake(id, amount, output?)`: the i-th transfer moves `amount[i]`
      of `id[i]` to `output[i]`, or to output `i` when no output list (or an empty one)
      is given; lists of different lengths are refused. */
  function CreateTransferKeepsake(ids: seq<BoneId>, amounts: seq<nat>, outputs: Option<seq<nat>>)
    : (r: Result<Keepsake>)
    ensures r.Err? <==>
      |ids| != |amounts| || (outputs.Some? && |outputs.value| > 0 && |ids| != |outputs.value|)
    ensures r.Err? ==> r.error == TRANSFER_LENGTH_ERROR
    ensures r.Ok? ==> r.value.transfers.Some? && r.value == EmptyKeepsake.(transfers := r.value.transfers)
    ensures r.Ok? ==> |r.value.transfers.value| == |ids|
    ensures r.Ok? ==> forall i :: 0 <= i < |ids| ==>
      r.value.transfers.value[i].id == ids[i] && r.value.transfers.value[i].amount == amounts[i]
    ensures r.Ok? ==> forall i :: 0 <= i < |ids| ==>
      r.value.transfers.value[i].output
        == if outputs.Some? && |outputs.value| > 0 then outputs.value[i] else i
  {
    if |ids| != |amounts| || (outputs.Some? && |outputs.value| > 0 && |ids| != |outputs.value|) then
      Err(TRANSFER_LENGTH_ERROR)
    else
      var ts := seq(|ids|, i requires 0 <= i < |ids| =>
        Transfer(ids[i], amounts[i], if outputs.Some? && |outputs.value| > 0 then outputs.value[i] else i));
      Ok(EmptyKeepsake.(transfers := Some(ts)))
  }

  // ---------------------------------------------------------------------------
  // Sorting by (block, tx)

  predicate IdLess(a: BoneId, b: BoneId)
  {
    a.block < b.block || (a.block == b.block && a.tx < b.tx)
  }

  predicate SortedById(ts: seq<Transfer>)
  {
    forall i, j :: 0 <= i < j < |ts| ==> !IdLess(ts[j].id, ts[i].id)
  }

  /** Inserts `t` after every element whose id is not greater, which keeps equal ids in
      arrival order as the stable `Array.prototype.sort` does. */
  function InsertById(t: Transfer, sorted: seq<Transfer>): seq<Transfer>
  {
    if sorted == [] then [t]
    else if IdLess(t.id, sorted[0].id) then [t] + sorted
    else [sorted[0]] + InsertById(t, sorted[1..])
  }

  /** `transfers.slice().sort(byBlockThenTx)`. */
  function SortById(ts: seq<Transfer>): seq<Transfer>
  {
    if ts == [] then [] else InsertById(ts[|ts| - 1], SortById(ts[..|ts| - 1]))
  }

  lemma InsertByIdProperties(t: Transfer, sorted: seq<Transfer>)
    requires SortedById(sorted)
    ensures SortedById(InsertById(t, sorted))
    ensures multiset(InsertById(t, sorted)) == multiset(sorted) + multiset{t}
  {
    InsertByIdMultiset(t, sorted);
    InsertByIdSorted(t, sorted);
  }

  lemma {:induction false} InsertByIdSorted(t: Transfer, sorted: seq<Transfer>)
    requires SortedById(sorted)
    ensures SortedById(InsertById(t, sorted))
  {
    if sorted != [] && !IdLess(t.id, sorted[0].id) {
      SortedTail(sorted);
      InsertByIdSorted(t, sorted[1..]);
      InsertByIdMultiset(t, sorted[1..]);
      var rest := InsertById(t, sorted[1..]);
      forall x: Transfer | x in multiset(rest)
        ensures !IdLess(x.id, sorted[0].id)
      {
        HeadBelowTail(t, sorted, x);
      }
      ConsSorted(sorted[0], rest);
    }
  }

  lemma SortedTail(sorted: seq<Transfer>)
    requires sorted != [] && SortedById(sorted)
    ensures SortedById(sorted[1..])
  {
    forall i, j | 0 <= i < j < |sorted[1..]| ensures !IdLess(sorted[1..][j].id, sorted[1..][i].id) {
      assert sorted[1..][j] == sorted[j + 1] && sorted[1..][i] == sorted[i + 1];
    }
  }

  /** The head of a sorted run is no greater than anything after it or than `t`. */
  lemma HeadBelowTail(t: Transfer, sorted: seq<Transfer>, x: Transfer)
    requires sorted != [] && SortedById(sorted) && !IdLess(t.id, sorted[0].id)
    requires x in multiset(sorted[1..]) + multiset{t}
    ensures !IdLess(x.id, sorted[0].id)
  {
    if x != t {
      assert x in sorted[1..];
      var k :| 0 <= k < |sorted[1..]| && sorted[1..][k] == x;
      assert sorted[k + 1] == x;
    }
  }

  lemma {:induction false} InsertByIdMultiset(t: Transfer, sorted: seq<Transfer>)
    ensures multiset(InsertById(t, sorted)) == multiset(sorted) + multiset{t}
  {
    if sorted != [] && !IdLess(t.id, sorted[0].id) {
      InsertByIdMultiset(t, sorted[1..]);
      assert sorted == [sorted[0]] + sorted[1..];
    }
  }

  /** A sorted run stays sorted behind an element no greater than any of it. */
  lemma ConsSorted(x: Transfer, rest: seq<Transfer>)
    requires SortedById(rest)
    requires forall y :: y in multiset(rest) ==> !IdLess(y.id, x.id)
    ensures SortedById([x] + rest)
  {
    forall i, j | 0 <= i < j < |[x] + rest|
      ensures !IdLess(([x] + rest)[j].id, ([x] + rest)[i].id)
    {
      assert ([x] + rest)[j] == rest[j - 1];
      if i == 0 {
        assert rest[j - 1] in multiset(rest);
      } else {
        assert ([x] + rest)[i] == rest[i - 1];
      }
    }
  }

  /** The sort returns its input reordered into ascending (block, tx) order. */
  lemma {:induction false} SortByIdProperties(ts: seq<Transfer>)
    ensures SortedById(SortById(ts))
    ensures multiset(SortById(ts)) == multiset(ts)
  {
    if ts != [] {
      SortByIdProperties(ts[..|ts| - 1]);
      InsertByIdProperties(ts[|ts| - 1], SortById(ts[..|ts| - 1]));
      SplitLast(ts);
    }
  }

  /** The filter that keeps the transfers of bone `k`. */
  function OfId(k: BoneId): Transfer -> bool
  {
    (x: Transfer) => x.id == k
  }

  lemma {:induction false} InsertByIdStable(t: Transfer, sorted: seq<Transfer>, k: BoneId)
    requires SortedById(sorted)
    ensures Filter(InsertById(t, sorted), OfId(k))
      == Filter(sorted, OfId(k)) + (if t.id == k then [t] else [])
  {
    var p := OfId(k);
    if sorted == [] {
      assert Filter([t], p) == Filter([], p) + (if p(t) then [t] else []);
    } else if IdLess(t.id, sorted[0].id) {
      FilterCons(t, sorted, p);
      if t.id == k {
        NoneBelowHead(sorted, k);
      }
    } else {
      SortedTail(sorted);
      InsertByIdStable(t, sorted[1..], k);
      assert InsertById(t, sorted) == [sorted[0]] + InsertById(t, sorted[1..]);
      FilterCons(sorted[0], InsertById(t, sorted[1..]), p);
      FilterCons(sorted[0], sorted[1..], p);
      assert [sorted[0]] + sorted[1..] == sorted;
      ConcatAssoc(if p(sorted[0]) then [sorted[0]] else [], Filter(sorted[1..], p), if t.id == k then [t] else []);
    }
  }

  /** No transfer of a sorted run has an id below the run's head. */
  lemma NoneBelowHead(sorted: seq<Transfer>, k: BoneId)
    requires sorted != [] && SortedById(sorted) && IdLess(k, sorted[0].id)
    ensures Filter(sorted, OfId(k)) == []
  {
    var p := OfId(k);
    forall x: Transfer | x in sorted ensures !p(x) {
      var j :| 0 <= j < |sorted| && sorted[j] == x;
      if j > 0 {
        assert !IdLess(sorted[j].id, sorted[0].id);
      }
    }
    if Filter(sorted, p) != [] {
      var y := Filter(sorted, p)[0];
      FilterMembership(sorted, p, y);
    }
  }

  /** The sort is stable: transfers of the same bone id keep their relative order. */
  lemma {:induction false} SortByIdStable(ts: seq<Transfer>, k: BoneId)
    ensures Filter(SortById(ts), OfId(k)) == Filter(ts, OfId(k))
  {
    if ts != [] {
      var init := ts[..|ts| - 1];
      SplitLast(ts);
      SortByIdStable(init, k);
      SortByIdProperties(init);
      InsertByIdStable(ts[|ts| - 1], SortById(init), k);
      FilterAppend(init, ts[|ts| - 1], OfId(k));
    }
  }

  // ---------------------------------------------------------------------------
  // The delta chain

  /** One emitted row, before varint encoding. */
  datatype Row = Row(deltaBlock: int, deltaIndex: int, amount: nat, output: nat)

  /** The rows emitted so far and the running "previous" pair. */
  datatype ChainState = ChainState(rows: seq<Row>, prevBlock: int, prevTx: int)

  /** One loop step: the block delta against the running previous block, the index
      delta only when the block delta is zero; the previous pair becomes this row's
      deltas, not this transfer's id. */
  function Step(st: ChainState, t: Transfer): ChainState
  {
    var db := t.id.block - st.prevBlock;
    var di := if db == 0 then t.id.tx - st.prevTx else t.id.tx;
    ChainState(st.rows + [Row(db, di, t.amount, t.output)], db, di)
  }

  function Chain(ts: seq<Transfer>): ChainState
  {
    if ts == [] then ChainState([], 0, 0) else Step(Chain(ts[..|ts| - 1]), ts[|ts| - 1])
  }

  function RowGroups(r: Row): seq<seq<byte>>
  {
    [VarInt(r.deltaBlock), VarInt(r.deltaIndex), VarInt(r.amount), VarInt(r.output)]
  }

  function RowBytes(r: Row): seq<byte>
  {
    VarInt(r.deltaBlock) + VarInt(r.deltaIndex) + VarInt(r.amount) + VarInt(r.output)
  }

  function RowsBytes(rows: seq<Row>): seq<byte>
  {
    FlatMap(RowBytes, rows)
  }

  /** The transfer body: nothing for an empty list, otherwise the Body tag followed by
      the rows of the sorted list. */
  function TransfersMessage(ts: seq<Transfer>): seq<byte>
  {
    if ts == [] then [] else VarInt(Tag.Body.Value()) + RowsBytes(Chain(SortById(ts)).rows)
  }

  lemma ChainLength(ts: seq<Transfer>)
    ensures |Chain(ts).rows| == |ts|
  {
    if ts != [] {
      ChainLength(ts[..|ts| - 1]);
    }
  }

  lemma ChainPrefix(ts: seq<Transfer>, i: nat)
    requires i < |ts|
    ensures Chain(ts[..i + 1]) == Step(Chain(ts[..i]), ts[i])
  {
    assert ts[..i + 1][..i] == ts[..i];
  }

  lemma RowsBytesAppend(rows: seq<Row>, r: Row)
    ensures RowsBytes(rows + [r]) == RowsBytes(rows) + RowBytes(r)
  {
    FlatMapAppend(RowBytes, rows, r);
  }

  lemma AppendRowGroups(gs: seq<seq<byte>>, r: Row)
    ensures Flatten(gs + RowGroups(r)) == Flatten(gs) + RowBytes(r)
  {
    FlattenConcat(gs, RowGroups(r));
    FlattenFour(VarInt(r.deltaBlock), VarInt(r.deltaIndex), VarInt(r.amount), VarInt(r.output));
  }

  lemma EncodeRowStep(ts: seq<Transfer>, i: nat, gs: seq<seq<byte>>, r: Row)
    requires i < |ts|
    requires Flatten(gs) == RowsBytes(Chain(ts[..i]).rows)
    requires r.deltaBlock == ts[i].id.block - Chain(ts[..i]).prevBlock
    requires r.deltaIndex == if r.deltaBlock == 0 then ts[i].id.tx - Chain(ts[..i]).prevTx else ts[i].id.tx
    requires r.amount == ts[i].amount && r.output == ts[i].output
    ensures Chain(ts[..i + 1]) == ChainState(Chain(ts[..i]).rows + [r], r.deltaBlock, r.deltaIndex)
    ensures Flatten(gs + RowGroups(r)) == RowsBytes(Chain(ts[..i + 1]).rows)
  {
    ChainPrefix(ts, i);
    AppendRowGroups(gs, r);
    RowsBytesAppend(Chain(ts[..i]).rows, r);
  }

  /** The loop of `encodeTransfersProtocolMessage` over the sorted copy: four varint
      groups per transfer, with the running previous pair updated to the deltas. */
  method EncodeRows(sorted: seq<Transfer>) returns (payload: seq<seq<byte>>)
    ensures Flatten(payload) == RowsBytes(Chain(sorted).rows)
  {
    payload := [];
    var prevIdBlock: int := 0;
    var prevIdTxIndex: int := 0;
    var i := 0;
    assert sorted[..0] == [];
    while i < |sorted|
      invariant 0 <= i <= |sorted|
      invariant Flatten(payload) == RowsBytes(Chain(sorted[..i]).rows)
      invariant prevIdBlock == Chain(sorted[..i]).prevBlock
      invariant prevIdTxIndex == Chain(sorted[..i]).prevTx
    {
      var t := sorted[i];
      ghost var before := payload;
      var deltaBlock := t.id.block - prevIdBlock;
      var deltaIndex := if deltaBlock == 0 then t.id.tx - prevIdTxIndex else t.id.tx;
      var g0 := VarIntEncode(deltaBlock);
      var g1 := VarIntEncode(deltaIndex);
      var g2 := VarIntEncode(t.amount);
      var g3 := VarIntEncode(t.output);
      payload := payload + [g0] + [g1] + [g2] + [g3];
      prevIdBlock := deltaBlock;
      prevIdTxIndex := deltaIndex;
      ghost var r := Row(deltaBlock, deltaIndex, t.amount, t.output);
      AppendFour(before, g0, g1, g2, g3);
      EncodeRowStep(sorted, i, before, r);
      i := i + 1;
    }
    assert sorted[..|sorted|] == sorted;
  }

  /** `encodeTransfersProtocolMessage`: nothing for an empty list; otherwise the Body
      tag, then the rows of a sorted copy (the caller's list is left as it was). */
  method EncodeTransfersProtocolMessage(transfers: seq<Transfer>) returns (msg: seq<byte>)
    ensures msg == TransfersMessage(transfers)
    ensures transfers == [] <==> msg == []
  {
    var payload: seq<seq<byte>> := [];
    if |transfers| > 0 {
      var body := VarIntEncode(Tag.Body.Value());
      var rows := EncodeRows(SortById(transfers));
      payload := [body] + rows;
      FlattenCons(body, rows);
    }
    msg := Flatten(payload);
  }

  /** In ascending order no delta is negative: the running pair never exceeds the
      last id, block for block and index for index. */
  lemma {:induction false} ChainNonNegative(ts: seq<Transfer>)
    requires SortedById(ts)
    ensures forall r :: r in Chain(ts).rows ==> r.deltaBlock >= 0 && r.deltaIndex >= 0
    ensures ts == [] ==> Chain(ts).prevBlock == 0 && Chain(ts).prevTx == 0
    ensures ts != [] ==> 0 <= Chain(ts).prevBlock <= ts[|ts| - 1].id.block
    ensures ts != [] ==> 0 <= Chain(ts).prevTx <= ts[|ts| - 1].id.tx
  {
    if ts != [] {
      var init := ts[..|ts| - 1];
      assert SortedById(init);
      ChainNonNegative(init);
      var t := ts[|ts| - 1];
      if init != [] {
        assert !IdLess(t.id, init[|init| - 1].id);
      }
    }
  }

  /** Every row the encoder emits for any list has non-negative deltas. */
  lemma TransferRowsNonNegative(ts: seq<Transfer>)
    ensures forall r :: r in Chain(SortById(ts)).rows ==> r.deltaBlock >= 0 && r.deltaIndex >= 0
  {
    SortByIdProperties(ts);
    ChainNonNegative(SortById(ts));
  }

  // ---------------------------------------------------------------------------
  // The chain's own inverse, and a reference decoder for the transfer body

  datatype UnchainState = UnchainState(ids: seq<(int, int)>, prevBlock: int, prevTx: int)

  /** Undoes the chain row by row: block = delta + previous delta block; index =
      delta + previous delta index when the block delta is zero, else the delta. */
  function Unchain(rows: seq<Row>): UnchainState
  {
    if rows == [] then UnchainState([], 0, 0)
    else
      var st := Unchain(rows[..|rows| - 1]);
      var r := rows[|rows| - 1];
      var block := r.deltaBlock + st.prevBlock;
      var tx := if r.deltaBlock == 0 then r.deltaIndex + st.prevTx else r.deltaIndex;
      UnchainState(st.ids + [(block, tx)], r.deltaBlock, r.deltaIndex)
  }

  /** The chain is invertible for every list, sorted or not. */
  lemma {:induction false} UnchainChain(ts: seq<Transfer>)
    ensures |Unchain(Chain(ts).rows).ids| == |ts|
    ensures forall i :: 0 <= i < |ts| ==>
      Unchain(Chain(ts).rows).ids[i] == (ts[i].id.block, ts[i].id.tx)
    ensures Unchain(Chain(ts).rows).prevBlock == Chain(ts).prevBlock
    ensures Unchain(Chain(ts).rows).prevTx == Chain(ts).prevTx
  {
    if ts != [] {
      var init := ts[..|ts| - 1];
      UnchainChain(init);
      var rows := Chain(ts).rows;
      assert rows[..|rows| - 1] == Chain(init).rows;
    }
  }

  /** Reads one row: four varints. */
  /** The encodings of `ns`, one after the other. */
  function VarInts(ns: seq<nat>): seq<byte>
  {
    if ns == [] then [] else VarInt(ns[0]) + VarInts(ns[1..])
  }

  /** Reads `n` varints off the front of `bs`, with the number of bytes they took. */
  function ReadVarInts(bs: seq<byte>, n: nat): (r: Option<(seq<nat>, nat)>)
    ensures r.Some? ==> |r.value.0| == n && r.value.1 <= |bs| && (n > 0 ==> r.value.1 >= 1)
  {
    if n == 0 then Some(([], 0))
    else
      ReadVarIntConsumes(bs);
      var vk := ReadVarInt(bs);
      if vk.None? then None
      else
        var r := ReadVarInts(bs[vk.value.1..], n - 1);
        if r.None? then None else Some(([vk.value.0] + r.value.0, vk.value.1 + r.value.1))
  }

  lemma {:induction false} ReadVarIntsOf(ns: seq<nat>, tail: seq<byte>)
    ensures ReadVarInts(VarInts(ns) + tail, |ns|) == Some((ns, |VarInts(ns)|))
    decreases |ns|
  {
    if ns != [] {
      var a, rest := VarInt(ns[0]), VarInts(ns[1..]);
      ConcatAssoc(a, rest, tail);
      ReadVarIntOfVarInt(ns[0], rest + tail);
      assert (a + (rest + tail))[|a|..] == rest + tail;
      ReadVarIntsOf(ns[1..], tail);
      assert [ns[0]] + ns[1..] == ns;
    }
  }

  /** Reads one row: four varints. */
  function ReadRow(bs: seq<byte>): (r: Option<(Row, nat)>)
    ensures r.Some? ==> 1 <= r.value.1 <= |bs|
  {
    var r := ReadVarInts(bs, 4);
    if r.None? then None
    else Some((Row(r.value.0[0], r.value.0[1], r.value.0[2], r.value.0[3]), r.value.1))
  }

  /** Reads rows until the bytes run out. */
  function ParseRows(bs: seq<byte>): Option<seq<Row>>
    decreases |bs|
  {
    if bs == [] then Some([])
    else
      var r := ReadRow(bs);
      if r.None? then None
      else
        var rest :- ParseRows(bs[r.value.1..]);
        Some([r.value.0] + rest)
  }

  /** The transfers a list of rows stands for, if every reconstructed id is non-negative. */
  function FromRows(rows: seq<Row>): Option<seq<Transfer>>
  {
    var ids := Unchain(rows).ids;
    if |ids| == |rows| && forall i :: 0 <= i < |ids| ==> ids[i].0 >= 0 && ids[i].1 >= 0 then
      Some(seq(|rows|, i requires 0 <= i < |rows| && i < |ids| && ids[i].0 >= 0 && ids[i].1 >= 0 =>
        Transfer(BoneId(ids[i].0, ids[i].1), rows[i].amount, rows[i].output)))
    else None
  }

  /** Reference decoder for the transfer body (not part of the library). */
  function DecodeTransfersMessage(bs: seq<byte>): Option<seq<Transfer>>
  {
    if bs == [] then Some([])
    else if bs[0] != 0 then None
    else
      var rows :- ParseRows(bs[1..]);
      FromRows(rows)
  }

  lemma RowsBytesCons(r: Row, rows: seq<Row>)
    ensures RowsBytes([r] + rows) == RowBytes(r) + RowsBytes(rows)
  {
    FlatMapCons(RowBytes, r, rows);
  }

  lemma ReadRowBytes(r: Row, tail: seq<byte>)
    requires r.deltaBlock >= 0 && r.deltaIndex >= 0
    ensures ReadRow(RowBytes(r) + tail) == Some((r, |RowBytes(r)|))
  {
    var ns: seq<nat> := [r.deltaBlock, r.deltaIndex, r.amount, r.output];
    var a, b, c, d := VarInt(r.deltaBlock), VarInt(r.deltaIndex), VarInt(r.amount), VarInt(r.output);
    assert VarInts(ns[3..]) == d by { assert ns[3..][1..] == []; }
    assert VarInts(ns[2..]) == c + d by { assert ns[2..][1..] == ns[3..]; }
    assert VarInts(ns[1..]) == b + (c + d) by { assert ns[1..][1..] == ns[2..]; }
    assert VarInts(ns) == a + (b + (c + d));
    ConcatAssoc(a + b, c, d);
    ConcatAssoc(a, b, c + d);
    assert RowBytes(r) == VarInts(ns);
    ReadVarIntsOf(ns, tail);
  }

  lemma {:induction false} ParseRowsBytes(rows: seq<Row>)
    requires forall r :: r in rows ==> r.deltaBlock >= 0 && r.deltaIndex >= 0
    ensures ParseRows(RowsBytes(rows)) == Some(rows)
    decreases |rows|
  {
    if rows != [] {
      var r, rest := rows[0], rows[1..];
      assert rows == [r] + rest;
      RowsBytesCons(r, rest);
      ParseRowsBytes(rest);
      ReadRowBytes(r, RowsBytes(rest));
      var bs := RowBytes(r) + RowsBytes(rest);
      assert bs[|RowBytes(r)|..] == RowsBytes(rest);
      VarIntShape(r.deltaBlock);
    }
  }

  lemma FromRowsChain(s: seq<Transfer>)
    ensures FromRows(Chain(s).rows) == Some(s)
  {
    var rows := Chain(s).rows;
    UnchainChain(s);
    ChainLength(s);
    var ids := Unchain(rows).ids;
    assert forall i :: 0 <= i < |ids| ==> ids[i].0 >= 0 && ids[i].1 >= 0;
    var got := FromRows(rows).value;
    assert |got| == |s|;
    forall i | 0 <= i < |s| ensures got[i] == s[i] {
      ChainRow(s, i);
    }
    assert got == s;
  }

  /** Row `i` of the chain carries transfer `i`'s amount and output. */
  lemma {:induction false} ChainRow(s: seq<Transfer>, i: nat)
    requires i < |s|
    ensures |Chain(s).rows| == |s|
    ensures Chain(s).rows[i].amount == s[i].amount && Chain(s).rows[i].output == s[i].output
  {
    ChainLength(s);
    var init := s[..|s| - 1];
    if i < |s| - 1 {
      ChainRow(init, i);
    }
  }

  /** Round trip: decoding the transfer body gives back the sorted transfer list. */
  lemma DecodeTransfersRoundTrip(ts: seq<Transfer>)
    ensures DecodeTransfersMessage(TransfersMessage(ts)) == Some(SortById(ts))
  {
    if ts != [] {
      var s := SortById(ts);
      var rows := Chain(s).rows;
      TransferRowsNonNegative(ts);
      ParseRowsBytes(rows);
      var bs := TransfersMessage(ts);
      assert bs == [0] + RowsBytes(rows);
      assert bs[1..] == RowsBytes(rows);
      FromRowsChain(s);
    }
  }

  /** The example of a same-block pair: rows (5, 2) then (0, 5). */
  lemma SameBlockExample()
    ensures Chain(SortById([Transfer(BoneId(5, 7), 3, 1), Transfer(BoneId(5, 2), 10, 0)])).rows
      == [Row(5, 2, 10, 0), Row(0, 5, 3, 1)]
  {
    var a, b := Transfer(BoneId(5, 7), 3, 1), Transfer(BoneId(5, 2), 10, 0);
    assert SortById([a]) == [a];
    assert [a, b][..1] == [a];
    assert SortById([a, b]) == [b, a];
    assert [b, a][..1] == [b];
  }

  /** Blocks 100, 200, 5000, 20000 give block deltas 100, 100, 4900, 15100: each is
      taken against the previous delta, not the previous block. */
  lemma BlockHeightsExample()
    ensures var ts := [Transfer(BoneId(100, 0), 1, 0), Transfer(BoneId(200, 0), 1, 0),
                       Transfer(BoneId(5000, 0), 1, 0), Transfer(BoneId(20000, 0), 1, 0)];
      var rows := Chain(ts).rows;
      |rows| == 4 && rows[0].deltaBlock == 100 && rows[1].deltaBlock == 100
      && rows[2].deltaBlock == 4900 && rows[3].deltaBlock == 15100
  {
    var ts := [Transfer(BoneId(100, 0), 1, 0), Transfer(BoneId(200, 0), 1, 0),
               Transfer(BoneId(5000, 0), 1, 0), Transfer(BoneId(20000, 0), 1, 0)];
    assert ts[..0] == [];
    ChainPrefix(ts, 0);
    assert Chain(ts[..1]) == ChainState([Row(100, 0, 1, 0)], 100, 0);
    ChainPrefix(ts, 1);
    assert Chain(ts[..2]) == ChainState([Row(100, 0, 1, 0), Row(100, 0, 1, 0)], 100, 0);
    ChainPrefix(ts, 2);
    assert Chain(ts[..3]).prevBlock == 4900;
    assert Chain(ts[..3]).rows == [Row(100, 0, 1, 0), Row(100, 0, 1, 0), Row(4900, 0, 1, 0)];
    ChainPrefix(ts, 3);
    assert ts[..4] == ts;
  }
}
