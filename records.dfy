/** The stored transaction records: one class holding the built transaction, its
    lifecycle state (the only field anything updates) and its creation time, plus the
    kind-specific fields of the nine record kinds. Records serialize to plain data with
    bigints spelled as decimal strings, and deserialize back. */
module Records {
  import opened Wrappers
  import opened Encoding
  import opened TxTypes

  /** The kind-specific fields; amounts (bigints) are naturals, `liquidityShare` is a
      JavaScript number kept as an integer. */
  datatype Details =
    | SealingDetails(tick: string)
    | DeployDetails(tick: string, symbol: string, totalSupply: nat, amountPerMint: nat, priceInRelic: nat,
                    liquidityShare: int)
    | MintDetails(tick: string, amount: nat)
    | SwapDetails(inputTick: string, outputTick: string, inputAmount: nat, outputAmount: nat, isExactInput: bool)
    | RelicBuyDetails(from: string, tick: string, amount: nat, price: nat)
    | SealingBuyDetails(from: string, tick: string, price: nat)
    | RelicTransferDetails(ticker: string, receiver: string, amount: nat)
    | BtcTransferDetails(receiver: string, amount: nat)
    | BonestoneUnwrapDetails(receiver: string, amount: nat)
  {
    /** The fixed `type` string each kind writes when serialized. */
    function TypeName(): string
    {
      match this
      case SealingDetails(_) => "sealing"
      case DeployDetails(_, _, _, _, _, _) => "deploy"
      case MintDetails(_, _) => "mint"
      case SwapDetails(_, _, _, _, _) => "swap"
      case RelicBuyDetails(_, _, _, _) => "relicBuy"
      case SealingBuyDetails(_, _, _) => "sealingBuy"
      case RelicTransferDetails(_, _, _) => "relicTransfer"
      case BtcTransferDetails(_, _) => "btcTransfer"
      case BonestoneUnwrapDetails(_, _) => "boneStoneUnwrap"
    }
  }

  /** The serialized kind-specific fields: the same fields with every bigint as a string. */
  datatype SerializedDetails =
    | SealingFields(tick: string)
    | DeployFields(tick: string, symbol: string, totalSupply: string, amountPerMint: string,
                   priceInRelic: string, liquidityShare: int)
    | MintFields(tick: string, amount: string)
    | SwapFields(inputTick: string, outputTick: string, inputAmount: string, outputAmount: string,
                 isExactInput: bool)
    | RelicBuyFields(from: string, tick: string, amount: string, price: string)
    | SealingBuyFields(from: string, tick: string, price: string)
    | RelicTransferFields(ticker: string, receiver: string, amount: string)
    | BtcTransferFields(receiver: string, amount: string)
    | BonestoneUnwrapFields(receiver: string, amount: string)

  /** A serialized record: the `type` tag, the base fields `{id, tx, state, createdAt}`
      (`tx` is the transaction's hex) and the kind's fields. */
  datatype Serialized = Serialized(kind: string, id: string, tx: string, state: TransactionState, createdAt: int,
                                   fields: SerializedDetails)

  /** What the constructors take: the transaction, the optional state and the kind's
      fields. */
  datatype Params = Params(tx: Tx, state: Option<TransactionState>, details: Details)

  /** Stand-ins for the exceptions the hex codec, the transaction parser and `BigInt`
      throw; their texts belong to those libraries. */
  const HEX_DECODE_ERROR := "Invalid hex string"
  const RAW_TX_ERROR := "Invalid raw transaction"
  const BIGINT_ERROR := "Cannot convert to a BigInt"

  /** A record object. `tx`, `createdAt` and `details` are set once by the constructor;
      `state` is changed by `UpdateState`. */
  class TransactionRecord {
    var tx: Tx
    var state: TransactionState
    var createdAt: int
    var details: Details

    /** The base constructor: the state defaults to `Created`; `createdAt` is the clock
        reading `now`. */
    constructor(tx: Tx, state: Option<TransactionState>, details: Details, now: int)
      ensures this.tx == tx && this.details == details && this.createdAt == now
      ensures state.Some? ==> this.state == state.value
      ensures state.None? ==> this.state == Created
    {
      this.tx := tx;
      this.state := state.GetOr(Created);
      this.createdAt := now;
      this.details := details;
    }

    /** `id`: the transaction's id. */
    function Id(): string
      reads this
    {
      tx.id
    }

    /** `updateState`: sets the state, whatever it was before (states may move backward);
        nothing else changes. */
    method UpdateState(newState: TransactionState)
      modifies this
      ensures state == newState
      ensures tx == old(tx) && createdAt == old(createdAt) && details == old(details)
    {
      state := newState;
    }

    /** `serialize`: the kind's `type`, the base fields and the kind's fields. */
    function Serialize(): (r: Serialized)
      reads this
      ensures r.kind == details.TypeName()
      ensures r.id == tx.id && r.tx == tx.hex && r.state == state && r.createdAt == createdAt
      ensures r.fields == SerializeDetails(details)
    {
      Serialized(details.TypeName(), tx.id, tx.hex, state, createdAt, SerializeDetails(details))
    }

    /** `isSellOrder` of a swap record: the output ticker is the base ticker. */
    predicate IsSellOrder(baseTicker: string)
      reads this
      requires details.SwapDetails?
    {
      details.outputTick == baseTicker
    }
  }

  /** A bigint field's `toString()`. */
  function BigIntString(n: nat): string
  {
    Decimal(n)
  }

  /** `BigInt(s)` on a serialized field: the empty string reads as 0, a run of decimal
      digits as its value; anything else throws. */
  function ParseBigInt(s: string): (r: Result<nat>)
    ensures s == "" ==> r == Ok(0)
    ensures s != "" ==> (r.Ok? <==> ParseDecimal(s).Some?)
    ensures s != "" && r.Ok? ==> r.value == ParseDecimal(s).value
    ensures r.Err? ==> r.error == BIGINT_ERROR
  {
    if s == "" then Ok(0)
    else if ParseDecimal(s).Some? then Ok(ParseDecimal(s).value)
    else Err(BIGINT_ERROR)
  }

  /** `BigInt(n.toString()) == n`. */
  lemma BigIntRoundTrip(n: nat)
    ensures ParseBigInt(BigIntString(n)) == Ok(n)
  {
    DecimalRoundTrip(n);
    DecimalDigits(n);
  }

  /** The kind-specific half of each `serialize`. */
  function SerializeDetails(d: Details): (r: SerializedDetails)
  {
    match d
    case SealingDetails(tick) => SealingFields(tick)
    case DeployDetails(tick, symbol, totalSupply, amountPerMint, priceInRelic, liquidityShare) =>
      DeployFields(tick, symbol, BigIntString(totalSupply), BigIntString(amountPerMint), BigIntString(priceInRelic),
                   liquidityShare)
    case MintDetails(tick, amount) => MintFields(tick, BigIntString(amount))
    case SwapDetails(inputTick, outputTick, inputAmount, outputAmount, isExactInput) =>
      SwapFields(inputTick, outputTick, BigIntString(inputAmount), BigIntString(outputAmount), isExactInput)
    case RelicBuyDetails(from, tick, amount, price) => RelicBuyFields(from, tick, BigIntString(amount), BigIntString(price))
    case SealingBuyDetails(from, tick, price) => SealingBuyFields(from, tick, BigIntString(price))
    case RelicTransferDetails(ticker, receiver, amount) => RelicTransferFields(ticker, receiver, BigIntString(amount))
    case BtcTransferDetails(receiver, amount) => BtcTransferFields(receiver, BigIntString(amount))
    case BonestoneUnwrapDetails(receiver, amount) => BonestoneUnwrapFields(receiver, BigIntString(amount))
  }

  /** The kind-specific half of each `deserialize`: every bigint field through `BigInt`,
      the rest copied. */
  function DeserializeDetails(f: SerializedDetails): (r: Result<Details>)
  {
    match f
    case SealingFields(tick) => Ok(SealingDetails(tick))
    case DeployFields(tick, symbol, totalSupply, amountPerMint, priceInRelic, liquidityShare) =>
      var t :- ParseBigInt(totalSupply);
      var a :- ParseBigInt(amountPerMint);
      var p :- ParseBigInt(priceInRelic);
      Ok(DeployDetails(tick, symbol, t, a, p, liquidityShare))
    case MintFields(tick, amount) =>
      var a :- ParseBigInt(amount);
      Ok(MintDetails(tick, a))
    case SwapFields(inputTick, outputTick, inputAmount, outputAmount, isExactInput) =>
      var i :- ParseBigInt(inputAmount);
      var o :- ParseBigInt(outputAmount);
      Ok(SwapDetails(inputTick, outputTick, i, o, isExactInput))
    case RelicBuyFields(from, tick, amount, price) =>
      var a :- ParseBigInt(amount);
      var p :- ParseBigInt(price);
      Ok(RelicBuyDetails(from, tick, a, p))
    case SealingBuyFields(from, tick, price) =>
      var p :- ParseBigInt(price);
      Ok(SealingBuyDetails(from, tick, p))
    case RelicTransferFields(ticker, receiver, amount) =>
      var a :- ParseBigInt(amount);
      Ok(RelicTransferDetails(ticker, receiver, a))
    case BtcTransferFields(receiver, amount) =>
      var a :- ParseBigInt(amount);
      Ok(BtcTransferDetails(receiver, a))
    case BonestoneUnwrapFields(receiver, amount) =>
      var a :- ParseBigInt(amount);
      Ok(BonestoneUnwrapDetails(receiver, a))
  }

  /** Deserializing the serialized fields gives the fields back, for every kind. */
  lemma DetailsRoundTrip(d: Details)
    ensures DeserializeDetails(SerializeDetails(d)) == Ok(d)
  {
    match d
    case SealingDetails(_) =>
    case DeployDetails(_, _, totalSupply, amountPerMint, priceInRelic, _) =>
      BigIntRoundTrip(totalSupply);
      BigIntRoundTrip(amountPerMint);
      BigIntRoundTrip(priceInRelic);
    case MintDetails(_, amount) => BigIntRoundTrip(amount);
    case SwapDetails(_, _, inputAmount, outputAmount, _) =>
      BigIntRoundTrip(inputAmount);
      BigIntRoundTrip(outputAmount);
    case RelicBuyDetails(_, _, amount, price) =>
      BigIntRoundTrip(amount);
      BigIntRoundTrip(price);
    case SealingBuyDetails(_, _, price) => BigIntRoundTrip(price);
    case RelicTransferDetails(_, _, amount) => BigIntRoundTrip(amount);
    case BtcTransferDetails(_, amount) => BigIntRoundTrip(amount);
    case BonestoneUnwrapDetails(_, amount) => BigIntRoundTrip(amount);
  }

  /** `deserializeBase` followed by the kind's fields: the hex is decoded and parsed
      into a transaction (`fromRaw`, None when it throws), the state copied, then the
      kind's fields read. The `type`, `id` and `createdAt` entries are not read. */
  function DeserializeParams(data: Serialized, fromRaw: seq<byte> -> Option<Tx>): (r: Result<Params>)
    ensures HexDecode(data.tx).None? ==> r == Err(HEX_DECODE_ERROR)
    ensures HexDecode(data.tx).Some? && fromRaw(HexDecode(data.tx).value).None? ==> r == Err(RAW_TX_ERROR)
    ensures r.Ok? ==> Some(r.value.tx) == fromRaw(HexDecode(data.tx).value)
    ensures r.Ok? ==> r.value.state == Some(data.state) && Ok(r.value.details) == DeserializeDetails(data.fields)
  {
    var bytes := HexDecode(data.tx);
    if bytes.None? then Err(HEX_DECODE_ERROR)
    else
      var tx := fromRaw(bytes.value);
      if tx.None? then Err(RAW_TX_ERROR)
      else
        var details :- DeserializeDetails(data.fields);
        Ok(Params(tx.value, Some(data.state), details))
  }

  /** The static `deserialize` of each kind: a new record built from the parameters,
      with `createdAt` stamped afresh from the clock. */
  method Deserialize(data: Serialized, fromRaw: seq<byte> -> Option<Tx>, now: int)
    returns (r: Result<TransactionRecord>)
    ensures DeserializeParams(data, fromRaw).Err? ==> r == Err(DeserializeParams(data, fromRaw).error)
    ensures DeserializeParams(data, fromRaw).Ok? ==>
      r.Ok? && fresh(r.value)
      && r.value.tx == DeserializeParams(data, fromRaw).value.tx
      && r.value.state == data.state
      && r.value.details == DeserializeParams(data, fromRaw).value.details
      && r.value.createdAt == now
  {
    var params := DeserializeParams(data, fromRaw);
    if params.Err? {
      return Err(params.error);
    }
    var record := new TransactionRecord(params.value.tx, params.value.state, params.value.details, now);
    return Ok(record);
  }

  /** The transaction parser reads a transaction's own hex back as that transaction. */
  ghost predicate ParsesOwnHex(fromRaw: seq<byte> -> Option<Tx>, tx: Tx)
  {
    HexDecode(tx.hex).Some? && fromRaw(HexDecode(tx.hex).value) == Some(tx)
  }

  /** deserialize after serialize gives back the transaction, the state and every
      kind-specific field; only `createdAt` is not carried over (it is re-stamped). */
  lemma SerializeRoundTrip(record: TransactionRecord, fromRaw: seq<byte> -> Option<Tx>)
    requires ParsesOwnHex(fromRaw, record.tx)
    ensures DeserializeParams(record.Serialize(), fromRaw)
            == Ok(Params(record.tx, Some(record.state), record.details))
  {
    DetailsRoundTrip(record.details);
  }

  /** The serialized `type` identifies the kind: two records of different kinds never
      serialize with the same `type`. */
  lemma TypeNamesDistinct(d: Details, e: Details)
    requires d.TypeName() == e.TypeName()
    ensures d.SealingDetails? == e.SealingDetails? && d.DeployDetails? == e.DeployDetails?
    ensures d.MintDetails? == e.MintDetails? && d.SwapDetails? == e.SwapDetails?
    ensures d.RelicBuyDetails? == e.RelicBuyDetails? && d.SealingBuyDetails? == e.SealingBuyDetails?
    ensures d.RelicTransferDetails? == e.RelicTransferDetails? && d.BtcTransferDetails? == e.BtcTransferDetails?
    ensures d.BonestoneUnwrapDetails? == e.BonestoneUnwrapDetails?
  {
  }
}
