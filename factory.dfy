/** `TransactionFactory.createTransaction`: a switch on the requested transaction type
    that builds the record of that kind. */
module Factory {
  import opened Wrappers
  import opened TxTypes
  import opened Records

  const INVALID_TYPE_ERROR := "Invalid transaction type"

  /** The factory's parameters: the `transactionType` tag, the transaction, the optional
      state, and the fields of the kind the tag names. */
  datatype FactoryParams = FactoryParams(transactionType: string, tx: Tx, state: Option<TransactionState>,
                                         details: Details)

  /** The nine type strings the switch knows. */
  predicate KnownType(t: string)
  {
    t == "sealing" || t == "deploy" || t == "mint" || t == "swap" || t == "relicBuy" || t == "sealingBuy"
    || t == "relicTransfer" || t == "btcTransfer" || t == "boneStoneUnwrap"
  }

  /** The parameter type is a union discriminated by `transactionType`: a known tag comes
      with the fields of that kind. */
  predicate WellTagged(p: FactoryParams)
  {
    KnownType(p.transactionType) ==> p.details.TypeName() == p.transactionType
  }

  /** The switch: for a known tag, the kind's fields copied one by one from the
      parameters; for any other tag, the "Invalid transaction type" error. */
  function Dispatch(p: FactoryParams): (r: Result<Details>)
    requires WellTagged(p)
    ensures r.Err? <==> !KnownType(p.transactionType)
    ensures r.Err? ==> r.error == INVALID_TYPE_ERROR
    ensures r.Ok? ==> r.value == p.details && r.value.TypeName() == p.transactionType
  {
    var d := p.details;
    match p.transactionType
    case "sealing" => Ok(SealingDetails(d.tick))
    case "deploy" =>
      Ok(DeployDetails(d.tick, d.symbol, d.totalSupply, d.amountPerMint, d.priceInRelic, d.liquidityShare))
    case "mint" => Ok(MintDetails(d.tick, d.amount))
    case "swap" => Ok(SwapDetails(d.inputTick, d.outputTick, d.inputAmount, d.outputAmount, d.isExactInput))
    case "relicBuy" => Ok(RelicBuyDetails(d.from, d.tick, d.amount, d.price))
    case "sealingBuy" => Ok(SealingBuyDetails(d.from, d.tick, d.price))
    case "relicTransfer" => Ok(RelicTransferDetails(d.ticker, d.receiver, d.amount))
    case "btcTransfer" => Ok(BtcTransferDetails(d.receiver, d.amount))
    case "boneStoneUnwrap" => Ok(BonestoneUnwrapDetails(d.receiver, d.amount))
    case _ => Err(INVALID_TYPE_ERROR)
  }

  /** `createTransaction`: a new record of the requested kind holding the given
      transaction and fields; an absent state becomes `Created`, and `createdAt` is the
      clock reading `now`. */
  method CreateTransaction(p: FactoryParams, now: int) returns (r: Result<TransactionRecord>)
    requires WellTagged(p)
    ensures r.Err? <==> !KnownType(p.transactionType)
    ensures r.Err? ==> r.error == INVALID_TYPE_ERROR
    ensures r.Ok? ==> fresh(r.value) && r.value.tx == p.tx && r.value.details == p.details
                      && r.value.createdAt == now && r.value.state == p.state.GetOr(Created)
  {
    var details := Dispatch(p);
    if details.Err? {
      return Err(details.error);
    }
    var record := new TransactionRecord(p.tx, p.state, details.value, now);
    return Ok(record);
  }
}
