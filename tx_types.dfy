/** Transaction-side records: spending inputs, requested outputs, record states, and
    the built transaction as far as the library looks into it. */
module TxTypes {
  import opened Wrappers
  import opened Encoding

  /** The p2pkh payment derived from the wallet key: its address and output script. */
  datatype Spender = Spender(address: string, script: seq<byte>)

  /** A spendable input as handed to coin selection. */
  datatype Input = Input(txid: seq<byte>, index: nat, script: seq<byte>, amount: nat)

  /** A requested output: pay an address, or carry a raw script. */
  datatype Output = AddressOut(address: string, amount: nat) | ScriptOut(script: seq<byte>, amount: nat)

  datatype TransactionState = Created | Submitted | Pending | Confirmed
  {
    /** The enum's string value. */
    function Name(): string
    {
      match this
      case Created => "created"
      case Submitted => "submitted"
      case Pending => "pending"
      case Confirmed => "confirmed"
    }
  }

  /** Reads a state back from its string value. */
  function ParseState(s: string): (r: Option<TransactionState>)
    ensures r.Some? ==> r.value.Name() == s
    ensures forall t: TransactionState :: t.Name() == s ==> r == Some(t)
  {
    if s == "created" then Some(Created)
    else if s == "submitted" then Some(Submitted)
    else if s == "pending" then Some(Pending)
    else if s == "confirmed" then Some(Confirmed)
    else None
  }

  /** An input of a built transaction: the spent transaction's id bytes and output index. */
  datatype OutPoint = OutPoint(txid: seq<byte>, index: nat)

  /** A built (and, once signed, finalized) transaction: its id, its hex serialization,
      the outpoints it spends and the amounts of its outputs, in order. */
  datatype Tx = Tx(id: string, hex: string, inputs: seq<OutPoint>, outputs: seq<nat>)
}
