/** The library's shared records: protocol identifiers and messages, the UTXO shape,
    and the indexer's address-transaction and output records. */
module Types {
  import opened Wrappers

  /** A bone's identifier: the block of its deployment and the index inside it. */
  datatype BoneId = BoneId(block: nat, tx: nat)

  datatype MintTerms = MintTerms(amount: nat, cap: nat, price: nat)

  /** A deployment; the source's `Deployment` also admits `null`, modelled as
      `Option<Deployment>` where it occurs. */
  datatype Deployment = Deployment(
    symbol: string, seed: nat, subsidy: nat, mintTerms: Option<MintTerms>, turbo: bool)

  datatype Swap = Swap(
    input: Option<BoneId>, output: Option<BoneId>, inputAmount: nat, outputAmount: nat,
    isExactInput: bool)

  datatype Transfer = Transfer(id: BoneId, amount: nat, output: nat)

  datatype Summoning = Summoning(
    treasure: BoneId, heightStart: nat, heightEnd: nat, cap: nat, quota: nat, royalty: nat,
    gated: bool, lock: nat, reward: nat, lockSubsidy: bool, turbo: bool)

  /** The protocol message in structured form; an absent optional boolean is `false`.
      `revealFlag` is the keepsake's optional Reveal boolean. */
  datatype Keepsake = Keepsake(
    transfers: Option<seq<Transfer>>,
    pointer: Option<nat>,
    claim: Option<int>,
    commitment: bool,
    sealing: bool,
    deployment: Option<Deployment>,
    mint: Option<BoneId>,
    swap: Option<Swap>,
    summoning: Option<Summoning>,
    encasing: Option<BoneId>,
    revealFlag: bool)

  /** `{}`: a keepsake with no field set. */
  const EmptyKeepsake := Keepsake(None, None, None, false, false, None, None, None, None, None, false)

  /** An unspent output as the indexer and the builders pass it around. */
  datatype Utxo = Utxo(txid: string, vout: nat, value: nat, confirmed: bool)
}
