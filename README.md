# bones-cli in Dafny

A model of the core of `bones-cli`, a command-line wallet for the Bones protocol on Dogecoin. Bones are fungible tokens whose issuance, minting and transfers are written into `OP_RETURN` marker outputs ("keepsakes"). Tickers are claimed by inscribing them ("sealing").

The model covers the following, with the proofs that go with each part:

- **Keepsake codec** (`Constants`, `ProtocolUtils`, `Classes`, `Transfers`, `Deploy`, `Mint`, `Sealing`, `KeepsakeCodec`, `ProtocolScripts`):
  - the base-128 varint;
  - the tag/value payload, which is a class whose `Append` updates its groups in place;
  - the flag masks;
  - the sorted, delta-chained transfer rows;
  - the deployment and mint bodies;
  - the top-level message, with its fixed field order;
  - the 80-byte pushes behind `OP_RETURN <opcode>`;
  - the ticker seal-price table.

  Each encoder has a reference decoder, and the round trips are proved.
- **Inscription envelopes** (`Script`, `Inscriptions`, `DelegateInscriptions`):
  - scripts are sequences of `Op`/`Push` chunks with an explicit serialized size;
  - the content is cut into 240-byte parts with count-down indexes;
  - the envelope is split into a partial prefix and a remainder under the 1500-byte budget, by the shifting loop itself;
  - the lock, pay-to-script-hash and unlock scripts;
  - the delegate inscription id and its byte reversal;
  - the reveal transactions.
- **Transaction planning** (`TxUtils`, `TransferTx`, `UnwrapTx`, `SealingTx`, `DeployTx`, `MintTx`, `Utxos`):
  - the exact requested outputs, required inputs and errors of every builder;
  - the spend order of the reveals;
  - the chained mint loop, including how it threads the funding and bone caches.

  Coin selection, signing and finalizing are an opaque wallet oracle.
- **Transaction records** (`TxTypes`, `Records`, `Factory`, `Broadcast`):
  - the record class with its mutable `state`;
  - the factory dispatch;
  - serialization with bigints as decimal text, and its round trip;
  - the sequential broadcast filter, with the transport as an oracle.

  `isSellOrder` of a swap record is the predicate `Records.TransactionRecord.IsSellOrder`.
- **Listings** (`AddressHistory`, `FetchOutputs`, `Listing`, `Funding`, `Bones`, `Stones`, `Tickers`):
  - the paging over the address history, with deduplication by txid;
  - the spent-outpoint sets;
  - the chunked output fetch;
  - the eligibility filters of the funding, bones, stones and tickers listings.

  Explorer pages and output records are function parameters.
- **Command handlers** (`CliActions`): the arithmetic and selection inside `index.ts`:
  - the comparison of the owned balance with what is needed;
  - the descending sorts and the greedy bone-UTXO selection;
  - bullet trimming and pricing of a claimed ticker;
  - the deploy supply and liquidity-share figures;
  - the unwrap limit;
  - the fields of the records the handlers create.

Shared helpers live in `Wrappers` (Option/Result), `Seqs` (flatten, chunking, filters), `Encoding` (hex and decimal text) and `Types` (the protocol's value types).

Behaviour the model keeps exactly as the code does it, including where the code's own comments suggest otherwise:

- **Transfer delta chain.** The "previous id" of the transfer delta chain becomes the emitted delta pair, not the previous id (`src/lib/protocolMessages/transfers.ts:91-92`). The comment example at lines 64-68 of that file therefore does not match the code: the chain of the four ids there encodes block deltas 100, 100, 4900, 15100. `Transfers.BlockHeightsExample` proves that result.
- **Selection units.** The transfer handler compares the summed `value` of the selected UTXOs (shibes) with the requested bone `amount` (`index.ts:226-227`).
- **Recorded amount.** The handler records `selected.length * 10e8`, that is 10^9 per UTXO, as the transfer's amount, whatever amount was requested (`index.ts:243`).
- **Large balances.** `listBones` prints each balance with BigNumber's `toString` (`src/bones.ts:99`), which switches to exponential text such as `1e+21` from 10^21 on. `BigInt` refuses that text, so the transfer and claim handlers fail on such a listing (`index.ts:181-183`, `index.ts:370-374`). `CliActions.LargeBalanceFailsTotal` proves it.
- **Claim record ticker.** The claim handler records the ticker as typed, bullets included (`index.ts:432`), although it seals the trimmed one.

## Model

| member | source | states |
|---|---|---|
| Constants.BaseTicker | src/lib/constants.ts:6 | the environment's value when it is set, even empty, and "BONE" otherwise |
| Constants.LoadProtocolOpcode | src/lib/constants.ts:47-51 | loading fails with "PROTOCOL_OPCODE not defined" exactly when the setting is missing or empty; otherwise it yields the setting |
| Constants.SealPrice | src/lib/constants.ts:57-82 | no price exactly for length 0; every price is a positive whole number of base tokens |
| Constants.SealPriceBands | src/lib/constants.ts:57-82 | the six price bands: 210000, 21000 and 2100 tokens for lengths 1 to 3, then 500 for 4-6, 10 for 7-12 and 1 beyond |
| Constants.SealPriceNonIncreasing | src/lib/constants.ts:57-82 | a longer ticker never costs more than a shorter one |
| Constants.DivisorIsPowerOfTen | src/lib/constants.ts:54-55 | the divisor is 10 to the power BONE_DECIMALS |
| ProtocolUtils.MarkerPrefix | src/lib/protocolMessages/utils.ts:6-9 | a protocol script starts with OP_RETURN and then the configured protocol opcode |
| ProtocolUtils.VarIntEncode | src/lib/protocolMessages/utils.ts:11-35 | the loop yields the LEB128 groups: low seven bits first, the continuation bit on all but the last, `[0]` for zero |
| ProtocolUtils.VarIntNegative | src/lib/protocolMessages/utils.ts:11-35 | a negative number encodes to nothing, because the loop never runs |
| ProtocolUtils.VarIntShape | src/lib/protocolMessages/utils.ts:11-35 | an encoding is non-empty, only its last byte lacks the continuation bit, and it is the shortest one for the number |
| ProtocolUtils.ReadVarIntOfVarInt | src/lib/protocolMessages/utils.ts:11-35 | decoding reads back the number and its exact length, whatever bytes follow it |
| ProtocolUtils.UpperHexRoundTrip | src/lib/protocolMessages/utils.ts:37-45 | spelling a number in upper-case hex and parsing it base 16 gives the number back |
| ProtocolUtils.SymbolAsNumber | src/lib/protocolMessages/utils.ts:37-45 | the result is the symbol's first code point |
| Classes.TagGroupsOfNat | src/lib/protocolMessages/classes.ts:61-68 | for a non-negative value, `Tag.encode` appends exactly the tag's varint and then the value's varint |
| Classes.Payload.constructor | src/lib/protocolMessages/transfers.ts:43 | a new payload holds no byte groups |
| Classes.Payload.Append | src/lib/protocolMessages/transfers.ts:86-89 | pushing a group appends it and changes nothing else |
| Classes.Payload.EncodeTag | src/lib/protocolMessages/classes.ts:61-68 | the payload gains the tag's varint and then the value's varint, or a single zero byte when the value is not positive |
| Classes.PairsBytesConcat | src/lib/protocolMessages/classes.ts:61-68 | the bytes of two runs of pairs are the two runs' bytes one after the other |
| Classes.PairBytesClip | src/lib/protocolMessages/classes.ts:61-68 | one pair's bytes are the tag's varint and the varint of the value clipped at zero |
| Classes.ReadPairsOf | src/lib/protocolMessages/classes.ts:61-68 | round trip: a decoder reads back every written pair, with values clipped at zero, and stops at a Body tag or at the end |
| Classes.Mask | src/lib/protocolMessages/classes.ts:86-88 | the mask is positive |
| Classes.MaskBits | src/lib/protocolMessages/classes.ts:86-88 | exactly the flag's own bit is set in its mask |
| Classes.MasksDisjoint | src/lib/protocolMessages/classes.ts:71-88 | distinct flags have masks with no common bit |
| Classes.OrNewFlag | src/lib/protocolMessages/classes.ts:86-88 | OR-ing in a flag that is not yet set adds its mask |
| Classes.AndMaskIsBit | src/lib/protocolMessages/classes.ts:90-95 | `flags & mask` is non-zero exactly when the flag's bit is set |
| Classes.Take | src/lib/protocolMessages/classes.ts:90-95 | the answer is whether the flag's bit is set in the flags |
| Classes.Set | src/lib/protocolMessages/classes.ts:97-100 | the caller's flags are unchanged, because only the by-value parameter is updated |
| Classes.FromSliceUnchecked | src/lib/protocolMessages/classes.ts:110-112 | the wrapper gives back exactly the bytes it was built from |
| Classes.EmptyPushBytes | src/lib/protocolMessages/classes.ts:118-120 | the empty wrapper holds no bytes |
| Transfers.CreateTransferKeepsake | src/lib/protocolMessages/transfers.ts:7-27 | the length error exactly when the ids and amounts differ in length, or a non-empty output list differs from the ids; otherwise a keepsake holding only transfers, the i-th moving `amount[i]` of `id[i]` to `output[i]`, or to output i when no outputs are given |
| Transfers.SortByIdProperties | src/lib/protocolMessages/transfers.ts:49-62 | the sorted copy is in ascending (block, tx) order and is a permutation of the input |
| Transfers.SortByIdStable | src/lib/protocolMessages/transfers.ts:49-62 | the sort is stable: transfers of one bone id keep their relative order |
| Transfers.ChainLength | src/lib/protocolMessages/transfers.ts:79-93 | the loop emits one row per transfer |
| Transfers.EncodeRows | src/lib/protocolMessages/transfers.ts:79-93 | the payload's bytes are the rows of the delta chain, four varints each, in order |
| Transfers.EncodeTransfersProtocolMessage | src/lib/protocolMessages/transfers.ts:40-97 | the message is the Body tag and the rows of the sorted list, and it is empty exactly when the list is |
| Transfers.ChainNonNegative | src/lib/protocolMessages/transfers.ts:79-93 | on a sorted list no delta is negative and the running "previous" pair never exceeds the last id |
| Transfers.TransferRowsNonNegative | src/lib/protocolMessages/transfers.ts:49-93 | every row the encoder emits, for any input, has non-negative deltas |
| Transfers.UnchainChain | src/lib/protocolMessages/transfers.ts:79-93 | the delta chain, which carries the previous delta rather than the previous id, is invertible: undoing it gives back every id |
| Transfers.ChainRow | src/lib/protocolMessages/transfers.ts:86-89 | row i carries transfer i's amount and output |
| Transfers.DecodeTransfersRoundTrip | src/lib/protocolMessages/transfers.ts:40-97 | decoding the body gives back the list in sorted order |
| Transfers.SameBlockExample | src/lib/protocolMessages/transfers.ts:71-73 | two transfers in one block: the second row's block delta is 0 and its index is the difference of the tx indexes |
| Transfers.BlockHeightsExample | src/lib/protocolMessages/transfers.ts:64-68 | block heights 100, 200, 5000, 20000 give block deltas 100, 100, 4900, 15100 |
| Deploy.EncodeDeploymentProtocolMessage | src/lib/protocolMessages/deploy.ts:26-66 | the flags are the Deployment bit (4), plus MintTerms (8) with mint terms and Turbo (1024) with turbo; the message is the deployment's pairs, or nothing when there is no deployment |
| Deploy.EncodeLeading | src/lib/protocolMessages/deploy.ts:34-44 | the payload gains Symbol (for a non-empty symbol), Seed and Subsidy (when non-zero) pairs and nothing else |
| Deploy.EncodeMintTerms | src/lib/protocolMessages/deploy.ts:47-53 | with mint terms the payload gains Amount, Cap and Price pairs, even zero ones; without, nothing |
| Deploy.DeploymentMessageIsPairs | src/lib/protocolMessages/deploy.ts:30-60 | the message is exactly the deployment's pairs written one after the other |
| Deploy.FlagBits | src/lib/protocolMessages/deploy.ts:31-57 | the flags have the Deployment bit, the MintTerms bit exactly with mint terms, the Turbo bit exactly with turbo, and no other bit |
| Deploy.DeploymentTagOrder | src/lib/protocolMessages/deploy.ts:34-53 | the pairs come in the fixed order Symbol, Seed, Subsidy, Amount, Cap, Price, each at the position the present earlier ones leave it |
| Deploy.DeploymentHasTag | src/lib/protocolMessages/deploy.ts:34-53 | a tag occurs among the pairs exactly when it is Symbol and the symbol is non-empty, Seed or Subsidy and that value is non-zero, or Amount, Cap or Price and mint terms are given |
| Deploy.DeploymentTagsKnown | src/lib/protocolMessages/deploy.ts:34-53 | no other tag is ever written |
| Deploy.DeploymentTagsPositive | src/lib/protocolMessages/deploy.ts:34-53 | no deployment pair uses the Body tag |
| Deploy.DecodeDeploymentOfEncode | src/lib/protocolMessages/deploy.ts:26-66 | round trip: a reader recovers seed, subsidy, mint terms and turbo exactly, and the symbol as its first code point |
| KeepsakeCodec.EncodeProtocolMessage | src/lib/protocolMessages/keepsake.ts:10-63 | the message is the deployment's pairs, the Flags pair, the Pointer and Claim pairs, then the transfers body |
| KeepsakeCodec.EncodeFlagsAndDeployment | src/lib/protocolMessages/keepsake.ts:13-34 | the OR-ed flags are the merged flags of the keepsake and its deployment, and the deployment's pairs come first |
| KeepsakeCodec.EncodeFlags | src/lib/protocolMessages/keepsake.ts:36-41 | the Flags pair is written only when some flag is set |
| KeepsakeCodec.EncodeFurther | src/lib/protocolMessages/keepsake.ts:43-52 | a Pointer pair whenever a pointer is given (zero included), then a Claim pair whenever a claim is given |
| KeepsakeCodec.DeploymentFlagsValue | src/lib/protocolMessages/deploy.ts:31-57 | a deployment's flags are 4, plus 8 with mint terms, plus 1024 with turbo |
| KeepsakeCodec.FlagsChain | src/lib/protocolMessages/keepsake.ts:13-34 | the chain of ORs adds up to the merged flags, because no two masks share a bit |
| KeepsakeCodec.OwnFlagsBits | src/lib/protocolMessages/keepsake.ts:16-26 | the keepsake's own flags have exactly the Commitment, Sealing and Reveal bits that are asked for |
| KeepsakeCodec.ProtocolFlagsBits | src/lib/protocolMessages/keepsake.ts:13-34 | the merged flags have exactly the asked-for bits: the booleans', and with a deployment Deployment, MintTerms and Turbo as it says |
| KeepsakeCodec.DeploymentSetsFlags | src/lib/protocolMessages/keepsake.ts:28-41 | a deployment always forces the Flags pair |
| KeepsakeCodec.NoFlagsNoFlagsPair | src/lib/protocolMessages/keepsake.ts:36-41 | with no flag source the Flags pair is left out and the message is the further payload and the transfers |
| KeepsakeCodec.IgnoredFields | src/lib/protocolMessages/keepsake.ts:10-63 | mint, swap, summoning and encasing never reach the message |
| KeepsakeCodec.ProtocolMessageIsPairs | src/lib/protocolMessages/keepsake.ts:10-63 | the message is its tag/value pairs followed by the transfers body |
| KeepsakeCodec.KeepsakeTagsPositive | src/lib/protocolMessages/keepsake.ts:10-63 | no pair of the message uses the Body tag, so the transfers body is where a reader first meets it |
| KeepsakeCodec.DecodeProtocolMessageRoundTrip | src/lib/protocolMessages/keepsake.ts:10-63 | round trip: a reader recovers the pairs (negative values as zero) and the transfers in sorted order |
| KeepsakeCodec.DecodedFields | src/lib/protocolMessages/keepsake.ts:36-50 | a reader finds the merged flags (when non-zero), the pointer and the claim under their tags |
| KeepsakeCodec.EncodedProtocolMessageToScript | src/lib/protocolMessages/keepsake.ts:65-84 | the loop yields the marker and one push per 80-byte slice of the message |
| KeepsakeCodec.CreateScript | src/lib/protocolMessages/keepsake.ts:86-89 | the script of the keepsake's encoded message |
| KeepsakeCodec.MessageScriptShape | src/lib/protocolMessages/keepsake.ts:65-84 | the script is OP_RETURN, the protocol opcode, then pushes of 1 to 80 bytes, all but the last of exactly 80, that put together give the message |
| KeepsakeCodec.MessageScriptPushCount | src/lib/protocolMessages/keepsake.ts:72-81 | the number of pushes is the message length divided by 80, rounded up |
| KeepsakeCodec.EmptyMessageScript | src/lib/protocolMessages/keepsake.ts:65-84 | an empty message leaves only the marker |
| Mint.EncodeMintProtocolMessage | src/lib/protocolMessages/mint.ts:11-20 | two Mint pairs, block then tx index, for a present mint; the message is empty exactly when there is none |
| Mint.MintMessageStart | src/lib/protocolMessages/mint.ts:14-16 | the message starts with the Mint tag, 20 |
| Mint.MintRoundTrip | src/lib/protocolMessages/mint.ts:11-20 | reading the message back gives the block and then the tx index, both under the Mint tag |
| Sealing.EncodeSealingProtocolMessage | src/lib/protocolMessages/sealing.ts:9-14 | sealing has no body: the message is empty |
| ProtocolScripts.GetTransferScript | src/lib/protocolMessages/transfers.ts:29-38 | the length error of the keepsake builder, or the script of the transfer body alone |
| ProtocolScripts.TransferOnlyMessage | src/lib/protocolMessages/keepsake.ts:10-63 | a keepsake carrying only transfers encodes to the transfer body alone |
| ProtocolScripts.SingleTransferMessage | src/lib/protocolMessages/transfers.ts:45-93 | a single transfer writes the Body tag and one row holding its id itself, since the first delta is taken against (0, 0) |
| ProtocolScripts.GetDeployScript | src/lib/protocolMessages/deploy.ts:6-24 | the script of the deployment's pairs followed by the Flags pair |
| ProtocolScripts.DeployOnlyMessageOf | src/lib/protocolMessages/keepsake.ts:10-63 | a deployment-only keepsake encodes to its pairs and then the Flags pair with its flags |
| ProtocolScripts.DeployOnlyFlags | src/lib/protocolMessages/deploy.ts:31-57 | that Flags value has the Deployment bit, and MintTerms and Turbo exactly as the deployment asks |
| ProtocolScripts.GetMintScript | src/lib/protocolMessages/mint.ts:5-9 | the mint field is never encoded, so the script is the marker alone |
| ProtocolScripts.GetSealingScript | src/lib/protocolMessages/sealing.ts:3-7 | the script is the marker and one push of the Flags pair [2, 2] |
| ProtocolScripts.SealingMessage | src/lib/protocolMessages/sealing.ts:3-7 | a keepsake with only the Sealing flag encodes to [2, 2] |
| ProtocolScripts.SealingWithPointerMessage | src/lib/transactions/createSealingTransaction.ts:71-74 | the sealing keepsake with pointer 1 encodes to [2, 2, 4, 1] |
| ProtocolScripts.ZeroPointerWritten | src/lib/protocolMessages/keepsake.ts:45-47 | a zero pointer is still written |
| Records.TransactionRecord.constructor | src/lib/transactions/models/Transaction.ts:29-33 | the record holds the transaction and the kind's fields, the state defaults to Created, and `createdAt` is the clock reading |
| Records.TransactionRecord.UpdateState | src/lib/transactions/models/Transaction.ts:43-45 | the state becomes the new one, whatever it was, and nothing else changes |
| Records.TransactionRecord.Serialize | src/lib/transactions/models/Transaction.ts:47-54 | the kind's `type`, the id, the transaction's hex, the state, `createdAt`, and the kind's fields with every bigint as decimal text |
| Records.ParseBigInt | src/lib/transactions/models/Transaction.ts:141-143 | "" reads as 0, a run of decimal digits as its value, and anything else throws |
| Records.BigIntRoundTrip | src/lib/transactions/models/Transaction.ts:127-143 | `BigInt(n.toString())` is n |
| Records.DetailsRoundTrip | src/lib/transactions/models/Transaction.ts:77-432 | for all nine kinds, deserializing the serialized fields gives the fields back |
| Records.DeserializeParams | src/lib/transactions/models/Transaction.ts:56-66 | a hex error, then a parse error, or the parsed transaction, the stored state and the kind's fields read back |
| Records.Deserialize | src/lib/transactions/models/Transaction.ts:85-92 | the error of the parameters, or a new record with the parsed transaction, the stored state and fields, stamped with the current clock |
| Records.SerializeRoundTrip | src/lib/transactions/models/Transaction.ts:47-66 | deserializing a serialized record gives back its transaction, state and fields; only `createdAt` is re-stamped |
| Records.TypeNamesDistinct | src/lib/transactions/models/Transaction.ts:77-419 | two kinds never serialize with the same `type` |
| TxTypes.ParseState | src/lib/transactions/models/Transaction.ts:64 | a stored state text reads back as the one state with that text, and as nothing when none has it |
| Factory.Dispatch | src/lib/transactions/factory/transactionFactory.ts:16-103 | "Invalid transaction type" exactly for a tag outside the nine; otherwise the fields of the kind the tag names |
| Factory.CreateTransaction | src/lib/transactions/factory/transactionFactory.ts:16-103 | the error exactly for an unknown tag; otherwise a new record of that kind with the given transaction and fields, state Created unless one is given, stamped with the clock |
| Broadcast.PostTransactionRaw | src/lib/transactions/broadcast.ts:4-19 | the response body exactly when the response is OK; otherwise "Failed to post transaction: " followed by the body |
| Broadcast.PostTransactions | src/lib/transactions/broadcast.ts:21-50 | every record's hex is posted in input order, and the result is the records whose post was accepted |
| Broadcast.AcceptedMembership | src/lib/transactions/broadcast.ts:40-46 | a record is returned exactly when its post was accepted |
| Broadcast.AcceptedLength | src/lib/transactions/broadcast.ts:21-50 | as many records come back as posts were accepted, never more than were given |
| Broadcast.AcceptedConcat | src/lib/transactions/broadcast.ts:25-47 | the result keeps input order: posting two runs gives the two results one after the other |
| Broadcast.AcceptedExtremes | src/lib/transactions/broadcast.ts:21-50 | all accepted gives every record back; all rejected gives none |
| TxUtils.GetOpReturnScript | src/lib/transactions/utils.ts:13-23 | OP_RETURN, followed by one push of the data exactly when the data is non-empty |
| TxUtils.EmptyOpReturnBytes | src/lib/transactions/utils.ts:13-23 | the default script serializes to the single OP_RETURN byte |
| TxUtils.Utxo2InputDoge | src/lib/transactions/utils.ts:25-33 | an input exactly when the txid is hex: the decoded txid, the output index, the spender's script and the output's value |
| TxUtils.InputsOf | src/lib/transactions/utils.ts:25-33 | the mapping succeeds exactly when every txid is hex, and then gives one input per UTXO, in order |
| TxUtils.InputsOfOutpoints | src/lib/transactions/utils.ts:25-33 | each input decodes back to the outpoint it was made from |
| TxUtils.SelectAndSign | src/lib/transactions/createBoneTransferTransaction.ts:54-78 | no estimation or no inputs gives the estimate error, no transaction the create error, otherwise the signed and finalized transaction |
| TransferTx.CreateBoneTransferTransaction | src/lib/transactions/createBoneTransferTransaction.ts:9-79 | the transfer built from the marker, spender and receiver outputs, funding candidates and bone UTXOs as required inputs |
| TransferTx.TransferOutputsShape | src/lib/transactions/createBoneTransferTransaction.ts:30-52 | the outputs are the marker with amount 0, 100000 to the spender and 100000 to the receiver, and the marker reads back as `amount` of the bone to output 2, the receiver's |
| TransferTx.TransferTxErrors | src/lib/transactions/createBoneTransferTransaction.ts:70-78 | the transfer fails with the estimate error or the create error exactly in the cases coin selection gives, and succeeds otherwise |
| UnwrapTx.BurnValueConcat | src/lib/transactions/createBonestoneUnwrap.ts:36 | the burned total of two runs of UTXOs is the sum of their totals |
| UnwrapTx.BurnValueBound | src/lib/transactions/createBonestoneUnwrap.ts:36 | every burned UTXO's value is at most the burn output's amount |
| UnwrapTx.CreateBonestoneUnwrap | src/lib/transactions/createBonestoneUnwrap.ts:17-70 | the unwrap built from the burn and collector outputs, funding candidates and burned UTXOs as required inputs; the estimate error when there are no inputs, the create error when there is no change or no transaction |
| UnwrapTx.UnwrapOutputsShape | src/lib/transactions/createBonestoneUnwrap.ts:33-39 | exactly two outputs: a bare OP_RETURN carrying the sum of the burned values, then 100000 to the spender |
| UnwrapTx.UnwrapNeedsChange | src/lib/transactions/createBonestoneUnwrap.ts:57-64 | the unwrap succeeds exactly when the selection has inputs, change and a transaction |
| DeployTx.StripI0 | src/lib/transactions/createDeployTransaction.ts:42 | one trailing "i0" is removed, and only a trailing one; otherwise the text is unchanged |
| DeployTx.StripI0OfId | src/lib/transactions/createDeployTransaction.ts:42 | the inscription id `<txid>i0` gives back its txid |
| DeployTx.DeployCommitOutputs | src/lib/transactions/createDeployTransaction.ts:46-57 | two outputs to the delegate's pay-to-script-hash, 4371000 then 100000 |
| DeployTx.CreateDeployTransaction | src/lib/transactions/createDeployTransaction.ts:21-120 | the commit with the sealing UTXO as its only required input, then the delegate reveal carrying the deploy marker; the commit's estimate and create errors |
| DeployTx.DeployRevealSpendOrder | src/lib/transactions/createDeployTransaction.ts:103-114 | once the commit is signed, the reveal spends commit output 1 then output 0, each with that output's own amount, and pays the three reveal outputs |
| DeployTx.DeployRevealOutputsShape | src/lib/transactions/createDeployTransaction.ts:85-101 | three reveal outputs: 100000 to the spender twice, then the marker with amount 0 |
| SealingTx.CommitOutputs | src/lib/transactions/createSealingTransaction.ts:38-45 | one output to the ticker inscription's pay-to-script-hash of 100000 + 100000 + 4271000 |
| SealingTx.CreateSealingTransactions | src/lib/transactions/createSealingTransaction.ts:15-111 | the commit with the bone UTXOs as required inputs, then the reveal of the ticker inscription carrying the sealing marker; the commit's estimate and create errors |
| SealingTx.SealingShape | src/lib/transactions/createSealingTransaction.ts:71-93 | the reveal outputs are 100000 to the spender twice, then the marker `OP_RETURN`, protocol opcode, the single push [2, 2, 4, 1] (the Sealing flag and a pointer to output 1) |
| SealingTx.SealingRevealSpendsCommit | src/lib/transactions/createSealingTransaction.ts:95-105 | once the commit is signed, the reveal spends only commit output 0, with its amount, under the inscription's script |
| MintTx.MintStep | src/lib/transactions/createMintTransaction.ts:44-113 | a successful round appends exactly one transaction and keeps the ones built before |
| MintTx.MintAfter | src/lib/transactions/createMintTransaction.ts:97-113 | recording a mint appends it to the list and keeps the earlier ones |
| MintTx.RoundsOf | src/lib/transactions/createMintTransaction.ts:43 | the loop runs `numOfMints` times when that is positive, and never otherwise |
| MintTx.CreateMintTransactions | src/lib/transactions/createMintTransaction.ts:19-116 | the loop fails exactly when the chain of rounds fails, with the same error, and otherwise returns one transaction per round, in build order; no rounds give no transactions |
| MintTx.MintRound | src/lib/transactions/createMintTransaction.ts:44-113 | one loop body: the insufficient-funds error without inputs, the create error without a transaction, otherwise the signed mint recorded |
| MintTx.MintMarkerScript | src/lib/transactions/createMintTransaction.ts:44-50 | the marker script of every mint |
| MintTx.RecordMint | src/lib/transactions/createMintTransaction.ts:97-113 | the cache reset after a signed mint |
| MintTx.MintChainLength | src/lib/transactions/createMintTransaction.ts:41-115 | a successful chain of n rounds adds exactly n transactions and keeps the earlier ones as a prefix |
| MintTx.MintStepThreading | src/lib/transactions/createMintTransaction.ts:97-111 | after a round the next required input is exactly output 1 of the new mint, and a UTXO is in the next funding pool exactly when it was unspent funding or is the change output |
| MintTx.MintMarkerMessage | src/lib/transactions/createMintTransaction.ts:44-50 | the mint marker is the message of the zero transfer of the bone to output 2; the `mint` field adds nothing to it |
| MintTx.MintOutputsShape | src/lib/transactions/createMintTransaction.ts:52-68 | three outputs: the marker with amount 0, then 100000 to the spender at index 1 and at index 2 |
| Inscriptions.BufferToChunk | src/lib/transactions/inscriptions.ts:19-32 | the chunk's length is the buffer's, it carries the buffer exactly when that is non-empty, and its opcode is the length up to 75, then 76 up to 255, then 77 |
| Inscriptions.NumberToChunk | src/lib/transactions/inscriptions.ts:34-45 | 0 is OP_0, 1 to 16 are OP_1 to OP_16 without data, 17 to 127 a one-byte push, larger numbers a two-byte push |
| Inscriptions.OpcodeToChunk | src/lib/transactions/inscriptions.ts:47-53 | a bare opcode chunk with length 0 and no data |
| Inscriptions.NumberToChunkRoundTrip | src/lib/transactions/inscriptions.ts:34-45 | every number below 65536 reads back from its chunk |
| Inscriptions.SplitParts | src/lib/transactions/inscriptions.ts:84-89 | the `while (data.length)` loop gives the content cut into 240-byte parts |
| Inscriptions.PartsShape | src/lib/transactions/inscriptions.ts:84-89 | the parts concatenate back to the content; there are ceil(length / 240) of them; each is non-empty and at most 240 bytes; all but the last are exactly 240 |
| Inscriptions.PartEntries | src/lib/transactions/inscriptions.ts:97-100 | two chunks per part: the count-down index `parts.length - n - 1`, then the part |
| Inscriptions.BuildEnvelope | src/lib/transactions/inscriptions.ts:91-105 | the chunk-by-chunk pushes build the inscription envelope |
| Inscriptions.EnvelopeShape | src/lib/transactions/inscriptions.ts:93-105 | 2 * parts + 5 chunks: "ord", the part count, the content type, each part after its count-down index, then 5 and the metadata |
| Inscriptions.EntryIndexNumber | src/lib/transactions/inscriptions.ts:98 | with fewer than 65536 parts every count-down index reads back |
| Inscriptions.GreedyEnd | src/lib/transactions/inscriptions.ts:108-114 | where the loop stops lies between the start and the end and keeps the envelope's parity |
| Inscriptions.SplitPartial | src/lib/transactions/inscriptions.ts:107-118 | the shift loop and the final two-chunk give-back leave the partial prefix; partial and remainder together are the inscription |
| Inscriptions.GrowPartial | src/lib/transactions/inscriptions.ts:108-114 | the `while` loop grows a prefix of the inscription two chunks at a time and stops where the reference says |
| Inscriptions.FitsBudget | src/lib/transactions/inscriptions.ts:109 | the loop test holds exactly when the partial script serializes to at most 1500 bytes |
| Inscriptions.ShiftTwo | src/lib/transactions/inscriptions.ts:112-113 | two chunks move from the front of the remainder to the end of the partial prefix |
| Inscriptions.GreedyStep | src/lib/transactions/inscriptions.ts:108-114 | a prefix within the budget that is not yet the whole envelope lets the loop go on |
| Inscriptions.GreedyStop | src/lib/transactions/inscriptions.ts:108-114 | a prefix over the budget, or the whole envelope, stops the loop |
| Inscriptions.GreedyEndProperties | src/lib/transactions/inscriptions.ts:108-118 | the prefix two chunks before the stop fits the budget, and a stop within the budget is the whole envelope |
| Inscriptions.PartialOfProperties | src/lib/transactions/inscriptions.ts:107-118 | the partial is an odd-length prefix within 1500 bytes, and two more chunks would not fit |
| Inscriptions.SmallEnvelopeFits | src/lib/transactions/inscriptions.ts:107-118 | a whole envelope within the budget goes into the partial prefix entirely |
| Inscriptions.GreedyEndReachesEnd | src/lib/transactions/inscriptions.ts:108-114 | when every prefix fits, the loop runs to the end |
| Inscriptions.EnvelopeHeadSize | src/lib/transactions/inscriptions.ts:93 | the first chunk, "ord", serializes to four bytes |
| Inscriptions.Drops | src/lib/transactions/inscriptions.ts:123-125 | n chunks, each OP_DROP |
| Inscriptions.BuildLock | src/lib/transactions/inscriptions.ts:120-126 | the `forEach` builds the lock script with one OP_DROP per partial chunk |
| Inscriptions.CountDrops | src/lib/transactions/inscriptions.ts:123-125 | n drops hold exactly n OP_DROPs |
| Inscriptions.LockShape | src/lib/transactions/inscriptions.ts:120-126 | the lock is n + 3 chunks: the key, OP_CHECKSIGVERIFY, exactly n OP_DROPs, then OP_TRUE |
| Inscriptions.EnvelopeOdd | src/lib/transactions/inscriptions.ts:93-105 | every envelope has an odd number of chunks |
| Inscriptions.GetP2sh | src/lib/transactions/inscriptions.ts:65-137 | the redeem script, pay-to-script-hash, partial and lock of the text's envelope under the key |
| Inscriptions.GetP2shProperties | src/lib/transactions/inscriptions.ts:65-137 | the partial is a prefix of the envelope within 1500 bytes that two more chunks would overflow; the lock drops one element per partial chunk; the redeem script is the serialized lock |
| Inscriptions.KeptOutputsMembership | src/lib/transactions/inscriptions.ts:172-187 | an output is added exactly when it is requested and is a script output or has a non-empty address |
| Inscriptions.KeptOutputsAll | src/lib/transactions/inscriptions.ts:172-187 | with no empty addresses, the outputs are added exactly as requested, in order |
| Inscriptions.GetRevealTx | src/lib/transactions/inscriptions.ts:139-210 | the signed reveal; the fee rate and change receiver take no part in it |
| Inscriptions.RevealShape | src/lib/transactions/inscriptions.ts:157-207 | one input spending commit output 0 with the given amount under the pay-to-script-hash script; its unlock script is the partial chunks, the signature push and the redeem-script push; the outputs are the kept requested ones |
| DelegateInscriptions.NewInscriptionId | src/lib/transactions/delegateInscriptions.ts:51-58 | an id exactly when the txid is 64 hex digits, keeping that txid with index 0; otherwise the constructor's error |
| DelegateInscriptions.HexDecodeDigits | src/lib/transactions/delegateInscriptions.ts:69 | an even-length string of hex digits decodes to half as many bytes |
| DelegateInscriptions.TxidBytes | src/lib/transactions/delegateInscriptions.ts:52-69 | every accepted txid decodes to 32 bytes |
| DelegateInscriptions.LittleEndian32 | src/lib/transactions/delegateInscriptions.ts:61-62 | four bytes whose little-endian value is the index |
| DelegateInscriptions.TrimTrailingZerosProperties | src/lib/transactions/delegateInscriptions.ts:64-67 | the trimmed slice is a prefix that does not end in zero, and only zero bytes were cut |
| DelegateInscriptions.ZeroIndexTrimsAway | src/lib/transactions/delegateInscriptions.ts:57-67 | index 0 trims to the empty slice |
| DelegateInscriptions.TrimIndexBytes | src/lib/transactions/delegateInscriptions.ts:61-67 | the `while` loop trims the index bytes' trailing zeros |
| DelegateInscriptions.Value | src/lib/transactions/delegateInscriptions.ts:60-71 | 32 bytes whose reversal is the hex-decoded txid; the index takes no part |
| DelegateInscriptions.DelegateEnvelopeFits | src/lib/transactions/delegateInscriptions.ts:92-113 | the delegate envelope serializes to 42 bytes, so the split keeps all of it in the partial prefix |
| DelegateInscriptions.GetDelegateP2sh | src/lib/transactions/delegateInscriptions.ts:74-132 | fails with the id error exactly when the txid is not 64 hex digits; otherwise the scripts of the delegate envelope under the key |
| DelegateInscriptions.DelegateP2shShape | src/lib/transactions/delegateInscriptions.ts:89-129 | the partial is all seven envelope chunks, ending with the push of the id bytes; the lock holds seven OP_DROPs; the pay-to-script-hash is OP_HASH160, the lock's hash, OP_EQUAL |
| DelegateInscriptions.UnsignedInputs | src/lib/transactions/delegateInscriptions.ts:159-171 | one input per listed index, in list order, spending that commit output with the value at the same position |
| DelegateInscriptions.SignInputs | src/lib/transactions/delegateInscriptions.ts:187-206 | signing keeps the number of inputs and the outputs |
| DelegateInscriptions.UnlockScriptIsUnlock | src/lib/transactions/delegateInscriptions.ts:201-204 | the unlock script is the partial chunks, the signature push, then the redeem-script push |
| DelegateInscriptions.SignInputsEffect | src/lib/transactions/delegateInscriptions.ts:187-206 | signing the first n inputs gives each an unlock script and changes nothing else |
| DelegateInscriptions.GetDelegateRevealTx | src/lib/transactions/delegateInscriptions.ts:134-209 | fails with the id error exactly when the delegate txid is malformed; otherwise the signed reveal; the fee rate takes no part |
| DelegateInscriptions.AddInputs | src/lib/transactions/delegateInscriptions.ts:159-171 | the first `forEach` adds the unsigned inputs |
| DelegateInscriptions.AddOutputs | src/lib/transactions/delegateInscriptions.ts:173-185 | every requested output is added, in order |
| DelegateInscriptions.SignAll | src/lib/transactions/delegateInscriptions.ts:187-206 | the signing `forEach` signs every input, each over the transaction as it stands |
| DelegateInscriptions.DelegateRevealShape | src/lib/transactions/delegateInscriptions.ts:134-209 | the reveal spends the listed commit outputs in list order, each with its paired value under the same pay-to-script-hash script, and each with an unlock script; the outputs are exactly the requested ones |
| Utxos.UtxosForTx | src/lib/utils/utxos/getUtxosForTxHex.ts:4-26 | one unconfirmed UTXO per output, in output order, with the transaction's id, the output's index and its amount |
| Utxos.InputKeysMembership | src/lib/utils/utxos/getFundingUtxosAfterTransaction.ts:17-22 | the set holds the `txid:index` key of every input and nothing else |
| Utxos.CollectInputKeys | src/lib/utils/utxos/getFundingUtxosAfterTransaction.ts:17-22 | the loop over the inputs builds that set |
| Utxos.GetFundingUtxosAfterTx | src/lib/utils/utxos/getFundingUtxosAfterTransaction.ts:16-34 | the funding UTXOs whose key is not spent, in their order, and the transaction's own outputs |
| Utxos.UnusedFundingMembership | src/lib/utils/utxos/getFundingUtxosAfterTransaction.ts:29-31 | a UTXO is kept exactly when it is a funding UTXO whose key is not spent |
| Utxos.UnusedFundingLength | src/lib/utils/utxos/getFundingUtxosAfterTransaction.ts:29-31 | the filter never adds UTXOs |
| Utxos.UnusedFundingNoKeys | src/lib/utils/utxos/getFundingUtxosAfterTransaction.ts:29-31 | with no spent keys nothing is removed |
| Utxos.KeysMatch | src/lib/utils/utxos/getFundingUtxosAfterTransaction.ts:21-30 | a UTXO's key equals an input's key exactly when the UTXO's txid is the input's hex-encoded txid and the indexes agree |
| Utxos.UnusedFundingSpec | src/lib/utils/utxos/getFundingUtxosAfterTransaction.ts:16-34 | a funding UTXO is dropped exactly when some input of the transaction spends it |
| Utxos.UtxosForTxDistinct | src/lib/utils/utxos/getUtxosForTxHex.ts:12-23 | the outputs of one transaction have distinct keys |
| FetchOutputs.ChunkArray | src/lib/fetchOutputs.ts:41-47 | the loop pushes consecutive slices of `size` items |
| FetchOutputs.FetchOutputs | src/lib/fetchOutputs.ts:6-39 | one request per 100-id chunk, and the records of all chunks flattened in chunk order |
| FetchOutputs.Lookup | src/lib/fetchOutputs.ts:6-39 | one record per id |
| FetchOutputs.LookupConcat | src/lib/fetchOutputs.ts:37-38 | looking up two runs of ids gives the two lookups one after the other |
| FetchOutputs.FetchedInIdOrder | src/lib/fetchOutputs.ts:6-39 | against an explorer that answers each chunk in order, the result is one record per id, in id order: chunking loses and reorders nothing |
| FetchOutputs.FetchedFlatten | src/lib/fetchOutputs.ts:37-38 | flattening the answers is the lookup of the flattened chunks |
| FetchOutputs.RequestsShape | src/lib/fetchOutputs.ts:9-10 | the chunks cover the ids in order; each holds 1 to 100 ids; all but the last hold exactly 100; there are ceil(ids / 100) of them |
| AddressHistory.PageOrder | src/funding.ts:21-24 | a page is scanned as all its transactions: the mempool ones, then the chain ones |
| AddressHistory.LastConfirmedIsLastChainTx | src/funding.ts:31-33 | the next cursor is the txid of the page's last chain transaction, and there is none exactly when the page has no chain transaction |
| AddressHistory.FetchAllTransactions | src/funding.ts:11-34 | the paging loop returns the pages the cursor chain requests and, of every transaction fetched, the first copy of each txid in scanning order |
| AddressHistory.PagingStays | src/funding.ts:19-31 | once a page has stopped the paging, nothing more is requested |
| AddressHistory.ScanPage | src/funding.ts:17-33 | one round requests the page for the current cursor, adds its unseen transactions, and leaves the cursor at its last chain transaction, or none |
| AddressHistory.AddUnseen | src/funding.ts:24-29 | a transaction is added exactly when its txid has not been seen; the seen set grows by the scanned txids |
| AddressHistory.FilterSplits | src/funding.ts:21-22 | every transaction of a page is either confirmed or in the mempool |
| AddressHistory.PagingShape | src/funding.ts:13-34 | the first request has no cursor; each later page was requested with the previous page's last chain txid; the paging stops only after a page without chain transactions (an empty page is one) |
| AddressHistory.TxIdsMembership | src/funding.ts:25-26 | a txid is seen exactly when some scanned transaction has it |
| AddressHistory.DedupeProperties | src/funding.ts:24-29 | the kept transactions were all fetched, cover every fetched txid, and no txid is kept twice |
| AddressHistory.DedupeKeepsFirst | src/funding.ts:24-29 | a transaction whose txid no earlier one has is kept, so a mempool copy wins over a later chain copy |
| AddressHistory.CollectSpentOutpoints | src/funding.ts:49-55 | the nested loops build the set of spent `txid:vout` keys |
| AddressHistory.AddVinKeys | src/funding.ts:51-54 | the inner loop over one transaction's inputs adds exactly the keys of its counted inputs to the set |
| AddressHistory.VinKeysMembership | src/bones.ts:48-54 | a key comes from a transaction's inputs exactly when a counted input spends it |
| AddressHistory.SpentMembership | src/funding.ts:49-55 | a key is spent exactly when a counted input of a fetched transaction spends it; the bones and tickers listings count only inputs that spent the queried address's outputs |
| AddressHistory.RestrictedSpentIsSmaller | src/bones.ts:46-55 | the spent set restricted to the address's own outputs is part of the full one |
| AddressHistory.TxOutputIds | src/funding.ts:39-41 | one `txid:index` name per output of the transaction, in index order |
| AddressHistory.OutputIdsCount | src/funding.ts:39-41 | there is one id per output of the fetched transactions |
| AddressHistory.OutputIdsEmpty | src/funding.ts:39-46 | there are no ids exactly when no fetched transaction has outputs |
| AddressHistory.OutputIdsMembership | src/funding.ts:39-41 | an id is listed exactly when it names an output of a fetched transaction |
| AddressHistory.CollectOutputIds | src/funding.ts:39-41 | the `flatMap` builds the output ids |
| Listing.Gather | src/funding.ts:11-57 | the records of every output of the paged history and the spent set built from it; no records when there are no outputs |
| Funding.ListFundingUtxos | src/funding.ts:10-80 | the fetched records of the queried address worth at least 50000000 with no inscriptions and not spent, reduced to `{output, address, value}`, in output order |
| Funding.FundingMembership | src/funding.ts:65-77 | a funding output is listed exactly when an eligible record names it, with that record's name and value |
| Funding.FundingConcat | src/funding.ts:65-77 | the filter keeps record order |
| Funding.NeverSpentByHistory | src/funding.ts:49-72 | no listed output is spent by any input of the fetched history |
| Bones.CollectBones | src/bones.ts:71-109 | the loop over the records and their balances builds the bones list |
| Bones.AppendBalances | src/bones.ts:87-106 | the inner loop over one output's balances appends, in order, exactly the entries that pass the address and ticker filters |
| Bones.ListBones | src/bones.ts:18-110 | the entries of every unspent, non-OP_RETURN record of the queried address, balance by balance, spent meaning spent from the address's own outputs |
| Bones.BalanceEntriesMembership | src/bones.ts:87-105 | an entry comes from a record exactly when the record is the address's and it holds a wanted balance the entry describes |
| Bones.BonesMembership | src/bones.ts:73-107 | an entry is listed exactly when an unskipped record of the address holds a wanted balance that the entry describes |
| Bones.AmountTextParse | src/bones.ts:99 | a balance's `toString()` text reads back as the balance exactly when it is below 10^21; from 10^21 on it is exponential text, which is not a run of digits |
| Bones.BonesEntryFacts | src/bones.ts:92-104 | every entry has the requested ticker when one is given, the queried address (null for the empty one), an unspent output's name and value, and, when every balance is below 10^21, an amount written in decimal digits |
| Bones.BonesConcat | src/bones.ts:73-107 | the listing keeps record order |
| Bones.TransferBones | src/bones.ts:123-143 | `transferBones` is the transfer builder with the same arguments |
| Bones.UnwrapStones | src/bones.ts:153-167 | `unwrapStones` is the unwrap builder with the same arguments |
| Stones.CollectStones | src/stones.ts:73-104 | the loop over the records and their inscriptions builds the stones list |
| Stones.ListStones | src/stones.ts:13-105 | the stones of every unspent, non-OP_RETURN record of the history, every input counting as spending |
| Stones.InscriptionStonesMembership | src/stones.ts:89-100 | a stone comes from a record exactly when one of its inscriptions delegates to the stone inscription below height 5444000 |
| Stones.StonesMembership | src/stones.ts:75-102 | a stone is listed exactly when an unskipped record carries a matching inscription with that id, and it names that record and its value |
| Stones.StoneUnspent | src/stones.ts:46-79 | no listed stone sits on an output spent by any input of the fetched history |
| Stones.UnwrapStones | src/stones.ts:115-129 | `unwrapStones` is the unwrap builder with the same arguments |
| Tickers.CollectTickers | src/tickers.ts:64-93 | the loop over the records and their inscriptions builds the tickers list |
| Tickers.ListTickers | src/tickers.ts:11-94 | the ticker entries of every unspent, non-OP_RETURN record of the history, spent meaning spent from the address's own outputs |
| Tickers.InscriptionTickersMembership | src/tickers.ts:79-89 | an entry comes from a record exactly when one of its inscriptions has a non-empty `BONE` metadata value |
| Tickers.TickersMembership | src/tickers.ts:66-91 | an entry is listed exactly when an unskipped record carries an inscription with a `BONE` ticker, and the entry's ticker is that value |
| Tickers.TickerFacts | src/tickers.ts:40-91 | every listed ticker is non-empty and sits on an output no input of the address's own outputs spent |
| CliActions.UpToColon | index.ts:69 | the text before the first colon: a colon-free prefix followed by a colon, or the whole text |
| CliActions.OutputUtxoOfKey | index.ts:69-72 | splitting a listing's own `txid:vout` name at the colon and parsing the index gives the outpoint back |
| CliActions.OutputsToUtxos | index.ts:190-203 | the conversion succeeds exactly when every output name has a decimal index, and then yields the matching UTXO at every position |
| CliActions.EntryOutputs | index.ts:207-212 | the `(output, value)` pair of each bone entry, in order |
| CliActions.StoneOutputs | index.ts:303-309 | the `(output, value)` pair of each stone, in order |
| CliActions.TotalAmountOwned | index.ts:179-183 | the accumulation loop computes the sum of `BigInt(b.amount)`, or the error of the first amount that does not parse |
| CliActions.AmountTotalAborts | index.ts:181-183 | once a prefix fails, every longer prefix fails with the same error |
| CliActions.ListedAmountsParse | index.ts:181-183 | when every amount is decimal text, the sum does not fail |
| CliActions.AmountTotalFails | index.ts:181-183 | one amount that `BigInt` refuses makes the whole sum fail with its error |
| CliActions.BonesTotalOk | index.ts:179-183 | the sum over a `listBones` result does not fail when every balance is below 10^21 |
| CliActions.LargeBalanceFailsTotal | index.ts:179-183 | a listed balance of 10^21 or more makes the sum over the listing fail |
| CliActions.OwnedAtLeast | index.ts:184-187 | success exactly when the sum succeeds and covers the need, giving the sum; "Insufficient bones!" when it falls short |
| CliActions.InsertDescPermutes | index.ts:221 | inserting into the sorted run adds exactly that element |
| CliActions.InsertDescBounded | index.ts:221 | inserting keeps every key within a common bound |
| CliActions.InsertDescSorted | index.ts:221 | inserting into a run sorted largest-first keeps it sorted |
| CliActions.SortDescProperties | index.ts:221 | the sort returns a permutation of its input, largest key first |
| CliActions.InsertDescStable | index.ts:221 | inserting puts the element after every element with the same key |
| CliActions.SortDescStable | index.ts:221 | the sort is stable: the elements with any one key keep their relative order |
| CliActions.SortByValue | index.ts:221 | the bone UTXOs sorted largest value first, a permutation of the input, with UTXOs of equal value in their input order |
| CliActions.SortKeepsValue | index.ts:221 | sorting keeps the total value of the bone UTXOs |
| CliActions.SortByAmount | index.ts:383-385 | the BONE entries sorted largest amount first, a permutation of the input, with entries of equal amount in their input order |
| CliActions.EntriesOfTicker | index.ts:205-206 | an entry is kept exactly when it is listed and has the ticker; the kept entries are the listing's, in order and with their multiplicity |
| CliActions.SelectBoneUtxos | index.ts:222-228 | a prefix of the sorted UTXOs, non-empty when the list is, whose value reaches the amount unless it took every UTXO, and no shorter non-empty prefix reaches the amount |
| CliActions.PlanBoneTransfer | index.ts:179-228 | the sum's error or "Insufficient bones!" first; then the error for an output name without an index; success exactly otherwise, with the UTXOs of the ticker's entries, sorted by value, taken until their value reaches the amount, which they do whenever the ticker's UTXOs are worth it |
| CliActions.TransferRecordDetails | index.ts:241-248 | a `relicTransfer` record with the receiver, the ticker and 10 * 10^8 per selected UTXO, whatever amount was asked for |
| CliActions.StripLeading | index.ts:357 | the leading run of bullets removed: a suffix that does not start with a bullet, where only bullets were cut |
| CliActions.StripTrailing | index.ts:357 | the trailing run of bullets removed: a prefix that does not end with a bullet, where only bullets were cut |
| CliActions.TrimBulletsShape | index.ts:357 | the trimmed ticker is the slice between the leading and the trailing runs of bullets, and neither starts nor ends with one |
| CliActions.Utf16Length | index.ts:358 | JavaScript's length lies between the number of characters and twice that |
| CliActions.PlanClaim | index.ts:357-398 | "Could not get sealing price!" when the trimmed ticker has no price; the sum's error or "Insufficient bones!" when the BONE entries do not cover the price; otherwise the trimmed ticker, its price and the entries as UTXOs, largest amount first |
| CliActions.BulletsOnlyHaveNoPrice | index.ts:357-362 | a ticker made only of bullets has no price |
| CliActions.ClaimRecordDetails | index.ts:430-437 | a `sealing` record with the ticker as typed, bullets included |
| CliActions.FirstTickerIndex | index.ts:84 | the position of the first entry with the ticker, every entry before it having another ticker |
| CliActions.FindTicker | index.ts:84 | nothing exactly when no entry has the ticker; otherwise an entry with that ticker |
| CliActions.SealingUtxoFor | index.ts:84-100 | "Ticker not owned!" exactly when no entry has the ticker; otherwise the UTXO named by the first such entry's output, or the output-name error exactly when that name has no index |
| CliActions.DeployFigures | index.ts:115-131 | the total supply is amount times cap; the liquidity share is the floor of seed * 100 over it; a zero supply is a division-by-zero error |
| CliActions.DeployRecordDetails | index.ts:118-133 | a `deploy` record with the untrimmed ticker, the symbol, the supply, the amount per mint, the price and the floored liquidity share; an error exactly when the supply is zero |
| CliActions.UtxosToBurn | index.ts:295-310 | the first min(limit, stones) stones as UTXOs, in listing order; the conversion succeeds exactly when each of those stones' names has an index |
| CliActions.UnwrapRecordDetails | index.ts:332-340 | a `boneStoneUnwrap` record to the wallet's address with 10 * 10^8 per burned UTXO |

## Left out

- Network access is not modelled:
  - the explorer paging (`src/lib/fetchAddressTransactions.ts`) and `fetchBone` are not part of this model;
  - the output fetch's HTTP requests are not modelled;
  - the broadcast's HTTP posts and its 100 ms pause are not modelled.

  Pages, output records and post outcomes are function parameters. The concurrent `Promise.all` fan-out of `fetchOutputs` is modelled as one request per chunk, with the results kept in chunk order.
- The wallet is not modelled: `WalletAccount.ts`, `wallet.ts`, key storage, mnemonics and WIF encoding. The spender, the coin selection of `@scure/btc-signer` and `sign`/`finalize` are fields of the `Wallet` parameter.
- Cryptography is not modelled: ECDSA signing, sighash computation, SHA-256/RIPEMD-160, secp256k1 public keys, CBOR and JSON text encoding. They are the fields of the `Crypto` parameter and are uninterpreted.
- The internals of `selectUTXO` (fee estimation, change computation, selection order) are opaque. No balance or fee equation is claimed.
- `TxUtils.BuildsRequestedOutputs` is an assumption: the finalized transaction has at least the outputs that were requested. The source reads `getOutput(0)`, `getOutput(1)` and `txOutputs[1]` without a check.
- DeployTx.CreateDeployTransaction: requires `TxUtils.BuildsRequestedOutputs`. Without it the source faults when it reads the commit's outputs.
- SealingTx.CreateSealingTransactions: requires `TxUtils.BuildsRequestedOutputs`, for the same reason.
- MintTx.CreateMintTransactions: requires `TxUtils.BuildsRequestedOutputs`. Without it the source faults when it reads `txOutputs[1]`.
- DelegateInscriptions.GetDelegateRevealTx: requires at least as many values as indexes. With fewer, the source hands `undefined` satoshis to the library.
- The `Transaction.FEE_PER_KB` global and its environment setting are not modelled. The fee rate takes no part in any result.
- Console output, `process.exit`, `commander`/`readline` wiring and the wallet commands of `index.ts` (`export`, `create`, `import`, `receive`) are not modelled. Each handler's computations are modelled; the handler's sequence of calls is not.
- The deploy handler posts the commit before it computes `liquidityShare`. That ordering of the division-by-zero failure is not modelled.
- Amounts are unbounded naturals. Fractional BigNumber amounts, and the JavaScript `Number` conversions with their loss of precision, are not modelled. BigNumber's exponential `toString` from 10^21 on is modelled (`Bones.AmountText`).
- `Date.now` is not modelled; `createdAt` is a parameter.
- Records.ParseBigInt: accepts the empty string and decimal digits only. It does not accept `BigInt`'s surrounding whitespace, signs or `0x`/`0o`/`0b` prefixes.
- CliActions.OutputUtxo: a name with no decimal index after its colon gives no UTXO. The source's `parseInt` would read a leading-digit prefix, or give `NaN`. The handlers then fail with an error of their own, "Output name has no numeric index", a message the source does not have.
- CliActions.MaxUnwrap: an argument that is not decimal text gives 0. `slice` would truncate a fractional argument and count a negative one from the end.
- The error texts "txid is not hex", "Invalid hex string", "Invalid raw transaction" and "Cannot convert to a BigInt" stand for exceptions that the libraries throw with messages of their own.
- ProtocolUtils.SymbolAsNumber: requires a non-empty symbol. The deploy encoder calls it only for one; the source would throw a `TypeError` on an empty one.
- Tickers.InscriptionTickersMembership: an inscription without metadata counts as having no ticker. The source would throw a `TypeError` reading `metadata.BONE`.
- `Tag.take` (a plain map lookup with no caller in this code), `PushBytes.fromMutSliceUnchecked` and `PushBytes.asMutBytes` are not modelled separately. The last two behave exactly like `fromSliceUnchecked` and `asBytes`.
- Swap, summoning and encasing have no encoder. Their keepsake fields are carried and proved to be ignored.
- AddressHistory.FetchAllTransactions: the source's `while (true)` paging is bounded by a `maxPages` parameter. Histories that need more requests are cut there.
- Strings are sequences of Unicode scalar values. JavaScript's UTF-16 length is modelled explicitly where it matters, for the seal price.
