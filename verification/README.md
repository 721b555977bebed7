# AegisLink, modelled and proved in Dafny

AegisLink locks assets on Ethereum, mints their representation on its own chain, and sends them on to a
destination chain over packet-shaped transfers. This project models the parts on which the money depends and
proves what holds of them over every input and every run:

- the **bridge ledger**: claims, supply, withdrawals, the on-line audit with its circuit breaker, the bank's
  wallets, the registry, the rate limits, and the application that composes them and rolls back when the bank
  refuses (`Bridge`, `Bank`, `Registry`, `Limits`, `Signers`, `Ledger`), when each operation is accepted and
  what it then does (`LedgerEffects`), and what the claims accepted over a whole run have in common
  (`Minting`), restarts included (`Restarts`);
- its **persistence** in a prefixed key-value store (`PrefixStore`, `BridgePersistence`);
- **attestations**: canonical claim bytes, signing payloads, the collector, the quorum loop (`Canonical`,
  `Attestations`, `Collector`);
- the **outgoing transfer protocol**: route memos and policy, the source router, the destination runtime with
  its constant-product market and its state file, and the relayer between them as one state machine of
  separately failing steps and crashes (`RouteAction`, `Router`, `Amm`, `Destination`, `DestinationLaws`,
  `TwoChain`, `Relaying`), with the wallet debit in front of it (`WalletTransfer`), and all of it together
  (`EndToEnd`);
- the **bridge relayer**: watcher windows, chunked log queries, retries, the replay store, and both poll loops
  composed with the chain, end to end (`Pipeline`, `PipelineSafety`, `Settlement`);
- the **Ethereum encodings** of a release: RLP and ABI calldata (`Rlp`, `Abi`), and what of a withdrawal they
  carry to the gateway (`Release`).

`Base`, `Text`, `Sorting`, `Sums` and `Listing` hold shared vocabulary. `dafny verify dfyconfig.toml` checks
everything.

## How it is built

Where the Go code updates fields, there is a class with those fields. Each of its methods is proved equal to a
function on states (`BankKeeper.Credit` to `Bank.Credited`, `App.SubmitDepositClaim` to `Ledger.Submit`,
`MockTarget.ExecutePacket` to `Destination.ExecuteAt`, `Coordinator.RunPoll` to `Pipeline.Poll`, and so on),
and the laws are lemmas about those functions and about runs built from them. What an operation accepts, and
what it leaves in every field, is also said outright, without those functions: as a predicate on requests and
states that the lemma proves equivalent to acceptance, and as the whole new state (`LedgerEffects`,
`Bridge.VerifiedIff`, `Router.InitiateIff` and `InitiateEffect`, `Amm.QuoteExact`,
`DestinationLaws.ExecutionExact`). A Go string is a `string` with one character per byte; `strings.TrimSpace`
knows the UTF-8 white space; uint32 and uint64 arithmetic wraps where the code's does; big integers are
unbounded. SHA-256, Keccak, ECDSA and bech32 are uninterpreted functions of a `Crypto` value, with
`recover(sign(k, d), d) = address(k)` where a lemma needs it; encodings are shown unambiguous on the bytes
before hashing. Whatever lies outside is a parameter that may take any value: whether a write of the bank, of
the relayer's store or of the destination's state file succeeds, how each remote call ends, what the chain
application answers, in which order a map is iterated.

## What turned out false, and exactly when

- The type comment of `RateLimit` (chain/aegislink/x/limits/types/limits.go:14) speaks of a sliding window.
  The code re-anchors a window at the first transfer after it has expired. So the sliding reading holds
  exactly for windows of one block, and for windows so wide that two of them never fit below 2^64
  (`Limits.SlidingExactIff`); otherwise `WindowBlocks` consecutive heights can carry twice the maximum, and
  never more (`Limits.SlidingBoundTight`, `Limits.SlidingBound`). When the window's end wraps around, the
  limit does not bind at all (`Limits.BoundIffNoOverflow`).
- A bank refusal restores everything, unless the withdrawal nonce had wrapped to zero, which comes back as one
  (`Ledger.BankRefusalRestores`).
- A reload loses the source transaction hash of every claim, and a zero nonce; nothing else
  (`BridgePersistence.RestartLossless`).
- What a transfer's status on the source says survives a crash of the destination if and only if no poll ever
  listed an acknowledgement that the state file does not bear out (`TwoChain.SafeIffNeverCareless`). That
  holds when every write succeeds (`TwoChain.WritingIsCareful`). But a poll whose write fails has executed in
  memory, and the next poll finds nothing to execute, writes nothing, and lists: one failing write is enough
  (`TwoChain.FailedWriteThenPoll`, `TwoChain.LossExample`).
- A restart of the destination finds what was saved, unless pools are configured that have moved since: those
  are reset (`Destination.ReloadExactIff`).
- A failed execution on the destination leaves pools and balances alone, with one exception: the swap is taken
  from the pool before the payout is credited, so a recipient whose stored balance cannot be read loses it
  (`DestinationLaws.FailureMovesNothingIff`, `DestinationLaws.LostSwapExample`).
- A second delivery is recognised only if the transfer ID came trimmed or its trimmed form is already stored
  (`DestinationLaws.RedeliveryRecognisedIff`); IDs made by the router always are.
- The market's fee stops being a fee above 10000 basis points (`Amm.FeeIffWithinRange`).
- Withdrawals are never missed if and only if the watcher waits for at least one confirmation
  (`Settlement.NoSkipIff`); with none, one recorded at the height just polled is skipped for good
  (`PipelineSafety.SkippedIffUnconfirmed`).
- The key the relayer marks is not the message ID the chain files the claim under when an event leaves its
  asset kind out and its asset is the zero address (`PipelineSafety.KeysAgreeIff`).
- The retry loop reports the attempt limit for every failure, also when it stopped at the first permanent
  error (`Pipeline.CallWithRetry`).
- A withdrawal is accepted and burnt for any recipient that is not blank or zero, and for any amount, but its
  release can be encoded if and only if asset address and recipient are twenty hexadecimal bytes and the
  amount is below 2^256 (`Release.ReleaseCarries`).
- A release is signed for its chain if and only if the signature's recovery code is zero or one; with two or
  three, which the code does not check, it is sent for another chain (`Release.SentIsSigned`).
- The ABI encoder panics exactly for amounts of 2^256 and above (`Abi.OverflowIff`).
- `RefundIBCTransfer` marks a transfer refunded and credits nobody (`WalletTransfer.RefundCreditsNobody`):
  after any accepted funded request has failed and been refunded, its sender is still short of the amount
  (`WalletTransfer.RefundedStaysOut`). Wallets alone hold a denomination's whole supply if and only if no
  funded transfer of it is outside (`WalletTransfer.WalletsHoldSupplyIff`).

## Model

| member | source | states |
|---|---|---|
| Ledger.Conservation | chain/aegislink/app/app.go:266-440 | Over every run from genesis, with the bank failing at will: per denomination all wallets sum to the supply, supply is claims minus withdrawals, the audit passes and the breaker has not tripped. |
| Restarts.LifeConservation | chain/aegislink/x/bridge/keeper/keeper.go:285-357 | The same over a whole life from genesis, with any number of restarts that reload the bridge from its store. |
| Ledger.StepKeepsInv | chain/aegislink/app/app.go:235-440 | Every operation, deposits, queue drains, withdrawals, registry, limit, pause and signer changes included, keeps both ledgers' invariants and moves bridge and bank together. |
| Ledger.HolderIsServed | chain/aegislink/x/bridge/keeper/keeper.go:240-250 | An owner who holds the amount never sees a short supply; once the other checks pass the withdrawal succeeds if and only if storage works. |
| Ledger.BankRefusalRestores | chain/aegislink/app/app.go:355-440 | After a bank refusal the whole state is what it was, exactly unless the nonce had wrapped to zero. |
| Ledger.DepositEffect | chain/aegislink/app/app.go:332-353 | An accepted deposit adds one claim under a new key, raises one denomination's supply and one wallet by the same positive amount, and changes no other supply or balance. |
| LedgerEffects.AcceptedDepositIff | chain/aegislink/x/bridge/keeper/keeper.go:152-201 | A deposit is accepted if and only if storage works and, at that moment: the recipient is an address; the identity is a deposit of a known kind with chain, transaction and contract, filed under its own key; destination, positive amount and deadline are there; the key is new; a quorum vouches for it in time; the asset is registered, on and not paused; the limit has room; the breaker has not tripped. |
| LedgerEffects.DepositExact | chain/aegislink/x/bridge/keeper/keeper.go:179-201 | What an accepted deposit records: key, transaction hash, denomination, asset, trimmed recipient and amount, each in its field; only claims, supply, wallet and that asset's limit usage change. |
| LedgerEffects.RefusedDeposit | chain/aegislink/app/app.go:332-353 | A refused deposit moves no claim, supply, wallet, limit or asset; a refusal by the bridge, and no other, counts a rejection; one by the bank happens only when storage fails. |
| LedgerEffects.AcceptedWithdrawalIff | chain/aegislink/x/bridge/keeper/keeper.go:203-256 | On every ledger whose wallets hold no more than the supply, as on every run, a withdrawal is accepted if and only if storage works and: owner valid, amount positive, recipient neither blank nor zero, deadline and signature there, asset registered, on and not paused, room under the limit, the owner holds the amount, the breaker has not tripped. |
| LedgerEffects.WithdrawalEffect | chain/aegislink/x/bridge/keeper/keeper.go:203-256 | Every accepted withdrawal: exactly one record more, which is the answer, with the asset's Ethereum address (asset address, else contract, else zero for native ETH), the trimmed recipient, and the request's amount, deadline and signature, at the current height and under an identity carrying the old nonce and its own hash; only that denomination's supply, the owner's balance of it, the asset's limit usage and the nonce change, by the amount and by one. |
| LedgerEffects.RefusedWithdrawal | chain/aegislink/app/app.go:381-440 | A refused withdrawal moves no supply, wallet, record or asset; only a short supply leaves the limit used. |
| LedgerEffects.ClosedMovesNothing | chain/aegislink/x/bridge/keeper/keeper.go:179-236 | An asset that is unknown, switched off or paused takes no deposit and lets nothing out. |
| LedgerEffects.SwitchesOpen | chain/aegislink/x/pauser/keeper/keeper.go:63-87 | Pausing closes just that asset until it is unpaused and opens no other; enabling and disabling work the same way. |
| LedgerEffects.BlockExact | chain/aegislink/app/app.go:266-300 | A block is the next height, an empty queue, and the run of submissions of the queued claims in the order they were queued. |
| LedgerEffects.QueueExact | chain/aegislink/app/app.go:241-264 | A claim is appended to the queue with its trimmed recipient and the current height exactly when claim, attestation and recipient are valid, said field by field. |
| LedgerEffects.DepositReason | chain/aegislink/x/bridge/keeper/keeper.go:152-186 | The reason given for refusing a deposit is a true one, quorum errors included. |
| LedgerEffects.WithdrawReason | chain/aegislink/x/bridge/keeper/keeper.go:203-236 | And so is the one for refusing a withdrawal. |
| Ledger.ClaimsAreFinal | chain/aegislink/x/bridge/keeper/keeper.go:162-166 | No operation forgets or alters a recorded claim. |
| Ledger.TrippedFreezes | chain/aegislink/x/bridge/keeper/invariants.go:66-81 | Once the breaker has tripped no operation changes supply, claims, withdrawals or wallets. |
| Ledger.App.SubmitDepositClaim | chain/aegislink/app/app.go:332-379 | The composed submission with snapshot rollback equals the specification `Submit` whenever the audit it reaches would pass, as it does on every run; a bank refusal then leaves the whole state as it was if and only if the nonce was not zero. |
| Ledger.App.ExecuteWithdrawal | chain/aegislink/app/app.go:381-440 | The same for withdrawals and `Withdraw`, a bank refusal included. |
| Ledger.App.AdvanceBlock | chain/aegislink/app/app.go:266-300 | The drain loop submits the queued claims in order at the next height, refusals not stopping the rest, and counts the accepted ones. |
| Ledger.App.QueueDepositClaim | chain/aegislink/app/app.go:241-264 | A claim is queued with its normalized recipient if and only if claim, attestation and recipient are valid. |
| Ledger.App.Rollback | chain/aegislink/app/app.go:355-379 | From snapshots taken in any order, bank and limits come back exactly and the bridge up to a zero nonce. |
| Bridge.BridgeKeeper.CheckAccountingInvariant | chain/aegislink/x/bridge/keeper/invariants.go:9-81 | The three loops, in any map order, report no fault if and only if the declarative audit passes; a reported fault is real and trips the breaker; nothing else changes. |
| Bridge.AuditExact | chain/aegislink/x/bridge/keeper/invariants.go:9-56 | With positive recorded amounts, the audit passes if and only if every withdrawal's asset is registered and for every denomination supply equals claims minus withdrawals and is not negative. |
| Bridge.BridgeKeeper.ExecuteDepositClaim | chain/aegislink/x/bridge/keeper/keeper.go:152-201 | Each refusal leaves supply and claims alone and counts a rejection; otherwise mint, record, count against the limit, audit. |
| Bridge.BridgeKeeper.ExecuteWithdrawal | chain/aegislink/x/bridge/keeper/keeper.go:203-256 | The same for burning, including that a short supply is reported after the rate limit has been used. |
| Bridge.BridgeKeeper.Withdrawals | chain/aegislink/x/bridge/keeper/keeper.go:266-279 | Lists, in recording order, the withdrawals of the height range. |
| Bridge.WithdrawalsBetweenExact | chain/aegislink/x/bridge/keeper/keeper.go:266-279 | A record is listed if and only if it is recorded and its height lies in the range. |
| Bridge.WithdrawalsInOrder | chain/aegislink/x/bridge/keeper/keeper.go:266-279 | What is recorded later is listed later. |
| Bridge.BridgeKeeper.VerifyDepositClaim | chain/aegislink/x/bridge/keeper/verify_attestation.go:5-63 | The method answers no error if and only if some active set and members vouch for the claim: valid attestation, this message ID and digest, current height within both the claim's deadline and the attestation's expiry, the attested version, a threshold no lower than the set's, and at least the set's threshold of distinct members recovered; an error it answers is a true one. It agrees with the specification for every order and multiplicity of proofs. |
| Bridge.QuorumSoundness | chain/aegislink/x/bridge/keeper/verify_attestation.go:22-60 | A verified claim has not passed its deadline nor its attestation its expiry; the attestation is valid, for this message ID and digest, of the version of the highest active set and with a threshold no lower than that set's; at least that threshold of distinct members of the set are exactly those recovered from its proofs. |
| Bridge.VerifiedIff | chain/aegislink/x/bridge/keeper/verify_attestation.go:5-63 | Verification succeeds if and only if all of that holds: nothing else is asked for. |
| Bridge.UnverifiedReason | chain/aegislink/x/bridge/keeper/verify_attestation.go:5-63 | Each refusal names a condition that really fails; too small a quorum means that every set of backers is too small or the threshold too low. |
| Signers.CountVerified | chain/aegislink/x/bridge/keeper/verify_attestation.go:38-58 | The loop counts exactly the distinct allowed signers some proof recovers to; duplicates and strangers do not count. |
| Signers.FindActiveSet | chain/aegislink/x/bridge/keeper/signer_set.go:80-103 | The maximum loop finds the highest-version active set, in any map order, and fails if and only if none is active. |
| Signers.UpsertExact | chain/aegislink/x/bridge/keeper/signer_set.go:19-78 | A signer set is stored under its version, members normalized, exactly when it has a version, a threshold its distinct non-blank members can meet and a lifetime that does not end before it starts. |
| Bridge.ImportExportBridge | chain/aegislink/x/bridge/keeper/state.go:60-182 | Import after export restores the bridge, up to a zero nonce and an empty list of signer sets. |
| Bridge.RollbackExactIff | chain/aegislink/x/bridge/keeper/state.go:113-182 | That restored state is the original if and only if the nonce was not zero. |
| Bank.BankKeeper.Credit | chain/aegislink/x/bank/keeper/keeper.go:80-102 | Trimmed address and denomination and the amount, or the right error for a blank address, a blank denomination or no positive amount; a failed write is reported after memory has changed. |
| Bank.BankKeeper.Debit | chain/aegislink/x/bank/keeper/keeper.go:104-134 | Never below zero; emptied denominations and wallets disappear. |
| Bank.DebitIff | chain/aegislink/x/bank/keeper/keeper.go:104-134 | A debit goes through exactly for a named account and denomination, a positive amount the account holds, and working storage; each error has its reason. |
| Bank.CreditIff | chain/aegislink/x/bank/keeper/keeper.go:80-102 | The same for a credit, which asks for no balance. |
| Bank.CreditTotal | chain/aegislink/x/bank/keeper/keeper.go:80-102 | A credit raises the total of its own denomination by the amount and no other total. |
| Bank.DebitTotal | chain/aegislink/x/bank/keeper/keeper.go:104-134 | A debit lowers the total of its own denomination by the amount and no other total. |
| Bank.DebitThenCredit | chain/aegislink/x/bank/keeper/keeper.go:80-134 | A debit that is credited back leaves the bank exactly as it was. |
| Bank.ImportExportBank | chain/aegislink/x/bank/keeper/keeper.go:179-252 | Importing an export, in whatever order it was listed, restores the very same balances. |
| Registry.RegisterKeepsInv | chain/aegislink/x/registry/keeper/keeper.go:64-81 | Every registered asset has one non-blank denomination, the same for bridge and bank, shared with no other asset. |
| Registry.BridgeAndBankAgree | chain/aegislink/x/bridge/keeper/accounting.go:87-92 | The denomination the bridge mints and burns is the one the bank credits and debits. |
| Registry.DenomsAreFinal | chain/aegislink/x/registry/keeper/keeper.go:64-106 | No registration or switch moves an existing asset to another denomination. |
| Registry.RegistryKeeper.RegisterAsset | chain/aegislink/x/registry/keeper/keeper.go:64-81 | Stores the canonical asset with its derived denomination, or reports invalid, existing or taken. |
| Registry.RegisterIff | chain/aegislink/x/registry/keeper/keeper.go:64-81 | Refused as invalid exactly when ID, chain, name, address or a known kind is missing or there are more than eighteen decimals; refused as existing exactly when the ID or, up to case, the denomination is taken. |
| Registry.RegisterExact | chain/aegislink/x/registry/keeper/keeper.go:64-81 | The stored asset keeps every field it came with, trimmed; kind, symbol and address are filled in where missing; no other asset changes. |
| Registry.DenomOfPlain | chain/aegislink/x/registry/keeper/keeper.go:198-216 | The derived denomination of a plain ID `chain.symbol` is `u` followed by both, and of a native asset `u` followed by the chain. |
| Registry.SwitchExact | chain/aegislink/x/registry/keeper/keeper.go:88-106 | A switch stores the flag it is given for that asset, and changes nothing else. |
| Limits.SlidingBound | chain/aegislink/x/limits/keeper/usage.go:45-111 | From any state in which the asset has a limit and no window yet, for non-decreasing heights without overflow: the transfers recorded from the current anchor on sum to the usage counter, which is at most the maximum; any `WindowBlocks` heights carry at most twice it, other assets interleaved at will. |
| Limits.SlidingExactIff | chain/aegislink/x/limits/keeper/usage.go:45-111 | From any such state, every run keeps any `WindowBlocks` consecutive heights within one maximum if and only if the window is one block or two windows do not fit below 2^64. |
| Limits.SlidingBoundTight | chain/aegislink/x/limits/keeper/usage.go:64-111 | From any such state, a run that carries exactly twice the maximum in one window length, for every maximum and every window of two blocks or more of which two fit below 2^64. |
| Limits.BoundIffNoOverflow | chain/aegislink/x/limits/keeper/usage.go:92-111 | For a window anchored above zero the bound holds if and only if its end stays below 2^64. |
| Limits.LimitsKeeper.CheckTransferAtHeight | chain/aegislink/x/limits/keeper/usage.go:45-62 | Refuses exactly a missing limit, a missing or negative amount, or one over what the active window has left. |
| Limits.LimitsKeeper.RecordTransferAtHeight | chain/aegislink/x/limits/keeper/usage.go:64-79 | Adds to the active window, anchoring it at the height when it is fresh; a refusal changes nothing. |
| Limits.CheckExact | chain/aegislink/x/limits/keeper/usage.go:45-62 | A transfer is let through if and only if the amount is there and not negative, the asset has a limit, and what the window of this height has spent plus the amount is at most the maximum. |
| Limits.RecordExact | chain/aegislink/x/limits/keeper/usage.go:64-111 | A recorded transfer adds just its amount to the window of this height, which keeps its start while it lasts and starts at this height otherwise; without room nothing changes. |
| BridgePersistence.RestartRoundTrip | chain/aegislink/x/bridge/keeper/keeper.go:285-357 | Persisting and loading into another keeper rebuilds the same state, withdrawals in the same order, transaction hashes blank; nothing is lost if and only if the nonce was not zero and every hash was blank already; cells of other modules stay. |
| BridgePersistence.RestartLossless | chain/aegislink/x/bridge/keeper/state.go:184-282 | The reload is lossless if and only if the nonce is not zero and every claim's transaction hash was already blank. |
| BridgePersistence.Persist | chain/aegislink/x/bridge/keeper/keeper.go:285-357 | Every section of the store holds exactly its part of the state, stale entries are gone, and every cell outside the six prefixes is as it was. |
| BridgePersistence.LoadFromPrefixStore | chain/aegislink/x/bridge/keeper/state.go:184-282 | Loads whatever state the sections hold, whatever was in the keeper before. |
| BridgePersistence.IndexOrder | chain/aegislink/x/bridge/keeper/keeper.go:342-355 | Twenty-digit zero-padded keys sort like the numbers, so listing by key is listing by position. |
| BridgePersistence.PrefixesDisjoint | chain/aegislink/internal/sdkstore/prefixstore.go:112-122 | No section's prefix starts another's. |
| BridgePersistence.ReachableStorable | chain/aegislink/x/bridge/keeper/keeper.go:285-357 | Every state the application reaches meets what `Persist` asks for. |
| PrefixStore.JSONPrefixStore.LoadAll | chain/aegislink/internal/sdkstore/prefixstore.go:50-66 | Lists exactly the entries under the prefix, once each, in byte order of their keys. |
| PrefixStore.JSONPrefixStore.ClearPrefix | chain/aegislink/internal/sdkstore/prefixstore.go:82-95 | Empties one section and leaves every other as it was. |
| Canonical.ClaimRoundTrip | chain/aegislink/x/bridge/types/keys.go:17-78 | A decoder, with varints after the Base 128 Varints section of the Protocol Buffers encoding specification, recovers every field up to trimming and the erc20 identification, nil amount included. |
| Canonical.ClaimBytesUnambiguous | chain/aegislink/x/bridge/types/keys.go:39-78 | Two claims have equal canonical bytes if and only if they agree on every field after that normalization. |
| Canonical.IdentityBytesUnambiguous | chain/aegislink/x/bridge/types/keys.go:17-32 | The same for the bytes behind the replay key. |
| Canonical.ClaimLayout | chain/aegislink/x/bridge/types/keys.go:17-78 | The bytes are the trimmed fields, each behind its length, in the order named, numbers in eight bytes with the most significant first. |
| Canonical.Buffer.WriteClaim | chain/aegislink/x/bridge/types/keys.go:39-78 | The writers append exactly the canonical bytes to the buffer. |
| Attestations.AttestationPayloadUnambiguous | chain/aegislink/x/bridge/types/proof.go:24-48 | Two signing payloads are equal if and only if the envelopes' normalized fields are. |
| Attestations.VotePayloadUnambiguous | relayer/internal/attestations/file_source.go:38-50 | The same for vote payloads. |
| Attestations.PayloadReads | chain/aegislink/x/bridge/types/proof.go:24-48 | A signing payload reads back as its domain, message ID, payload hash, threshold, expiry and version, in that order. |
| Attestations.VoteReads | relayer/internal/attestations/file_source.go:38-50 | And a vote payload as its domain, message ID, payload hash and expiry. |
| Attestations.PayloadDomainsDisjoint | relayer/internal/attestations/file_source.go:38-50 | No attestation payload is ever a vote payload. |
| Attestations.BuildPayload | chain/aegislink/x/bridge/types/proof.go:24-48 | The joining loop builds the length-prefixed payload of the fields. |
| Attestations.ValidateBasic | chain/aegislink/x/bridge/types/attestation.go:24-84 | Accepts if and only if message ID and payload hash are not blank, expiry and version not zero, 1 <= threshold <= number of proofs <= 128, no proof lacks signer or signature, and neither the proofs' signers nor the listed signers repeat or hold a blank one after trimming. |
| Collector.CollectorMeetsVerifier | relayer/internal/attestations/collector.go:47-130 | With normalized votes, member keys, matching version and thresholds, and nothing expired, every attestation the collector returns for a claim's digest passes the chain's verification. |
| Collector.BestExpiry | relayer/internal/attestations/collector.go:83-108 | The expiry signed is the largest minimum over all threshold-sized sets of distinct voters. |
| Collector.UniqueIsBest | relayer/internal/attestations/collector.go:60-75 | After deduplication each non-blank signer stands with the best of their votes, and nobody else does. |
| Collector.RankingUnique | relayer/internal/attestations/collector.go:79-92 | The order in which the vote map is iterated leaves no trace in the ranking. |
| Collector.WellFormedIff | chain/aegislink/x/bridge/types/attestation.go:24-65 | What the collector returns is a valid attestation if and only if the threshold is at most 128 and the selected signers stay distinct after normalization. |
| Collector.Collector.Collect | relayer/internal/attestations/collector.go:47-130 | Fails exactly for too few voters, an unconfigured key among the best, or an unsignable envelope; otherwise returns the best voters' signed attestation. |
| Collector.CollectedNames | relayer/internal/attestations/collector.go:94-130 | The names on it are those of the best voters, sorted, and each proof recovers to its own name over the signed payload. |
| Collector.Collector.Endorse | relayer/internal/attestations/collector.go:94-130 | Selects the first threshold voters of a ranking, sorts their names, takes the smallest expiry and signs for each. |
| RouteAction.PolicyReachesDestination | relayer/internal/route/relay.go:374-467 | For every memo a profile with a non-empty action list lets through, the destination's parser yields an action only of a listed type. |
| Router.StoredActionListed | chain/aegislink/x/ibcrouter/keeper/keeper.go:234-291 | The transfer a profile with a non-empty action list lets through is stored with a memo that yields an action only of a listed type. |
| RouteAction.ParsedKind | relayer/internal/route/relay.go:374-467 | A parsed action is a swap or a stake of the type the source policy looked at; a stake has no minimum; trimming the memo changes nothing. |
| RouteAction.MemoExact | relayer/internal/route/relay.go:374-467 | A memo parses to an action if and only if it means that action: kind and target denomination first, then well-formed options, each field being what the one option with its key gives, and blank without it. |
| RouteAction.MemoReads | relayer/internal/route/relay.go:374-467 | The written form of a swap or a stake with clean fields reads back as that action, every field in its place. |
| RouteAction.PermitsExact | chain/aegislink/x/ibcrouter/types/route_profile.go:56-97 | A policy lets a memo through if and only if its action list is empty or what stands before the memo's first colon is blank or, up to white space, on it, and its prefix list is empty or holds a prefix of the memo, a blank one standing for the blank memo. |
| RouteAction.ParseRouteAction | relayer/internal/route/relay.go:374-467 | The option loop with its seen-set agrees with the recursive grammar, every error included. |
| Router.RouterMachine | chain/aegislink/x/ibcrouter/keeper/keeper.go:256-348 | Over every run transfers and sessions have the same keys and agree; sequences are distinct, below the next, and equal the number parsed back from the ID. |
| Router.StatusOnlyAdvances | chain/aegislink/x/ibcrouter/keeper/keeper.go:293-348 | No operation drops or rewrites a transfer; a status only moves from pending to an outcome and from a failure to refunded. |
| Router.SequenceParsesBack | chain/aegislink/x/ibcrouter/keeper/keeper.go:635-645 | The sequence parses back from the ID whatever the asset is called, and the ID is its own trimming. |
| Router.InitiateFresh | chain/aegislink/x/ibcrouter/keeper/keeper.go:256-291 | A new transfer never lands on an existing ID. |
| Router.RouterKeeper.InitiateTransfer | chain/aegislink/x/ibcrouter/keeper/keeper.go:223-291 | Route or profile lookup, policy and argument checks with their errors; otherwise one pending transfer and its session under a new ID; what those say is `InitiateEffect`. |
| Router.InitiateIff | chain/aegislink/x/ibcrouter/keeper/keeper.go:223-291 | A request is accepted if and only if it has a destination (an enabled route; or an enabled profile that lists the asset and whose policy lets the memo through), a positive amount, a receiver and a timeout. |
| Router.InitiateEffect | chain/aegislink/x/ibcrouter/keeper/keeper.go:256-291 | The stored transfer goes to the trimmed chain, channel and denomination of the route, or of the profile and its first entry for the asset, and has the request's asset, amount, receiver, timeout and memo, trimmed; its session says the same; one sequence number is used and nothing else changes. |
| Router.InitiateReason | chain/aegislink/x/ibcrouter/keeper/keeper.go:223-291 | The error given for a refused request is a true one. |
| Router.RouterKeeper.AcknowledgeTransfer | chain/aegislink/x/ibcrouter/keeper/keeper.go:293-335 | Success, failure or timeout settles a pending transfer and its session, and fails on any other. |
| Router.SettleEffect | chain/aegislink/x/ibcrouter/keeper/keeper.go:293-335 | On a pending transfer success means completed with no reason, failure means failed with the given reason, timeout means timed out, in transfer and session alike and with every other field kept; on any other transfer nothing happens. |
| Router.RefundEffect | chain/aegislink/x/ibcrouter/keeper/keeper.go:337-348 | A refund marks exactly a failed or timed-out transfer, and changes nothing else. |
| Amm.RunKeepsProduct | relayer/internal/route/mock_target.go:702-760 | Over every run of swaps both reserves stay positive, their product never falls, and everything paid left the pool. |
| Amm.SplittingNeverPays | relayer/internal/route/mock_target.go:702-760 | Splitting an input into any number of consecutive swaps never pays more than one swap of the sum, for every fee. |
| Amm.FeeIffWithinRange | relayer/internal/route/mock_target.go:720-728 | The effective input is at most the input for every amount if and only if the fee is at most 10000 basis points. |
| Amm.QuoteExact | relayer/internal/route/mock_target.go:720-759 | A swap is quoted `out` for a rise `e` of the input reserve if and only if amount, `e` and `out` are positive, `10000 e <= amount (10000 - fee) < 10000 (e + 1)`, where the difference wraps at 2^32 as the code's does, and the product of the new reserves is no less than the old one, but would be with one unit more paid; it is refused if and only if there are no such numbers. |
| Destination.MockTarget.SwapThrough | relayer/internal/route/mock_target.go:702-760 | The swap with its checks in order, on decimal text: an answer is a fair swap, with the numbers of `Amm.QuoteExact` on the first pool for the pair and no less than the minimum, and every other pool as it was; a refused swap changes no pool, and there was no fair one. |
| Destination.SwapInFair | relayer/internal/route/mock_target.go:702-760 | A swap goes through to given pools and payout if and only if that is the fair swap. |
| Destination.MockTarget.CreditBalance | relayer/internal/route/mock_target.go:762-795 | Finds or appends the balance record, with its two parse errors. |
| Destination.MockTarget.ExecutePacket | relayer/internal/route/mock_target.go:497-668 | All branches of an execution, its record and the acknowledgement it leaves, in every mode. |
| Destination.MockTarget.AdvanceReceivedPackets | relayer/internal/route/mock_target.go:474-489 | Executes, in order, exactly the packets that were received. |
| Destination.MockTarget.ReceiveTransfer | relayer/internal/route/runtime_target.go:43-73 | Stores the envelope unless its ID is known and writes the file; refuses exactly an unreadable sequence, a blank channel, asset or receiver, or a failing write, which leaves memory ahead of the file. |
| Destination.MockTarget.ReadyAckRecords | relayer/internal/route/runtime_target.go:75-98 | Advances, writes if that executed anything, and fails if that write does; otherwise lists every acknowledgement not yet confirmed, saved or not. |
| Destination.MockTarget.SetAckState | relayer/internal/route/runtime_target.go:122-152 | Confirm, complete, fail and timeout, executing first where the code does, and the write that follows. |
| DestinationLaws.EveryRun | relayer/internal/route/mock_target.go:474-795 | In every mode, over every run of deliveries, posts and controls: pools stay positive with products that never fell, and per denomination holdings plus what pools can pay is what there was, plus what plain credits brought in, less the payouts of swaps that were lost. |
| DestinationLaws.AtMostOnce | relayer/internal/route/mock_target.go:461-495 | In every mode and over every run, a transfer ID that is its own trimming, as every ID made by the router is, is executed at most once. |
| DestinationLaws.ExecutionPays | relayer/internal/route/mock_target.go:497-626 | A successful execution pays exactly its recipient: the amount, or the pool's quote and no less than the minimum; a stake pays nobody. |
| DestinationLaws.ExecutionExact | relayer/internal/route/mock_target.go:497-626 | Every execution of every envelope: an action error fails with its text; a stake succeeds if and only if its target denomination is the one received, both trimmed, and its path is not blank, and then records exactly one stake of that amount, denomination, staker and validator, moving no other book; a swap succeeds if and only if a fair one exists and its payout can be credited, to the recipient; anything else is a credit, which succeeds if and only if both numbers can be read; the record says outcome, recipient, denominations, amounts and reason. |
| DestinationLaws.AckedExact | relayer/internal/route/mock_target.go:628-668 | A failed execution is acknowledged as failed with its reason in every mode; a successful one as completed, failed, timed out or not yet, as the mode says; no other packet changes. |
| DestinationLaws.SetAckExact | relayer/internal/route/runtime_target.go:122-152 | Each control acts on the packet of the trimmed ID and leaves the acknowledgement it names; confirming needs one that is ready. |
| DestinationLaws.ReadyExact | relayer/internal/route/runtime_target.go:75-98 | A poll lists exactly the acknowledgements that are ready and not confirmed, with their status and reason. |
| DestinationLaws.BuildExact | relayer/internal/route/relay.go:316-360 | An envelope is built if and only if sequence, channel, asset and receiver are there, and carries each field of the transfer and the action its memo means. |
| DestinationLaws.ReceiveExact | relayer/internal/route/runtime_target.go:43-73 | A delivery appends one packet that carries the transfer, unless it is malformed or its trimmed ID is known. |
| DestinationLaws.FirstReceivedFirst | relayer/internal/route/mock_target.go:474-489 | The first packet waiting is executed first, on the books as they stand, and the rest after it. |
| DestinationLaws.FailureMovesNothingIff | relayer/internal/route/mock_target.go:503-622 | A failed execution leaves every book as it was except exactly when the swap went through and the recipient's record cannot be read. |
| DestinationLaws.LostSwapExample | relayer/internal/route/mock_target.go:531-556 | From the default pools, a plain credit of an unreadable amount, executed, and then a swap for the same recipient: the swap takes from the pool, fails, and pays nobody. |
| DestinationLaws.CreditAdds | relayer/internal/route/mock_target.go:762-783 | A credit raises one account by the amount and leaves every other account. |
| DestinationLaws.CreditKeepsParse | relayer/internal/route/mock_target.go:777-795 | Readable balances stay readable if and only if the credited amount is blank or a number. |
| DestinationLaws.SwapOnIsQuote | relayer/internal/route/mock_target.go:715-759 | On a pool with positive reserves the textual swap is the arithmetic quote, cut off below a minimum. |
| DestinationLaws.RedeliveryRecognisedIff | relayer/internal/route/mock_target.go:461-468 | A second delivery changes nothing if and only if the ID came trimmed or its trimmed form was already stored. |
| DestinationLaws.DefaultsHealthy | relayer/internal/route/mock_target.go:676-691 | The built-in pools meet what the market laws ask for. |
| TwoChain.TwoChainSafety | relayer/internal/route/relay.go:162-203 | Under any interleaving, loss, delay or duplication of queries, deliveries, polls, acknowledgements and confirmations, failing writes and crashes: neither memory nor file holds two executions of a transfer. While no poll has listed what the file does not bear out, completed means exactly one successful execution, failed or refunded exactly one, which moved nothing, and none times out, in memory and after a crash. |
| TwoChain.SafeIffNeverCareless | relayer/internal/route/runtime_target.go:43-98 | At every point of a run, whichever acknowledgement is applied next and wherever the destination then crashes, every status is explained by what it comes back with, if and only if no poll of the run listed an acknowledgement that the file did not bear out. |
| TwoChain.WritingIsCareful | relayer/internal/route/runtime_target.go:43-156 | With a state file and without failing writes memory is always on file, so no run ever lists what the file does not bear out. |
| TwoChain.LossExample | relayer/internal/route/runtime_target.go:75-98 | For every valid request over an enabled route, at most six steps with one failing write, one acknowledgement and a crash leave the transfer settled on the source and unknown to the destination. |
| Destination.ReloadExactIff | relayer/internal/route/runtime_target.go:12-41 | Loading a saved state gives back that state if and only if no other pools are configured, for states with pools and balances, which every loaded runtime has. |
| TwoChain.ValueArrivesOnce | relayer/internal/route/runtime_target.go:43-102 | In every run, what the destination holds and can pay is what it started with plus the amounts of executed plain transfers, each once. |
| Relaying.Relayer.RunOnce | relayer/internal/route/relay.go:162-203 | However each remote call ends, failing writes of the destination included, the steps taken on the chains, the summary and the outcome are those of the specification `Cycle`, and what the query listed is the pending transfers. |
| Relaying.CycleDoes | relayer/internal/route/relay.go:162-203 | A cycle that succeeds polls, applies and confirms each listed acknowledgement in order, queries, and delivers each listed transfer in order; any other takes a prefix of those steps. Each counter of the summary is the number of the steps it names, up to where the cycle stopped. |
| TwoChain.PolicyReachesExecution | relayer/internal/route/mock_target.go:497-626 | Every execution in every run is of the message of the router's own transfer, which some step of the run initiated and whose memo is the requested one, trimmed; where that was by a profile with a non-empty action list, the action executed is on the list. |
| TwoChain.RequestReachesExecution | relayer/internal/route/mock_target.go:497-626 | Every execution in every run is of a transfer that some step asked for: it went to the chain, over the channel and in the denomination of the route or profile at that time, with the request's asset, amount, receiver, timeout and memo; its message carries all of that, and the execution does exactly what that message promises. |
| Relaying.Relayer.PendingTransfers | relayer/internal/route/command_runtime.go:52-75 | Lists exactly the pending transfers, as many entries as there are. |
| WalletTransfer.Gateway.ApplyIBCTransfer | chain/aegislink/networked/abci.go:583-642 | Debit, initiate and compensate step by step equals the specification `Transfer`, with the chain application failing at either call. |
| WalletTransfer.AcceptedMovesAmount | chain/aegislink/networked/abci.go:583-642 | An accepted request debits its sender by exactly the amount, no other balance, and adds exactly one pending transfer of that amount under a new ID. |
| WalletTransfer.AcceptedIff | chain/aegislink/networked/abci.go:583-642 | A request is accepted if and only if its asset is known, its sender, if any, can pay, the router takes it, and the chain application carries it out. |
| WalletTransfer.AcceptedStores | chain/aegislink/networked/abci.go:583-642 | The transfer it is answered with has the request's asset, amount, receiver, timeout and memo, and the destination the router says. |
| WalletTransfer.RefusedChangesNothing | chain/aegislink/networked/abci.go:612-640 | A refused request leaves the whole ledger and the pending transfers as they were. |
| WalletTransfer.WalletsPlusTransfersIsSupply | chain/aegislink/networked/abci.go:583-642 | Over every run, wallets plus the funded transfers whose debit was not given back is the supply, and those are distinct router transfers of those amounts. |
| EndToEnd.EveryDebitIsSomewhere | chain/aegislink/networked/abci.go:583-642 | Over every run of both chains, the relayer, failing writes and crashes: per denomination, supply is what wallets hold, plus what was debited for transfers that have not executed with success, plus what was debited for those that have, each of which executed exactly once with exactly the amount debited; completed transfers are among the latter and failed or refunded ones are not, while no poll has listed what the file does not bear out. |
| WalletTransfer.WalletsHoldSupplyIff | chain/aegislink/networked/abci.go:583-642 | Over every run, wallets alone hold a denomination's whole supply if and only if every funded transfer of it that was accepted has been given back, which a refund never does. |
| WalletTransfer.RefundedStaysOut | chain/aegislink/x/ibcrouter/keeper/keeper.go:337-348 | Any accepted funded request whose transfer then fails and is refunded: its status is refunded, the sender is still short of exactly the amount, and no other balance has moved. |
| WalletTransfer.HolderIsServedInEveryRun | chain/aegislink/app/app.go:381-414 | In every such run an owner who holds the amount is served whenever the other checks pass and storage works. |
| Pipeline.ObservedExact | relayer/internal/evm/watcher.go:17-57 | A poll sees, in block order and as often as it was logged, exactly each item from its cursor to the final tip and nothing beyond; the next cursor leaves no gap and never passes what is final. |
| Pipeline.FinalTipExact | relayer/internal/evm/watcher.go:17-57 | The final tip is the height exactly `confirmations` below the latest once that has reached the cursor, and the next cursor is one past it short of 2^64. |
| Pipeline.Observe | relayer/internal/cosmos/watcher.go:17-57 | The early returns, the filter, the stable sort and the cursor, with the edge at 2^64-1. |
| Pipeline.DepositEvents | relayer/internal/evm/rpc_source.go:45-104 | The chunk loop returns every block of the range exactly once and in order, or fails with a query. |
| Pipeline.ChunkFits | relayer/internal/evm/rpc_source.go:92-104 | No query is empty, spans more than ten blocks or leaves the range, wrap-around included. |
| Pipeline.CallWithRetry | relayer/internal/pipeline/pipeline.go:182-220 | Stops at the first success, the first permanent failure or the limit; the reported number is the number of calls if and only if it succeeded or used them all. |
| Pipeline.Store.MarkProcessed | relayer/internal/replay/store.go:81-90 | Memory first, then the whole file or nothing; refuses when the load failed. |
| Pipeline.Store.SaveCheckpoint | relayer/internal/replay/store.go:70-79 | The same for a cursor. |
| Pipeline.Coordinator.RunPoll | relayer/internal/pipeline/pipeline.go:102-180 | Either loop equals the specification `Poll`; on success every observed item is counted as duplicate or delivered. |
| Pipeline.StopsAtFirst | relayer/internal/pipeline/pipeline.go:102-180 | Items are handled in order up to the first that fails, and nothing after it is touched. |
| Pipeline.StoreExact | relayer/internal/replay/store.go:70-90 | A mark adds one key and a checkpoint sets one cursor, nothing else; the file is then memory, or as it was. |
| PipelineSafety.NoDepositMissed | relayer/internal/pipeline/pipeline.go:102-143 | Over every run of polls, failed calls, failed writes, crashes and restarts: every deposit below the cursor, in memory or saved, is marked, and every marked key had a call that returned success. |
| Settlement.DepositsArrive | chain/aegislink/networked/submission.go:312-343 | Over every run in which a submission succeeds only after its claim was queued on the chain and a later query found it recorded: every deposit logged below the cursor, in memory or saved, has its claim recorded on the chain. |
| PipelineSafety.NoWithdrawalSkipped | relayer/internal/pipeline/pipeline.go:145-180 | With at least one confirmation and a height that does not fall, every withdrawal the chain recorded below the cursor has been released, whenever it was recorded. |
| Settlement.NoSkipIff | relayer/internal/cosmos/watcher.go:17-57 | From any chain reached from genesis that has recorded no withdrawal yet but lets someone withdraw: every run from there misses no withdrawal if and only if at least one confirmation is configured. |
| PipelineSafety.SkippedIffUnconfirmed | relayer/internal/cosmos/watcher.go:29-57 | A withdrawal recorded at the polled height falls below the cursor, never to be looked at, if and only if there are no confirmations or the cursor was already past it. |
| PipelineSafety.CursorsNeverFall | relayer/internal/replay/store.go:70-172 | Under any step from any reachable state, whatever fails or crashes and for any number of confirmations, no saved cursor moves back, and no saved mark is lost. |
| PipelineSafety.StepAppends | chain/aegislink/x/bridge/keeper/keeper.go:363-390 | A chain operation appends at most one withdrawal, recorded at the height it runs at. |
| Minting.EachKeyMintsOnce | chain/aegislink/x/bridge/keeper/keeper.go:162-166 | Over every run, the claims accepted by submissions and by draining the queue carry pairwise distinct replay keys, none of which was recorded before and all of which are afterwards. |
| Restarts.LifeMintsOnce | chain/aegislink/app/app.go:160-184 | The same over a whole life of runs and restarts, whatever queue a restart brings back. |
| Minting.RecordedIffAccepted | chain/aegislink/app/app.go:241-353 | Over every run, the keys recorded are exactly those there before and those of the accepted claims: nothing else ever records one. |
| Minting.QuorumBehindEveryMint | chain/aegislink/x/bridge/keeper/verify_attestation.go:5-63 | Behind every claim accepted in a run, directly or from the queue, stand, when it was accepted: a height within the claim's deadline and the attestation's expiry, a valid attestation of its message ID and digest, of the version of the active set and with a threshold no lower than its, and valid recoveries from at least that threshold of distinct members. |
| LedgerEffects.EveryMintMintable | chain/aegislink/app/app.go:241-353 | Whatever a run mints, directly or out of the queue, was mintable at that moment in every respect of `AcceptedDepositIff`. |
| LedgerEffects.AppliedExact | chain/aegislink/app/app.go:266-300 | The number a block reports is the number of claims it accepted. |
| PipelineSafety.KeysAgreeIff | relayer/internal/evm/client.go:47-82 | The relayer's key and the chain's message ID have the same bytes before hashing if and only if the event named its asset kind or its asset is not the zero address. |
| Rlp.RoundTrip | relayer/internal/evm/rpc_release.go:360-410 | A decoder after Appendix B of the Ethereum Yellow Paper inverts the encoders on every item, across single-byte, short and long forms, whatever follows. |
| Rlp.TxUnambiguous | relayer/internal/evm/rpc_release.go:305-346 | For payloads whose lengths fit Go's int, two signed legacy transactions have equal encodings if and only if their nine fields are equal, missing and negative numbers being zero. |
| Rlp.TxReadsBack | relayer/internal/evm/rpc_release.go:305-346 | Decoding the sent bytes gives nine items: nonce, gas price, gas limit, recipient, value, data, v, r and s, in that order. |
| Rlp.RlpEncodeLength | relayer/internal/evm/rpc_release.go:399-410 | The loop peels off the length's bytes, most significant first. |
| Rlp.RlpEncodeList | relayer/internal/evm/rpc_release.go:381-397 | The gathering loop and its short and long headers. |
| Abi.CalldataRoundTrip | relayer/internal/evm/rpc_release.go:229-291 | An ABI decoder reads back both addresses, the amount, the identifier, the deadline and the signature through its offset; the calldata is whole words. |
| Abi.CalldataUnambiguous | relayer/internal/evm/rpc_release.go:229-253 | Two requests have the same calldata if and only if a contract reads the same arguments from both. |
| Abi.OverflowIff | relayer/internal/evm/rpc_release.go:269-277 | The word encoder overflows exactly for amounts of 2^256 and above. |
| Abi.HexBytesIff | relayer/internal/evm/rpc_release.go:293-303 | A field is read exactly from that many bytes in hexadecimal, with or without `0x`, white space around it aside. |
| Release.ReleaseCarries | relayer/internal/cosmos/client.go:77-86 | Over every run from genesis, for every accepted withdrawal and a hash whose digests print as thirty-two bytes: the relayer's request passes its own validation, and from its calldata the gateway reads the asset's Ethereum address, the trimmed recipient, the amount, the deadline and the signature of the request and the withdrawal's own message ID; the calldata exists if and only if asset and recipient are twenty hexadecimal bytes and the amount is below 2^256. |
| Release.SentIsSigned | relayer/internal/evm/rpc_release.go:305-346 | For payloads whose lengths fit Go's int and a chain ID that is not negative: from a signed transaction a node, after EIP-155, reads nonce, gas numbers, gateway, no value, calldata and signature as they were to be, and what it rebuilds is what was signed if and only if the recovery code is zero or one. |
| Release.SentReleases | relayer/internal/evm/rpc_release.go:98-134 | What is sent for a release calls the gateway, with no value and 500000 gas, and its data decodes to the request's asset, recipient, amount, message ID, deadline and signature. |

## Left out

- Ledger.App.SubmitDepositClaim: when the audit would fail, the state it leaves is not pinned down, because the reported fault depends on map order; `Bridge.BridgeKeeper.ExecuteDepositClaim` says what holds then, and no run from genesis gets there.
- Ledger.App.ExecuteWithdrawal: likewise.
- Ledger.App.AdvanceBlock: of the progress record, the last message and the list of credited balances.
- Ledger.App.Rollback: what is on disk while a rollback runs, and failing writes of the bridge and limits keepers; their storage is taken to work.
- Ledger.Step: governance proposals act only through the registry, limit and route operations listed here; their authority checks are not modelled.
- Attestations.ValidateBasic: says whether an attestation is valid, not which of several texts the one error it returns carries.
- Bridge.BridgeKeeper.ExportState: the slices come in arbitrary order; the code sorts them, and no result depends on it.
- BridgePersistence.Persist: asks for trimmed keys, which every reachable state has; that storage fails is not modelled.
- Destination.MockTarget.CreditBalance: the amounts quoted inside its error texts.
- Destination.MockTarget.ExecutePacket: the amounts and denominations inside swap error texts, escaping inside quoted texts, and the legacy copy of the packets.
- Destination.MockTarget.ReceiveTransfer: the configured delay.
- Destination.MockTarget.SetAckState: the default reasons its callers fill in for a blank one.
- TwoChain.TwoChainSafety: is about the success mode without manual controls, because the other modes acknowledge against the outcome on purpose; `DestinationLaws.AtMostOnce` and `DestinationLaws.EveryRun` hold in all of them. Acknowledgements reach the router only through the relayer, and posts to the destination only from it. A write is whole or nothing, a restart configures no other pools (`Destination.ReloadExactIff` says why), and the source's own store is taken to work.
- Relaying.Relayer.RunOnce: a target that acknowledges inside the delivery call, which this destination never does; the loop around it with its back-off.
- WalletTransfer.Gateway.ApplyIBCTransfer: the balance synchronisations after a failure, whose errors the code ignores, and the events it returns.
- PipelineSafety.NoDepositMissed: takes Ethereum's logs to be final below the confirmed tip; deeper reorganisations are not modelled.
- Settlement.DepositsArrive: for a hash without collisions and for events that name their asset kind unless the asset is not the zero address, which is when the relayer's key and the chain's agree (`PipelineSafety.KeysAgreeIff`); chain operations inside a poll are taken to come before it.
- Pipeline.Coordinator.RunPoll: validation, attestation and the call itself are parameters that succeed or fail; what an accepted submission does on chain is `Minting.EachKeyMintsOnce` and `Ledger.DepositEffect`, and `Settlement.DepositsArrive` ties the two together.
- Restarts.LifeConservation: bank, limits and registry come back from their own stores as they were.
- Release.SentIsSigned: says nothing of negative chain IDs, which the code's number parser would let through; the key and how it signs are a parameter, and the hexadecimal text between calldata and transaction is taken as its bytes.
- Text.Lower: upper and lower case are those of ASCII letters.
- Rebuilding the bank from claims in legacy runtime files (chain/aegislink/app/runtime_state.go).
- Decoding Ethereum logs and receipts, gas prices, nonces and private keys.
- Progress after a crash between an effect and its acknowledgement: the relayers stop at the duplicate.
- CometBFT, BaseApp and ibc-go wiring, HTTP and JSON-RPC handlers, command lines, metrics, configuration.
- Automatic delivery and bridge-session status resolution, which match transfers by asset, receiver and amount.
- The contracts in Solidity and the web front end.
