# Verified models of deepiri-zepgpu

This project models the parts of deepiri-zepgpu whose correctness spans many calls, and proves what they
are for. To check it:

    dafny verify dfyconfig.toml

There are four independent parts.

**The compute ledger** is a hash-linked, proof-of-authority chain of blocks with a cached balance table.
`Merkle` covers the trees and inclusion proofs, `Replay` and `ReplayMeaning` the credit replay, `CreditTables` its
table and root, `Blocks` the block object and its validation. `Ledgers` gives one chain as a value and every
service call as a step on it; `LedgerServices` is the service as an object whose methods are proved to make
exactly those steps;
`LedgerSafety` and `LedgerTheorems` prove what every sequence of calls keeps, `OpenTips` which waiting blocks can
still be finalized; `ChainChecks` says what verification reports and `LedgerCalls` what each call demands and
writes. `LightClient`, `HeaderMeaning` and `HeaderSync` are the header checks, `Bridge`, `BridgeSafety`, `BridgeRuns`,
`BridgeChains`, `BridgeEvidence`, `BridgeConservation`, `BridgeMints` and `BridgeTransfers` the burn-and-mint bridge
between two chains.

**The GPU scheduler** is in `Scheduling` (the steps, and what every run keeps), `SchedulingFates` (where tasks
end up and on which devices they run) and `TaskSchedulers` (the scheduler and the device manager as objects).

**The pipeline executor** is in `Pipelines`, as an imperative loop with every nondeterministic choice left
open; `PipelineMeaning` says what each stage is called with and what becomes of it. **Room dispatch** is in
`ShareRanking` and `Dispatch`, the latter as a step relation over concurrent processes, and `DispatchAlone` says
what one process does undisturbed.

**The JSON nesting guard** is in `JsonGuard`.

`Hashing` and `Sequences` hold what they share.

## How things are modelled

- Hashing is ideal: a digest is a term that says what was hashed, so digests agree exactly when the hashed
  values do. A leaf preimage is a JSON object and a pair preimage 128 hex digits, so the two kinds of digest
  are different constructors. A signature records its key and message, and a key stands for its key pair.
- Credits, utilization and time stamps of the scheduler are exact real numbers.
- A chain is the committed content of its tables. Sealed and pending transactions come back in chain and
  submission order, the maximum nonce covers both, and a call that raises leaves what it last committed. The
  clock and fresh ids are parameters.
- The quorum threshold is constant and the validator set only grows.
- Runs of two bridged chains contain transfers both ways and any other call on either chain, mints submitted
  past the bridge included. The service accepts those without asking what backs them, so what the theorems about
  runs say of the two chains together comes with the exact condition on such mints.
- The executor's choices are arbitrary: which tasks are done when the wait returns, how far each attempt's
  view of the context lags, how many retries an earlier launch used up. Stage functions are deterministic,
  names are unique, inputs do not share a name with a stage, and a template refers to no stage that is not a
  declared dependency.
- Locks are exclusive and do not expire. Releasing one is two steps, reading the holder and deleting, as in the
  code, and anything may happen between them. Lock operations never fail: an exception from `lock.release`
  in the rollback would leave the lock behind. The assignment row and its event appear together. Everything
  else about the share table may change at any time.
- The scheduler's callers may ask for negative memory and reuse ids; a task's identity is its id.
- The heap of the scheduler is any arrangement of its tasks in which no parent has a larger key than its
  children.

## What the proofs found

- Self-verification, the cache and the state roots hold on every reachable ledger even when sealing and
  finalizing are separate steps (`LedgerTheorems.SelfVerification`, `LedgerTheorems.CacheIsReplay`).
- Genesis adds one approval per configured extra key without looking for repetitions. A chain whose keys
  repeat can be started only if genesis does not reach its quorum (`LedgerTheorems.GenesisStarts`); later
  blocks skip keys that have approved. Once started such a chain is dead: no approval ever finalizes its
  genesis, and nothing is sealed on it (`OpenTips.RepeatedKeysNeverFinal`). Every other open tip can be
  finalized (`OpenTips.OpenTipCloses`).
- Headers exported with `finalized_only=False` can fail the light client's check: the open genesis of a chain
  with repeated keys does (`HeaderSync.RefusedExport`), and nothing else on a reachable ledger does
  (`HeaderSync.ExportAcceptedIff`).
- The service seals a bridge mint that no burn backs (`BridgeMints.StrayMintInflates`). The two chains stay
  backed exactly as long as nobody gets such a mint, or a second one for the same receipt, accepted
  (`BridgeSafety.MintSubmitIff`, `BridgeRuns.HistorySafeIff`). What it costs is exact too: balances exceed the
  job seconds exactly when more was minted than burned (`BridgeConservation.NoInflation`).
- The light client checks signatures of a header's hash but never computes that hash, so a header with another
  transaction root passes and any transaction can be shown to be in its block (`HeaderSync.ReplacedRootPasses`).
  A client that also computes the hash of the header is safe (`HeaderSync.RecomputedHeaderIsMembership`), and no
  other replaced root does as well as the right one (`LightClient.ReplacedRootIff`).
- Merkle soundness needs the leaf to be a transaction hash (`Merkle.InnerNodeVerifies`), and the root binds
  the list only together with its length or with the absence of repetitions (`Merkle.DuplicatedLastLeaf`,
  `Merkle.DistinctBinding`). Accepted nonces rule repetitions out, so on reachable ledgers a block hash binds
  the whole history (`LedgerTheorems.HashBindsHistory`).
- Mutual exclusion of room shares is not unconditional. A second release of an assignment that runs while
  the task is dispatched again deletes the new lock (`Dispatch.DoublyAssigned`). Two releases of one
  assignment that run at once can both read the task as the holder, and the later one deletes the lock of
  whoever came in between (`Dispatch.TwoStrangers`). Either way two tasks end up on one share. Exclusion holds
  exactly when no assignment is released by two callers at once and no task's releases may both overlap its
  dispatches and repeat (`Dispatch.ExclusiveIff`).
- The scheduler's key is priority first only for creation times strictly less than 1,000,000,000 seconds
  apart; at that distance an older task of the next lower priority goes first (`Scheduling.KeyOrderAtSpread`).
- The result of device allocation is ignored, which is harmless exactly while the picked device's memory is
  not negative (`Scheduling.StartAllocatesIff`, `Scheduling.RunKeepsIff`). A negative request gets a task onto a
  device that stays idle (`Scheduling.NegativeRequest`); without one, and with new ids, no run does
  (`Scheduling.CarefulRun`).
- The guard lets a scalar pass even a negative limit, because it only counts opening brackets
  (`JsonGuard.GuardMeasuresDepth`).

## Model

Member names are qualified by module and class.

| member | source | states |
|---|---|---|
| `Merkle.PairLevel` | deepiri_zepgpu/compute_ledger/merkle.py:30-33 | one padded level is paired from left to right into the level above |
| `Merkle.MerkleRoot` | deepiri_zepgpu/compute_ledger/merkle.py:19-34 | the level loop computes the root of the tree over every leaf list, the empty one included |
| `Merkle.MerkleProof` | deepiri_zepgpu/compute_ledger/merkle.py:73-100 | the loop returns the error of an empty list or a bad index, and otherwise the proof whose steps are the siblings along the path of the index |
| `Merkle.VerifyMerkleProof` | deepiri_zepgpu/compute_ledger/merkle.py:103-113 | the loop accepts exactly the proofs whose steps are all left or right and fold the leaf to the claimed root; the index is ignored |
| `Merkle.Completeness` | deepiri_zepgpu/compute_ledger/merkle.py:73-113 | for every non-empty list and every index in range the built proof names the leaf at the index, claims the root of the list and verifies; its positions spell the index in binary over the depth of the tree |
| `Merkle.SmallTrees` | deepiri_zepgpu/compute_ledger/merkle.py:19-34 | the roots of no, one, two and three leaves in full: left before right, and an odd last leaf hashed with itself |
| `Merkle.DigitsSpell` | deepiri_zepgpu/compute_ledger/merkle.py:88-98 | the step positions of an index determine the index |
| `Merkle.DepthIsCeilLog2` | deepiri_zepgpu/compute_ledger/merkle.py:27-33 | the depth is the least d with n <= 2^d |
| `Merkle.PathLength` | deepiri_zepgpu/compute_ledger/merkle.py:103-113 | a verifying path from a transaction hash is exactly as long as the tree is deep |
| `Merkle.AcceptedProofs` | deepiri_zepgpu/compute_ledger/merkle.py:19-34 | a proof that starts at a transaction hash verifies against the root of a non-empty list if and only if it is the path of some place of the padded tree and its leaf is the member at that place |
| `Merkle.AcceptedByIndex` | deepiri_zepgpu/compute_ledger/merkle.py:73-113 | such a proof is accepted if and only if some index below 2^depth spells its path and its leaf sits there; there is only one such index, and if it is an index of the list the leaf is the leaf there |
| `Merkle.Soundness` | deepiri_zepgpu/compute_ledger/merkle.py:103-113 | whatever the steps and their number, a verifying proof against the root of transaction hashes names a member of the list if and only if it starts at a transaction hash |
| `Merkle.InnerNodeVerifies` | deepiri_zepgpu/compute_ledger/merkle.py:103-113 | without the transaction-hash condition soundness fails: an inner node verifies with a shorter path |
| `Merkle.Binding` | deepiri_zepgpu/compute_ledger/merkle.py:19-34 | lists of equal length with equal roots are equal |
| `Merkle.DuplicatedLastLeaf` | deepiri_zepgpu/compute_ledger/merkle.py:28-29 | the length condition is needed: duplicating the last leaf of an odd list keeps the root |
| `Merkle.DistinctBinding` | deepiri_zepgpu/compute_ledger/merkle.py:19-34 | lists without repeated leaves are bound by the root alone |
| `Replay.CreditState.GetOrCreate` | deepiri_zepgpu/compute_ledger/replay.py:40-43 | creates a zero balance for a new account and changes nothing else |
| `Replay.CreditState.ApplyPayload` | deepiri_zepgpu/compute_ledger/replay.py:68-126 | each payload type makes its postings to the two columns or is refused with its error, and a refused payload moves no balance |
| `Replay.CreditState.ApplyTransaction` | deepiri_zepgpu/compute_ledger/replay.py:61-127 | nonce check, nonce update and payload in the order of the code; after an error no balance has moved |
| `Replay.ReplayTransactions` | deepiri_zepgpu/compute_ledger/replay.py:130-135 | the loop computes the replay of the list, or stops with the error of the first transaction that fails |
| `Replay.ReplaySplits` | deepiri_zepgpu/compute_ledger/replay.py:130-135 | replaying a list in two parts is replaying it whole, which is what sealing on top of a replay relies on |
| `ReplayMeaning.ReplayCharacterised` | deepiri_zepgpu/compute_ledger/replay.py:61-135 | replay succeeds if and only if nonces are non-negative and strictly increasing per sender, payloads are well formed and every burn is covered where it stands; then every balance is the sum of what the list credits and debits and every nonce the largest of its sender |
| `ReplayMeaning.Conservation` | deepiri_zepgpu/compute_ledger/replay.py:61-135 | the accounts together hold mints minus burns plus job seconds without a consumer |
| `ReplayMeaning.ColumnsNeverFall` | deepiri_zepgpu/compute_ledger/replay.py:13-22 | credits and debits of an account never decrease along the list |
| `ReplayMeaning.ReorderReplays` | deepiri_zepgpu/compute_ledger/replay.py:61-135 | a reordering that keeps each sender's own order of a list that replays also replays if and only if every burn is covered at its new place |
| `ReplayMeaning.OrderIrrelevant` | deepiri_zepgpu/compute_ledger/replay.py:45-59 | two successful orders end in the same balances, nonces, sorted table and state root, though accounts are created in another order |
| `ReplayMeaning.OrderIndependence` | deepiri_zepgpu/compute_ledger/replay.py:45-135 | without burns a reordering that keeps each sender's own order succeeds exactly when the original does, with the same balances, nonces and state root |
| `ReplayMeaning.BurnOrderMatters` | deepiri_zepgpu/compute_ledger/replay.py:93-108 | with burns the order matters: a burn ahead of the mint that funds it is refused |
| `CreditTables.JobMoves` | deepiri_zepgpu/compute_ledger/replay.py:71-80 | a completed job credits the provider it names, or the sender if it names none, debits the consumer it names, and moves nobody else |
| `CreditTables.SenderKeeps` | deepiri_zepgpu/compute_ledger/replay.py:71-80 | the sender of a job that names another provider and another consumer keeps its balance |
| `CreditTables.SettlementMoves` | deepiri_zepgpu/compute_ledger/replay.py:81-91 | a settlement moves its seconds from the account it names, or the sender if it names none, to the other, and moves nobody else |
| `CreditTables.BurnMoves` | deepiri_zepgpu/compute_ledger/replay.py:92-105 | a burn debits the account it names, which holds that much, and nobody else |
| `CreditTables.MintMoves` | deepiri_zepgpu/compute_ledger/replay.py:106-124 | a mint credits the account it names and nobody else; other payloads move nothing |
| `CreditTables.RefusalReasons` | deepiri_zepgpu/compute_ledger/replay.py:61-127 | a transaction is refused with an error if and only if the cause of that error is there; a stale nonce comes first, then the number, and a missing account before a number that is merely not positive |
| `CreditTables.RootBindsBalances` | deepiri_zepgpu/compute_ledger/replay.py:45-55 | two states have the same root if and only if they have the same balances |
| `CreditTables.RootHashesTable` | deepiri_zepgpu/compute_ledger/replay.py:45-59 | after a list that replays, the root is the hash of, and the table is, the one list of rows in account order with a row for each account touched and all that is credited and debited to it |
| `CreditTables.RootsAndCacheAreTables` | deepiri_zepgpu/compute_ledger/service.py:191-321 | on reachable ledgers the state root of a block is the hash of exactly that table of the transactions up to it, and the cached rows are that table of the final ones |
| `CreditTables.EqualRootsEqualBalances` | deepiri_zepgpu/compute_ledger/service.py:191-321 | two blocks of reachable ledgers have the same state root if and only if the transactions up to them leave the same balances |
| `Blocks.ComputeBlock.EnsureProposerApproval` | deepiri_zepgpu/compute_ledger/block.py:69-78 | adds the proposer's own signature as an approval unless it is there or there is none |
| `Blocks.ComputeBlock.ValidateApprovals` | deepiri_zepgpu/compute_ledger/poa.py:34-59 | the loop accepts exactly the blocks that, with the proposer's approval added, carry at least the threshold of valid approvals from distinct authorized validators, proposer included; otherwise the error is that of the first bad approval, or says that the proposer or the quorum is missing |
| `Blocks.ComputeBlock.ValidateBlock` | deepiri_zepgpu/compute_ledger/poa.py:62-104 | accepts exactly the blocks whose height, link, validator, root, hash, signatures, quorum and transactions are in order, and otherwise names the first check that fails |
| `Blocks.ComputeBlock.AddApproval` | deepiri_zepgpu/compute_ledger/poa.py:107-124 | appends a good approval of a validator that has not approved, or changes nothing and names the fault |
| `Blocks.ValidateTransaction` | deepiri_zepgpu/compute_ledger/poa.py:16-31 | accepts exactly the transactions with id, sender, non-negative nonce and, when asked for, a valid signature; an incomplete transaction and a bad signature have their own error |
| `Blocks.BlockBinding` | deepiri_zepgpu/compute_ledger/block.py:49-67 | well-formed blocks with the same hash and transaction count hold the same transaction hashes in the same order |
| `Blocks.DistinctBlockBinding` | deepiri_zepgpu/compute_ledger/block.py:49-67 | without repeated transactions the hash alone binds them |
| `LedgerServices.LedgerService.EnsureInitialized` | deepiri_zepgpu/compute_ledger/service.py:84-149 | the genesis step of the specification, or no change |
| `LedgerServices.LedgerService.SealPending` | deepiri_zepgpu/compute_ledger/service.py:191-267 | the seal step: pending transactions in submission order into one block on the finalized tip, replayed, signed, cosigned, checked and stored; it raises exactly when the step fails, with its error |
| `LedgerServices.LedgerService.SubmitTransaction` | deepiri_zepgpu/compute_ledger/service.py:151-189 | the submission step with its checks, and the seal after it; it raises exactly when the step fails, its seal included, with that error, and then the transaction is not kept |
| `LedgerServices.LedgerService.ApproveBlock` | deepiri_zepgpu/compute_ledger/service.py:269-321 | the approval step, finalizing and rewriting the cached table when the quorum is reached; it raises exactly when the step fails, with its error |
| `LedgerServices.LedgerService.PersistBlock` | deepiri_zepgpu/compute_ledger/service.py:512-560 | stores the block and, if it is final, the replayed table |
| `LedgerServices.LedgerService.RebuildBalances` | deepiri_zepgpu/compute_ledger/service.py:383-390 | replaces the cached table by the replay of the finalized transactions |
| `LedgerServices.LedgerService.VerifyChain` | deepiri_zepgpu/compute_ledger/service.py:329-381 | the report names the positions of the blocks that are not intact, whether the finalized transactions replay, their table and its hash, the number of blocks, and the highest final block; all of it is stated of the tables themselves, whatever they hold |
| `ChainChecks.VerifiesIff` | deepiri_zepgpu/compute_ledger/service.py:338-362 | the check of one block of any table finds nothing if and only if the block has the height of its position, names the hash below it, has the root and hash of its content, is signed by an authorized proposer and by the senders of its transactions and, if final, by different authorized validators |
| `ChainChecks.CleanIff` | deepiri_zepgpu/compute_ledger/service.py:329-381 | a report is clean if and only if every block is intact in that sense and the final transactions are admissible; a block that is not has its position in the report |
| `ChainChecks.ReachableReports` | deepiri_zepgpu/compute_ledger/service.py:369-381 | the report on a reachable ledger is clean, holds the cached table, and names as tip the top block, or the one below it while the top block is open |
| `LedgerServices.LedgerService.GetInclusionProof` | deepiri_zepgpu/compute_ledger/service.py:392-409 | the proof at the first leaf with the given hash in the block with the given hash, which verifies, or the error |
| `LedgerServices.LedgerService.ExportHeadersOf` | deepiri_zepgpu/compute_ledger/service.py:411-433 | the selected headers up to the limit, or the error of the genesis step, the only one there is |
| `Ledgers.RunExists` | deepiri_zepgpu/compute_ledger/service.py:84-321 | every sequence of calls runs from every ledger, so that theorems about runs are about all sequences of calls |
| `LedgerSafety.ReachableIsSafe` | deepiri_zepgpu/compute_ledger/service.py:84-321 | the ledger invariant holds after every sequence of calls: links, only the tip open, quorums, state roots, cache and fresh nonces |
| `LedgerSafety.SealKeeps` | deepiri_zepgpu/compute_ledger/service.py:191-267 | sealing keeps the invariant |
| `LedgerSafety.ApprovalKeeps` | deepiri_zepgpu/compute_ledger/service.py:294-320 | a finalizing or non-finalizing approval keeps the invariant |
| `LedgerSafety.MaxNonceMeaning` | deepiri_zepgpu/database/repositories/ledger_repository.py:152-160 | a nonce above the stored maximum is non-negative and above every earlier nonce of the sender, sealed or pending |
| `LedgerTheorems.ChainSafety` | deepiri_zepgpu/compute_ledger/service.py:191-321 | on every reachable ledger heights are 0..n-1, each block names the hash below it, at most the top block is open, and every finalized block has its quorum of distinct authorized approvals, proposer included |
| `ChainChecks.ChainIsSigned` | deepiri_zepgpu/compute_ledger/service.py:191-321 | field by field: every block of a reachable ledger is intact, all but the top one are final, and the hash of every final one is signed by a quorum of authorized validators with the proposer among them |
| `LedgerTheorems.CacheIsReplay` | deepiri_zepgpu/compute_ledger/service.py:383-390 | on every reachable ledger the cached balances are the replay of the finalized transactions, each state root is that of the replay up to its block, and a rebuild changes nothing |
| `LedgerTheorems.SelfVerification` | deepiri_zepgpu/compute_ledger/service.py:329-381 | verify_chain finds no error on any reachable ledger, with or without an open tip, and replays the cached table |
| `LedgerTheorems.SealSucceeds` | deepiri_zepgpu/compute_ledger/service.py:191-267 | with transactions waiting, a seal succeeds if and only if no block is open and every pending transaction is signed, well formed and, if a burn, covered at its place |
| `LedgerCalls.SubmitDemands` | deepiri_zepgpu/compute_ledger/service.py:151-189 | a submission is refused as incomplete, unsigned, stale or repeated, in this order, and otherwise joins the waiting transactions and changes nothing else |
| `LedgerCalls.SubmitSeals` | deepiri_zepgpu/compute_ledger/service.py:180-189 | with automatic sealing what was accepted is sealed at once |
| `LedgerCalls.ReachableDistinctIds` | deepiri_zepgpu/compute_ledger/service.py:151-189 | on a reachable ledger no two transactions, in blocks or waiting, have the same id |
| `LedgerCalls.SealDemands` | deepiri_zepgpu/compute_ledger/service.py:191-267 | a seal fails on an open block, then on a replay that fails, then on an unsigned transaction, makes no block when nothing waits, and otherwise makes one |
| `LedgerCalls.SealWrites` | deepiri_zepgpu/compute_ledger/service.py:191-267 | the sealed block holds all that waited in order, sits on the top block, is proposed now by the relay and approved by exactly the own keys, and is final if and only if they make a quorum; nothing waits after it |
| `LedgerCalls.GenesisWrites` | deepiri_zepgpu/compute_ledger/service.py:84-149 | the first block registers the relay, is signed by it and cosigned by each extra key in turn, and makes them validators |
| `LedgerCalls.ApproveDemands` | deepiri_zepgpu/compute_ledger/service.py:269-321 | an approval is refused for a final block, an unknown validator, a bad signature or a second approval of one validator, in this order; past that it fails only while finalizing |
| `LedgerCalls.ApproveMissing` | deepiri_zepgpu/compute_ledger/service.py:269-293 | an approval of a hash that no block has is refused |
| `LedgerCalls.RegisterWrites` | deepiri_zepgpu/database/repositories/ledger_repository.py:45-76 | registering a validator on a started chain adds it and changes nothing else |
| `LedgerCalls.RebuildRepairs` | deepiri_zepgpu/compute_ledger/service.py:383-390 | whatever the cached rows of a reachable ledger have become, a rebuild brings them back |
| `LedgerCalls.RebuildWrites` | deepiri_zepgpu/compute_ledger/service.py:383-390 | on any tables a rebuild writes the table of the final transactions, or fails and writes nothing if they are not admissible |
| `LedgerCalls.CallsMakeSteps` | deepiri_zepgpu/compute_ledger/service.py:151-321 | each call on a started chain leaves what its step makes of it, or raises the error of the step and changes nothing |
| `LedgerCalls.CallsStart` | deepiri_zepgpu/compute_ledger/service.py:84-149 | a call on an empty chain first writes the genesis block, and does nothing more when that fails |
| `LedgerTheorems.FinalizedForever` | deepiri_zepgpu/compute_ledger/service.py:269-321 | whatever calls follow, no block disappears and a finalized block never changes |
| `LedgerTheorems.HashBindsHistory` | deepiri_zepgpu/compute_ledger/block.py:56-67 | two reachable ledgers that share one block hash agree on that block and everything below it: every header field and every transaction in order |
| `LedgerTheorems.GenesisStarts` | deepiri_zepgpu/compute_ledger/service.py:127-146 | a chain can be started if and only if its genesis stays open or no configured key repeats |
| `OpenTips.ReachableRepeats` | deepiri_zepgpu/compute_ledger/service.py:127-146 | on every reachable ledger genesis repeats an approval if and only if the configuration repeats a key, and no other block repeats one |
| `OpenTips.RepeatedKeysNeverFinal` | deepiri_zepgpu/compute_ledger/service.py:127-146 | a chain started with repeated keys stays at its open genesis whatever calls follow, with no balances |
| `OpenTips.ApproveFinalizes` | deepiri_zepgpu/compute_ledger/service.py:269-321 | an approval finalizes an open tip if and only if it is a valid one of a new authorized validator, it completes the quorum, and the approvals there do not repeat |
| `OpenTips.OpenTipCloses` | deepiri_zepgpu/compute_ledger/service.py:269-321 | some continuation finalizes the open tip of a reachable ledger if and only if the tip is not genesis or the configuration repeats no key |
| `LightClient.VerifyHeaderSignatures` | deepiri_zepgpu/compute_ledger/light_client.py:67-98 | the loop accepts exactly the good headers: authorized proposer and approvals, each valid, none repeated, quorum when finalized; otherwise it names the first check that fails |
| `LightClient.VerifyHeaderChain` | deepiri_zepgpu/compute_ledger/light_client.py:101-142 | the report is valid exactly when the sorted headers fit one after the other; it lists every gap, broken link and bad header in order of height, and its tip is the last of the highest headers given |
| `LightClient.EqualHeightsKeepOrder` | deepiri_zepgpu/compute_ledger/light_client.py:114-114 | sorting leaves headers of one height in the order given |
| `LightClient.VerifyTxInclusion` | deepiri_zepgpu/compute_ledger/light_client.py:145-154 | accepts exactly the verifying proofs against the header's root |
| `LightClient.OrderIndependent` | deepiri_zepgpu/compute_ledger/light_client.py:114-142 | validity does not depend on the order of the headers given, repeated heights included |
| `LightClient.Composition` | deepiri_zepgpu/compute_ledger/light_client.py:101-142 | for batches one above the other, the whole is valid if and only if each batch is and the second continues the first |
| `HeaderMeaning.GoodIffGenuine` | deepiri_zepgpu/compute_ledger/light_client.py:67-98 | the signature check accepts a header if and only if authorized validators, all different, signed its hash, the proposer and, if it is marked final, a quorum among them |
| `HeaderMeaning.ValidIffChain` | deepiri_zepgpu/compute_ledger/light_client.py:101-142 | headers pass the chain check if and only if they can be arranged with consecutive heights from the one asked for, each naming the hash before it, the zero hash at height zero, and each genuine |
| `HeaderMeaning.StartHeightIff` | deepiri_zepgpu/compute_ledger/light_client.py:115-115 | a start height accepts exactly what is accepted without it and starts there |
| `HeaderMeaning.FaultOrder` | deepiri_zepgpu/compute_ledger/light_client.py:67-98 | which check a refused header failed first |
| `HeaderMeaning.FirstBadDecides` | deepiri_zepgpu/compute_ledger/light_client.py:81-92 | among bad approvals the first decides: by a stranger, by an earlier approver, or badly signed |
| `HeaderMeaning.ErrorsListed` | deepiri_zepgpu/compute_ledger/light_client.py:119-134 | the errors reported are exactly what is wrong with one of the headers: its height, its link, or its signatures with the first fault |
| `LightClient.InclusionIsMembership` | deepiri_zepgpu/compute_ledger/light_client.py:145-154 | against the header of a well-formed block exactly the transactions of the block have an accepted proof that starts at their hash |
| `LightClient.RootsUnchecked` | deepiri_zepgpu/compute_ledger/light_client.py:67-142 | the chain check does not depend on time stamps, transaction roots or state roots: it never computes a header hash |
| `LightClient.ReplacedRootIff` | deepiri_zepgpu/compute_ledger/light_client.py:145-154 | a header whose transaction root was replaced accepts the same proofs as the block's own header if and only if it still hashes to the signed hash |
| `HeaderSync.ExportHeaders` | deepiri_zepgpu/compute_ledger/service.py:411-433 | the loop exports the selected headers up to the limit |
| `HeaderSync.ExportIs` | deepiri_zepgpu/compute_ledger/service.py:411-433 | what is exported: from the height asked for up to the top block, or the one below an open top if only final ones are asked for, as many as the limit allows but at least one, each header with the fields of its block |
| `HeaderSync.SelectedIsStretch` | deepiri_zepgpu/compute_ledger/service.py:418-432 | what is selected is a contiguous stretch of the chain |
| `HeaderSync.ExportAccepted` | deepiri_zepgpu/compute_ledger/service.py:411-433 | any range of finalized headers exported from a reachable ledger passes the chain check with the same validators and quorum |
| `HeaderSync.ExportAcceptedSafe` | deepiri_zepgpu/compute_ledger/service.py:411-433 | an export, open tip included, passes the chain check with the same validators and quorum if and only if every exported block is final or repeats no approval |
| `HeaderSync.ExportAcceptedIff` | deepiri_zepgpu/compute_ledger/service.py:411-433 | on every reachable ledger an export passes if and only if it starts above genesis, asks for finalized headers only, there is no block, genesis is final, or the configuration repeats no key |
| `HeaderSync.RefusedExport` | deepiri_zepgpu/compute_ledger/service.py:127-149 | the failing run: a relay that is also an extra key under a quorum of three; the chain starts, and no export of its genesis passes |
| `HeaderSync.ReplacedRootPasses` | deepiri_zepgpu/compute_ledger/light_client.py:67-154 | the failing run: in any finalized export of any reachable ledger one header with its root replaced by the hash of any transaction passes with the others, and a proof without steps puts that transaction in its block |
| `HeaderSync.RecomputedHeaderIsMembership` | deepiri_zepgpu/compute_ledger/light_client.py:145-154 | a header that hashes to its hash, which is that of a block of a reachable ledger, has exactly the transactions of that block provable, and its height, predecessor and state root |
| `Bridge.MintOn` | deepiri_zepgpu/compute_ledger/bridge.py:98-154 | from a final burn: proof, receipt check, inclusion check and submission of the mint; each error is named and leaves the destination as it was |
| `Bridge.BurnOn` | deepiri_zepgpu/compute_ledger/bridge.py:69-96 | balance check and submission of the burn, with the error of whatever fails; a burn that was not even sealed is rolled back |
| `Bridge.TransferBetween` | deepiri_zepgpu/compute_ledger/bridge.py:45-165 | the transfer as a whole is the step Transfer on the two committed ledgers, result and error included |
| `BridgeSafety.InclusionHolds` | deepiri_zepgpu/compute_ledger/bridge.py:98-100 | a transaction of the top block of a safe ledger has an inclusion proof that passes the offline check |
| `BridgeSafety.TransferKeeps` | deepiri_zepgpu/compute_ledger/bridge.py:45-165 | a transfer keeps both chains safe and all mints backed, never fails by the checks of its own burn, and if it goes through adds one final burn and the mint that pays it out to the two started chains |
| `BridgeEvidence.TransferWrites` | deepiri_zepgpu/compute_ledger/bridge.py:69-154 | the burn and the mint of a transfer that goes through, field by field: both signed by their relays with the next nonce, and the mint with the hash of the burn, hash and height of the final block that holds it, its receipt, and a proof that folds to that block's root |
| `BridgeEvidence.TransferDemands` | deepiri_zepgpu/compute_ledger/bridge.py:54-73 | a transfer is refused for its amount, for a single chain, or for a balance below what the final transactions leave the account, each with its error, in this order, and for no other reason |
| `BridgeEvidence.TransferLeaves` | deepiri_zepgpu/compute_ledger/bridge.py:86-154 | with a sufficient balance, a burn that is refused or not sealed leaves nothing, one that is sealed stays whether final or not, and the destination changes only when the transfer goes through |
| `BridgeSafety.MintSubmitIff` | deepiri_zepgpu/compute_ledger/service.py:151-189 | a mint submitted past the bridge and accepted keeps the pair of chains safe if and only if a final burn of the other chain backs it and its receipt is not minted yet |
| `BridgeRuns.HistoryExists` | deepiri_zepgpu/compute_ledger/bridge.py:45-165 | every sequence of transfers and calls runs from two empty chains |
| `BridgeChains.ChainsStaySafe` | deepiri_zepgpu/compute_ledger/bridge.py:45-165 | over any run of transfers both ways and calls on either chain, mints of any kind included, each chain by itself keeps the ledger invariant |
| `BridgeRuns.HistoryIsSafe` | deepiri_zepgpu/compute_ledger/bridge.py:45-165 | over any run of transfers both ways and calls on either chain in which accepted mints submitted past the bridge are backed and new, both chains stay safe, every mint is backed by a final burn of the other chain and no receipt repeats |
| `BridgeRuns.HistorySafeIff` | deepiri_zepgpu/compute_ledger/bridge.py:45-165 | over any run of transfers both ways and calls on either chain, all of that holds throughout if and only if every accepted mint submitted past the bridge is backed and new when submitted |
| `BridgeConservation.MintsMatchBurns` | deepiri_zepgpu/compute_ledger/bridge.py:20-36 | in any such run every mint pays out exactly one final burn with the same account and amount, and different mints different burns |
| `BridgeConservation.InFlightIsBurnsLessMints` | deepiri_zepgpu/compute_ledger/bridge.py:73-165 | the final burns whose receipt no final mint carries sum to the final burns less the final mints, and never below zero |
| `BridgeConservation.WorthIsEarned` | deepiri_zepgpu/compute_ledger/replay.py:68-126 | balances of both chains and burns in flight sum to the final job seconds without a consumer; with the waiting ones, to all of them |
| `BridgeConservation.WorthSplits` | deepiri_zepgpu/compute_ledger/replay.py:68-126 | at any point of any run these sums differ from the job seconds by the seconds of final mints that pay out no final burn |
| `BridgeConservation.TransferConserves` | deepiri_zepgpu/compute_ledger/bridge.py:45-165 | a transfer, whatever its outcome, leaves balances plus seconds in flight plus seconds waiting as they were |
| `BridgeConservation.HistoryConserves` | deepiri_zepgpu/compute_ledger/bridge.py:45-165 | over any run in which nobody submits a job without a consumer, that total stays the same if and only if the seconds of unbacked final mints do; they do when accepted mints submitted past the bridge are backed and new |
| `BridgeConservation.NoInflation` | deepiri_zepgpu/compute_ledger/bridge.py:45-165 | at any point of any run both balance tables together hold no more than the final job seconds if and only if the final mints sum to no more than the final burns; they do when accepted mints submitted past the bridge are backed and new |
| `BridgeMints.StrayMintInflates` | deepiri_zepgpu/compute_ledger/service.py:151-189 | the failing run: on a chain with enough keys of its own a stranger's unbacked mint is accepted, sealed and final, and the two tables hold more than was earned |
| `BridgeTransfers.CachedIsNet` | deepiri_zepgpu/database/repositories/ledger_repository.py:254-296 | the cached balance of an account is what the final transactions credit it less what they debit it |
| `BridgeTransfers.IdleSubmit` | deepiri_zepgpu/compute_ledger/service.py:151-267 | a chain with nothing waiting and enough own keys seals and finalizes an appliable transaction at once |
| `BridgeTransfers.StartedIsIdle` | deepiri_zepgpu/compute_ledger/service.py:84-149 | a chain whose own keys reach the threshold and do not repeat starts as such a chain |
| `BridgeTransfers.TransferMoves` | deepiri_zepgpu/compute_ledger/bridge.py:45-165 | between two such chains a transfer goes through if and only if the cached balance covers it; then exactly that account loses exactly that amount on one chain and gains it on the other |
| `Pipelines.ResolveArgs` | deepiri_zepgpu/core/pipeline_manager.py:219-231 | references become context values or none, everything else stays |
| `PipelineMeaning.StageMeaning` | deepiri_zepgpu/core/pipeline_manager.py:180-231 | a stage completes if and only if its dependencies did and its function, called with literals as they are, references to stages as their values and references to inputs as those inputs, returns a value or its handler turns the error into one; that is then its value, and it fails if and only if there is none |
| `PipelineMeaning.InputsStay` | deepiri_zepgpu/core/pipeline_manager.py:111-159 | the inputs are in the final context unchanged, which holds nothing but inputs and stages |
| `PipelineMeaning.ValueFlows` | deepiri_zepgpu/core/pipeline_manager.py:219-231 | a stage that gives back its reference to a dependency ends with that dependency's value |
| `PipelineMeaning.InputFlows` | deepiri_zepgpu/core/pipeline_manager.py:219-231 | likewise for an input |
| `PipelineMeaning.HandlerDecides` | deepiri_zepgpu/core/pipeline_manager.py:196-217 | a stage that always raises ends with what its handler makes of the error, or fails |
| `Pipelines.GetReadyStages` | deepiri_zepgpu/core/pipeline_manager.py:161-178 | the stages neither completed nor failed whose dependencies completed, those in flight included, in their order and as often as listed |
| `PipelineMeaning.ReadyMeaning` | deepiri_zepgpu/core/pipeline_manager.py:161-178 | said with a filter over the pipeline |
| `Pipelines.ExecuteStage` | deepiri_zepgpu/core/pipeline_manager.py:180-217 | the retry loop stops at the first attempt that succeeds or has no retry left; it counts every attempt but the last and returns what that one gives in the context it read |
| `PipelineMeaning.AttemptsMade` | deepiri_zepgpu/core/pipeline_manager.py:180-217 | a stage is attempted no more often than its retries allow, and less often only if an attempt did not raise |
| `Pipelines.LaunchReady` | deepiri_zepgpu/core/pipeline_manager.py:129-131 | launches the first of the ready stages, as many as there are free slots, relaunches included |
| `PipelineMeaning.LaunchMeaning` | deepiri_zepgpu/core/pipeline_manager.py:129-131 | launching puts the first ready stages in flight with the present context, as many as there is room for, keeps what was in flight and changes nothing else |
| `Pipelines.ExecuteStages` | deepiri_zepgpu/core/pipeline_manager.py:111-159 | for every order of completion, every relaunch, every context an attempt may read and every limit of at least one, the run terminates with the same context, completed set and failed set; without enable_retry it raises if and only if some stage fails |
| `Pipelines.FinalIsLeast` | deepiri_zepgpu/core/pipeline_manager.py:161-178 | that context is the least one that explains every value it holds and holds every stage that could run and succeed |
| `Pipelines.CompletesIff` | deepiri_zepgpu/core/pipeline_manager.py:111-178 | a pipeline completes every stage if and only if dependencies are stages without a cycle and no stage raises |
| `Pipelines.OutcomeStable` | deepiri_zepgpu/core/pipeline_manager.py:219-231 | a stage whose dependencies are in the context does not notice what else the context gains |
| `ShareRanking.RankingMeaning` | deepiri_zepgpu/rooms/dispatch.py:67-123 | the candidates are exactly the shares that nothing rules out, each as often as listed, more free memory first, then less load, and equals in the order listed |
| `Dispatch.ExclusiveIff` | deepiri_zepgpu/rooms/dispatch.py:149-193 | over all interleavings, a lock release being a read and a later delete, no share ever has two unreleased assignments if and only if no assignment may be released by two callers at once and no task's release may both overlap a dispatch of the task and repeat another release |
| `Dispatch.LockedIffAssigned` | deepiri_zepgpu/rooms/dispatch.py:161-193 | under that condition a task has the lock of exactly the shares it is assigned and of the one a dispatch for it is working on; once its dispatches have ended, of exactly the shares it is assigned |
| `Dispatch.DoKeeps` | deepiri_zepgpu/rooms/dispatch.py:149-266 | under that condition every allowed step keeps locks with their owners: a dispatcher at work or an unreleased assignment, never two |
| `Dispatch.ReleaseRightful` | deepiri_zepgpu/vpn/remote_gpu_lock.py:64-74 | under that condition a release that read its task as the holder, and still when it deletes, has before it the lock of the unreleased assignment it was called for |
| `Dispatch.DoublyAssigned` | deepiri_zepgpu/rooms/dispatch.py:249-266 | the first failing run: two releases of one assignment, a new dispatch of the task between them, and another task |
| `Dispatch.TwoStrangers` | deepiri_zepgpu/vpn/remote_gpu_lock.py:64-74 | the second failing run: two releases both read the task as the holder, the second deletes the lock another task has taken in between, and two other tasks end up on one share |
| `DispatchAlone.TakesFirstFree` | deepiri_zepgpu/rooms/dispatch.py:149-193 | a dispatch alone assigns its task to the first candidate that is neither locked nor anything but idle, and to nothing else |
| `DispatchAlone.TakesNothing` | deepiri_zepgpu/rooms/dispatch.py:149-193 | without such a candidate it ends without a lock and changes nothing |
| `DispatchAlone.RollsBack` | deepiri_zepgpu/rooms/dispatch.py:183-192 | when marking the share or creating the assignment raises, the dispatch alone gives the lock back, leaves the share idle and no assignment |
| `DispatchAlone.ReleasesAlone` | deepiri_zepgpu/rooms/dispatch.py:249-266 | a release alone deletes the lock and leaves the share idle and the assignment released |
| `DispatchAlone.ReleasesWithoutLock` | deepiri_zepgpu/rooms/dispatch.py:249-266 | without the lock it leaves all locks alone and does the rest |
| `DispatchAlone.ReleaseUndoes` | deepiri_zepgpu/rooms/dispatch.py:249-266 | a release undoes a dispatch: locks and shares are what they were before it |
| `TaskSchedulers.GpuManager.GetAvailableDevice` | deepiri_zepgpu/core/gpu_manager.py:231-243 | the loop finds the first device in insertion order that suits |
| `TaskSchedulers.GpuManager.AllocateDevice` | deepiri_zepgpu/core/gpu_manager.py:245-252 | allocates an idle device with non-negative memory, or refuses |
| `TaskSchedulers.GpuManager.ReleaseDevice` | deepiri_zepgpu/core/gpu_manager.py:254-259 | the device becomes idle and names no task |
| `TaskSchedulers.TaskScheduler.SubmitTask` | deepiri_zepgpu/core/scheduler.py:107-141 | the submission step, or the quota error |
| `TaskSchedulers.TaskScheduler.CancelTask` | deepiri_zepgpu/core/scheduler.py:155-177 | a waiting task moves to the failed ones and the heap is rebuilt; a running one gives its device back and stays |
| `TaskSchedulers.TaskScheduler.SchedulePendingTasks` | deepiri_zepgpu/core/scheduler.py:231-293 | the loop makes one scheduling pass: heads of the queue start until slots, tasks or devices run out |
| `TaskSchedulers.TaskScheduler.MarkTaskRunning` | deepiri_zepgpu/core/scheduler.py:295-301 | the step that marks a started task as running, or no change |
| `TaskSchedulers.TaskScheduler.MarkTaskCompleted` | deepiri_zepgpu/core/scheduler.py:303-320 | the completion step: a running task becomes a completed one and gives its device back |
| `TaskSchedulers.TaskScheduler.MarkTaskFailed` | deepiri_zepgpu/core/scheduler.py:322-341 | the failure step |
| `TaskSchedulers.HeadIsHead` | deepiri_zepgpu/core/scheduler.py:243-243 | the first element of a heap has a least key |
| `Scheduling.RunKeeps` | deepiri_zepgpu/core/scheduler.py:107-358 | over any run in which accepted ids are new and no pass picks a device with negative memory, a device is allocated exactly when a running task holds it and the two name each other, each task is in one container once, the counters are the container sizes and sum to the total, and the limit holds |
| `Scheduling.RunKeepsIff` | deepiri_zepgpu/core/scheduler.py:107-358 | over any run, all of that holds throughout if and only if no accepted submission reuses an id and no pass picks a device with negative memory |
| `Scheduling.CarefulRun` | deepiri_zepgpu/core/scheduler.py:107-358 | all of that holds throughout every run whose requests are not negative and whose ids are new |
| `Scheduling.NegativeRequest` | deepiri_zepgpu/core/gpu_manager.py:245-252 | the failing run: a device and a request with less memory than nothing, and after one pass the task runs on a device that is idle |
| `Scheduling.PassKeepsIff` | deepiri_zepgpu/core/scheduler.py:231-293 | a scheduling pass keeps devices exclusive and tasks in one container if and only if no device it picks has negative memory |
| `Scheduling.SubmitKeepsIff` | deepiri_zepgpu/core/scheduler.py:107-141 | so does a submission if and only if it is refused or its id is new |
| `Scheduling.OneHolder` | deepiri_zepgpu/core/gpu_manager.py:56-71 | an allocated device has exactly one running holder, any other none |
| `Scheduling.TasksConserved` | deepiri_zepgpu/core/scheduler.py:107-177 | no call loses a task or makes one up, whatever the ids: the only id added is that of an accepted submission |
| `SchedulingFates.CompletedIff` | deepiri_zepgpu/core/scheduler.py:303-320 | over any run an id is among the completed if and only if some completion met it running |
| `SchedulingFates.FailedIff` | deepiri_zepgpu/core/scheduler.py:155-341 | over any run an id is among the failed if and only if a failure met it running or a cancellation met it waiting |
| `SchedulingFates.RunningIff` | deepiri_zepgpu/core/scheduler.py:231-341 | over any run an id is running if and only if a pass started it and nothing has completed or failed it since |
| `SchedulingFates.RunStatuses` | deepiri_zepgpu/core/scheduler.py:107-341 | over any run waiting tasks are queued, running ones scheduled, running or cancelled, completed ones completed and without a device, failed ones failed or cancelled |
| `SchedulingFates.FailedStatus` | deepiri_zepgpu/core/scheduler.py:155-341 | the last call that failed an id decides whether it is marked failed or cancelled |
| `SchedulingFates.OnlySubmitted` | deepiri_zepgpu/core/scheduler.py:107-341 | over any run every task held anywhere is, but for status and device, one that was submitted |
| `SchedulingFates.QuotaDecides` | deepiri_zepgpu/core/scheduler.py:133-153 | over any run a submission is let in if and only if fewer of its user were let in before than the last quota set allows and that quota leaves any hours |
| `Scheduling.StartAllocatesIff` | deepiri_zepgpu/core/gpu_manager.py:245-252 | starting a task keeps devices exclusive if and only if the picked device's memory is not negative |
| `Scheduling.FirstFitMeaning` | deepiri_zepgpu/core/gpu_manager.py:231-243 | a suitable device is found whenever there is one, and none that suits lies before it |
| `SchedulingFates.PickMeaning` | deepiri_zepgpu/core/scheduler.py:256-265 | the device picked is the first idle one of the type with enough memory; only if there is none and the task allows it, the first idle CPU; and none only if there is neither |
| `SchedulingFates.RunRightDevices` | deepiri_zepgpu/core/scheduler.py:246-285 | over any run a running task that names a device names one of the type it asks for, or a CPU if it allows that |
| `SchedulingFates.PassIsBusy` | deepiri_zepgpu/core/scheduler.py:231-293 | a pass stops only when the slots that were free are used up, the queue is empty, or no device can be used for a task that nothing waiting goes ahead of |
| `SchedulingFates.DevicesStay` | deepiri_zepgpu/core/gpu_manager.py:206-259 | no call adds or loses a device or changes its type, and only a measurement of an allocated device changes its free memory |
| `Scheduling.PassTakes` | deepiri_zepgpu/core/scheduler.py:239-293 | what a pass starts comes out of the queue, once, and nothing else does |
| `Scheduling.PassOrder` | deepiri_zepgpu/core/scheduler.py:239-293 | a pass starts tasks in key order, all ahead of those it leaves |
| `Scheduling.PassRuns` | deepiri_zepgpu/core/scheduler.py:233-290 | everything that ran still runs, and what started runs too |
| `Scheduling.KeyOrder` | deepiri_zepgpu/core/scheduler.py:116-116 | a task goes ahead of one some priority levels lower if and only if it was created less than that many times 1,000,000,000 seconds later |
| `Scheduling.KeyOrderIsPriority` | deepiri_zepgpu/core/scheduler.py:49-56 | for creation times less than 1,000,000,000 seconds apart, key order is priority, then creation time |
| `Scheduling.KeyOrderAtSpread` | deepiri_zepgpu/core/scheduler.py:116-116 | at exactly 1,000,000,000 seconds it is not |
| `Scheduling.NoOvertaking` | deepiri_zepgpu/core/scheduler.py:231-293 | with close creation times no task of higher priority, or as high and older, is left waiting or started later |
| `JsonGuard.ValidateJsonNesting` | deepiri_zepgpu/queue/safe_task.py:82-114 | the loop accepts exactly the texts whose scan does not end too deep |
| `JsonGuard.GuardMeasuresDepth` | deepiri_zepgpu/queue/safe_task.py:82-114 | a JSON text, in any form sections 2 to 7 of RFC 8259 allow, passes if and only if its nesting depth is within the limit, and the scan ends at depth zero outside a string |
| `JsonGuard.ScanValue` | deepiri_zepgpu/queue/safe_task.py:200-213 | met at any depth, a value leaves the scanner where it was or is too deep, as its nesting decides |
| `JsonGuard.BracketsCount` | deepiri_zepgpu/queue/safe_task.py:93-114 | any text without quotes that never closes more than it opens, JSON or not, passes if and only if no opening bracket of either kind leaves more open than the limit |
| `JsonGuard.AcceptsPrefix` | deepiri_zepgpu/queue/safe_task.py:93-114 | every beginning of an accepted text is accepted |

## Left out

- SQL sessions, ORM rows, identifiers and time stamp conversion: tables are sequences, maps and sets.
- The internals of SHA-256, Ed25519 and canonical JSON: ideal hash constructors and signatures take their place.
- Float rounding and NaN in credits: exact numbers; a payload number that is not a number at all is modelled.
- The wording of errors: each failing check has its own error value, with two exceptions: the ledger service reports any failed check of a block it is about to store as one error, `InvalidBlock`, and any failed replay as `ReplayFailed`.
- Changing the quorum threshold or deactivating validators while a chain runs.
- Liveness of sealing beyond `LedgerTheorems.SealSucceeds` and `BridgeTransfers.IdleSubmit`: an unreplayable pending transaction blocks every later seal.
- Blocks or transactions of two chains under the same hash or id: both are looked up on their own chain only.
- The recording helpers, peer attestations and header payload endpoint of the service: thin wrappers around the modelled calls.
- Which pipeline stage bodies run how often and how many at once, stage statuses and stored stage results: the code promises neither exactly-once execution nor a cap on bodies still running after a relaunch.
- The final status a pipeline reports: it is completed even when stages failed or stalled.
- Access checks and target validation before room dispatch, and everything that happens to an assignment after it.
- Lock expiry, a missing lock server, and the forced release of a lock.
- The remote GPU pool of the scheduler, NVML discovery, averages and callbacks; metrics only change the memory of allocated devices.
- In-place update of Task and device records: the scheduler's containers hold them as values and the methods replace them, so aliasing with a caller's own reference is not captured.
- The sift operations of the standard heap library: any heap arrangement of the same tasks may result.
- Payload size limits, the operation allowlist and the duplicate-key check of safe payloads: easy checks on single values.
- Scripts, migrations, command line, user interface, HTTP services, Celery tasks, storage backends, monitoring, cloud providers and user management.
