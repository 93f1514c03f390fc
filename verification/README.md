# A verified model of the child chain of more-minimal-plasma-chain

The program keeps a UTXO ledger (the child chain) in an ordered key-value store and ties it to a
contract on a root chain. A deposit at the contract becomes a block of its own. A transfer is posted to
a mempool, where its inputs are checked and the outputs they name are marked as spent; the operator
later turns the whole mempool into a block, sends the block's Merkle root to the contract, and records
for every spent output the input that spent it. Owners confirm inputs and start exits from outputs.
This project models that ledger, its raw database keys, its positions, its mutable transaction and
block objects, the wallet command that builds a transfer, and the protocol between the two chains, and
proves what holds in every state a run can reach.

`dafny verify dfyconfig.toml` checks everything.

## How the model is laid out

- `Text`, `Order`, `NumeralOrder`: decimal and hexadecimal text, the byte order in which the store is
  scanned, and what that order means for numbers.
- `Positions`: the uint64 encoding of block, transaction and element indices.
- `Types`, `Objects`: transactions and blocks, as values (`Types`) and as the objects whose methods
  update arrays and fields (`Objects`).
- `Ledger`: what each operation of `core/childchain.go` does to five typed sub-stores (block counter,
  headers, transactions, mempool, token index), including the partial writes of an operation that
  breaks off. `Exec` runs a list of operations from the empty chain.
- `Invariants`, `Sealing`: the invariant every operation keeps, for any posted transactions whatever.
- `Conservation`, `Tokens`, `Lifecycle`: value, the values of the token index, and what holds in
  addition when every posted transaction is fresh.
- `Runs`, `Admissions`, `Blocks`, `Orderings`, `Signatures`, `Utxos`, `Updates`: the theorems about reachable
  states. `Requests` says what each request is answered, in terms of the stored fields.
- `Keys`: the five kinds of raw database keys and the typed state they stand for.
- `ChildChain`: the class over the raw store. Its loops over iterators, inputs and outputs are proved to
  carry out the operations of `Ledger`, so that every theorem about runs is about this class.
- `Wallet`: the transfer built by the command line.
- `Bridge`, `Plasma`: the two-chain protocol as a state machine, and the handlers proved to take its
  steps. `Drift`: what it keeps without discipline, and what a disturbed post leaves behind.
- `Witnesses`: runs that reach the cases in which an expectation fails.

## Hypotheses used

- `InRange(run)`: at most 2^64 - 2 operations, so that the uint64 block counter does not wrap. The
  counter and all position arithmetic wrap explicitly in the definitions.
- `PositionsFit(s)`: every stored output's position fits in 64 bits. `Runs.FirstBlocksFit` shows that it
  holds for the first 18446744072 blocks.
- `FreshRun(run)`: every posted transaction is what the constructors of `core/types` build: its two
  non-null inputs name different outputs, its outputs carry no flag, its inputs carry no confirmation
  signature. `ValidateTx` checks none of this; only theorems that need it assume it.
- `CollisionFree(c, run)`: no two different transactions posted during the run have one hash.
- `Honest(c)`: a signature recovers to the address of its signer. Only theorems about what is signed
  assume it.
- `Binding(c, op)` and `OrdersDoNotCollide(c, s, n)`: the operator's signature recovers to the operator over
  no second hash, and the two orders of one block do not collide under the block hash. Only the failing half
  of `Signatures.BlockVerifiesIff` assumes them.

Hashing, signing, recovery and the Merkle tree are the functions of the parameter `Crypto`; beyond the
hypotheses above nothing is assumed about them.

## Properties that do not hold as one might expect, and when they do

- Value is conserved in fresh runs, and not in all: a transaction whose two inputs name the same output
  is accepted and counts that output twice (`Runs.ValueCanBeDoubled`). `Conservation.AccountingLaw` is
  exact for every run, and `Conservation.PostConservesIff` says which accepted posts conserve.
- A block is read back in storage order if and only if it holds at most ten transactions, because keys are
  scanned in byte order and `tx_1_10` precedes `tx_1_2`. Beyond ten, some proof request pairs a transaction
  with another one's leaf (`Blocks.ProofRequestsRightIff`), and, unless hashes collide, the operator's
  signature does not verify against the block as read back (`Signatures.BlockVerifiesIff`).
  `Witnesses.BlocksOfEverySize` reaches every size up to 99999.
- Parsing takes the element index modulo the transaction position and not modulo 10000
  (`core/types/position.go:55`). `Positions.BuildAfterParse` and `Positions.ParseAfterBuild` give the exact
  conditions under which this makes no difference; `Positions.SmallPositionMisread` is an input where it
  does. Below 10000 the program divides by zero, which is an error outcome here.
- An exit is checked when a spend is admitted and not again when the block is built. A spend of an exited
  output can still reach a block if and only if an input named the output when it exited
  (`Updates.ExitStopsSpendingIff`); in fresh runs, if and only if it was marked as spent then
  (`Updates.FreshExitStopsSpendingIff`). `Updates.ExitDoesNotStopInclusion` is the failing case for every
  pending spend, `Updates.ExitedUnspentStaysUnspent` the safe one for every unspent output.
- A block post keeps the chains synchronised if and only if its commitment does not reach the contract, or
  the database commits after it and no deposit came between the number check and the commitment
  (`Bridge.PostKeepsIff`; both failures are reached in `Witnesses.DesynchronisationReached`). A late
  commitment is not noticed by the number check, since the numbers go on agreeing (`Drift.NumbersAgree`), and
  its block never matches again (`Drift.LateCommitNeverHeals`). A failed database commit makes the check
  refuse every later post (`Drift.FailedCommitStopsPosts`).
- `NewBlock` refuses 99999 transactions where `AddTx` allows them (`core/types/block.go:36`, `:108`); both
  branches are kept.
- The comment at `core/childchain.go:16-22` names the keys `blknum_current` and `tx_mempool_...`; the
  constants used by the code are `current_blknum` and `mempool_tx`, and those are modelled.

## Model

| member | source | states |
|---|---|---|
| Positions.NewPositionWraps | core/types/position.go:22-36 | building a position, with uint64 wrap-around in every operation, equals the flat mixed-radix value reduced once modulo 2^64 |
| Positions.ParsedElement | core/types/position.go:52-57 | for every position from 10000 on, the parsed element index is the true one reduced modulo the transaction position, and block and index are the two digits of the transaction position |
| Positions.BuildAfterParse | core/types/position.go:34-57 | building after parsing gives back a position if and only if its true element index is below its transaction position |
| Positions.BuildAfterParseOfBlocks | core/types/position.go:34-57 | it does so for every uint64 from 10^9 on, that is for every position in a block numbered 1 or more |
| Positions.ParseAfterBuild | core/types/position.go:26-57 | for all uint64 arguments, parsing after building is the identity if and only if the indices are within their radices, the element index is below the transaction position, and the value does not overflow |
| Positions.ParseStored | core/types/position.go:26-57 | the round trip holds for every element of a block numbered 1 or more whose position fits in 64 bits, and the position is not 0 |
| Positions.SmallPositionMisread | core/types/position.go:52-57 | a position of block 0 that is parsed to another element, and one whose parsing divides by zero |
| Invariants.VerdictSoundAndComplete | core/childchain.go:231-292 | ValidateTx accepts a transaction if and only if some input is non-null, every non-null input names an existing, unspent, unexited output and is signed by its owner, and the outputs do not exceed the inputs |
| Invariants.SpendLoopComplete | core/childchain.go:192-221 | once validation accepts, the read-modify-write loop cannot fail and marks exactly the named outputs, also when both inputs name outputs of one stored transaction |
| Invariants.AddTxAllOrNothing | core/childchain.go:181-229 | an admission fails if and only if the mempool is full or the transaction is not acceptable, and then changes nothing; otherwise exactly the named outputs are marked, exactly the mempool entry is written, and nothing else changes |
| Invariants.PostKeeps | core/childchain.go:181-229 | admission keeps the ledger invariant, whatever is posted: authorised inputs, existing older spent outputs, one spending transaction per output, chain shape, token index |
| Invariants.ConfirmKeeps | core/childchain.go:294-350 | confirmation keeps the ledger invariant and everything already stored |
| Invariants.ExitKeeps | core/childchain.go:386-410 | an exit keeps the ledger invariant and everything already stored |
| Invariants.StoreTxDone | core/childchain.go:570-607 | storing a transaction whose inputs exist cannot fail; it adds that transaction and leaves one token entry per stored output |
| Invariants.StoreFromDone | core/childchain.go:569-607 | the block loop, on transactions whose inputs exist, cannot fail and stores each transaction once under its own index, touching no older transaction |
| Sealing.SealDone | core/childchain.go:82-97 | signing and adding a block whose inputs exist succeeds, adds exactly that block and header under the current number, and advances the number by one |
| Sealing.DepositKeeps | core/childchain.go:100-136 | a deposit always succeeds, adds one block holding the deposit transaction alone, and keeps the invariant |
| Sealing.FixKeeps | core/childchain.go:70-98 | fixing a block keeps the invariant and everything stored, and leaves no trace when it fails |
| Sealing.AddBlockDrains | core/childchain.go:70-98 | fixing succeeds if and only if the mempool is non-empty; the new block then holds every mempool transaction exactly once in scan order and the mempool is empty |
| Requests.DepositAnswers | core/childchain.go:100-136 | in every reachable state a deposit succeeds and its block holds one transaction: null references and signatures, the amount for the owner, an empty output of the null address, nothing spent, exited or confirmed |
| Requests.DepositsStay | core/childchain.go:100-136 | the block of every deposit of a run is that deposit at every later moment |
| Requests.PostAnswers | core/childchain.go:181-292 | the answer to every post in every state, with its error: full mempool, the first bad input and why, no input, too little value, or admission; signatures are checked over the hash of references, owners and amounts |
| Requests.StoredFieldsStay | core/types/tx.go:168-186 | references, signatures, owners and amounts of a stored transaction never change and its flags are never cleared |
| Sealing.StepKeeps | core/childchain.go:70-410 | every operation keeps the invariant, loses and alters nothing stored except flags that are set and confirmations, adds at most one block, and changes nothing when it fails |
| Sealing.RunInv | core/childchain.go:37-410 | the invariant holds after every run |
| Sealing.RunExtends | core/childchain.go:70-410 | every state of a run extends every earlier one: signed content and headers never change, spent and exited flags are never cleared, no transaction is added to an old block |
| Conservation.PostBalance | core/childchain.go:192-226 | the exact change of unspent value made by any accepted post: minus the fee, plus an output counted twice, minus outputs posted as already spent, minus a mempool entry overwritten under a colliding hash |
| Conservation.AccountingLaw | core/childchain.go:70-410 | after every run, unspent stored value plus mempool value plus fees, preset and overwritten value equals the deposits plus what was counted twice |
| Conservation.PostConservesIff | core/childchain.go:181-292 | an accepted post under a new hash conserves value if and only if the value it counts twice equals the value it posts as already spent |
| Tokens.StoreTxKeepsTokenValues | core/childchain.go:570-607 | storing a transaction keeps the token index exact: each token holds the position of the block input spending its output, or 0 |
| Tokens.StoreFromKeepsTokenValues | core/childchain.go:569-611 | so does storing a whole block whose inputs nobody else names |
| Lifecycle.PostKeepsFresh | core/childchain.go:181-229 | a fresh post under a new hash keeps the invariant of fresh runs: distinct inputs, no output marked without a spender, exact tokens, confirmations that stand |
| Lifecycle.DepositKeepsFresh | core/childchain.go:100-136 | so does a deposit |
| Lifecycle.FixKeepsFresh | core/childchain.go:525-611 | so does fixing a block, which turns pending spends into included ones |
| Lifecycle.ConfirmKeepsFresh | core/childchain.go:294-350 | so does a confirmation |
| Lifecycle.ExitKeepsFresh | core/childchain.go:386-410 | so does an exit |
| Runs.NoDoubleSpend | core/childchain.go:192-226 | in every reachable state, inputs naming one output belong to one transaction, in blocks and mempool together, and the named output exists and is marked as spent |
| Runs.EveryInputAuthorised | core/childchain.go:268-276 | in every reachable state, each non-null input carries a non-zero signature that recovers, over the hash of its own transaction's references, owners and amounts, to the owner of the output it names |
| Runs.ChainShape | core/childchain.go:412-454 | blocks are numbered 1 to current minus 1 without gaps, each with a header and transactions 0, 1, ... without gaps and at least one |
| Runs.FailuresLeaveNoTrace | core/childchain.go:70-410 | no operation that fails in a reachable state has changed the store, although none rolls back |
| Runs.EveryFixDrains | core/childchain.go:24-26 | in every reachable state the mempool is within its bound and fixing it never meets the block limit or a missing input |
| Runs.WalkDescends | core/childchain.go:525-611 | a walk from any output back through block inputs strictly descends in block number, so histories are acyclic and end |
| Runs.EveryOutputFromDeposits | core/childchain.go:282-284 | from every stored output a walk back through inputs reaches a block made by a deposit, in fewer steps than there are blocks |
| Runs.OnlyDepositsCreateValue | core/childchain.go:100-136 | in every reachable state a stored transaction has only null inputs if and only if a deposit made its block, and then it is alone there |
| Runs.NeverAdmittedAgain | core/childchain.go:259-261 | once a post has been admitted at some step of a run, every transaction naming an output that it names is refused without effect at every later moment, pending or in a block |
| Runs.PoolFromRun | core/childchain.go:677-689 | everything in the mempool was posted in the run |
| Runs.NoOverwrite | core/childchain.go:653-689 | without hash collisions each successful admission adds a new mempool key, so the count grows by exactly one |
| Admissions.AdmittedInOnePlace | core/childchain.go:525-611 | without hash collisions, a post once admitted is at every later moment pending as posted and in no block, or in exactly one block with the same signed content and not pending |
| Runs.FreshRunInv | core/childchain.go:70-410 | the invariant of fresh runs holds after every fresh run |
| Runs.ConfirmationsStand | core/childchain.go:326-349 | in fresh runs a confirmation signature stands only on block inputs and recovers to the owner of the named output |
| Runs.OutputLifecycle | core/childchain.go:581-601 | in fresh runs every stored output is unspent with token 0 and no spender, or pending with token 0 and exactly one mempool spender, or included with the position of its unique block spender as token |
| Runs.StagesMoveForward | core/childchain.go:208-220 | an output's stage never goes back between any two moments of a fresh run |
| Runs.FreshConservation | core/childchain.go:100-136 | in fresh runs unspent stored value plus the outputs waiting in the mempool plus fees equals the total deposited |
| Runs.ValueCanBeDoubled | core/childchain.go:239-289 | without freshness a depositor of any amount reaches a state holding twice that amount |
| Runs.FirstBlocksFit | core/types/position.go:22-36 | positions fit in 64 bits throughout the first 18446744072 blocks |
| Blocks.SortedNumerals | core/childchain.go:617-619 | the byte order of the decimal numerals of 0 to k-1 is their numeric order if and only if k is at most 10 |
| Blocks.ScanVisitsOnce | core/childchain.go:504-520 | the scan of a block's keys meets each of its indices exactly once |
| Blocks.StorageOrderIff | core/childchain.go:504-520 | the scan returns a block in storage order if and only if it has at most ten transactions |
| Blocks.ScansByNumeral | core/childchain.go:504-520 | the block read back is the stored one rearranged by the byte order of its decimal indices |
| Orderings.ReadBeforeIff | core/childchain.go:504-520 | in every reachable state, of any two transactions of a block the first one to be read back is the one whose index comes first digit by digit |
| Orderings.ContinuationsFollow | core/childchain.go:504-520 | transaction i is read back before every transaction whose index continues the digits of i |
| Orderings.ExtensionFollows | core/childchain.go:504-520 | in particular before transaction 10i+d, for i from 1 on |
| Orderings.ContinuationsPrecede | core/childchain.go:504-520 | i and all that continue it are read back before j and all that continue it, when i is below j and has equally many digits |
| Orderings.ElevenReadBack | core/childchain.go:504-520 | the eleven transactions of a block come back as 0, 1, 10, 2, ..., 9 |
| Orderings.BlocksAscendByHash | core/childchain.go:541-564 | in every reachable state each block lists its transactions in strictly ascending numeric order of their hashes |
| Blocks.LeafOrderIff | core/types/block.go:71-82 | the Merkle leaf vector of the block read back is the leaf vector in storage order if and only if the block has at most ten transactions |
| Blocks.BlockReadsBack | core/childchain.go:488-523 | in every reachable state a block is found if and only if its number is from 1 to below the current one; it comes back with every stored transaction as often as stored, and in storage order if and only if there are at most ten |
| Blocks.CommittedContentImmutable | core/types/tx.go:66-104 | header and leaf vector of a block, and with the latter its Merkle root, are the same at any two moments, under all spends, exits and confirmations in between |
| Blocks.ProofRequestsRightIff | core/childchain.go:153-179 | for all transactions of a block, leaf and index handed to the Merkle library belong together, if and only if the block has at most ten transactions |
| Requests.ProofAnswers | core/childchain.go:153-179 | in every reachable state and for every position, a proof request is answered with the leaves of the block read back and the index asked for if a transaction is stored there, and with "not found" otherwise |
| Signatures.BlockSignatures | core/types/block.go:117-135 | every block read back carries its number and the operator's signature over its leaf vector in storage order |
| Signatures.BlockVerifiesIff | core/types/block.go:137-148 | the signature of a block of at most ten transactions verifies against the block as read back; unless hashes collide, that of a larger block does not |
| Utxos.TokenIndexAgrees | core/childchain.go:352-384 | in every reachable state whose positions fit, the query never fails and returns, each once and in the byte order of their numerals, exactly the positions of the owner's unspent and unexited outputs |
| Updates.ExitSucceedsIff | core/childchain.go:386-410 | an exit succeeds if and only if the given uint64 is the position of a stored output |
| Updates.ExitMarksOne | core/childchain.go:399-409 | in every reachable state it marks that output and nothing else, and fails without effect at every other position |
| Updates.ConfirmWritesOne | core/childchain.go:294-350 | at an input's position a confirmation is accepted if and only if it recovers, over the hash of the transaction's hash, to the owner of the named output, and is written to that input and nowhere else |
| Updates.ConfirmSucceedsIff | core/childchain.go:294-350 | for every uint64, a confirmation is accepted if and only if it is the position of an input that the signature confirms, and fails without effect otherwise |
| Requests.ConfirmAnswers | core/childchain.go:294-350 | the answer to every confirmation in reachable states, with its error |
| Requests.ExitAnswers | core/childchain.go:386-410 | the answer to every exit in reachable states, with its error |
| Updates.ExitDoesNotStopInclusion | core/childchain.go:569-589 | for every pending spend of a reachable state, exiting the named output and then fixing yields a block with that spend |
| Updates.ExitFreezes | core/childchain.go:263-266 | from the moment an output has exited its spent flag never changes, and it is named later only if it was named then |
| Updates.ExitedUnspentStaysUnspent | core/childchain.go:263-266 | an output that exits unspent stays unspent and unnamed at every later moment of every run |
| Updates.ExitStopsSpendingIff | core/childchain.go:386-410 | after an output exits, some continuation puts a spend of it into a block if and only if an input named it at the moment of the exit |
| Updates.FreshExitStopsSpendingIff | core/childchain.go:386-410 | in fresh runs, if and only if it was marked as spent at that moment |
| Text.ValueOfDec | core/childchain.go:617-619 | reading a decimal numeral back gives the number |
| Text.ParseDec | core/types/position.go:71-77 | parsing the decimal text of any uint64 gives the number back |
| Text.AddressToHexInjective | utils/hex.go:49-51 | different addresses have different hexadecimal texts |
| Text.HashToHexInjective | utils/hex.go:53-55 | different hashes have different hexadecimal texts |
| NumeralOrder.DecCanonical | core/childchain.go:617-619 | a decimal numeral of a positive number does not begin with a zero |
| NumeralOrder.ValueOfHex | utils/hex.go:49-63 | reading a fixed-width hexadecimal text back, most significant digit first and in lower case, gives the number |
| NumeralOrder.HashOrder | core/childchain.go:653-660 | hash texts are in byte order if and only if the hashes are in numeric order |
| NumeralOrder.DecOrder | core/childchain.go:617-619 | the numeral of i is before that of j in byte order if and only if j continues the digits of i, or they continue two numbers of equally many digits of which the first is the smaller |
| Order.LessMeans | core/childchain.go:504-505 | byte order: a proper prefix comes first, and otherwise the first differing byte decides |
| Order.AscendingUnique | core/childchain.go:504-505 | a byte-ordered scan is determined by the keys it meets |
| Order.SortUnderPrefix | core/childchain.go:504-505 | scanning under a common prefix meets the remainders in their own byte order |
| Keys.RawInjective | core/childchain.go:456-458 | different keys, of the same or different kinds, have different bytes |
| Keys.PrefixSelects | core/childchain.go:613-615 | each scan prefix selects exactly the transactions of its own block, the mempool, or the tokens of its own owner |
| Keys.TokenKeyParses | core/childchain.go:359-365 | stripping the token prefix and parsing the decimal gives back the position |
| Keys.KeyTexts | core/childchain.go:24-33 | the text of one key of each kind |
| Keys.SetKeeps | core/childchain.go:621-628 | writing under a key changes what the store stands for in that entry only |
| Keys.DeleteKeeps | core/childchain.go:560-563 | deleting a key removes that entry only |
| Keys.TxScanReads | core/childchain.go:501-520 | the scan of a block's raw keys reads the block's transactions by decimal string |
| Keys.PoolScanReads | core/childchain.go:538-558 | the scan of the mempool's raw keys reads its transactions by hash text |
| Keys.TokenKeyScan | core/childchain.go:359-362 | the scan of an owner's raw keys meets the owner's token positions by decimal string |
| Objects.TxObject.constructor | core/types/tx.go:28-40 | a new transaction has null inputs and empty outputs |
| Objects.TxObject.SetInput | core/types/tx.go:136-144 | replaces one input and nothing else, or fails without effect |
| Objects.TxObject.SetOutput | core/types/tx.go:158-166 | replaces one output and nothing else, or fails without effect |
| Objects.TxObject.SpendOutput | core/types/tx.go:168-176 | sets one spent flag and nothing else, or fails without effect |
| Objects.TxObject.ExitOutput | core/types/tx.go:178-186 | sets one exited flag and nothing else, or fails without effect |
| Objects.TxObject.SetConfirmationSignature | core/types/tx.go:274-282 | sets one confirmation signature and nothing else, or fails without effect |
| Objects.TxObject.Sign | core/types/tx.go:192-214 | writes to one input the signature over the hash of the references, owners and amounts in the two arrays, and leaves these as they were |
| Objects.TxObject.Confirm | core/types/tx.go:216-238 | writes to one input the signature over the hash of that hash, and leaves the hashed fields as they were |
| Objects.BlockObject.NewBlock | core/types/block.go:35-47 | refuses 99999 transactions or more, otherwise an unsigned block of the given ones |
| Objects.BlockObject.AddTx | core/types/block.go:107-115 | appends a transaction, or refuses at 99999 without effect |
| Objects.BlockObject.LeafVector | core/types/block.go:71-82 | the loop collects the leaf of every transaction, in order |
| Objects.BlockObject.Sign | core/types/block.go:117-135 | signs number and leaf vector of the block as it stands |
| Wallet.BuildTransfer | cmd/plasma/cmd_tx_post.go:42-79 | a transfer is built if and only if the position parses to an output of the given transaction and the amount is between 0 and what that output holds; it then moves exactly the amount to the receiver and the rest to the owner, signed over its own hash; every refusal has its own error |
| Wallet.WalletTransferAccepted | cmd/plasma/cmd_tx_post.go:42-79 | in every reachable state with room in the mempool, what is built from the position of a live output for its owner is fresh, spends that output alone, pays the amount to the recipient and the rest back to the owner, is accepted and pays no fee |
| ChildChain.Chain.constructor | core/childchain.go:37-51 | an empty database becomes the empty chain at block 1, and one that holds the chain of a run is left as it is |
| ChildChain.Chain.CountTxesInMempool | core/childchain.go:662-675 | the counting loop returns the size of the mempool |
| ChildChain.Chain.ValidateTx | core/childchain.go:231-292 | the two accumulating loops return the verdict of the specification, with its error, and accept exactly the acceptable transactions |
| ChildChain.Chain.AddTxToMempool | core/childchain.go:181-229 | over raw keys, carries out the ledger's admission, including what a broken-off one has written |
| ChildChain.Chain.FixCurrentBlock | core/childchain.go:525-567 | the scan that deletes as it goes collects the whole mempool in scan order and empties it, or stops at the limit with exactly the visited entries deleted |
| ChildChain.Chain.StoreOne | core/childchain.go:570-607 | one turn of the block loop: spender entries, new token entries and the transaction, in this order |
| ChildChain.Chain.Append | core/childchain.go:569-611 | the block loop, header and counter over raw keys do what sealing does in the ledger |
| ChildChain.Chain.AddBlock | core/childchain.go:70-98 | over raw keys, carries out the ledger's block step and returns the number the block got |
| ChildChain.Chain.AddDepositBlock | core/childchain.go:100-136 | over raw keys, carries out the ledger's deposit step and returns the number the block got |
| ChildChain.Chain.ConfirmTx | core/childchain.go:294-350 | over raw keys, carries out the ledger's confirmation |
| ChildChain.Chain.ExitTxOut | core/childchain.go:386-410 | over raw keys, carries out the ledger's exit |
| ChildChain.Chain.GetBlock | core/childchain.go:488-523 | the scan over raw keys reads the block the ledger specifies |
| ChildChain.Chain.GetTx | core/childchain.go:138-151 | finds exactly the stored transactions |
| ChildChain.Chain.GetTxProof | core/childchain.go:153-179 | returns the leaf vector and leaf index the ledger specifies, or its error |
| ChildChain.Chain.GetUTXOPositions | core/childchain.go:352-384 | the scan over raw keys returns what the token query specifies |
| Bridge.DeliverKeeps | app/plasma.go:198-227 | handling a deposit event keeps the chains synchronised and applies the deposit at the number the contract gave it |
| Bridge.PreparesIff | app/handler_block.go:25-48 | a block gets as far as its commitment if and only if, before the post, the numbers agree, the mempool is not empty, and the Merkle library accepts the leaves in read-back order |
| Bridge.PostKeepsIff | app/handler_block.go:12-57 | for every outcome of the outside calls, a block post keeps the chains synchronised if and only if its commitment does not reach the contract, or the database commits after it and no deposit reached the contract between check and commitment |
| Bridge.ChainsStaySynchronised | app/handler_block.go:12-57 | after every run without such deposits and without direct ones: contract number = child number + pending events, each pending deposit will land on its own number, and every child block matches the contract's block of that number |
| Drift.NumbersAgree | app/handler_block.go:21-27 | contract number = child number + pending events after every run without direct deposits and failed commits, whatever deposits come between check and commitment |
| Drift.LateCommitNeverHeals | app/handler_block.go:50-57 | after a deposit has come between check and commitment, the block of that number is a deposit at the contract and a block of transfers at the child at every later moment |
| Drift.FailedCommitStopsPosts | app/handler_block.go:50-57 | after the database has failed to commit behind a commitment, the contract stays one block ahead and no later post passes the number check |
| Witnesses.BlocksOfEverySize | core/childchain.go:24-26 | for every size from 1 to 99999, a run of deposits, wallet transfers and one fix that reaches a block of that size |
| Witnesses.WrongProofReached | core/childchain.go:153-179 | a run to a block of eleven transactions and a transaction whose proof request carries another one's leaf |
| Witnesses.DesynchronisationReached | app/handler_block.go:12-57 | a reachable synchronised state from which a post succeeds when undisturbed, and desynchronises with a deposit in its middle or a failed commit at its end |
| Plasma.Plasma.PostBlockHandler | app/handler_block.go:9-64 | for every outcome of the outside calls the ordered effects amount to the protocol's post step; success means that nothing failed; every error discards the database transaction and is answered by its own cause, a number mismatch if and only if the number was read and differs |
| Plasma.Plasma.HandleDepositCreated | app/plasma.go:198-227 | one turn of the watcher amounts to the protocol's delivery step |
| Plasma.Plasma.HandleExitStarted | app/plasma.go:229-257 | one turn of the watcher exits the output at the low 64 bits of the event's position, and panics without effect if and only if they are below 10000 |

## Left out

- Keccak, ECDSA and the Merkle tree: functions of the parameter `Crypto`. Merkle statements are about the
  leaf vector, and the tree may refuse a block (depth 10), so nothing says that every full mempool can be
  posted.
- RLP and varint codecs: values are stored as they are, and decoding is taken to be lossless. Amounts are
  naturals, as RLP cannot encode a negative one; a decoded transaction has exactly two inputs and outputs.
- Input references are naturals without the uint64 bound, a superset of what the program can receive.
- Badger: each operation is atomic and an iterator visits the transaction's own view of the store in byte
  order as it was when opened. Which concurrent writes make a commit fail is not modelled: for a block post
  they are those of any post, confirmation, exit or deposit that writes a record the block step has read,
  and the post then ends as `CommitFails`. An HTTP operation whose own commit fails is no step at all.
- Plasma.Plasma.PostBlockHandler: takes a commitment to be in force as soon as the contract call returns, and
  not only once its transaction is mined.
- Plasma.Plasma.HandleDepositCreated: does not lose the event when the watcher's own commit fails.
- Plasma.Plasma.HandleExitStarted: reports a panic of the watcher; that nothing recovers and the process ends
  is not modelled further.
- Aliasing of the pointers inside a decoded transaction: inputs and outputs are values in the arrays of
  `TxObject`.
- The contract's own rules (deposits, exit queue, challenges): an environment with a counter, block
  contents and deposit events, delivered in order and without loss.
- Direct `POST /deposits` (`app/handler_deposit.go`) in the two-chain protocol: it advances the child without
  the contract. In the ledger it is the ordinary deposit step.
- HTTP routing, JSON, the client package, the other commands, configuration, heartbeat and error-code
  mapping: no ledger state of their own.
