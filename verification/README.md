# Wallet FFI core: a model and its proofs

This project models the parts of the wallet's Rust FFI crate that hold state, loops and
arithmetic of their own, and proves what they keep. Everything the crate delegates (the on-chain
VM, the dust and shielded ledgers, hashing, proving) is a parameter of the statements, with the
laws it must obey written as hypotheses.

| file | what it models |
|---|---|
| `HandlePool.dfy` | the process-global pool of contract states as a class, and its lock sections as an interleaving protocol |
| `Ops.dfy`, `Transcript.dfy` | VM programs in both result modes, the verify-to-gather rewrite, chunked queries |
| `Json.dfy`, `TagFirstJson.dfy` | an RFC 8259 reader that keeps document order, and the tag-first re-emitter |
| `StateDescriptor.dfy` | the bounded state-descriptor builder |
| `NumberCodecs.dfy` | little-endian, hexadecimal and decimal number codecs over 128-bit words |
| `DustBalance.dfy`, `DustProtocol.dfy` | dust selection, two-pass fee sizing, write-back; no double spend over whole runs |
| `Sorting.dfy`, `CoinSelection.dfy` | stable sorting; shielded coin selection, balances, and runs of spends |
| `Replay.dfy`, `EventSplit.dfy` | streamed, chunked and in-memory event replay; splitting concatenated events |
| `DustRegistration.dfy` | saturating dust arithmetic, the best coin, the maturity gate |
| `Offers.dfy`, `FundingOffer.dfy` | canonical order of signed offers; funding a contract call |
| `TagPrefix.dfy` | the three copies of the tag stripper |

Where the code and what is written about it differ, the model follows the code:

- `contract_state_set_operation` is documented to set an operation, but `operations` is a
  persistent map whose `insert` returns the extended copy (as `src/serialize.rs:572` notes and
  `src/contract_ffi.rs:2011` uses), and the call drops that copy. It changes nothing:
  `HandlePool.SetOperationsRegisterNothing`.
- Chunked replay is described as equal to a single call. It is, except for an empty event list on
  a base that was never finished: the single call finishes it, chunking returns it as it is.
  `Replay.ChunkedIsOneCall` gives the exact condition. The two file readers also differ on a line
  of white space (`Replay.BlankLineTellsThemApart`); `Replay.FileReadersAgreeIff` says exactly when
  they agree.
- A saved dust state is called directly usable after restoring. It is, for the balancer, exactly
  when every nullifier reported so far is still excluded or confirmed by the events the state
  reflects (`DustProtocol.RestoreIsSafeIff`); a witness is `DustProtocol.BackupSpendsTwice`.
- Excluding pending coins from selection is said to prevent a double spend. `zswap_spend_coin` does
  not look at the pending marks itself, so that holds exactly for spends of coins not pending at
  the moment they are spent (`CoinSelection.SpendIsSafeIff`).
- The in-memory path is said to risk a false split wherever the prefix occurs in an event body.
  `EventSplit.SplitRecoversIff` gives the exact condition: the prefix must start inside a body. An
  occurrence overlapping the end of a genuine prefix does no harm.
- `merged_total_fee` is compiled for release without overflow checks, so it wraps.
  `DustBalance.FeeCoversIffItFits` says for which fees the sized total still covers both.
- Signatures are not reordered when inputs are sorted. With several owners the node accepts
  exactly when sorting leaves every input's owner in place
  (`Offers.AcceptedIffOwnersKeepTheirPlaces`).
- `build_state_recursive` is described as four nesting levels; numbers at the fourth array level add
  a fifth level of nodes, which the size bound includes.
- `contract_value_to_big_int` says it decodes 32 bytes; it decodes 16, hence the modulus 2^128 in
  `NumberCodecs.HexToDecimal`.

## Model

| member | source | states |
|---|---|---|
| HandlePool.StatePool.constructor | src/contract_ffi.rs:89-92 | the pool starts empty and the counter at 1 |
| HandlePool.StatePool.NextHandle | src/contract_ffi.rs:124 | returns the counter's old value and advances it by one modulo 2^64 |
| HandlePool.StatePool.Create | src/contract_ffi.rs:100-127 | an unparsable state gives 0 and no change; otherwise the state is stored under the fresh handle returned |
| HandlePool.StatePool.Clone | src/contract_ffi.rs:764-776 | an unknown handle gives 0 and no change; otherwise a fresh handle holds the same state and every other entry stays |
| HandlePool.StatePool.Free | src/contract_ffi.rs:231-235 | removes that entry and nothing else; a second free does nothing |
| HandlePool.StatePool.TakeForDeploy | src/contract_ffi.rs:1993-1997 | yields the entry and removes it, or reports there is none |
| HandlePool.StatePool.SetOperation | src/contract_ffi.rs:881-897 | the entry is borrowed for writing, yet the whole pool and the counter end as they were: an operation is registered afterwards only if it was before |
| HandlePool.RegisterVerifierKeys | src/contract_ffi.rs:1999-2014 | the deploy, in contrast, keeps every copy and carries on with it; one bad key fails the call |
| HandlePool.RegisteredAsNamed | src/contract_ffi.rs:1999-2014 | what the deploy ends with has every named circuit under the key it is named with last, and every other operation as it was |
| HandlePool.StatePool.Query | src/contract_ffi.rs:254-339 | undisturbed, replaces the entry's data by the VM's result and returns its events; an unknown handle or failing VM changes nothing |
| HandlePool.QueryTouchesOneEntry | src/contract_ffi.rs:266-314 | a successful query gives its entry the VM's data with the operations kept, touches no other entry and returns the VM's events; a failing one changes nothing |
| HandlePool.OperationsNeverChange | src/contract_ffi.rs:302-306 | in any run, disciplined or not, an entry nobody removes keeps its operations |
| HandlePool.SetOperationsRegisterNothing | src/contract_ffi.rs:881-897 | any interleaving ends the same with all its set-operation calls left out |
| HandlePool.CounterAfter | src/contract_ffi.rs:92 | after any run the counter is its start plus the reservations made, modulo 2^64 |
| HandlePool.InvRun | src/contract_ffi.rs:89-127 | the freshness invariant survives every run in which the counter does not wrap |
| HandlePool.PoolSafety | src/contract_ffi.rs:764-776 | in every interleaving 0 is never a key, live and reserved handles are below the counter, reservations are distinct and absent from the pool |
| HandlePool.HandlesReissuedOnlyByWrapping | src/contract_ffi.rs:124-126 | two reservations get the same handle iff a multiple of 2^64 increments separates them; one gets 0 iff the counter has run through all values |
| HandlePool.InterleavingsAreSequential | src/contract_ffi.rs:266-314 | with the discipline on every handle, the pool after any interleaving is that of atomic commands run one by one in completion order |
| HandlePool.StateIsFoldOfItsQueries | src/contract_ffi.rs:266-314 | if queries on a handle do not overlap and nobody removes it, its state is the in-order fold of the queries completed on it, whatever happens to other handles |
| HandlePool.ReturnsOnlyByPendingWriteBack | src/contract_ffi.rs:305-314 | a removed handle can come back iff a successful query read it before the removal and has still to write back |
| HandlePool.RemovalIsFinal | src/contract_ffi.rs:231-235 | if no query on a handle is in flight when it is freed or deployed, and its queries do not overlap, it stays gone |
| HandlePool.DeploysAtMostOnce | src/contract_ffi.rs:1993-1997 | under the same discipline on that handle alone, at most one deploy of it finds its state |
| HandlePool.UnnamedHandleKept | src/contract_ffi.rs:266-314 | a handle no query completes on and nobody removes keeps its state in any run |
| HandlePool.CloneKeepsSnapshot | src/contract_ffi.rs:764-776 | whatever runs between a clone's sections and afterwards, the copy keeps the state read, until something names the copy |
| HandlePool.CreateWithoutInterference | src/contract_ffi.rs:124-127 | its two sections run back to back store the state under the counter's old value, as the method does |
| HandlePool.CloneWithoutInterference | src/contract_ffi.rs:764-776 | its sections run back to back copy a live handle's state under a fresh one, and stop at an unknown handle |
| HandlePool.QueryWithoutInterference | src/contract_ffi.rs:266-314 | its sections run back to back are the atomic query, on live and on unknown handles |
| HandlePool.SingleSections | src/contract_ffi.rs:231-235 | free, deploy and set-operation are one section each, with the methods' effect |
| HandlePool.WriteBackIsAtomicIff | src/contract_ffi.rs:266-314 | a write-back acts as if its query had run in one piece, for every VM, iff the pool still holds what the query read |
| HandlePool.DeployDuringQueryDeploysTwice | src/contract_ffi.rs:305-314 | witness: a deploy between a query's read and write-back lets the same contract be deployed twice |
| HandlePool.OverlappingQueriesLoseAnUpdate | src/contract_ffi.rs:266-314 | witness: of two overlapping queries on one handle the first one's effect is lost |
| Transcript.ConversionIsPositional | src/contract_ffi.rs:1274-1313 | succeeds iff every op is known, position by position with the same instruction, jump distance and read positions; otherwise names the first unknown op |
| Transcript.VerifyFrom | src/contract_ffi.rs:2893-2957 | from any machine and position, verifying is gathering and comparing the log with the record |
| Transcript.VerifyIffGatherReadsTheRecord | src/contract_ffi.rs:2893-2957 | a transcript verifies iff its conversion runs and reads exactly the recorded results in execution order, with equal final machines |
| Transcript.RunConcat | src/contract_ffi.rs:2968-3021 | a program none of whose jumps leaves it, followed by another, runs as the two in sequence |
| Transcript.ThreadingEqualsOneQuery | src/contract_ffi.rs:2968-3021 | querying chunk by chunk with write-back gives the log and the pool of one query of the whole program, and fails iff it fails |
| Transcript.FailedThreadingKeepsCompletedChunks | src/contract_ffi.rs:303-314 | when threading fails the pool keeps the effect of exactly the chunks before the failing one |
| TagFirstJson.EmitsTheOrderedDocument | src/contract_ffi.rs:1251-1270 | the text is the compact rendering of the value with every tag member moved to the front |
| TagFirstJson.ReadsRendered | src/contract_ffi.rs:1251-1270 | reading a rendered document, whatever follows it, gives the document and exactly the rest |
| TagFirstJson.OrderedIsGood | src/contract_ffi.rs:1254-1262 | at every depth an object with a tag member has it first and only there |
| TagFirstJson.ValueOfOrdered | src/contract_ffi.rs:1241-1250 | the reordered document stands for the original value |
| TagFirstJson.InsertsBack | src/contract_ffi.rs:1243-1244 | inserting the tag member and then the others into a sorted map restores the object |
| TagFirstJson.TagFirstRoundTrip | src/contract_ffi.rs:1251-1270 | for every value, the text parses to a document with all tags first that stands for exactly that value |
| StateDescriptor.BuildsIff | src/contract_ffi.rs:832-876 | a descriptor builds iff, cut to 64 items per array, it is well formed and nests no deeper than is left |
| StateDescriptor.NumberBuilds | src/contract_ffi.rs:866-870 | a plain number below 2^64 builds an array of that many nulls, at most 64; any other number an empty one |
| StateDescriptor.ArrayBuilds | src/contract_ffi.rs:844-851 | an array builds iff its first 64 items do, and is then exactly those, in order |
| StateDescriptor.BuildsWhatIsDescribed | src/contract_ffi.rs:832-876 | the value built has, item by item, the shape the descriptor gives, numbers spelt out as nulls and arrays cut to 64 |
| StateDescriptor.DescribedIsBuiltIff | src/contract_ffi.rs:832-876 | a state value is built from its own descriptor iff it is within the caps on width and depth |
| StateDescriptor.SizeBelow | src/contract_ffi.rs:832-876 | what is built at a depth has at most the nodes of the full 64-ary tree below it |
| StateDescriptor.BuiltStateIsBounded | src/contract_ffi.rs:822-830 | no descriptor builds more than 1 + 64 + ... + 64^5 nodes |
| NumberCodecs.ReadNumber | src/contract_ffi.rs:196-207 | the number is present iff the bytes are non-empty and denote at most i64::MAX, at any length, and is then exact |
| NumberCodecs.ValueToBigInt | src/contract_ffi.rs:501-526 | prints the decimal of the first atom's value modulo 2^128, whatever the other atoms, and "0" for no atom |
| NumberCodecs.OrDisjoint | src/contract_ffi.rs:522 | or-ing in bits shifted clear of those present adds them |
| NumberCodecs.DecodeRound | src/contract_ffi.rs:521-523 | each round of the decoding loops extends the little-endian value by one byte without overflow |
| NumberCodecs.TruncationIsModulo | src/contract_ffi.rs:1184-1185 | keeping N bytes is reduction modulo 256^N |
| NumberCodecs.AlignedAtoms | src/contract_ffi.rs:1178-1195 | no atom is lost; one aligned to Bytes(N) keeps its first N bytes and is reduced modulo 256^N, every other one is untouched |
| NumberCodecs.DecimalRoundTrip | src/contract_ffi.rs:525 | decimal text reads back as the number, holds digits only and has no leading zero |
| NumberCodecs.DecodedHexIsNumber | src/contract_ffi.rs:479-484 | even-length text decodes iff it is hexadecimal, and the reversed bytes are the integer it denotes |
| NumberCodecs.FieldAtomIsExact | src/contract_ffi.rs:491 | a field element's atom denotes it and has no trailing zero byte |
| NumberCodecs.HexToDecimal | src/contract_ffi.rs:468-526 | hex to value succeeds iff the text is hexadecimal and below the field's order, and is then one atom denoting exactly that integer; printing it gives the integer modulo 2^128 |
| DustBalance.SelectDustSpends | src/balance_ffi.rs:388-463 | the loop computes the selection specified by the first eligible UTXO |
| DustBalance.PayFromFirst | src/serialize.rs:212-241 | the twin loop is the same selection with nothing excluded |
| DustBalance.SelectionSpec | src/balance_ffi.rs:388-463 | for a positive fee, success iff some listed UTXO can pay it all and is neither excluded nor under a stale key; then one spend of exactly the fee from the first such UTXO, which alone leaves the list |
| DustBalance.ListedInOrder | src/balance_ffi.rs:313-321 | the listing is exactly the unmarked tracked UTXOs, in the state's order |
| DustBalance.FirstInTheState | src/balance_ffi.rs:388-463 | the UTXO spent is the first of the whole state that is unmarked, under a current key, not excluded and able to pay |
| DustBalance.FeeCoversIffItFits | src/balance_ffi.rs:76-83 | the sized fee covers both fees iff the padded sum fits 128 bits, and then exceeds them by at most one percent |
| DustBalance.BalanceImpl | src/balance_ffi.rs:576-639 | computes the outcome that TwoPassBalance characterises; only the reported nullifiers, at most one and not excluded, are marked, so the draft pass leaves no mark |
| DustBalance.DustWallet.Balance | src/balance_ffi.rs:229-283 | the caller's state becomes the selection's on success and is unchanged on zero fee or error |
| DustBalance.DustWallet.PayAndSerialize | src/serialize.rs:166-260 | succeeds iff the readable fees' sum modulo 2^128 is positive, a listed UTXO of the rekeyed state can pay it and serialisation succeeds; then one spend pays exactly that and the rekeyed state with its mark is written back, else nothing changes |
| DustBalance.TotalIgnoresOrder | src/serialize.rs:202-205 | the total does not depend on the order of the fees |
| DustBalance.RekeyedPaysIff | src/serialize.rs:166-174 | after rekeying a fee can be paid iff some listed UTXO can pay it, stale or not; rekeying again changes nothing, lists the same nullifiers and leaves UTXOs and marks alone |
| DustBalance.TwoPassBalance | src/balance_ffi.rs:576-639 | for every non-zero base fee: success iff some unexcluded UTXO can pay both the base and the sized fee; the sized fee is paid with only its UTXO marked; it covers base and intent fee iff the padded sum fits 128 bits, with at most one percent more, and then the draft never stands in the way |
| DustBalance.TtlWindowFits | src/balance_ffi.rs:70-74 | the window lies strictly between 0 and the ceiling iff the ceiling is at least 2 and is never above 1800; it is the longest that keeps the 15 second margin, or half the ceiling where there is no room for it |
| DustProtocol.TrackedIsUnspent | src/balance_ffi.rs:313-321 | what a state rebuilt from events tracks is exactly what they created and did not spend |
| DustProtocol.PruneForgetsWhat | src/balance_ffi.rs:313-321 | a prune forgets a reported spend iff it is unconfirmed and either hidden by a local pending mark or of dust not replayed yet |
| DustProtocol.PruneKeepsIff | src/balance_ffi.rs:323-331 | pruning keeps the protocol's invariant iff it forgets no reported spend |
| DustProtocol.PruneIsSafeIff | src/balance_ffi.rs:323-331 | after a prune some ledger rule, catching up and balancing report a nullifier twice iff the prune forgets a reported spend |
| DustProtocol.RestoreKeepsIff | src/dust_ffi.rs:278-287 | loading a saved or rebuilt state keeps the invariant iff every reported nullifier is still skipped or confirmed by the events the state reflects |
| DustProtocol.RestoreIsSafeIff | src/dust_ffi.rs:278-287 | after loading a state, catching up and balancing can report a nullifier twice iff one is neither skipped nor confirmed by the events the state reflects |
| DustProtocol.ForwardRestoreIsSafe | src/balance_ffi.rs:240-259 | a state reflecting at least the events reflected so far is always safe to load |
| DustProtocol.BalanceKeeps | src/balance_ffi.rs:203-217 | a balance with the recorded nullifiers excluded reports only a nullifier never reported before |
| DustProtocol.OtherActionsKeep | src/balance_ffi.rs:240-259 | chain growth and replaying further events keep the invariant |
| DustProtocol.InvariantHolds | src/balance_ffi.rs:203-259 | the invariant holds after every run whose prunes and restores forget nothing |
| DustProtocol.NeverSpentTwice | src/balance_ffi.rs:203-259 | over every run whose prunes and restores forget nothing, no nullifier is ever reported twice |
| DustProtocol.HiddenPruneSpendsTwice | src/balance_ffi.rs:313-331 | witness: pruning right after a balance, then resyncing and balancing, spends the same UTXO twice |
| DustProtocol.BackupSpendsTwice | src/dust_ffi.rs:278-287 | witness: after a harmless prune, restoring a backup from before the confirmation spends the same UTXO twice |
| Sorting.SortIsCanonical | src/serialize.rs:514-516 | under a total order the sorted list depends only on which elements there are |
| CoinSelection.SelectCoins | src/zswap_ffi.rs:663-708 | collecting, sorting and saturating accumulation compute the shortest covering prefix in exact sums |
| CoinSelection.TakeUntilCovered | src/zswap_ffi.rs:691-708 | the saturating loop decides exactly as exact sums do |
| CoinSelection.SortIsStable | src/zswap_ffi.rs:689 | coins of equal value keep their order |
| CoinSelection.SelectionSpec | src/zswap_ffi.rs:663-708 | for a positive amount, success iff the exact non-pending sum covers it; the result covers it, is ascending, and does not without its last coin |
| CoinSelection.SelectionMinimisesLargest | src/zswap_ffi.rs:689-700 | every covering part of the selectable coins has a largest coin at least as large |
| CoinSelection.ZeroAmount | src/zswap_ffi.rs:691-708 | a zero amount takes the smallest coin, or nothing when there is none |
| CoinSelection.GetBalances | src/zswap_ffi.rs:389-402 | reports exactly the token types held, each with its exact total clipped at u128::MAX |
| CoinSelection.MatchingPicks | src/zswap_ffi.rs:672-688 | the selectable coins are exactly the unmarked ones of the token, in the map's order |
| CoinSelection.SelectablePlusPending | src/zswap_ffi.rs:663-688 | in exact sums selectable plus pending is the total of a token |
| CoinSelection.SpendMarksOne | src/zswap_ffi.rs:818-837 | a spend succeeds iff the coin is held, marks it and leaves every other coin and mark alone |
| CoinSelection.SelectedAreFresh | src/zswap_ffi.rs:681-687 | selected coins are held, not pending and pairwise different |
| CoinSelection.SpendIsSafeIff | src/zswap_ffi.rs:818-837 | spending a coin offered at any earlier time keeps every coin spent once iff it is not held and pending at that moment |
| CoinSelection.RebuildIsSafeIff | src/zswap_ffi.rs:86-95 | after rebuilding from genesis a coin shown as free can be one spent before iff some spend awaited confirmation |
| CoinSelection.SpendingOnceIsCareful | src/zswap_ffi.rs:663-870 | spending free coins once each is safe in any order, in part or whole, with selections, receipts and confirmations in between |
| CoinSelection.SelectionIsSafeToSpend | src/zswap_ffi.rs:663-870 | any part of a selection may be spent so, from any reachable state |
| CoinSelection.NeverSpentTwice | src/zswap_ffi.rs:663-870 | over every run of selections, spends, receipts, confirmations and rebuilds whose spends and rebuilds meet these conditions no coin is spent twice, and at its end selectable plus pending is the total |
| CoinSelection.SameSelectionTwice | src/zswap_ffi.rs:818-837 | witness: two selections from one state return the same coins, and spending both goes through |
| Replay.FinishIsInvisible | src/zswap_ffi.rs:223-246 | states equal up to finishing stay so under any events, failing together |
| Replay.ReplayReaches | src/zswap_ffi.rs:206-214 | a replay call gives x iff applying the events one after the other, each to the state the one before left, and finishing once leads to x |
| Replay.TwoCallsAreOne | src/zswap_ffi.rs:240-244 | two chained replay calls are one call on both lists |
| Replay.ReplayChunked | src/zswap_ffi.rs:233-246 | at any chunk size, zero included, ends exactly where the events lead one by one from the base, finished once, or fails if they lead nowhere; no event leaves the base |
| Replay.ChunkedIsOneCall | src/zswap_ffi.rs:223-246 | chunking agrees with a single call iff there is an event or the base is finished already |
| Replay.DustReplayEventsFromFile | src/dust_ffi.rs:677-744 | streaming ends exactly where the file's events lead one by one from the base, fails if a line or an event does, and never buffers more than 500 events |
| Replay.ZswapReplayEventsFromFile | src/zswap_ffi.rs:315-356 | parse-all-then-chunk ends exactly where the trimmed lines' events lead one by one from the base, and fails if a line or an event does |
| Replay.TrimSpec | src/zswap_ffi.rs:327 | trimming takes white space off both ends, all of it and nothing else |
| Replay.FileReplaysAgree | src/zswap_ffi.rs:248-260 | without white space around lines both file readers agree with each other and with a single call |
| Replay.FileReadersAgreeIff | src/zswap_ffi.rs:327-330 | with a decoder that refuses white space, the two readers agree on a file iff every line is trimmed or the trimming reader fails too |
| Replay.BlankLineTellsThemApart | src/dust_ffi.rs:692-694 | a blank line is skipped by the shielded reader and refused by the dust reader |
| EventSplit.SplitJoins | src/dust_ffi.rs:566-569 | for any text, the parts joined by the prefix are the text and none of them holds the prefix |
| EventSplit.SplitBodies | src/zswap_ffi.rs:170-173 | behind the first prefix the split gives the bodies iff the prefix starts inside none of them |
| EventSplit.SplitRecoversIff | src/dust_ffi.rs:561-569 | splitting and dropping empty parts recovers the events iff every body is non-empty and the prefix starts inside none |
| EventSplit.PrefixesAreHex | src/dust_ffi.rs:564 | the prefixes cut on are the hex of the event tags |
| EventSplit.DustReplayEvents | src/dust_ffi.rs:561-605 | each part is parsed with the prefix put back; the result is where their events lead from the state, finished once, or a failure |
| EventSplit.ZswapReplayEvents | src/zswap_ffi.rs:162-219 | an empty text leaves the state; otherwise each part is parsed bare and the result is where their events lead, finished once, or a failure |
| EventSplit.DustPathsAgree | src/dust_ffi.rs:561-605 | on clean events the dust path in memory ends in the state, or the failure, of the streamed file |
| EventSplit.ZswapPathsAgreeIff | src/zswap_ffi.rs:169-202 | on clean events the shielded path in memory agrees with its own trimming file reader iff no body ends in white space or the file fails too |
| DustRegistration.SaturationIsOneClip | src/serialize.rs:1495-1500 | however the products saturate, the dust is the exact minimum clipped once at u128::MAX |
| DustRegistration.SelectBest | src/serialize.rs:1493-1517 | the loop keeps the earliest UTXO none other beats, or fails on the first unreadable one |
| DustRegistration.BuildRegistration | src/serialize.rs:1467-1678 | no UTXO and an unreadable one are errors; otherwise the earliest coin of most dust is registered, returning all its NIGHT and allowing exactly its exact dust clipped at u128::MAX, or its shortfall is reported |
| DustRegistration.GateTurnsOnAllCoins | src/serialize.rs:1519-1530 | the gate passes iff some coin's dust covers the fee, and otherwise reports the least any coin is short by; it allows exactly the dust of the coin spent, which no coin exceeds |
| DustRegistration.BestIsUnique | src/serialize.rs:1514-1516 | at one time there is only one earliest best coin |
| DustRegistration.GeneratedGrows | src/serialize.rs:1499-1500 | generated dust never falls with time |
| DustRegistration.WaitExactly | src/serialize.rs:1640-1678 | for a coin whose cap covers the fee, a wait suffices iff it is at least ceil(shortfall / (value * 8267)) seconds |
| DustRegistration.WaitingMatures | src/serialize.rs:1671-1678 | after that wait the gate passes at every later time, whichever coin is then the best |
| DustRegistration.MaturesIffSomeCapCovers | src/serialize.rs:1490-1500 | a week after the youngest coin the gate passes iff some coin's cap covers the fee; without such a coin it never does |
| Offers.ConvertAll | src/serialize.rs:478-502 | the list converts, in order, iff every element does |
| Offers.SpendOrderIs | src/serialize.rs:514-516 | inputs compare by value, then owner, token type, intent hash and output number |
| Offers.SpendOrderIsTotal | src/serialize.rs:514-516 | that comparison is a total order |
| Offers.OutputOrderIsTotal | src/serialize.rs:514-516 | field-by-field comparison of outputs is a total order |
| Offers.SigningMessage | src/serialize.rs:941-1090 | the message is that of segment 1 for an intent with all requested inputs and outputs, sorted, the time to live in whole seconds and the caller's binding or a drawn one, which is returned; fails iff the index, an element or the binding given is bad |
| Offers.SerializeIntent | src/serialize.rs:604-828 | segment 1 carries an intent with all requested inputs and outputs, sorted, the time to live in whole seconds and the binding, with the signatures as given; dust gets a segment of its own; fails iff an element, a signature or the binding does not convert, or merging or writing fails |
| Offers.SignedIsSubmitted | src/serialize.rs:1028-1035 | whatever intents signing and serialising build for permutations of the same inputs and outputs, they are equal, hence the message signed is the one submitted |
| Offers.AcceptedIffOwnersKeepTheirPlaces | src/serialize.rs:504-528 | the node accepts iff sorting leaves the sequence of owners as the caller gave it |
| Offers.SingleOwnerIsAccepted | src/serialize.rs:504-528 | with one owner every input stands beside a signature that verifies |
| Offers.TwoOwnersMayBeRejected | src/serialize.rs:504-528 | witness: two owners given largest value first are rejected |
| FundingOffer.CollectInputs | src/contract_ffi.rs:1467-1524 | succeeds iff all inputs are complete, of one token type and their exact sum fits 128 bits; returns them in order, field by field as requested with the low 32 bits of the output number, and that sum |
| FundingOffer.BuildFundingOffer | src/contract_ffi.rs:1439-1571 | returns an offer iff the request is fundable; its inputs are a permutation of those requested, field by field, any change goes to the change owner, and there is one key per input |
| FundingOffer.FundableIff | src/contract_ffi.rs:1448-1555 | fundable means that amount, key and inputs convert, the inputs share a token type, their sum reaches the amount within 128 bits, and the owner of any change converts |
| FundingOffer.OfferConservesValue | src/contract_ffi.rs:1526-1571 | inputs less outputs is the amount in one token type; inputs are the requested ones, sorted; at most one output, present iff there is change |
| TagPrefix.MarkIsAscii | src/fee_ffi.rs:76 | the mark is the ASCII of `midnight:` |
| TagPrefix.StripTagPrefix | src/fee_ffi.rs:69-107 | returns what follows the first separator behind the mark, or all bytes; balance_ffi.rs:714-731 is the same loop |
| TagPrefix.StripTagPrefixCombined | src/serialize.rs:1412-1422 | the differently written third copy computes the same function |
| TagPrefix.TaggedPayload | src/balance_ffi.rs:714-731 | stripping a tagged payload gives the payload iff the tag holds no earlier separator, whatever the payload holds |

## Left out

- The JNI layer, pointer validity, C string ownership, UTF-8 and null-argument branches: each is settled by reading one branch.
- Signing, key derivation, Pedersen sealing, proving and Merkle hashing: library code not part of this model. Nullifiers, signatures and messages are uninterpreted; a signature names its signer and message.
- `prove_ffi.rs`, `transaction_ffi.rs`, `lib.rs`: thin wrappers.
- SCALE and hex decoding: a parser parameter or an optional value; a failure is a None.
- Clocks and randomness: times are parameters; the block time a query stamps is part of the VM parameter; the dust intent's random segment id is a parameter of at least 2, the range it is drawn from.
- The VM's single ops, its gas and its cost limits: `Ops.Vm` takes one step function per op and one flag for landing behind the program's end, both arbitrary.
- `HandlePool.StatePool`: its methods are the calls without interference; the interleaving protocol has the sections one by one, on values, because a thread's place between two sections is not a field of the pool.
- Threads that share one call: a thread is inside at most one call at a time, as a call is in the source.
- A poisoned lock: the source recovers the map and goes on.
- `DustBalance.BalanceImpl`: failures of the ledger's fee calculations and of proving, merging, sealing and serialising are one flag; the failure of serialising a nullifier inside the selection is not modelled.
- The dust wallet's balance, count and root queries: they change no state.
- `zswap_build_shielded_transaction_with_dust`: spends caller-chosen indices from an unchanged state.
- `CoinSelection.SpendIsSafeIff`: the ledger's `spend` is library code, taken to accept any held coin; if it refuses a pending one, that spend fails instead.
- `CoinSelection.RebuildIsSafeIff`: a rebuilt state holds the coins held before, in the same order; one rebuilt from fewer events is not modelled.
- `Json.ReadString`: refuses escapes that name surrogates, which the writer never emits; numbers are kept as written, without choosing a machine representation.
- Alignment segments are taken as parsed; a descriptor's number counts by its unsigned 64-bit value, as `as_u64` does.
- `NumberCodecs.HexToDecimal`: the field's order is a parameter; that `from_le_bytes` accepts exactly the integers below it is taken from the library.
- `FundingOffer.BuildFundingOffer`: the text of error messages is not modelled, only which requests are refused.
- `check_unshielded_offer_present`, `build_withdrawal_offer`, `dust_filter_unregistered_night`: single filters or single-item offers.
- Build files, the fixture's contents and `diagnostic_verifying_key.rs`.
