# Verified model of the sumzero ledger

The `ledger` package is a double-entry posting engine over five tables: accounts, a balance cache, an
append-only history of transfers with their postings, holds, and idempotency keys. This project models its
operations in Dafny and proves what they keep: for one call, for every run, and for every interleaving of
concurrent transactions.

There are two levels. `Books` is the plain one: a value `Db` holding the tables, an operation `Op` for each
thing that can commit, and `Replay` for a run of them, all over exact integers. Everything else is tied to it:

- `LedgerEngine.Ledger` is the object whose methods insert and update rows one statement after another, in
  int64, and roll back on refusal. Each method commits exactly an operation of `Books` or changes nothing.
- `Transactions` is a step relation for any number of open transactions under READ COMMITTED: every statement
  is a step, row locks and the chain lock are held to the end, a sequence value drawn by a failed transaction is
  lost. `Serializability` shows that what is committed is always a `Replay`; `Interleavings` follows holds, sweeps and
  reversal links through one interleaving; `Deadlock`, `Crossings` and `Witnesses` study who waits for whom.

Around these: `Drafts` (building and validating a transfer), `ChainEncoding`, `LinkReadings` and `ChainHistory` (the
bytes under the hash chain, how many readings they have, and what a chain proves), `ChainScan` and `Verifier` (the
verification pass), `Holds`, `Guard`, `History`, `Query`, `Reversals`, `Reconciler` and `Idempotency`. `Int64Math`, `Sums`, `Domain`
and `Bytes` carry the arithmetic, the sign conventions and the byte order that the rest uses.

Conventions. Go strings and SQL text are sequences of bytes (`Text`). Go's int64 is `Int64` with `Wrap` for
arithmetic that silently keeps 64 bits; a SQL sum is exact and fails to scan when it is not an int64. Instants are
integers, in nanoseconds, truncated to microseconds where the program or the driver truncates them. The clock is a
parameter. SHA-256 (section 6.2 of FIPS 180-4) is any function to 32 bytes: where a statement could fail only
through a digest collision, it exhibits the two byte strings. An iteration over a Go map is a choice of any
remaining key. Where the program does not decide which of several applicable errors wins, neither does the model.

What the proofs found about the program:

- Validate's sum-zero rule is a rule modulo 2^64. Three debits of 2^63-1, 2^63-1 and 2 pass without any credit
  (`Drafts.AcceptedWithoutSummingToZero`); `Drafts.AcceptedSumsToZeroIff` says exactly when the rule is the exact one.
- The overdraft guard subtracts in int64 without a check. It is nevertheless sound from every reachable state
  (`Guard.GuardAgrees`), because a covered account cannot move far enough in one transfer to wrap.
- Capture locks the held account before the sorted list, so captures are not covered by the sorted-order argument. Any
  number of posts, reversals, holds, releases, expiry marks and captures, with at most one sweep of expired holds, never
  deadlock if each capture's transfer touches no account whose id is less than the held one's
  (`Deadlock.NoDeadlockWhenHeldIsLeast`); and a single capture among transactions that are neither captures nor sweeps can
  be part of a deadlock exactly when its transfer does touch one (`Crossings.CaptureCanDeadlockIff`). Being in order does
  not protect a capture from one that is not: two captures can deadlock exactly when their held accounts differ and one
  locks the other's held account and, below it, an account that both lock (`Crossings.CapturesMeetIff`). Two sweeps can
  deadlock exactly when two active holds are past due for both (`Crossings.SweepsMeetIff`). `Witnesses` constructs an
  interleaving of each kind from the empty ledger.
- The comment on checkChain says that it catches a deleted row. It catches any but the last one
  (`ChainHistory.DeletionIsLocated`).
- The chain encoding has an optional field without a tag. Its bytes have one reading as long as no currency is the word
  `debit` or `credit`, which validation sees to, and even without that as long as account ids stay below 1 769 209 856
  bytes (`LinkReadings.OneTransfer`). At that length there are two (`LinkReadings.TwoTransfersOneDigest`).
- The statement's From bound is truncated on its way to the database, so it can admit rows up to a microsecond earlier
  (`Query.FromRoundsDown`).
- Complete does not ask who holds the key. A replayed response is its holder's own exactly when the handler that stored
  it did so while its own reservation stood (`Idempotency.ReplayIsOwnIff`); `Idempotency.LateCompletionIsReplayed` is a
  run in which it did not.
- Capture's comparison of the draw with the hold is made in int64: beyond it, a transfer that draws 2^64 + 1 passes for a
  draw of 1 (`Holds.DrawCanExceedTheHold`), and within it the comparison is the true one (`Holds.CapturesAreExact`).
- The guard also refuses a transfer that leaves its account covered when the availability is not an int64, as at a
  credit-normal balance of 2^63 (`Guard.GuardRefusesAtTheTop`).

## Model

| member | source | states |
|---|---|---|
| Domain.SignedIsWrapped | ledger/account.go:54-59 | the int64 sign flip is the exact signed amount modulo 2^64, also for the one amount whose negation overflows |
| Domain.NormaliseIsWrapped | ledger/query.go:135-140 | turning a wrapped balance to its normal side is the same as turning the exact balance and wrapping once |
| Domain.SumPermutation | ledger/transfer.go:48-54 | any sum over postings is independent of their order |
| Domain.MirrorTwice | ledger/store.go:330-337 | flipping every leg twice gives back the same postings |
| Domain.MirrorNegates | ledger/store.go:330-337 | the mirror moves every account, and nets every currency, by the exact opposite |
| Drafts.Transfer.Debit | ledger/transfer.go:35-38 | appends one debit leg to this very transfer: the named account gains the amount, no other account changes |
| Drafts.Transfer.Credit | ledger/transfer.go:41-44 | appends one credit leg to this very transfer: the named account loses the amount, no other account changes |
| Drafts.Transfer.Net | ledger/transfer.go:48-54 | one entry per currency present, congruent to the exact net modulo 2^64 |
| Drafts.Transfer.Validate | ledger/transfer.go:59-88 | reports the first shape error in posting order, else Unbalanced exactly when some currency's int64 net is not zero |
| Drafts.FirstPostingErrorMeans | ledger/transfer.go:66-81 | no posting error if and only if every posting is well formed; otherwise the error is that of the first bad posting |
| Drafts.LegOrderIsIrrelevant | ledger/transfer.go:48-54 | reordering the legs changes no net and no account's movement |
| Drafts.AcceptedIff | ledger/transfer.go:59-88 | Validate passes if and only if the shape is right and every currency's exact net is a multiple of 2^64 |
| Drafts.AcceptedSumsToZeroIff | ledger/transfer.go:83-87 | an accepted transfer sums to zero over the integers if and only if no currency's net reaches 2^64 in size |
| Drafts.SmallTransfersSumToZero | ledger/transfer.go:83-87 | two legs, or amounts below 2^64 per currency, make the rule exact |
| Drafts.AcceptedWithoutSummingToZero | ledger/transfer.go:83-87 | a concrete transfer that passes and does not sum to zero |
| Drafts.MirrorIsAccepted | ledger/store.go:318-339 | the mirror of a transfer that validates always validates |
| Bytes.PutBigEndian | ledger/chain.go:27-28 | fills the whole array with the number's bytes, most significant first |
| Bytes.BigEndianRoundTrip | ledger/chain.go:27-28 | any number that fits the width is read back from its big-endian bytes |
| Bytes.U64RoundTrip | ledger/chain.go:44-46 | eight bytes give back the int64 congruent to the number written |
| Bytes.FieldRoundTrip | ledger/chain.go:52-57 | a length-prefixed field is read back exactly, whatever bytes follow it |
| ChainEncoding.Hasher.WriteField | ledger/chain.go:52-57 | appends exactly the length-prefixed field to what was hashed before |
| ChainEncoding.Hasher.WriteLegs | ledger/chain.go:39-47 | appends the encodings of all postings, in stored order |
| ChainEncoding.ChainDigest | ledger/chain.go:20-50 | piecewise hashing equals one hash of the byte string that the decoder reads |
| ChainEncoding.LegsRoundTrip | ledger/chain.go:39-47 | the postings are recovered from their concatenated encodings |
| ChainEncoding.TailRoundTrip | ledger/chain.go:31-47 | with and without the untagged reversal link, link and postings are recovered |
| ChainEncoding.DecodeEncode | ledger/chain.go:20-57 | a decoder recovers prev, reference, description, microsecond instant, link and postings from the hashed bytes |
| ChainEncoding.PreimageInjective | ledger/chain.go:10-16 | equal hashed bytes at one prev length mean the same transfer on the same predecessor |
| LinkReadings.TwoReadingsNeed | ledger/chain.go:31-47 | if a link is also read as an account, a currency is a direction word and an account id has at least 0x69740000 bytes |
| LinkReadings.OneReading | ledger/chain.go:31-47 | with shorter account ids, link and postings are determined by their bytes, whatever the currencies |
| LinkReadings.OneTransfer | ledger/chain.go:10-50 | so equal hashed bytes at one prev length mean the same transfer, without any condition on currencies |
| LinkReadings.TwoReadings | ledger/chain.go:31-47 | at that very length two different links and posting lists have equal bytes |
| LinkReadings.TwoTransfersOneDigest | ledger/chain.go:31-50 | a reversal and a transfer that reverses nothing then share a digest under every hash |
| ChainHistory.ChainedAppend | ledger/store.go:160-174 | a row that carries the tail's hash and its own digest extends a verified chain to a verified chain |
| ChainHistory.SilentIffChained | ledger/verify.go:180-199 | no chain problem is found if and only if every row names its predecessor's hash and describes itself |
| ChainHistory.LastHashDeterminesHistory | ledger/verify.go:180-199 | two verified histories of one length ending in one hash agree at every position, or two colliding byte strings are shown |
| ChainHistory.RewriteIsLocated | ledger/verify.go:191-197 | rewriting any set of transfers yields hash-mismatch at exactly those and no chain-break, or a collision is shown |
| ChainHistory.DeletionIsLocated | ledger/verify.go:184-190 | deleting a transfer yields one chain-break, at its successor; silent if and only if it was last or two stored hashes coincide |
| ChainHistory.FirstDeletionIsSeen | ledger/verify.go:184-190 | deleting the first of several transfers is always reported |
| ChainScan.ScanFindsChainProblems | ledger/verify.go:171-231 | the grouping pass over joined rows, flush included, finds exactly the per-transfer problems, also for transfers without postings |
| ChainScan.FlushProblems | ledger/verify.go:180-199 | the closure reports precisely the break and the mismatch of the gathered transfer |
| ChainScan.CheckChain | ledger/verify.go:159-233 | the row loop with its mutable current transfer returns exactly the problems of the per-transfer definition |
| BooksInvariants.OpKeeps | ledger/store.go:120-216 | every successful operation keeps the invariant: one chain, cache equal to movements, guarded accounts covered, holds sound |
| BooksInvariants.RunsKeep | ledger/store.go:98-115 | the invariant holds after every run |
| BooksInvariants.OpKeepsLinks | ledger/store.go:318-339 | links stay mirror images, one per transfer, as long as each is made as Reverse makes it |
| Interleavings.InterleavingsKeepLinks | ledger/store.go:318-339 | and so in every interleaving, although Reverse reads the original before its transaction begins |
| BooksInvariants.CaptureKeeps | ledger/hold.go:113-183 | posting under a guard that leaves the captured hold out, and closing the hold, keeps the invariant, guard included |
| BooksInvariants.HoldKeeps | ledger/hold.go:50-99 | a hold placed within what is available leaves every guarded account covered |
| BooksInvariants.HeldWithout | ledger/hold.go:226-241 | excluding an active hold lowers its account's held total by exactly its amount |
| BooksInvariants.MoveMeans | ledger/store.go:255-279 | one upsert per moved account changes each balance by that account's wrapped movement and no other balance |
| BooksInvariants.FindRowMeans | ledger/query.go:150-186 | a transfer is found by reference if and only if some stored row carries it |
| Guard.CodeFundsIff | ledger/store.go:202-214 | from an account that covered its holds, the wrapped check passes if and only if the exact availability is non-negative and both numbers are int64 |
| Guard.GuardAgrees | ledger/store.go:199-214 | from any reachable state the code's guard admits exactly the transfers that leave all touched guarded accounts covered within int64 |
| Guard.GuardNeedsCoveredStart | ledger/hold.go:240-240 | from an uncovered account the wrapped check can pass far below zero |
| Guard.GuardRefusesAtTheTop | ledger/store.go:199-214 | from reachable books, an otherwise admissible transfer that leaves its guarded account covered is refused, at a normal balance of 2^63 |
| LedgerEngine.Ledger.CreateAccount | ledger/store.go:47-71 | succeeds exactly when the fields are valid and the id is new; then account and zero balance appear together, else nothing changes |
| LedgerEngine.Ledger.ArchiveAccount | ledger/store.go:87-96 | succeeds exactly when the account exists and changes nothing but its archived flag |
| LedgerEngine.Ledger.SumHolds | ledger/hold.go:232-236 | the exact sum of the account's active holds without the excluded one |
| LedgerEngine.Ledger.AvailableLocked | ledger/hold.go:230-241 | the int64 availability of the current rows, or an error if the holds do not scan |
| LedgerEngine.Ledger.LockAccounts | ledger/store.go:221-248 | returns exactly the existing accounts among the transfer's, each as stored |
| LedgerEngine.Ledger.CheckLegs | ledger/store.go:137-149 | the error of the first leg that its account refuses, if any |
| LedgerEngine.FirstLegErrorMeans | ledger/store.go:137-149 | no error if and only if every leg's account exists, is open and has the leg's currency |
| LedgerEngine.Ledger.InsertTransfer | ledger/store.go:160-183 | inserts iff reference and reversal are new and the link exists; the row is chained to the tail; a failure still consumes the id |
| LedgerEngine.Ledger.SumMovements | ledger/store.go:256-263 | the per-account int64 deltas are the exact movements modulo 2^64, and each account is listed once |
| LedgerEngine.Ledger.ApplyBalances | ledger/store.go:255-279 | grouping per account and skipping zeros leaves the balances that moving each account once gives; fails iff some sum leaves int64, with some of the accounts moved |
| LedgerEngine.Ledger.CheckGuard | ledger/store.go:199-214 | whatever the map order, passes if and only if all guarded accounts are funded |
| LedgerEngine.Ledger.WriteTransfer | ledger/store.go:151-215 | under the lock, commits that row and those movements iff the transfer is admissible; each refusal names a true reason and what it leaves behind |
| LedgerEngine.Ledger.PostInTx | ledger/store.go:120-216 | accepts exactly the admissible transfers and then commits that row and those movements; says for each refusal what is left for the caller to roll back |
| LedgerEngine.Ledger.PostTransfer | ledger/store.go:102-115 | on success exactly one operation of the plain books, on any failure no trace; the resolved instant is handed back |
| LedgerEngine.Ledger.TransferByReference | ledger/query.go:150-186 | the loop finds the stored row with that reference, if there is one |
| LedgerEngine.Ledger.BuildReversal | ledger/store.go:325-337 | the flipping loop builds the linked mirror image of the original |
| LedgerEngine.Ledger.ReverseTransfer | ledger/store.go:313-339 | never refused by validation; on success posts the linked mirror, on failure leaves no trace |
| LedgerEngine.StoredMirrorIsValid | ledger/store.go:318-339 | the mirror of any stored transfer validates |
| LedgerEngine.Ledger.PlaceHold | ledger/hold.go:50-99 | succeeds exactly when the amount is available over the integers (within int64) and the reference new; each refusal names a true reason |
| LedgerEngine.Ledger.SumSpent | ledger/hold.go:145-153 | the accumulated spend is what the transfer takes off the account's normal side, modulo 2^64 |
| LedgerEngine.Ledger.CaptureHold | ledger/hold.go:117-183 | posts and closes together or changes nothing, except that a past-due hold is marked expired after the rollback |
| LedgerEngine.Ledger.ReleaseHold | ledger/hold.go:186-198 | closes exactly an active hold and nothing else |
| LedgerEngine.Ledger.ExpireHolds | ledger/hold.go:202-210 | closes exactly the active past-due holds and counts them |
| LedgerEngine.AcceptedKeeps | ledger/store.go:120-216 | what the int64 code accepts, the exact rules accept, and the invariant survives |
| LedgerEngine.HoldGuardAgrees | ledger/hold.go:71-80 | Hold's int64 comparison agrees with the exact one wherever int64 can express the availability |
| Holds.HoldIsFundable | ledger/hold.go:145-170 | from any reachable state a draw within an active hold fits int64 and leaves the held account non-negative, better off by the undrawn part |
| Holds.OnlyOthersLackFunds | ledger/store.go:199-214 | a capture can fail for lack of funds only through a guarded account other than the held one |
| Holds.CaptureReleasesTheRest | ledger/hold.go:113-116 | success raises the held account's availability by exactly held minus spent |
| Holds.SpentIsExact | ledger/hold.go:148-153 | the int64 spend is the true draw if and only if that draw fits int64 |
| Holds.HoldsOnlyMoveForward | ledger/hold.go:185-210 | over every run a hold leaves the active state at most once and is frozen afterwards |
| Holds.CapturesAreAccounted | ledger/hold.go:162-169 | after every run: captured iff it names a transfer, whose draw as the int64 loop finds it was between 1 and the held amount, and no transfer captures two holds |
| Holds.CapturesAreExact | ledger/hold.go:148-169 | where transfers move each account within int64, the true draw was between 1 and the held amount |
| Holds.DrawCanExceedTheHold | ledger/hold.go:148-160 | beyond int64, a transfer that validates and truly draws 2^64 + 1 counts as drawing 1 |
| Interleavings.InterleavedHoldsOnlyMoveForward | ledger/hold.go:131-210 | between any two moments of one interleaving a hold leaves the active state at most once and is frozen afterwards |
| Interleavings.WrittenCapturePasses | ledger/store.go:199-214 | in every reachable state a capture that has written its transfer passes the guard on the held account |
| Interleavings.SweepExpiresWhatIsDue | ledger/hold.go:202-210 | a sweep commits as the expiry of exactly those holds due at its start that are still due: as ExpireHolds, if none became due meanwhile |
| Interleavings.SweepIsComplete | ledger/hold.go:202-210 | whatever happens in between, no hold past due when a sweep began is active after it commits |
| Interleavings.MarkClosesItsHold | ledger/hold.go:171-180 | Capture's own mark closes its hold if nobody else has, and touches no other |
| Serializability.StepKeeps | ledger/store.go:131-215 | every statement of any transaction keeps the invariant on committed rows, on locks, and on what each open transaction has read |
| Serializability.CommitIsSerial | ledger/store.go:283-298 | a transaction's commit is the plain operation on the rows committed at that moment, not those it started from |
| Serializability.Undisturbed | ledger/hold.go:226-229 | what a transaction has established under its locks survives any other's commit; releases and expiries only raise availability |
| Serializability.InterleavingsAreSerial | ledger/store.go:98-216 | for every interleaving, the committed tables are those of a serial run of the committed operations in commit order |
| Serializability.InterleavingsKeepTheBooks | ledger/store.go:151-164 | every committed state has one unforked chain in id order, a true cache and no overdrawn guarded account |
| Deadlock.NoDeadlockWhenHeldIsLeast | ledger/store.go:218-248 | any number of transactions never deadlock, as long as each open capture touches no account whose id is less than the held one's and at most one sweep is open |
| Deadlock.NoDeadlock | ledger/store.go:218-248 | every cycle of waits, among whatever transactions, needs a capture whose first row is above the one it wants next, or two sweeps that found the same two active holds |
| Crossings.CaptureMeetsPostIff | ledger/hold.go:141-162 | from any idle state a capture and a post can reach a cycle iff the post locks the held account and, below it, an account the capture locks too |
| Crossings.CapturesMeetIff | ledger/hold.go:141-162 | two captures can iff their held accounts differ and one locks the other's held account and, below it, an account both lock |
| Crossings.PostsNeverMeet | ledger/store.go:218-248 | two posts never can |
| Crossings.CaptureCanDeadlockIff | ledger/hold.go:141-162 | among any number of transactions that are neither captures nor sweeps, a capture can be part of a deadlock iff its transfer touches an account whose id is less than the held one's |
| Crossings.SweepsMeetIff | ledger/hold.go:202-210 | from any idle state two sweeps can reach a cycle iff two active holds are past due for both |
| Witnesses.CaptureDeadlockIsReachable | ledger/hold.go:141-162 | a run from the empty ledger in which a capture and a post deadlock |
| Witnesses.TwoCapturesDeadlockIsReachable | ledger/hold.go:141-162 | a run from the empty ledger in which two captures deadlock, although one of them holds the least account it touches |
| Witnesses.SweepDeadlockIsReachable | ledger/hold.go:202-210 | a run from the empty ledger in which two sweeps deadlock |
| History.SumPostings | ledger/verify.go:73-74 | the loop over postings computes the exact signed sum of a group |
| History.CachedIsTotalInMachine | ledger/store.go:255-279 | cache and history sum agree modulo 2^64, without any bound |
| History.CachedIsTotal | ledger/store.go:255-279 | and exactly, if every transfer's movement of the account fits int64 |
| History.CacheMovesExactlyIff | ledger/store.go:262-274 | the grouped update moves the cache as posting one by one would if and only if the account's movement fits int64 |
| History.SmallTransfersAreExact | ledger/store.go:255-279 | amounts below 2^63 per currency are enough for that |
| History.TrialIsNet | ledger/query.go:112-132 | balances summed over a currency's accounts are the net of the postings in that currency |
| History.AsOfTrialInMachine | ledger/query.go:38-53 | in every reachable state and at every instant the raw as-of balances of each currency sum to zero modulo 2^64 |
| History.AsOfTrialIsZero | ledger/query.go:38-53 | and to zero, where transfers are exact |
| History.BalancesAreTheBooks | ledger/verify.go:103-154 | each cached balance is the signed sum of its postings, and each currency's balances sum to zero |
| Verifier.CheckTransfersBalance | ledger/verify.go:69-99 | reports exactly the transfer and currency groups that do not sum to zero, each once, or fails iff one does not scan |
| Verifier.CheckBalancesMatchPostings | ledger/verify.go:103-134 | reports exactly the balance rows that differ from their postings, each once |
| Verifier.SumBalances | ledger/query.go:112-132 | one currency's stored balances, summed |
| Verifier.CheckTrialBalance | ledger/verify.go:139-154 | reports exactly the currencies whose balances do not sum to zero, each once |
| Verifier.Verify | ledger/verify.go:37-64 | empty if and only if the stored rows are sound; lists exactly the four kinds of problem, the chain's last and in id order; names every transfer that does not sum to zero; fails iff some sum is beyond int64 |
| Verifier.ReachableHasNoProblem | ledger/verify.go:31-36 | on any reachable state there is nothing to report, whatever the amounts; Verify can only fail on a sum beyond int64 |
| Verifier.ReachableReportIsEmpty | ledger/verify.go:37-64 | so every report on a reachable state is empty |
| Verifier.FourMomentsHaveNoProblem | ledger/verify.go:50-61 | and so is one whose four checks each see a different committed state of one interleaving |
| Verifier.ReachableIsCleanIff | ledger/verify.go:37-64 | on a reachable state, clean is equivalent to exact transfers and an exact cache: the chain and trial balance follow |
| Verifier.ReachableIsEncodable | ledger/transfer.go:66-81 | every history the engine can reach, with lengths and instants in range, is one the chain encoding reads back uniquely |
| Verifier.ExactOpsMakeExactHistory | ledger/store.go:98-115 | a run of transfers within the stated ranges leaves an exact history |
| Verifier.InterleavingsVerify | ledger/verify.go:37-64 | over every interleaving of transfers in those ranges, Verify is clean on every committed state |
| Query.ReadBalance | ledger/query.go:15-32 | the cached balance on the account's normal side, or unknown account |
| Query.BalanceAsOf | ledger/query.go:38-53 | the sum of the postings up to the instant on the normal side, or an error exactly when the account or the int64 is missing |
| Query.LatestAsOfIsBalance | ledger/query.go:34-38 | at or after the latest posted_at, history and cache give one number whenever history's scans at all |
| Query.OpMovesAsOf | ledger/query.go:38-53 | an operation changes as-of balances only from its own posted_at on and by exactly what it moves |
| Query.Statement | ledger/query.go:74-108 | the page is the head of a rearrangement of the whole window, newest first with the id as tiebreaker |
| Query.StatementExplainsBalances | ledger/query.go:86-92 | an untruncated statement sums to the difference of the two boundary balances, for any order of backdated posts |
| Query.InvertedWindowIsEmpty | ledger/query.go:90-91 | inverted bounds list nothing |
| Query.FromRoundsDown | ledger/query.go:90-90 | exactly the rows later than a microsecond before From pass the bound |
| Reversals.ReversesMeansUndoes | ledger/store.go:318-339 | a link names an earlier transfer of which this one is the mirror |
| Reversals.ReversalIsUnique | migrations/0004_reversals.sql:11-14 | one reversal per transfer |
| Reversals.ChainMembers | migrations/0004_reversals.sql:11-14 | a chain holds its root and the reversals of its own members, nothing else |
| Reversals.ChainsPartition | migrations/0004_reversals.sql:11-14 | every transfer lies in the chain of exactly one root |
| Reversals.ReversedReversalRestores | ledger/store.go:330-337 | a reversed reversal has exactly the original postings |
| Reversals.HistoryIsItsOddChains | ledger/store.go:313-339 | every account's total is the sum over chains of odd length of the root's effect |
| Reversals.BalancesAreOddChains | ledger/store.go:313-339 | and so is every cached balance, modulo 2^64, in every reachable state whose links Reverse made |
| Reconciler.ReadLedger | ledger/reconcile.go:77-104 | one line per transfer of the period, keyed by reference, with the wrapped total of all lines |
| Reconciler.LedgerSideMeans | ledger/reconcile.go:90-101 | because references are unique, the map loses no transfer of the period |
| Reconciler.MatchRecord | ledger/reconcile.go:106-134 | the shrinking map and the buckets are what the two sides alone determine; the first offending entry decides the error |
| Reconciler.RecordAcceptedIff | ledger/reconcile.go:110-121 | a record is accepted iff references are present and distinct and currencies match |
| Reconciler.SortLeft | ledger/reconcile.go:136-145 | lists exactly the leftover lines, by posted_at and then reference |
| Reconciler.Reconcile | ledger/reconcile.go:65-148 | which error is returned when, and otherwise every field of the report |
| Reconciler.ReportIsDetermined | ledger/reconcile.go:136-145 | the report does not depend on the order in which the map was walked |
| Reconciler.EntriesPartition | ledger/reconcile.go:26-28 | matched, mismatched and missing-in-ledger together are the external list: every reference once, at its own amount |
| Reconciler.LinesPartition | ledger/reconcile.go:26-28 | matched, mismatched and missing-externally together are the ledger's lines: every transfer's reference once, at its own amount |
| Reconciler.BucketsSortByAgreement | ledger/reconcile.go:126-133 | the two amounts agree in every matched pair and differ in every mismatched one |
| Reconciler.DifferenceIsExplained | ledger/reconcile.go:146-146 | Difference is mismatch gaps plus missing-externally minus missing-in-ledger, modulo 2^64 |
| Reconciler.CleanIff | ledger/reconcile.go:53-55 | Clean if and only if both sides hold the same references at the same amounts |
| Idempotency.IdempotencyStore.constructor | ledger/idempotency.go:27-32 | a positive time to live, one day if none was given |
| Idempotency.IdempotencyStore.TryReserve | ledger/idempotency.go:41-55 | affects a row exactly when the key is free or past its expiry, and then clears the old response |
| Idempotency.IdempotencyStore.Begin | ledger/idempotency.go:40-88 | undisturbed between its statements: Begun iff it won the key, else what is stored under it |
| Idempotency.IdempotencyStore.Complete | ledger/idempotency.go:91-101 | stores the response on a present row and touches no other |
| Idempotency.IdempotencyStore.Release | ledger/idempotency.go:104-108 | deletes only an uncompleted reservation |
| Idempotency.IdempotencyStore.Sweep | ledger/idempotency.go:112-118 | deletes exactly the expired rows and counts them |
| Idempotency.ReservationStands | ledger/idempotency.go:40-118 | under any interleaving a reservation keeps its expiry and its last response until something ends it |
| Idempotency.BegunsAreSeparated | ledger/idempotency.go:40-118 | two wins of one key are separated by expiry or by the release of an uncompleted reservation |
| Idempotency.CompletedIsCurrent | ledger/idempotency.go:57-87 | a replayed response was stored after the latest win of the key, and is the last one stored |
| Idempotency.CompletedStays | ledger/idempotency.go:90-101 | a stored response stays replayable until its reservation ends |
| Idempotency.OwnsIffStands | ledger/idempotency.go:40-118 | a Begin that won still owns the row iff nothing has expired or released its reservation |
| Idempotency.ReplayIsOwnIff | ledger/idempotency.go:57-101 | over every run, a replayed response is the present holder's own iff the handler that stored it still held its reservation then |
| Idempotency.PromptReplaysAreOwn | ledger/idempotency.go:57-101 | if every handler completes before its reservation ends, every replay is the holder's own |
| Idempotency.LateCompletionIsReplayed | ledger/idempotency.go:91-101 | a run in which the first handler completes late and the second holder is answered with its response |

## Left out

- ChainEncoding.DecodeEncode: field lengths below 2^32 and instants in UnixNano's range are required, outside which Go truncates the length or leaves the instant undefined.
- Deadlock.NoDeadlock: the order in which an UPDATE visits rows is taken to be arbitrary, as SQL leaves it; a database that always visits them in one order would rule out the case of two sweeps.
- ChainHistory.LastHashDeterminesHistory: two histories of different length are not compared; prev has no length prefix, so that needs more than collision resistance.
- Query.StatementExplainsBalances: about whole windows; a page cut off by the limit explains only its own lines.
- Embedded mode in which the caller commits after an error or posts several times in one transaction.
- Hold rows are keyed by their unique reference; the surrogate id, created_at and closed_at are not kept.
- Postings are nested in their transfer's row, in id order; the query plans that join them are not modelled.
- CreateAccount and Archive are single steps in the interleavings; ExpireHolds finds its rows at one moment and then marks them in any order.
- Accounts made by plain SQL without a balance row; checkBalancesMatchPostings does not see them either.
- ORDER BY on account ids is byte order; a database collation may differ, consistently for all transactions.
- Counts and timing in Verify's report, Problem texts and error texts.
- HoldByReference, Available and Account, which read one row; the JSON of Money; `httpapi`, `cmd/sumzero`, `migrations.Apply`; the driver, connection pool and contexts. A driver failure is an abort.
- The arithmetic of a time to live in seconds, and created_at, in the idempotency table.
