/**
 Many transactions at once, statement by statement, under READ COMMITTED: each statement sees the latest
 committed tables plus its own transaction's writes, and locks are held to the end of the transaction.
 */
module Transactions {
  import opened Int64Math
  import opened Domain
  import opened Drafts
  import opened ChainEncoding
  import opened ChainHistory
  import opened Books
  import opened Guard

  /** What a transaction can lock; KeySlot is the index entry an uncommitted INSERT of a hold occupies. */
  datatype Resource =
    | HoldLock(reference: Text)
    | RowLock(account: Text)
    | ChainLock
    | KeySlot(reference: Text)

  datatype Request =
    | Posting(d: Draft, at: int)  // Post, and Reverse once it has built its draft
    | Capturing(reference: Text, d: Draft, at: int, now: int)
    | Holding(reference: Text, account: Text, amount: Money, expiresAt: Option<int>)
    | Releasing(reference: Text)
    | Expiring(now: int)  // ExpireHolds
    | Marking(reference: Text, now: int)  // the one-row UPDATE by which Capture marks its past-due hold expired

  datatype Stage = Begun | HoldRead | AccountRead | Locking | Linking | TailRead | Written | FundsSeen | Sweeping | Ready

  /** One open transaction: how far it is, what it has read under lock, and what it has written. */
  datatype Tx = Tx(
    request: Request,
    stage: Stage,
    first: Option<Text>,  // the account row locked on its own, before any sorted list
    todo: seq<Text>,  // account rows still to lock, in id order
    seen: map<Text, Account>,  // account rows read under lock
    prev: Text,  // the tail read under the chain lock
    row: Option<Row>,  // the uncommitted transfer
    passed: set<Text>,  // guarded accounts found in funds
    due: set<Text>,  // the holds past due when this sweep's statement began
    started: nat,  // and when that was, on the clock of the system
    expired: set<Text>)  // holds marked so far

  datatype Sys = Sys(
    db: Db,  // committed
    txs: map<nat, Tx>,
    locks: map<Resource, nat>,
    next: int,  // the identity sequence of transfers
    log: seq<Op>,  // what has committed, in commit order
    clock: nat)  // how many sweeps have begun: it orders them and decides nothing

  datatype Step =
    | Begin(i: nat, request: Request)
    | LockHold(i: nat)
    | LockAccount(i: nat)
    | StartLocking(i: nat, ids: seq<Text>)
    | LockNext(i: nat)
    | TakeChain(i: nat)
    | ReadTail(i: nat)
    | Write(i: nat)
    | SkipId
    | CheckGuard(i: nat, a: Text)
    | CheckFunds(i: nat)
    | InsertHold(i: nat)
    | CloseHold(i: nat)
    | StartSweep(i: nat)
    | ExpireRow(i: nat, reference: Text)
    | MarkRow(i: nat)
    | Commit(i: nat)
    | Abort(i: nat)
    | CreateAccount(id: Text, account: Account)
    | ArchiveAccount(id: Text)

  const START: Sys := Sys(EMPTY, map[], map[], 1, [], 0)

  function Fresh(request: Request): Tx {
    Tx(request, Begun, None, [], map[], [], None, {}, {}, 0, {})
  }

  // ---- small views

  predicate Free(s: Sys, r: Resource, i: nat) {
    r in s.locks ==> s.locks[r] == i
  }

  function Owned(s: Sys, i: nat): set<Resource> {
    set r | r in s.locks && s.locks[r] == i
  }

  function Take(s: Sys, r: Resource, i: nat, tx: Tx): Sys {
    s.(locks := s.locks[r := i], txs := s.txs[i := tx])
  }

  function Put(s: Sys, i: nat, tx: Tx): Sys {
    s.(txs := s.txs[i := tx])
  }

  /** The transaction is gone and its locks with it. */
  function Drop(s: Sys, i: nat): Sys {
    s.(txs := s.txs - {i}, locks := map r | r in s.locks && s.locks[r] != i :: s.locks[r])
  }

  predicate Transfers(q: Request) {
    q.Posting? || q.Capturing?
  }

  /** The hold a transfer captures is left out of account by its guard. */
  function Exclude(q: Request): Option<Text> {
    if q.Capturing? then Some(q.reference) else None
  }

  predicate Sorted(ids: seq<Text>) {
    forall j, k :: 0 <= j < k < |ids| ==> Less(ids[j], ids[k])
  }

  // ---- when each statement can run

  ghost predicate Acceptable(db: Db, q: Request) {
    match q
    case Posting(d, at) => ValidationError(d) == None && ResolvedInstant(d, at)
    case Capturing(_, d, at, _) => ValidationError(d) == None && ResolvedInstant(d, at)
    case Holding(reference, _, amount, _) => reference != [] && amount.amount > 0
    case Releasing(_) => true
    case Expiring(_) => true
    case Marking(reference, now) => reference in db.holds && PastDue(db.holds[reference], now)
  }

  predicate CanLockHold(s: Sys, i: nat) {
    && i in s.txs
    && var tx := s.txs[i];
       && tx.stage == Begun
       && (tx.request.Capturing? || tx.request.Releasing?)
       && tx.request.reference in s.db.holds
       && Free(s, HoldLock(tx.request.reference), i)
       && s.db.holds[tx.request.reference].status == Active
       && (tx.request.Capturing? ==> !PastDue(s.db.holds[tx.request.reference], tx.request.now))
  }

  /** The account a transaction locks first: the one to reserve on, or the one the captured hold is on. */
  function FirstAccount(s: Sys, tx: Tx): Option<Text> {
    if tx.request.Holding? && tx.stage == Begun then Some(tx.request.account)
    else if tx.request.Capturing? && tx.stage == HoldRead && tx.request.reference in s.db.holds then
      Some(s.db.holds[tx.request.reference].account)
    else None
  }

  ghost predicate CanLockAccount(s: Sys, i: nat) {
    && i in s.txs
    && FirstAccount(s, s.txs[i]).Some?
    && var a := FirstAccount(s, s.txs[i]).value;
       && a in s.db.accounts
       && Free(s, RowLock(a), i)
       && (s.txs[i].request.Capturing? ==>
             0 < Spent(s.txs[i].request.d.postings, a, s.db.accounts[a].typ) <= s.db.holds[s.txs[i].request.reference].amount)
  }

  predicate CanStartLocking(s: Sys, i: nat, ids: seq<Text>) {
    && i in s.txs
    && ((s.txs[i].request.Posting? && s.txs[i].stage == Begun) || (s.txs[i].request.Capturing? && s.txs[i].stage == AccountRead))
    && Sorted(ids)
    && (set a | a in ids) == AccountsOf(s.txs[i].request.d.postings) * s.db.accounts.Keys
  }

  predicate CanLockNext(s: Sys, i: nat) {
    && i in s.txs
    && s.txs[i].stage == Locking
    && s.txs[i].todo != []
    && s.txs[i].todo[0] in s.db.accounts
    && Free(s, RowLock(s.txs[i].todo[0]), i)
  }

  predicate CanTakeChain(s: Sys, i: nat) {
    && i in s.txs
    && Transfers(s.txs[i].request)
    && s.txs[i].stage == Locking
    && s.txs[i].todo == []
    && LegsAdmitted(s.txs[i].seen, s.txs[i].request.d.postings)
    && Free(s, ChainLock, i)
  }

  predicate CanReadTail(s: Sys, i: nat) {
    i in s.txs && Transfers(s.txs[i].request) && s.txs[i].stage == Linking
  }

  ghost predicate CanWrite(s: Sys, i: nat) {
    && i in s.txs
    && Transfers(s.txs[i].request)
    && s.txs[i].stage == TailRead
    && 0 < s.next <= MAX_INT64
    && FreshReference(s.db.transfers, s.txs[i].request.d.reference)
    && LinkAllowed(s.db.transfers, s.txs[i].request.d.reverses)
    && MovementsFit(s.db.balances, Movements(s.txs[i].request.d.postings))
  }

  /** The transfer row as inserted: chained to the tail that this transaction read. */
  function Inserted(sha: Sha, tx: Tx, id: Int64): Row
    requires Transfers(tx.request)
  {
    var d := tx.request.d;
    var c := Content(d.reference, d.description, tx.request.at, d.reverses, d.postings);
    Row(id, c, tx.prev, Hash(sha, Preimage(tx.prev, c)))
  }

  /** The tables as the transaction itself sees them: committed rows plus its own writes. */
  ghost function View(db: Db, tx: Tx): Db {
    if Transfers(tx.request) && tx.row.Some? then
      db.(transfers := db.transfers + [tx.row.value], balances := Move(db.balances, Movements(tx.request.d.postings)))
    else db
  }

  ghost predicate CanCheckGuard(s: Sys, i: nat, a: Text) {
    && i in s.txs
    && Transfers(s.txs[i].request)
    && s.txs[i].stage == Written
    && a in s.txs[i].seen
    && a in s.db.accounts
    && !s.txs[i].seen[a].allowNegative
    && var avail := CodeAvailableOf(View(s.db, s.txs[i]), a, Exclude(s.txs[i].request));
       avail.Some? && avail.value >= 0
  }

  predicate AllPassed(tx: Tx) {
    forall a :: a in tx.seen && !tx.seen[a].allowNegative ==> a in tx.passed
  }

  ghost predicate CanCheckFunds(s: Sys, i: nat) {
    && i in s.txs
    && s.txs[i].request.Holding?
    && s.txs[i].stage == AccountRead
    && s.txs[i].request.account in s.txs[i].seen
    && s.txs[i].request.account in s.db.accounts
    && var q, acc := s.txs[i].request, s.txs[i].seen[s.txs[i].request.account];
       && !acc.archived
       && acc.currency == q.amount.currency
       && (!acc.allowNegative ==>
             var avail := CodeAvailableOf(s.db, q.account, None);
             avail.Some? && avail.value >= q.amount.amount)
  }

  predicate CanInsertHold(s: Sys, i: nat) {
    && i in s.txs
    && s.txs[i].request.Holding?
    && s.txs[i].stage == FundsSeen
    && s.txs[i].request.reference !in s.db.holds
    && Free(s, KeySlot(s.txs[i].request.reference), i)
  }

  predicate CanCloseHold(s: Sys, i: nat) {
    && i in s.txs
    && ((s.txs[i].request.Releasing? && s.txs[i].stage == HoldRead)
        || (s.txs[i].request.Capturing? && s.txs[i].stage == Written && AllPassed(s.txs[i])))
  }

  /** The rows an UPDATE of past-due holds finds when it begins. */
  function Due(db: Db, now: int): set<Text> {
    set r | r in db.holds && db.holds[r].status == Active && PastDue(db.holds[r], now)
  }

  predicate CanStartSweep(s: Sys, i: nat) {
    i in s.txs && s.txs[i].request.Expiring? && s.txs[i].stage == Begun
  }

  /** A row found at the start is visited in no particular order, and again found active once its lock is free. */
  predicate CanExpireRow(s: Sys, i: nat, reference: Text) {
    && i in s.txs
    && s.txs[i].request.Expiring?
    && s.txs[i].stage == Sweeping
    && reference in s.txs[i].due
    && reference in s.db.holds
    && Free(s, HoldLock(reference), i)
    && s.db.holds[reference].status == Active
  }

  /** A hold no longer active is not found, and then nothing is locked. */
  predicate CanMarkRow(s: Sys, i: nat) {
    && i in s.txs
    && s.txs[i].request.Marking?
    && s.txs[i].stage == Begun
    && s.txs[i].request.reference in s.db.holds
    && (s.db.holds[s.txs[i].request.reference].status == Active ==> Free(s, HoldLock(s.txs[i].request.reference), i))
  }

  /** Every row the sweep found at its start is marked, or has been closed by somebody else since. */
  predicate SweepDone(db: Db, tx: Tx) {
    forall r :: r in tx.due ==> r in tx.expired || (r in db.holds && db.holds[r].status != Active)
  }

  predicate CanCommit(s: Sys, i: nat) {
    && i in s.txs
    && var tx := s.txs[i];
       match tx.request
       case Posting(_, _) => tx.stage == Written && AllPassed(tx) && tx.row.Some?
       case Capturing(_, _, _, _) => tx.stage == Ready && tx.row.Some? && tx.request.reference in s.db.holds
       case Holding(_, _, _, _) => tx.stage == Ready
       case Releasing(_) => tx.stage == Ready && tx.request.reference in s.db.holds
       case Expiring(_) => tx.stage == Sweeping && SweepDone(s.db, tx)
       case Marking(_, _) => tx.stage == Ready
  }

  ghost predicate Enabled(sha: Sha, s: Sys, step: Step) {
    match step
    case Begin(i, q) => i !in s.txs && Acceptable(s.db, q)
    case LockHold(i) => CanLockHold(s, i)
    case LockAccount(i) => CanLockAccount(s, i)
    case StartLocking(i, ids) => CanStartLocking(s, i, ids)
    case LockNext(i) => CanLockNext(s, i)
    case TakeChain(i) => CanTakeChain(s, i)
    case ReadTail(i) => CanReadTail(s, i)
    case Write(i) => CanWrite(s, i)
    case SkipId => true
    case CheckGuard(i, a) => CanCheckGuard(s, i, a)
    case CheckFunds(i) => CanCheckFunds(s, i)
    case InsertHold(i) => CanInsertHold(s, i)
    case CloseHold(i) => CanCloseHold(s, i)
    case StartSweep(i) => CanStartSweep(s, i)
    case ExpireRow(i, r) => CanExpireRow(s, i, r)
    case MarkRow(i) => CanMarkRow(s, i)
    case Commit(i) => CanCommit(s, i)
    case Abort(i) => i in s.txs
    case CreateAccount(id, account) => OpOk(sha, s.db, Create(id, account))
    case ArchiveAccount(id) => id in s.db.accounts && RowLock(id) !in s.locks
  }

  // ---- what each statement does

  /** The operation a transaction amounts to. */
  function Committed(tx: Tx): Op
    requires Transfers(tx.request) ==> tx.row.Some?
  {
    match tx.request
    case Posting(d, at) => Post(d, tx.row.value.id, at)
    case Capturing(reference, d, at, now) => Capture(reference, d, tx.row.value.id, at, now)
    case Holding(reference, account, amount, expiresAt) => Hold(reference, account, amount, expiresAt)
    case Releasing(reference) => Release(reference)
    case Expiring(now) => Expire(tx.expired, now)
    case Marking(_, now) => Expire(tx.expired, now)
  }

  /** The committed tables once the transaction's own writes have become visible. */
  ghost function Applied(db: Db, tx: Tx): Db
    requires (tx.request.Capturing? || tx.request.Releasing?) ==> tx.request.reference in db.holds
    requires Transfers(tx.request) ==> tx.row.Some?
  {
    match tx.request
    case Posting(_, _) => View(db, tx)
    case Capturing(reference, _, _, _) =>
      View(db, tx).(holds := db.holds[reference := db.holds[reference].(status := Captured, transferId := Some(tx.row.value.id))])
    case Holding(reference, account, amount, expiresAt) =>
      db.(holds := db.holds[reference := HoldRow(account, amount.amount, amount.currency, Active, Truncated(expiresAt), None)])
    case Releasing(reference) =>
      db.(holds := db.holds[reference := db.holds[reference].(status := Released)])
    case Expiring(_) =>
      db.(holds := CloseAll(db.holds, tx.expired, Expired))
    case Marking(_, _) =>
      db.(holds := CloseAll(db.holds, tx.expired, Expired))
  }

  ghost function After(sha: Sha, s: Sys, step: Step): Sys
    requires Enabled(sha, s, step)
  {
    match step
    case Begin(i, q) => Put(s, i, Fresh(q))
    case LockHold(i) => Take(s, HoldLock(s.txs[i].request.reference), i, s.txs[i].(stage := HoldRead))
    case LockAccount(i) =>
      var a := FirstAccount(s, s.txs[i]).value;
      Take(s, RowLock(a), i, s.txs[i].(stage := AccountRead, first := Some(a), seen := s.txs[i].seen[a := s.db.accounts[a]]))
    case StartLocking(i, ids) => Put(s, i, s.txs[i].(stage := Locking, todo := ids))
    case LockNext(i) =>
      var a := s.txs[i].todo[0];
      Take(s, RowLock(a), i, s.txs[i].(todo := s.txs[i].todo[1..], seen := s.txs[i].seen[a := s.db.accounts[a]]))
    case TakeChain(i) => Take(s, ChainLock, i, s.txs[i].(stage := Linking))
    case ReadTail(i) => Put(s, i, s.txs[i].(stage := TailRead, prev := TailHash([], s.db.transfers)))
    case Write(i) => Put(s, i, s.txs[i].(stage := Written, row := Some(Inserted(sha, s.txs[i], s.next)))).(next := s.next + 1)
    case SkipId => s.(next := s.next + 1)
    case CheckGuard(i, a) => Put(s, i, s.txs[i].(passed := s.txs[i].passed + {a}))
    case CheckFunds(i) => Put(s, i, s.txs[i].(stage := FundsSeen))
    case InsertHold(i) => Take(s, KeySlot(s.txs[i].request.reference), i, s.txs[i].(stage := Ready))
    case CloseHold(i) => Put(s, i, s.txs[i].(stage := Ready))
    case StartSweep(i) =>
      Put(s, i, s.txs[i].(stage := Sweeping, due := Due(s.db, s.txs[i].request.now), started := s.clock)).(clock := s.clock + 1)
    case ExpireRow(i, r) => Take(s, HoldLock(r), i, s.txs[i].(expired := s.txs[i].expired + {r}))
    case MarkRow(i) =>
      var r := s.txs[i].request.reference;
      if s.db.holds[r].status == Active then Take(s, HoldLock(r), i, s.txs[i].(stage := Ready, expired := {r}))
      else Put(s, i, s.txs[i].(stage := Ready))
    case Commit(i) => Drop(s, i).(db := Applied(s.db, s.txs[i]), log := s.log + [Committed(s.txs[i])])
    case Abort(i) => Drop(s, i)
    case CreateAccount(id, account) => s.(db := OpDb(sha, s.db, Create(id, account)), log := s.log + [Create(id, account)])
    case ArchiveAccount(id) => s.(db := OpDb(sha, s.db, Archive(id)), log := s.log + [Archive(id)])
  }

  /** The state after an interleaving of statements, if each could run when its turn came. */
  ghost function Execute(sha: Sha, steps: seq<Step>): Option<Sys> {
    if steps == [] then Some(START)
    else
      match Execute(sha, steps[..|steps| - 1])
      case None => None
      case Some(s) => if Enabled(sha, s, steps[|steps| - 1]) then Some(After(sha, s, steps[|steps| - 1])) else None
  }
}
