/** Every interleaving commits what a serial run of the committed operations, in commit order, would. */
module Serializability {
  import opened Int64Math
  import opened Sums
  import opened Domain
  import opened Drafts
  import opened ChainEncoding
  import opened ChainHistory
  import opened Books
  import opened BooksInvariants
  import opened Guard
  import opened Holds
  import opened LedgerEngine
  import opened Transactions

  // ---- what an open transaction may rely on while it holds its locks

  ghost predicate SeenOk(db: Db, owned: set<Resource>, tx: Tx) {
    forall a :: a in tx.seen ==> a in db.accounts && tx.seen[a] == db.accounts[a] && RowLock(a) in owned
  }

  ghost predicate TransferOk(sha: Sha, db: Db, owned: set<Resource>, tx: Tx, next: int)
    requires Transfers(tx.request)
  {
    && (tx.stage in {Linking, TailRead, Written, Ready} ==> ChainLock in owned && LegsAdmitted(tx.seen, tx.request.d.postings))
    && (tx.stage in {TailRead, Written, Ready} ==> tx.prev == TailHash([], db.transfers))
    && (tx.stage !in {Written, Ready} ==> tx.row == None && tx.passed == {})
    && (tx.stage in {Written, Ready} ==> tx.row.Some? && WrittenOk(sha, db, tx, tx.row.value.id) && tx.row.value.id < next)
    && (tx.stage == Ready ==> AllPassed(tx))
  }

  ghost predicate WrittenOk(sha: Sha, db: Db, tx: Tx, id: Int64)
    requires Transfers(tx.request)
  {
    && tx.row == Some(NewRow(sha, db.transfers, tx.request.d, id, tx.request.at))
    && Postable(db, tx.request.d, id, tx.request.at)
    && forall a :: a in tx.passed ==> a in db.accounts && a in tx.seen && Available(View(db, tx), a, Exclude(tx.request)) >= 0
  }

  ghost predicate HoldLocked(db: Db, owned: set<Resource>, reference: Text) {
    HoldLock(reference) in owned && reference in db.holds && db.holds[reference].status == Active
  }

  ghost predicate CaptureStageOk(db: Db, owned: set<Resource>, tx: Tx)
    requires tx.request.Capturing?
  {
    && (tx.stage != Begun ==>
          HoldLocked(db, owned, tx.request.reference) && !PastDue(db.holds[tx.request.reference], tx.request.now))
    && (tx.stage !in {Begun, HoldRead} ==>
          var h := db.holds[tx.request.reference];
          h.account in tx.seen && 0 < Spent(tx.request.d.postings, h.account, tx.seen[h.account].typ) <= h.amount)
  }

  ghost predicate HoldingOk(db: Db, owned: set<Resource>, tx: Tx)
    requires tx.request.Holding?
  {
    && (tx.stage in {AccountRead, FundsSeen, Ready} ==> tx.request.account in tx.seen)
    && (tx.stage in {FundsSeen, Ready} ==> FundsOk(db, tx))
    && (tx.stage == Ready ==> KeySlot(tx.request.reference) in owned && tx.request.reference !in db.holds)
  }

  ghost predicate FundsOk(db: Db, tx: Tx)
    requires tx.request.Holding?
  {
    && tx.request.account in tx.seen
    && tx.request.account in db.accounts
    && var acc := tx.seen[tx.request.account];
       && !acc.archived
       && acc.currency == tx.request.amount.currency
       && (!acc.allowNegative ==> Available(db, tx.request.account, None) >= tx.request.amount.amount)
  }

  /** A sweep has marked only holds it found, and every hold it found is still there and past due. */
  ghost predicate SweepOk(db: Db, owned: set<Resource>, tx: Tx, now: int) {
    && tx.expired <= tx.due
    && (forall r :: r in tx.due ==> r in db.holds && PastDue(db.holds[r], now))
    && (forall r :: r in tx.expired ==> HoldLocked(db, owned, r))
  }

  ghost predicate MarkOk(db: Db, owned: set<Resource>, tx: Tx, reference: Text) {
    && tx.expired <= {reference}
    && (forall r :: r in tx.expired ==> HoldLocked(db, owned, r))
    && (tx.stage == Ready && tx.expired == {} ==> reference in db.holds && db.holds[reference].status != Active)
  }

  ghost predicate TxOk(sha: Sha, db: Db, owned: set<Resource>, tx: Tx, next: int) {
    && SeenOk(db, owned, tx)
    && Acceptable(db, tx.request)
    && match tx.request
       case Posting(_, _) => TransferOk(sha, db, owned, tx, next)
       case Capturing(_, _, _, _) => TransferOk(sha, db, owned, tx, next) && CaptureStageOk(db, owned, tx)
       case Holding(_, _, _, _) => HoldingOk(db, owned, tx)
       case Releasing(reference) => tx.stage != Begun ==> HoldLocked(db, owned, reference)
       case Expiring(now) => SweepOk(db, owned, tx, now)
       case Marking(reference, _) => MarkOk(db, owned, tx, reference)
  }

  ghost predicate SysInv(sha: Sha, s: Sys) {
    && Replay(sha, s.log) == Some(s.db)
    && LastId(s.db.transfers) < s.next && 0 < s.next
    && (forall r :: r in s.locks ==> s.locks[r] in s.txs)
    && forall i :: i in s.txs ==> TxOk(sha, s.db, Owned(s, i), s.txs[i], s.next)
  }

  // ---- what a commit may change for the others

  /** Rows change only under the locks in held; without the account's lock its held total can only fall. */
  ghost predicate ChangesOnly(from: Db, to: Db, held: set<Resource>) {
    && (forall a :: a in from.accounts ==> a in to.accounts)
    && (forall a :: a in from.accounts && RowLock(a) !in held ==>
          to.accounts[a] == from.accounts[a] && Balance(to.balances, a) == Balance(from.balances, a))
    && from.transfers <= to.transfers
    && (ChainLock !in held ==> to.transfers == from.transfers)
    && (forall r :: r in from.holds && HoldLock(r) !in held ==> r in to.holds && to.holds[r] == from.holds[r])
    && (forall r :: r in to.holds && KeySlot(r) !in held ==> r in from.holds)
    && (forall a, x :: RowLock(a) !in held ==> Held(to.holds, a, x) <= Held(from.holds, a, x))
  }

  /** What is known of an account row under lock survives. */
  lemma SeenStays(from: Db, to: Db, held: set<Resource>, owned: set<Resource>, tx: Tx)
    requires ChangesOnly(from, to, held) && owned !! held && SeenOk(from, owned, tx)
    ensures SeenOk(to, owned, tx)
    ensures forall a :: a in tx.seen ==> Balance(to.balances, a) == Balance(from.balances, a)
  {
    hide Held, Balance;
  }

  lemma LegsSeen(db: Db, owned: set<Resource>, tx: Tx, ps: seq<Posting>)
    requires SeenOk(db, owned, tx) && LegsAdmitted(tx.seen, ps)
    ensures LegsAdmitted(db.accounts, ps) && AccountsOf(ps) <= tx.seen.Keys
  {
  }

  lemma FitStays(from: Db, to: Db, ps: seq<Posting>)
    requires MovementsFit(from.balances, Movements(ps))
    requires forall a :: a in AccountsOf(ps) ==> Balance(to.balances, a) == Balance(from.balances, a)
    ensures MovementsFit(to.balances, Movements(ps))
  {
    hide Wrap, Sum, Balance;
  }

  lemma PassedStays(from: Db, to: Db, held: set<Resource>, owned: set<Resource>, tx: Tx, a: Text)
    requires ChangesOnly(from, to, held) && owned !! held
    requires Transfers(tx.request) && tx.row.Some?
    requires a in from.accounts && a in to.accounts && RowLock(a) in owned
    requires MovementsFit(from.balances, Movements(tx.request.d.postings))
    requires MovementsFit(to.balances, Movements(tx.request.d.postings))
    requires Available(View(from, tx), a, Exclude(tx.request)) >= 0
    ensures Available(View(to, tx), a, Exclude(tx.request)) >= 0
  {
    hide Movements, Move, MovementsFit, Held;
    MoveMeans(from.balances, tx.request.d.postings, a);
    MoveMeans(to.balances, tx.request.d.postings, a);
    assert Held(to.holds, a, Exclude(tx.request)) <= Held(from.holds, a, Exclude(tx.request));
  }

  lemma TransferStays(sha: Sha, from: Db, to: Db, held: set<Resource>, owned: set<Resource>, tx: Tx, next: int, next': int)
    requires ChangesOnly(from, to, held) && owned !! held && next <= next'
    requires SeenOk(from, owned, tx) && Transfers(tx.request) && TransferOk(sha, from, owned, tx, next)
    ensures TransferOk(sha, to, owned, tx, next')
  {
    hide Held, Movements, MovementsFit, Available, ValidationError, FreshReference, LinkAllowed, NewRow;
    SeenStays(from, to, held, owned, tx);
    if tx.stage in {Written, Ready} {
      var ps := tx.request.d.postings;
      LegsSeen(from, owned, tx, ps);
      LegsSeen(to, owned, tx, ps);
      FitStays(from, to, ps);
      forall a | a in tx.passed
        ensures a in to.accounts && a in tx.seen && Available(View(to, tx), a, Exclude(tx.request)) >= 0
      {
        PassedStays(from, to, held, owned, tx, a);
      }
    }
  }

  lemma HoldingStays(from: Db, to: Db, held: set<Resource>, owned: set<Resource>, tx: Tx)
    requires ChangesOnly(from, to, held) && owned !! held
    requires SeenOk(from, owned, tx) && tx.request.Holding? && HoldingOk(from, owned, tx)
    ensures HoldingOk(to, owned, tx)
  {
    hide Held;
    SeenStays(from, to, held, owned, tx);
    if tx.stage in {FundsSeen, Ready} {
      assert Held(to.holds, tx.request.account, None) <= Held(from.holds, tx.request.account, None);
    }
  }

  /** A transaction that holds disjoint locks is not disturbed. */
  lemma Undisturbed(sha: Sha, from: Db, to: Db, held: set<Resource>, owned: set<Resource>, tx: Tx, next: int, next': int)
    requires ChangesOnly(from, to, held) && HoldsAdvance(from, to) && owned !! held && next <= next'
    requires TxOk(sha, from, owned, tx, next)
    ensures TxOk(sha, to, owned, tx, next')
  {
    SeenStays(from, to, held, owned, tx);
    if Transfers(tx.request) {
      TransferStays(sha, from, to, held, owned, tx, next, next');
    }
    if tx.request.Holding? {
      HoldingStays(from, to, held, owned, tx);
    }
    hide Held, TransferOk, HoldingOk, SeenOk, ValidationError, Spent, Balance;
  }

  // ---- a commit is the serial operation

  lemma ViewIsPosted(sha: Sha, db: Db, tx: Tx, id: Int64)
    requires Transfers(tx.request) && tx.row == Some(NewRow(sha, db.transfers, tx.request.d, id, tx.request.at))
    ensures View(db, tx) == PostedDb(sha, db, tx.request.d, id, tx.request.at)
  {
    hide NewRow, Move, Movements;
  }

  lemma CommitIsFunded(sha: Sha, db: Db, owned: set<Resource>, tx: Tx, next: int)
    requires SeenOk(db, owned, tx) && Transfers(tx.request) && TransferOk(sha, db, owned, tx, next)
    requires tx.stage in {Written, Ready} && AllPassed(tx)
    ensures PostOk(sha, db, tx.request.d, tx.row.value.id, tx.request.at, Exclude(tx.request))
    ensures View(db, tx) == PostedDb(sha, db, tx.request.d, tx.row.value.id, tx.request.at)
  {
    hide Available, Postable, View, PostedDb, NewRow;
    var d, id := tx.request.d, tx.row.value.id;
    LegsSeen(db, owned, tx, d.postings);
    ViewIsPosted(sha, db, tx, id);
    SameAccounts(sha, db, d, id, tx.request.at);
  }

  lemma CommitIsSerial(sha: Sha, s: Sys, i: nat)
    requires CanCommit(s, i) && TxOk(sha, s.db, Owned(s, i), s.txs[i], s.next)
    ensures OpOk(sha, s.db, Committed(s.txs[i]))
    ensures OpDb(sha, s.db, Committed(s.txs[i])) == Applied(s.db, s.txs[i])
  {
    hide Available, Postable, PostedDb, NewRow, View, ValidationError, PostOk, Owned, Spent;
    var tx := s.txs[i];
    if Transfers(tx.request) {
      CommitIsFunded(sha, s.db, Owned(s, i), tx, s.next);
    }
  }

  // ---- and disturbs nobody else

  lemma HeldSame(holds: map<Text, HoldRow>, to: map<Text, HoldRow>, held: set<Resource>)
    requires to == holds
    ensures forall a, x :: RowLock(a) !in held ==> Held(to, a, x) <= Held(holds, a, x)
  {
  }

  lemma HeldAfterClosing(holds: map<Text, HoldRow>, to: map<Text, HoldRow>)
    requires forall r :: r in holds ==> holds[r].amount > 0
    requires to.Keys == holds.Keys
    requires forall r :: r in holds ==> to[r] == holds[r] || (to[r].status != Active && to[r].amount == holds[r].amount)
    ensures forall a, x :: Held(to, a, x) <= Held(holds, a, x)
  {
    hide Held;
    forall a, x
      ensures Held(to, a, x) <= Held(holds, a, x)
    {
      HeldShrinks(to, holds, a, x, x);
    }
  }

  lemma HeldAfterHold(holds: map<Text, HoldRow>, reference: Text, row: HoldRow, held: set<Resource>)
    requires reference !in holds && RowLock(row.account) in held
    ensures forall a, x :: RowLock(a) !in held ==> Held(holds[reference := row], a, x) <= Held(holds, a, x)
  {
    hide SumMap;
    forall a, x | RowLock(a) !in held
      ensures Held(holds[reference := row], a, x) <= Held(holds, a, x)
    {
      assert HeldAmounts(holds[reference := row], a, x) == HeldAmounts(holds, a, x);
    }
  }

  lemma PositiveAmounts(db: Db)
    requires HoldsSound(db)
    ensures forall r :: r in db.holds ==> db.holds[r].amount > 0
  {
  }

  lemma TransferDisturbs(sha: Sha, db: Db, owned: set<Resource>, tx: Tx, next: int)
    requires SeenOk(db, owned, tx) && Transfers(tx.request) && TransferOk(sha, db, owned, tx, next)
    requires tx.stage in {Written, Ready}
    ensures ChangesOnly(db, View(db, tx), owned)
  {
    hide Held, Movements, Move, MovementsFit, Available, ValidationError, FreshReference, LinkAllowed, NewRow, AccountsOf;
    var to, ps := View(db, tx), tx.request.d.postings;
    LegsSeen(db, owned, tx, ps);
    HeldSame(db.holds, to.holds, owned);
    forall a | a in db.accounts && RowLock(a) !in owned
      ensures Balance(to.balances, a) == Balance(db.balances, a)
    {
      assert a !in tx.seen;
      MoveMeans(db.balances, ps, a);
      UntouchedDelta(ps, a);
      WrapFits(0);
    }
  }

  lemma ClosingDisturbs(from: Db, to: Db, owned: set<Resource>)
    requires forall r :: r in from.holds ==> from.holds[r].amount > 0
    requires to == from.(holds := to.holds) && to.holds.Keys == from.holds.Keys
    requires forall r :: r in from.holds ==>
               || to.holds[r] == from.holds[r]
               || (HoldLock(r) in owned && to.holds[r].status != Active && to.holds[r].amount == from.holds[r].amount)
    ensures ChangesOnly(from, to, owned)
  {
    hide Held, Balance;
    HeldAfterClosing(from.holds, to.holds);
  }

  lemma ChangesTwice(a: Db, b: Db, c: Db, held: set<Resource>)
    requires ChangesOnly(a, b, held) && ChangesOnly(b, c, held)
    ensures ChangesOnly(a, c, held)
  {
    hide Held, Balance;
    forall x, y | RowLock(x) !in held
      ensures Held(c.holds, x, y) <= Held(a.holds, x, y)
    {
      assert Held(c.holds, x, y) <= Held(b.holds, x, y) <= Held(a.holds, x, y);
    }
  }

  /** A capture changes what its transfer changes, and then closes its hold. */
  lemma CaptureDisturbs(sha: Sha, db: Db, owned: set<Resource>, tx: Tx, next: int)
    requires HoldsSound(db)
    requires SeenOk(db, owned, tx) && tx.request.Capturing? && TransferOk(sha, db, owned, tx, next)
    requires CaptureStageOk(db, owned, tx) && tx.stage == Ready
    ensures ChangesOnly(db, Applied(db, tx), owned)
  {
    TransferDisturbs(sha, db, owned, tx, next);
    PositiveAmounts(db);
    hide ChangesOnly, Move, Movements, TransferOk, SeenOk, HoldsSound, Spent;
    ClosingDisturbs(View(db, tx), Applied(db, tx), owned);
    ChangesTwice(db, View(db, tx), Applied(db, tx), owned);
  }

  lemma CommitDisturbs(sha: Sha, s: Sys, i: nat)
    requires HoldsSound(s.db)
    requires CanCommit(s, i) && TxOk(sha, s.db, Owned(s, i), s.txs[i], s.next)
    ensures ChangesOnly(s.db, Applied(s.db, s.txs[i]), Owned(s, i))
  {
    var tx, owned, to := s.txs[i], Owned(s, i), Applied(s.db, s.txs[i]);
    PositiveAmounts(s.db);
    hide Held, View, Owned, TransferOk, ValidationError, Spent, Balance, HoldsSound;
    match tx.request
    case Posting(_, _) => TransferDisturbs(sha, s.db, owned, tx, s.next);
    case Capturing(_, _, _, _) => CaptureDisturbs(sha, s.db, owned, tx, s.next);
    case Holding(reference, account, _, _) => HeldAfterHold(s.db.holds, reference, to.holds[reference], owned);
    case Releasing(_) => ClosingDisturbs(s.db, to, owned);
    case Expiring(_) => ClosingDisturbs(s.db, to, owned);
    case Marking(_, _) => ClosingDisturbs(s.db, to, owned);
  }

  // ---- each statement keeps the invariant

  lemma NextGrows(sha: Sha, db: Db, owned: set<Resource>, tx: Tx, next: int, next': int)
    requires TxOk(sha, db, owned, tx, next) && next <= next'
    ensures TxOk(sha, db, owned, tx, next')
  {
    hide WrittenOk, SeenOk, Acceptable, HoldingOk, CaptureStageOk;
  }

  lemma PutKeeps(sha: Sha, s: Sys, i: nat, tx: Tx, next: int)
    requires SysInv(sha, s) && s.next <= next
    requires TxOk(sha, s.db, Owned(s, i), tx, next)
    ensures SysInv(sha, Put(s, i, tx).(next := next))
  {
    hide TxOk, Replay, LastId;
    var t := Put(s, i, tx).(next := next);
    forall j | j in t.txs
      ensures TxOk(sha, t.db, Owned(t, j), t.txs[j], t.next)
    {
      assert Owned(t, j) == Owned(s, j);
      if j != i {
        NextGrows(sha, s.db, Owned(s, j), s.txs[j], s.next, next);
      }
    }
  }

  lemma TakeKeeps(sha: Sha, s: Sys, r: Resource, i: nat, tx: Tx)
    requires SysInv(sha, s) && i in s.txs && Free(s, r, i)
    requires TxOk(sha, s.db, Owned(s, i) + {r}, tx, s.next)
    ensures SysInv(sha, Take(s, r, i, tx))
  {
    hide TxOk, Replay, LastId;
    var t := Take(s, r, i, tx);
    forall j | j in t.txs
      ensures TxOk(sha, t.db, Owned(t, j), t.txs[j], t.next)
    {
      assert Owned(t, j) == if j == i then Owned(s, i) + {r} else Owned(s, j);
    }
  }

  lemma AbortKeeps(sha: Sha, s: Sys, i: nat)
    requires SysInv(sha, s)
    ensures SysInv(sha, Drop(s, i))
  {
    hide TxOk, Replay, LastId;
    var t := Drop(s, i);
    forall j | j in t.txs
      ensures TxOk(sha, t.db, Owned(t, j), t.txs[j], t.next)
    {
      assert Owned(t, j) == Owned(s, j);
    }
  }

  lemma CommittedBooks(sha: Sha, s: Sys)
    requires SysInv(sha, s)
    ensures Inv(sha, s.db)
  {
    hide TxOk, Inv, Replay;
    RunsKeep(sha, s.log);
  }

  lemma ReplayOneMore(sha: Sha, log: seq<Op>, db: Db, op: Op)
    requires Replay(sha, log) == Some(db) && OpOk(sha, db, op)
    ensures Replay(sha, log + [op]) == Some(OpDb(sha, db, op))
  {
    hide OpOk, OpDb;
    assert (log + [op])[..|log|] == log;
  }

  /** The committed rows moved on by one operation that disturbed nobody. */
  lemma MoveOn(sha: Sha, s: Sys, t: Sys, op: Op, held: set<Resource>)
    requires SysInv(sha, s) && OpOk(sha, s.db, op)
    requires t.db == OpDb(sha, s.db, op) && t.log == s.log + [op] && t.next == s.next
    requires ChangesOnly(s.db, t.db, held) && LastId(t.db.transfers) < s.next
    requires t.txs.Keys <= s.txs.Keys && t.locks.Keys <= s.locks.Keys
    requires forall r :: r in t.locks ==> t.locks[r] == s.locks[r] && t.locks[r] in t.txs
    requires forall j :: j in t.txs ==> t.txs[j] == s.txs[j] && Owned(t, j) == Owned(s, j) && Owned(s, j) !! held
    ensures SysInv(sha, t)
  {
    hide TxOk, Replay, LastId, OpOk, OpDb, ChangesOnly, HoldsAdvance, Owned;
    ReplayOneMore(sha, s.log, s.db, op);
    OpAdvances(sha, s.db, op);
    forall j | j in t.txs
      ensures TxOk(sha, t.db, Owned(t, j), t.txs[j], t.next)
    {
      Undisturbed(sha, s.db, t.db, held, Owned(s, j), s.txs[j], s.next, t.next);
    }
  }

  lemma CommitNumbers(sha: Sha, s: Sys, i: nat)
    requires SysInv(sha, s) && CanCommit(s, i)
    ensures LastId(Applied(s.db, s.txs[i]).transfers) < s.next
  {
    hide Replay, Owned, Move, Movements, Postable, Available, Spent, HoldLocked, SeenOk, Acceptable, HoldingOk, NewRow;
    assert TxOk(sha, s.db, Owned(s, i), s.txs[i], s.next);
  }

  lemma DropFrees(s: Sys, i: nat)
    requires forall r :: r in s.locks ==> s.locks[r] in s.txs
    ensures var t := Drop(s, i);
            && t.txs.Keys <= s.txs.Keys && t.locks.Keys <= s.locks.Keys
            && (forall r :: r in t.locks ==> t.locks[r] == s.locks[r] && t.locks[r] in t.txs)
            && (forall j :: j in t.txs ==> t.txs[j] == s.txs[j] && Owned(t, j) == Owned(s, j) && Owned(s, j) !! Owned(s, i))
  {
  }

  lemma CommitKeeps(sha: Sha, s: Sys, i: nat)
    requires SysInv(sha, s) && CanCommit(s, i)
    ensures SysInv(sha, Drop(s, i).(db := Applied(s.db, s.txs[i]), log := s.log + [Committed(s.txs[i])]))
  {
    CommitNumbers(sha, s, i);
    CommittedBooks(sha, s);
    DropFrees(s, i);
    assert TxOk(sha, s.db, Owned(s, i), s.txs[i], s.next);
    hide SysInv, Replay, Applied, TxOk, OpOk, OpDb, ChangesOnly, LastId, CanCommit, HoldsSound, Chained, Linked, Guarded, Cached,
         Owned, RowsAdmitted, Numbered, Keyed;
    CommitIsSerial(sha, s, i);
    CommitDisturbs(sha, s, i);
    MoveOn(sha, s, Drop(s, i).(db := Applied(s.db, s.txs[i]), log := s.log + [Committed(s.txs[i])]), Committed(s.txs[i]), Owned(s, i));
  }

  lemma CreateDisturbs(sha: Sha, db: Db, id: Text, account: Account)
    requires Keyed(db) && OpOk(sha, db, Create(id, account))
    ensures ChangesOnly(db, OpDb(sha, db, Create(id, account)), {})
  {
    HeldSame(db.holds, db.holds, {});
    hide Held;
  }

  lemma CreateKeepsSys(sha: Sha, s: Sys, id: Text, account: Account)
    requires SysInv(sha, s) && OpOk(sha, s.db, Create(id, account))
    ensures SysInv(sha, After(sha, s, CreateAccount(id, account)))
  {
    CommittedBooks(sha, s);
    hide Replay, TxOk, ChangesOnly, Chained, Linked, Guarded, Cached, HoldsSound;
    CreateDisturbs(sha, s.db, id, account);
    var t := After(sha, s, CreateAccount(id, account));
    forall j | j in t.txs
      ensures Owned(t, j) == Owned(s, j) && Owned(s, j) !! {}
    {
    }
    MoveOn(sha, s, t, Create(id, account), {});
  }

  lemma ArchiveDisturbs(sha: Sha, db: Db, id: Text)
    requires id in db.accounts
    ensures ChangesOnly(db, OpDb(sha, db, Archive(id)), {RowLock(id)})
  {
    HeldSame(db.holds, db.holds, {RowLock(id)});
    hide Held;
  }

  lemma ArchiveKeepsSys(sha: Sha, s: Sys, id: Text)
    requires SysInv(sha, s) && id in s.db.accounts && RowLock(id) !in s.locks
    ensures SysInv(sha, After(sha, s, ArchiveAccount(id)))
  {
    hide Replay, TxOk, ChangesOnly;
    ArchiveDisturbs(sha, s.db, id);
    var t := After(sha, s, ArchiveAccount(id));
    forall j | j in t.txs
      ensures Owned(t, j) == Owned(s, j) && Owned(s, j) !! {RowLock(id)}
    {
    }
    MoveOn(sha, s, t, Archive(id), {RowLock(id)});
  }

  // ---- what the moving transaction may rely on afterwards

  lemma HoldLockOk(sha: Sha, s: Sys, i: nat)
    requires SysInv(sha, s) && CanLockHold(s, i)
    ensures var r := HoldLock(s.txs[i].request.reference);
            TxOk(sha, s.db, Owned(s, i) + {r}, s.txs[i].(stage := HoldRead), s.next)
  {
    hide Replay, Owned, LastId, ValidationError;
    assert TxOk(sha, s.db, Owned(s, i), s.txs[i], s.next);
  }

  lemma AccountLockOk(sha: Sha, s: Sys, i: nat)
    requires SysInv(sha, s) && CanLockAccount(s, i)
    ensures var a := FirstAccount(s, s.txs[i]).value;
            TxOk(sha, s.db, Owned(s, i) + {RowLock(a)},
                 s.txs[i].(stage := AccountRead, first := Some(a), seen := s.txs[i].seen[a := s.db.accounts[a]]), s.next)
  {
    hide Replay, Owned, LastId, ValidationError, Spent;
    assert TxOk(sha, s.db, Owned(s, i), s.txs[i], s.next);
  }

  lemma StartLockingOk(sha: Sha, s: Sys, i: nat, ids: seq<Text>)
    requires SysInv(sha, s) && CanStartLocking(s, i, ids)
    ensures TxOk(sha, s.db, Owned(s, i), s.txs[i].(stage := Locking, todo := ids), s.next)
  {
    hide Replay, Owned, LastId, ValidationError, Spent, Sorted;
    assert TxOk(sha, s.db, Owned(s, i), s.txs[i], s.next);
  }

  /** A further account row, read under its own lock. */
  lemma LockNextOk(sha: Sha, s: Sys, i: nat)
    requires SysInv(sha, s) && CanLockNext(s, i)
    ensures var tx, a := s.txs[i], s.txs[i].todo[0];
            TxOk(sha, s.db, Owned(s, i) + {RowLock(a)},
                 tx.(todo := tx.todo[1..], seen := tx.seen[a := s.db.accounts[a]]), s.next)
  {
    hide Replay, Owned, LastId, ValidationError, Spent;
    assert TxOk(sha, s.db, Owned(s, i), s.txs[i], s.next);
  }

  lemma ChainOk(sha: Sha, s: Sys, i: nat)
    requires SysInv(sha, s) && CanTakeChain(s, i)
    ensures TxOk(sha, s.db, Owned(s, i) + {ChainLock}, s.txs[i].(stage := Linking), s.next)
  {
    hide Replay, Owned, LastId, ValidationError, Spent;
    assert TxOk(sha, s.db, Owned(s, i), s.txs[i], s.next);
  }

  lemma TailOk(sha: Sha, s: Sys, i: nat)
    requires SysInv(sha, s) && CanReadTail(s, i)
    ensures TxOk(sha, s.db, Owned(s, i), s.txs[i].(stage := TailRead, prev := TailHash([], s.db.transfers)), s.next)
  {
    hide Replay, Owned, LastId, ValidationError, Spent;
    assert TxOk(sha, s.db, Owned(s, i), s.txs[i], s.next);
  }

  lemma WriteOk(sha: Sha, s: Sys, i: nat)
    requires SysInv(sha, s) && CanWrite(s, i)
    ensures TxOk(sha, s.db, Owned(s, i), s.txs[i].(stage := Written, row := Some(Inserted(sha, s.txs[i], s.next))), s.next + 1)
  {
    hide Replay, Owned, ValidationError, Spent, MovementsFit, Movements, FreshReference, LinkAllowed, Available, Preimage, Hash;
    var tx := s.txs[i];
    assert TxOk(sha, s.db, Owned(s, i), tx, s.next);
    LegsSeen(s.db, Owned(s, i), tx, tx.request.d.postings);
  }

  /** What the int64 guard let through is covered over the integers. */
  lemma GuardFact(sha: Sha, db: Db, tx: Tx, id: Int64, a: Text)
    requires Inv(sha, db) && Transfers(tx.request) && WrittenOk(sha, db, tx, id)
    requires a in db.accounts && !db.accounts[a].allowNegative
    requires CodeAvailableOf(View(db, tx), a, Exclude(tx.request)).Some?
    requires CodeAvailableOf(View(db, tx), a, Exclude(tx.request)).value >= 0
    ensures Available(View(db, tx), a, Exclude(tx.request)) >= 0
  {
    ViewIsPosted(sha, db, tx, id);
    hide View, PostedDb, Postable, CodeAvailableOf, Available, Representable, NewRow, Guarded, HoldsSound,
         Chained, Linked, Cached, RowsAdmitted, Numbered, Keyed;
    GuardAgreesAt(sha, db, tx.request.d, id, tx.request.at, Exclude(tx.request), a);
  }

  lemma GuardPasses(sha: Sha, db: Db, tx: Tx, id: Int64, a: Text)
    requires Inv(sha, db) && Transfers(tx.request) && WrittenOk(sha, db, tx, id)
    requires a in tx.seen && a in db.accounts && !db.accounts[a].allowNegative
    requires CodeAvailableOf(View(db, tx), a, Exclude(tx.request)).Some?
    requires CodeAvailableOf(View(db, tx), a, Exclude(tx.request)).value >= 0
    ensures WrittenOk(sha, db, tx.(passed := tx.passed + {a}), id)
  {
    GuardFact(sha, db, tx, id, a);
    hide Inv, Available, CodeAvailableOf, Postable, NewRow, Move, Movements;
    assert View(db, tx.(passed := tx.passed + {a})) == View(db, tx);
  }

  lemma PassOk(sha: Sha, db: Db, owned: set<Resource>, tx: Tx, next: int, a: Text)
    requires TxOk(sha, db, owned, tx, next) && Transfers(tx.request) && tx.stage == Written
    requires WrittenOk(sha, db, tx.(passed := tx.passed + {a}), tx.row.value.id)
    ensures TxOk(sha, db, owned, tx.(passed := tx.passed + {a}), next)
  {
    hide WrittenOk, ValidationError, Spent, LegsAdmitted;
  }

  lemma GuardOk(sha: Sha, s: Sys, i: nat, a: Text)
    requires SysInv(sha, s) && CanCheckGuard(s, i, a)
    ensures TxOk(sha, s.db, Owned(s, i), s.txs[i].(passed := s.txs[i].passed + {a}), s.next)
  {
    var tx := s.txs[i];
    CommittedBooks(sha, s);
    assert TxOk(sha, s.db, Owned(s, i), tx, s.next);
    hide SysInv, Owned, CodeAvailableOf, Inv, WrittenOk, View, Acceptable, CaptureStageOk, HoldingOk;
    GuardPasses(sha, s.db, tx, tx.row.value.id, a);
    PassOk(sha, s.db, Owned(s, i), tx, s.next, a);
  }

  lemma FundsSeenOk(sha: Sha, s: Sys, i: nat)
    requires SysInv(sha, s) && CanCheckFunds(s, i)
    ensures TxOk(sha, s.db, Owned(s, i), s.txs[i].(stage := FundsSeen), s.next)
  {
    var tx := s.txs[i];
    CommittedBooks(sha, s);
    hide Replay, Owned, Inv, Available, CodeAvailableOf, Representable, LastId;
    assert TxOk(sha, s.db, Owned(s, i), tx, s.next);
    if !tx.seen[tx.request.account].allowNegative {
      HoldGuardAgrees(sha, s.db, tx.request.account, tx.request.amount.amount);
    }
  }

  lemma InsertHoldOk(sha: Sha, s: Sys, i: nat)
    requires SysInv(sha, s) && CanInsertHold(s, i)
    ensures TxOk(sha, s.db, Owned(s, i) + {KeySlot(s.txs[i].request.reference)}, s.txs[i].(stage := Ready), s.next)
  {
    hide Replay, Owned, LastId, Available;
    assert TxOk(sha, s.db, Owned(s, i), s.txs[i], s.next);
  }

  lemma CloseHoldOk(sha: Sha, s: Sys, i: nat)
    requires SysInv(sha, s) && CanCloseHold(s, i)
    ensures TxOk(sha, s.db, Owned(s, i), s.txs[i].(stage := Ready), s.next)
  {
    hide Replay, Owned, LastId, Available, Postable, ValidationError, Spent, NewRow, Movements, Move;
    var tx := s.txs[i];
    assert TxOk(sha, s.db, Owned(s, i), tx, s.next);
  }

  lemma ExpireRowOk(sha: Sha, s: Sys, i: nat, reference: Text)
    requires SysInv(sha, s) && CanExpireRow(s, i, reference)
    ensures TxOk(sha, s.db, Owned(s, i) + {HoldLock(reference)}, s.txs[i].(expired := s.txs[i].expired + {reference}), s.next)
  {
    hide Replay, Owned, LastId;
    assert TxOk(sha, s.db, Owned(s, i), s.txs[i], s.next);
  }

  lemma StartSweepOk(sha: Sha, s: Sys, i: nat)
    requires SysInv(sha, s) && CanStartSweep(s, i)
    ensures TxOk(sha, s.db, Owned(s, i),
                 s.txs[i].(stage := Sweeping, due := Due(s.db, s.txs[i].request.now), started := s.clock), s.next)
  {
    hide Replay, Owned, LastId;
    assert TxOk(sha, s.db, Owned(s, i), s.txs[i], s.next);
  }

  lemma MarkRowOk(sha: Sha, s: Sys, i: nat)
    requires SysInv(sha, s) && CanMarkRow(s, i)
    ensures var tx, r := s.txs[i], s.txs[i].request.reference;
            if s.db.holds[r].status == Active then
              TxOk(sha, s.db, Owned(s, i) + {HoldLock(r)}, tx.(stage := Ready, expired := {r}), s.next)
            else TxOk(sha, s.db, Owned(s, i), tx.(stage := Ready), s.next)
  {
    hide Replay, Owned, LastId;
    assert TxOk(sha, s.db, Owned(s, i), s.txs[i], s.next);
  }

  lemma FreshOk(sha: Sha, s: Sys, i: nat, q: Request)
    requires Acceptable(s.db, q)
    ensures TxOk(sha, s.db, Owned(s, i), Fresh(q), s.next)
  {
    hide ValidationError, Owned;
  }

  /** The statements that take a lock. */
  lemma LockingKeeps(sha: Sha, s: Sys, step: Step)
    requires SysInv(sha, s) && Enabled(sha, s, step)
    requires step.LockHold? || step.LockAccount? || step.LockNext? || step.TakeChain? || step.InsertHold? || step.ExpireRow?
    ensures SysInv(sha, After(sha, s, step))
  {
    hide SysInv, TxOk, Owned, Take, Spent;
    var i := step.i;
    var tx := s.txs[i];
    match step
    case LockHold(_) =>
      HoldLockOk(sha, s, i);
      TakeKeeps(sha, s, HoldLock(tx.request.reference), i, tx.(stage := HoldRead));
    case LockAccount(_) =>
      var a := FirstAccount(s, tx).value;
      AccountLockOk(sha, s, i);
      TakeKeeps(sha, s, RowLock(a), i, tx.(stage := AccountRead, first := Some(a), seen := tx.seen[a := s.db.accounts[a]]));
    case LockNext(_) =>
      var a := tx.todo[0];
      LockNextOk(sha, s, i);
      TakeKeeps(sha, s, RowLock(a), i, tx.(todo := tx.todo[1..], seen := tx.seen[a := s.db.accounts[a]]));
    case TakeChain(_) =>
      ChainOk(sha, s, i);
      TakeKeeps(sha, s, ChainLock, i, tx.(stage := Linking));
    case InsertHold(_) =>
      InsertHoldOk(sha, s, i);
      TakeKeeps(sha, s, KeySlot(tx.request.reference), i, tx.(stage := Ready));
    case ExpireRow(_, r) =>
      ExpireRowOk(sha, s, i, r);
      TakeKeeps(sha, s, HoldLock(r), i, tx.(expired := tx.expired + {r}));
  }

  /** The statements of a sweep, and of Capture's mark. */
  lemma SweepingKeeps(sha: Sha, s: Sys, step: Step)
    requires SysInv(sha, s) && Enabled(sha, s, step) && (step.StartSweep? || step.MarkRow?)
    ensures SysInv(sha, After(sha, s, step))
  {
    hide SysInv, TxOk, Owned, Take, Put, Due;
    var i := step.i;
    var tx := s.txs[i];
    match step
    case StartSweep(_) =>
      var swept := tx.(stage := Sweeping, due := Due(s.db, tx.request.now), started := s.clock);
      StartSweepOk(sha, s, i);
      PutKeeps(sha, s, i, swept, s.next);
      TickKeeps(sha, Put(s, i, swept).(next := s.next), s.clock + 1);
      assert After(sha, s, step) == Put(s, i, swept).(next := s.next).(clock := s.clock + 1) by {
        SameNext(s, i, swept);
      }
    case MarkRow(_) =>
      MarkRowOk(sha, s, i);
      if s.db.holds[tx.request.reference].status == Active {
        TakeKeeps(sha, s, HoldLock(tx.request.reference), i, tx.(stage := Ready, expired := {tx.request.reference}));
      } else {
        PutKeeps(sha, s, i, tx.(stage := Ready), s.next);
        SameNext(s, i, tx.(stage := Ready));
      }
  }

  lemma SameNext(s: Sys, i: nat, tx: Tx)
    ensures Put(s, i, tx).(next := s.next) == Put(s, i, tx)
  {
  }

  lemma TickKeeps(sha: Sha, s: Sys, clock: nat)
    requires SysInv(sha, s)
    ensures SysInv(sha, s.(clock := clock))
  {
    hide TxOk, Replay;
    var t := s.(clock := clock);
    forall j | j in t.txs
      ensures TxOk(sha, t.db, Owned(t, j), t.txs[j], t.next)
    {
      assert Owned(t, j) == Owned(s, j);
    }
  }

  /** The statements that only read or write. */
  lemma WorkingKeeps(sha: Sha, s: Sys, step: Step)
    requires SysInv(sha, s) && Enabled(sha, s, step)
    requires step.StartLocking? || step.ReadTail? || step.Write? || step.CheckGuard? || step.CheckFunds? || step.CloseHold?
    ensures SysInv(sha, After(sha, s, step))
  {
    hide SysInv, TxOk, Owned, Spent, Available, CodeAvailableOf, MovementsFit, Movements, Inserted, Sorted;
    var i := step.i;
    var tx := s.txs[i];
    match step
    case StartLocking(_, ids) =>
      StartLockingOk(sha, s, i, ids);
      PutKeeps(sha, s, i, tx.(stage := Locking, todo := ids), s.next);
    case ReadTail(_) =>
      TailOk(sha, s, i);
      PutKeeps(sha, s, i, tx.(stage := TailRead, prev := TailHash([], s.db.transfers)), s.next);
    case Write(_) =>
      WriteOk(sha, s, i);
      PutKeeps(sha, s, i, tx.(stage := Written, row := Some(Inserted(sha, tx, s.next))), s.next + 1);
    case CheckGuard(_, a) =>
      GuardOk(sha, s, i, a);
      PutKeeps(sha, s, i, tx.(passed := tx.passed + {a}), s.next);
    case CheckFunds(_) =>
      FundsSeenOk(sha, s, i);
      PutKeeps(sha, s, i, tx.(stage := FundsSeen), s.next);
    case CloseHold(_) =>
      CloseHoldOk(sha, s, i);
      PutKeeps(sha, s, i, tx.(stage := Ready), s.next);
  }

  lemma SkipKeeps(sha: Sha, s: Sys)
    requires SysInv(sha, s)
    ensures SysInv(sha, s.(next := s.next + 1))
  {
    hide TxOk, Replay;
    var t := s.(next := s.next + 1);
    forall j | j in t.txs
      ensures TxOk(sha, t.db, Owned(t, j), t.txs[j], t.next)
    {
      NextGrows(sha, s.db, Owned(s, j), s.txs[j], s.next, t.next);
    }
  }

  lemma StepKeeps(sha: Sha, s: Sys, step: Step)
    requires SysInv(sha, s) && Enabled(sha, s, step)
    ensures SysInv(sha, After(sha, s, step))
  {
    hide SysInv, TxOk, OpOk, OpDb, Owned, Acceptable, CanCommit, Applied, CanWrite, CanCheckFunds, CanCheckGuard,
         CanLockAccount, CanStartLocking, CanLockHold, CanLockNext, CanTakeChain, CanReadTail, CanInsertHold, CanCloseHold,
         CanExpireRow, CanStartSweep, CanMarkRow;
    match step
    case Begin(i, q) =>
      FreshOk(sha, s, i, q);
      PutKeeps(sha, s, i, Fresh(q), s.next);
    case SkipId => SkipKeeps(sha, s);
    case Commit(i) => CommitKeeps(sha, s, i);
    case Abort(i) => AbortKeeps(sha, s, i);
    case CreateAccount(id, account) => CreateKeepsSys(sha, s, id, account);
    case ArchiveAccount(id) => ArchiveKeepsSys(sha, s, id);
    case LockHold(_) => LockingKeeps(sha, s, step);
    case LockAccount(_) => LockingKeeps(sha, s, step);
    case LockNext(_) => LockingKeeps(sha, s, step);
    case TakeChain(_) => LockingKeeps(sha, s, step);
    case InsertHold(_) => LockingKeeps(sha, s, step);
    case ExpireRow(_, _) => LockingKeeps(sha, s, step);
    case StartSweep(_) => SweepingKeeps(sha, s, step);
    case MarkRow(_) => SweepingKeeps(sha, s, step);
    case StartLocking(_, _) => WorkingKeeps(sha, s, step);
    case ReadTail(_) => WorkingKeeps(sha, s, step);
    case Write(_) => WorkingKeeps(sha, s, step);
    case CheckGuard(_, _) => WorkingKeeps(sha, s, step);
    case CheckFunds(_) => WorkingKeeps(sha, s, step);
    case CloseHold(_) => WorkingKeeps(sha, s, step);
  }

  lemma StartOk(sha: Sha)
    ensures SysInv(sha, START)
  {
  }

  lemma {:induction false} ExecutionKeeps(sha: Sha, steps: seq<Step>)
    requires Execute(sha, steps).Some?
    ensures SysInv(sha, Execute(sha, steps).value)
  {
    if steps == [] {
      StartOk(sha);
    } else {
      hide SysInv, Enabled, After;
      ExecutionKeeps(sha, steps[..|steps| - 1]);
      StepKeeps(sha, Execute(sha, steps[..|steps| - 1]).value, steps[|steps| - 1]);
    }
  }

  /**
   For every interleaving of any number of transactions, the committed tables are those of a serial run
   of the committed operations in commit order, in which every one of them succeeds.
   */
  lemma InterleavingsAreSerial(sha: Sha, steps: seq<Step>)
    requires Execute(sha, steps).Some?
    ensures var s := Execute(sha, steps).value;
            Replay(sha, s.log) == Some(s.db)
  {
    hide TxOk, Execute, Replay;
    ExecutionKeeps(sha, steps);
  }

  /**
   So every committed state, whatever the interleaving, has one unforked chain in id order, balances that
   are the sum of what the transfers moved, and no guarded account that promises more than it holds.
   */
  lemma InterleavingsKeepTheBooks(sha: Sha, steps: seq<Step>)
    requires Execute(sha, steps).Some?
    ensures Inv(sha, Execute(sha, steps).value.db)
  {
    hide SysInv, Execute, Inv;
    ExecutionKeeps(sha, steps);
    CommittedBooks(sha, Execute(sha, steps).value);
  }
}
