/**
 The waits-for graph.  Holds come before account rows, account rows in id order, the chain lock and new
 index entries last.  Two things stand outside this order: a capture whose held account is not the least id
 it locks, and sweeps, which lock many holds in no order at all.
 */
module Deadlock {
  import opened Domain
  import opened Drafts
  import opened ChainEncoding
  import opened ChainHistory
  import opened Books
  import opened BooksInvariants
  import opened Guard
  import opened Transactions
  import opened Serializability
  import opened Interleavings

  function Level(r: Resource): nat {
    match r
    case HoldLock(_) => 0
    case RowLock(_) => 1
    case ChainLock => 2
    case KeySlot(_) => 3
  }

  predicate Precedes(q: Resource, r: Resource) {
    Level(q) < Level(r) || (q.RowLock? && r.RowLock? && Less(q.account, r.account))
  }

  lemma PrecedesIsTransitive(q: Resource, r: Resource, t: Resource)
    requires Precedes(q, r) && Precedes(r, t)
    ensures Precedes(q, t)
  {
    if q.RowLock? && r.RowLock? && t.RowLock? {
      LessIsTransitive(q.account, r.account, t.account);
    }
  }

  lemma PrecedesIsIrreflexive(r: Resource)
    ensures !Precedes(r, r)
  {
    if r.RowLock? {
      LessIsTotal(r.account, r.account);
    }
  }

  // ---- who waits for whom

  /** The next statement of transaction i needs this lock. */
  predicate Wants(s: Sys, i: nat, r: Resource) {
    && i in s.txs
    && var tx := s.txs[i];
       match r
       case HoldLock(x) =>
         && x in s.db.holds
         && (((tx.request.Capturing? || tx.request.Releasing?) && tx.stage == Begun && x == tx.request.reference)
             || (tx.request.Marking? && tx.stage == Begun && x == tx.request.reference && s.db.holds[x].status == Active)
             || (tx.request.Expiring? && tx.stage == Sweeping && s.db.holds[x].status == Active
                 && x in tx.due && x !in tx.expired))
       case RowLock(a) =>
         FirstAccount(s, tx) == Some(a) || (tx.stage == Locking && tx.todo != [] && tx.todo[0] == a)
       case ChainLock => tx.stage == Locking && tx.todo == []
       case KeySlot(x) => tx.request.Holding? && tx.stage == FundsSeen && tx.request.reference == x
  }

  ghost predicate BlockedOn(s: Sys, i: nat, r: Resource, j: nat) {
    Wants(s, i, r) && r in s.locks && s.locks[r] == j && j != i
  }

  ghost predicate WaitsFor(s: Sys, i: nat, j: nat) {
    exists r :: BlockedOn(s, i, r, j)
  }

  /** A walk in the waits-for graph that returns to its start. */
  ghost predicate Cycle(s: Sys, p: seq<nat>) {
    && |p| >= 2
    && p[0] == p[|p| - 1]
    && forall k :: 0 <= k < |p| - 1 ==> Edge(s, p, k)
  }

  ghost predicate Edge(s: Sys, p: seq<nat>, k: nat)
    requires k + 1 < |p|
  {
    WaitsFor(s, p[k], p[k + 1])
  }

  // ---- the order in which locks are taken

  /** The locks a transaction at this stage can own. */
  predicate MayOwn(tx: Tx, r: Resource) {
    match r
    case HoldLock(x) =>
      ((tx.request.Capturing? || tx.request.Releasing?) && tx.stage != Begun && x == tx.request.reference)
      || ((tx.request.Expiring? || tx.request.Marking?) && x in tx.expired)
    case RowLock(a) => a in tx.seen
    case ChainLock => Transfers(tx.request) && tx.stage in {Linking, TailRead, Written, Ready}
    case KeySlot(_) => tx.request.Holding? && tx.stage == Ready
  }

  /** Sorted lists are locked upwards; only the row locked before its list can be above what is still to come. */
  ghost predicate InOrder(tx: Tx) {
    && (tx.stage in {Begun, HoldRead, Sweeping} ==> tx.seen == map[] && tx.first == None)
    && (tx.stage == Begun ==> tx.expired == {})
    && (tx.request.Expiring? ==> tx.stage in {Begun, Sweeping} && tx.expired <= tx.due)
    && (tx.request.Marking? ==> tx.stage in {Begun, Ready} && tx.seen == map[])
    && (tx.stage in {Locking, Linking, TailRead, Written} ==> Transfers(tx.request))
    && (tx.stage == FundsSeen ==> tx.request.Holding?)
    && (tx.stage == AccountRead ==> forall a :: a in tx.seen ==> tx.first == Some(a))
    && (tx.request.Posting? ==> tx.first == None)
    && (tx.stage == Locking ==>
          Sorted(tx.todo) && forall a, b :: a in tx.seen && b in tx.todo ==> Less(a, b) || a == b || tx.first == Some(a))
  }

  ghost predicate LockInv(s: Sys) {
    && (forall r :: r in s.locks ==> s.locks[r] in s.txs && MayOwn(s.txs[s.locks[r]], r))
    && (forall i :: i in s.txs ==> InOrder(s.txs[i]))
  }

  /** At this moment, the row this transaction locked first is not above the row it wants next. */
  predicate HeldFirst(tx: Tx) {
    tx.stage == Locking && tx.first.Some? && tx.todo != [] ==> !Less(tx.todo[0], tx.first.value)
  }

  /** The transaction moved on and may still own what it owned. */
  ghost predicate Grows(s: Sys, i: nat, tx: Tx) {
    InOrder(tx) && (i in s.txs ==> forall q :: MayOwn(s.txs[i], q) ==> MayOwn(tx, q))
  }

  lemma PutOrder(s: Sys, i: nat, tx: Tx)
    requires LockInv(s) && Grows(s, i, tx)
    ensures LockInv(Put(s, i, tx))
  {
    hide MayOwn, InOrder;
  }

  lemma TakeOrder(s: Sys, r: Resource, i: nat, tx: Tx)
    requires LockInv(s) && i in s.txs && Free(s, r, i) && Grows(s, i, tx) && MayOwn(tx, r)
    ensures LockInv(Take(s, r, i, tx))
  {
    hide MayOwn, InOrder;
  }

  lemma DropOrder(s: Sys, i: nat)
    requires LockInv(s)
    ensures LockInv(Drop(s, i))
  {
    hide MayOwn, InOrder;
  }

  lemma FirstRowKeepsOrder(sha: Sha, s: Sys, i: nat)
    requires LockInv(s) && CanLockAccount(s, i)
    ensures LockInv(After(sha, s, LockAccount(i)))
  {
    hide Take, Spent, LockInv, Less, PastDue;
    var tx, a := s.txs[i], FirstAccount(s, s.txs[i]).value;
    assert InOrder(tx) by {
      InvAt(s, i);
    }
    TakeOrder(s, RowLock(a), i, tx.(stage := AccountRead, first := Some(a), seen := tx.seen[a := s.db.accounts[a]]));
  }

  lemma NextRowKeepsOrder(sha: Sha, s: Sys, i: nat)
    requires LockInv(s) && CanLockNext(s, i)
    ensures LockInv(After(sha, s, LockNext(i)))
  {
    hide Take, LockInv, Less;
    var tx, a := s.txs[i], s.txs[i].todo[0];
    assert InOrder(tx) by {
      InvAt(s, i);
    }
    assert Sorted(tx.todo[1..]) && forall b :: b in tx.todo[1..] ==> b in tx.todo && Less(a, b);
    TakeOrder(s, RowLock(a), i, tx.(todo := tx.todo[1..], seen := tx.seen[a := s.db.accounts[a]]));
  }

  lemma HoldRowsKeepOrder(sha: Sha, s: Sys, step: Step)
    requires LockInv(s) && Enabled(sha, s, step) && (step.LockHold? || step.ExpireRow?)
    ensures LockInv(After(sha, s, step))
  {
    hide Take, LockInv, PastDue;
    var i := step.i;
    var tx := s.txs[i];
    assert InOrder(tx) by {
      InvAt(s, i);
    }
    match step
    case LockHold(_) => TakeOrder(s, HoldLock(tx.request.reference), i, tx.(stage := HoldRead));
    case ExpireRow(_, r) => TakeOrder(s, HoldLock(r), i, tx.(expired := tx.expired + {r}));
  }

  lemma LastLocksKeepOrder(sha: Sha, s: Sys, step: Step)
    requires LockInv(s) && Enabled(sha, s, step) && (step.TakeChain? || step.InsertHold?)
    ensures LockInv(After(sha, s, step))
  {
    hide Take, LegsAdmitted, LockInv;
    var i := step.i;
    var tx := s.txs[i];
    assert InOrder(tx) by {
      InvAt(s, i);
    }
    match step
    case TakeChain(_) => TakeOrder(s, ChainLock, i, tx.(stage := Linking));
    case InsertHold(_) => TakeOrder(s, KeySlot(tx.request.reference), i, tx.(stage := Ready));
  }

  lemma InvAt(s: Sys, i: nat)
    requires LockInv(s) && i in s.txs
    ensures InOrder(s.txs[i])
  {
  }

  lemma WriteKeepsOrder(sha: Sha, s: Sys, i: nat)
    requires LockInv(s) && CanWrite(s, i)
    ensures LockInv(After(sha, s, Write(i)))
  {
    hide Put, LockInv, Inserted, MovementsFit, Movements, FreshReference, LinkAllowed;
    var tx := s.txs[i];
    assert InOrder(tx) by {
      InvAt(s, i);
    }
    PutOrder(s, i, tx.(stage := Written, row := Some(Inserted(sha, tx, s.next))));
    SameLocks(Put(s, i, tx.(stage := Written, row := Some(Inserted(sha, tx, s.next)))), After(sha, s, Write(i)));
  }

  lemma ListingKeepsOrder(sha: Sha, s: Sys, step: Step)
    requires LockInv(s) && Enabled(sha, s, step) && (step.StartLocking? || step.ReadTail? || step.CloseHold?)
    ensures LockInv(After(sha, s, step))
  {
    hide Put, LockInv, Less, Sorted;
    var i := step.i;
    var tx := s.txs[i];
    assert InOrder(tx) by {
      InvAt(s, i);
    }
    match step
    case StartLocking(_, ids) => PutOrder(s, i, tx.(stage := Locking, todo := ids));
    case ReadTail(_) => PutOrder(s, i, tx.(stage := TailRead, prev := TailHash([], s.db.transfers)));
    case CloseHold(_) => PutOrder(s, i, tx.(stage := Ready));
  }

  lemma CheckingKeepsOrder(sha: Sha, s: Sys, step: Step)
    requires LockInv(s) && Enabled(sha, s, step) && (step.CheckGuard? || step.CheckFunds?)
    ensures LockInv(After(sha, s, step))
  {
    hide Put, LockInv, Less, CodeAvailableOf, Sorted;
    var i := step.i;
    var tx := s.txs[i];
    assert InOrder(tx) by {
      InvAt(s, i);
    }
    match step
    case CheckGuard(_, a) => PutOrder(s, i, tx.(passed := tx.passed + {a}));
    case CheckFunds(_) => PutOrder(s, i, tx.(stage := FundsSeen));
  }

  lemma SameLocks(s: Sys, t: Sys)
    requires LockInv(s) && t.txs == s.txs && t.locks == s.locks
    ensures LockInv(t)
  {
    hide MayOwn, InOrder;
  }

  lemma SweepingKeepsOrder(sha: Sha, s: Sys, step: Step)
    requires LockInv(s) && Enabled(sha, s, step) && (step.StartSweep? || step.MarkRow?)
    ensures LockInv(After(sha, s, step))
  {
    hide Put, Take, LockInv, Due;
    var i := step.i;
    var tx := s.txs[i];
    assert InOrder(tx) by {
      InvAt(s, i);
    }
    match step
    case StartSweep(_) =>
      var swept := tx.(stage := Sweeping, due := Due(s.db, tx.request.now), started := s.clock);
      PutOrder(s, i, swept);
      SameLocks(Put(s, i, swept), After(sha, s, step));
    case MarkRow(_) =>
      var r := tx.request.reference;
      if s.db.holds[r].status == Active {
        TakeOrder(s, HoldLock(r), i, tx.(stage := Ready, expired := {r}));
      } else {
        PutOrder(s, i, tx.(stage := Ready));
      }
  }

  lemma StepKeepsOrder(sha: Sha, s: Sys, step: Step)
    requires LockInv(s) && Enabled(sha, s, step)
    ensures LockInv(After(sha, s, step))
  {
    hide LockInv, OpOk, OpDb, Acceptable, CanCommit, Applied, CanWrite, CanCheckFunds, CanCheckGuard, Committed, Drop, Put, Take,
         CanLockAccount, CanStartLocking, CanLockHold, CanLockNext, CanTakeChain, CanReadTail, CanInsertHold, CanCloseHold,
         CanExpireRow, CanStartSweep, CanMarkRow, Due;
    match step
    case Begin(i, q) => PutOrder(s, i, Fresh(q));
    case SkipId => SameLocks(s, After(sha, s, step));
    case Commit(i) =>
      DropOrder(s, i);
      SameLocks(Drop(s, i), After(sha, s, step));
    case Abort(i) => DropOrder(s, i);
    case CreateAccount(_, _) => SameLocks(s, After(sha, s, step));
    case ArchiveAccount(_) => SameLocks(s, After(sha, s, step));
    case LockHold(_) => HoldRowsKeepOrder(sha, s, step);
    case LockAccount(i) => FirstRowKeepsOrder(sha, s, i);
    case LockNext(i) => NextRowKeepsOrder(sha, s, i);
    case TakeChain(_) => LastLocksKeepOrder(sha, s, step);
    case InsertHold(_) => LastLocksKeepOrder(sha, s, step);
    case ExpireRow(_, _) => HoldRowsKeepOrder(sha, s, step);
    case StartSweep(_) => SweepingKeepsOrder(sha, s, step);
    case MarkRow(_) => SweepingKeepsOrder(sha, s, step);
    case StartLocking(_, _) => ListingKeepsOrder(sha, s, step);
    case ReadTail(_) => ListingKeepsOrder(sha, s, step);
    case Write(i) => WriteKeepsOrder(sha, s, i);
    case CheckGuard(_, _) => CheckingKeepsOrder(sha, s, step);
    case CheckFunds(_) => CheckingKeepsOrder(sha, s, step);
    case CloseHold(_) => ListingKeepsOrder(sha, s, step);
  }

  lemma {:induction false} ExecutionKeepsOrder(sha: Sha, steps: seq<Step>)
    requires Execute(sha, steps).Some?
    ensures LockInv(Execute(sha, steps).value)
  {
    if steps != [] {
      hide LockInv, Enabled, After;
      ExecutionKeepsOrder(sha, steps[..|steps| - 1]);
      StepKeepsOrder(sha, Execute(sha, steps[..|steps| - 1]).value, steps[|steps| - 1]);
    }
  }

  // ---- sweeps: the one that began first overlaps most

  predicate Sweeps(s: Sys, i: nat) {
    i in s.txs && s.txs[i].request.Expiring? && s.txs[i].stage == Sweeping
  }

  predicate StillDue(db: Db, x: Text, now: int) {
    x in db.holds && db.holds[x].status == Active && PastDue(db.holds[x], now)
  }

  /** What the earlier sweep found and is still active, the later one found too if it was past due for it. */
  ghost predicate Covers(s: Sys, i: nat, j: nat)
    requires Sweeps(s, i) && Sweeps(s, j)
  {
    s.txs[i].started <= s.txs[j].started ==>
      forall x :: x in s.txs[i].due && StillDue(s.db, x, s.txs[j].request.now) ==> x in s.txs[j].due
  }

  ghost predicate Found(s: Sys, i: nat)
    requires Sweeps(s, i)
  {
    s.txs[i].started < s.clock
    && forall x :: x in s.txs[i].due ==> x in s.db.holds && PastDue(s.db.holds[x], s.txs[i].request.now)
  }

  ghost predicate SweepInv(s: Sys) {
    && (forall i :: Sweeps(s, i) ==> Found(s, i))
    && (forall i, j :: Sweeps(s, i) && Sweeps(s, j) ==> Covers(s, i, j))
  }

  /** The sweeps under way were already, with the same list. */
  ghost predicate SameSweeps(s: Sys, t: Sys) {
    && s.clock <= t.clock
    && forall i :: Sweeps(t, i) ==>
         Sweeps(s, i) && SameSweep(s.txs[i], t.txs[i])
  }

  predicate SameSweep(tx: Tx, tx': Tx) {
    tx'.request == tx.request && tx'.due == tx.due && tx'.started == tx.started
  }

  lemma SweepsStay(s: Sys, t: Sys)
    requires SweepInv(s) && SameSweeps(s, t) && HoldsAdvance(s.db, t.db)
    ensures SweepInv(t)
  {
    forall i | Sweeps(t, i)
      ensures Found(t, i)
    {
      assert Found(s, i);
    }
    forall i, j | Sweeps(t, i) && Sweeps(t, j)
      ensures Covers(t, i, j)
    {
      assert Covers(s, i, j) && Found(s, i);
    }
  }

  lemma SweepJoins(s: Sys, k: nat)
    requires SweepInv(s) && CanStartSweep(s, k)
    ensures SweepInv(Put(s, k, s.txs[k].(stage := Sweeping, due := Due(s.db, s.txs[k].request.now), started := s.clock))
                       .(clock := s.clock + 1))
  {
    var t := Put(s, k, s.txs[k].(stage := Sweeping, due := Due(s.db, s.txs[k].request.now), started := s.clock))
               .(clock := s.clock + 1);
    forall i | Sweeps(t, i)
      ensures Found(t, i)
    {
      if i != k {
        assert Found(s, i);
      }
    }
    forall i, j | Sweeps(t, i) && Sweeps(t, j)
      ensures Covers(t, i, j)
    {
      if i != k && j != k {
        assert Covers(s, i, j);
      } else if i == k && j != k {
        assert Found(s, j);
      }
    }
  }

  lemma ClockStands(sha: Sha, s: Sys, step: Step)
    requires Enabled(sha, s, step)
    ensures s.clock <= After(sha, s, step).clock
    ensures step.Begin? ==>
              step.i in After(sha, s, step).txs && After(sha, s, step).txs[step.i].stage == Begun
  {
    hide OpOk, OpDb, Acceptable, Inserted, Due, Applied, Committed, CanWrite, CanCheckGuard, CanCheckFunds, CanCommit,
         CanStartLocking, CanTakeChain, CanLockAccount, Free;
  }

  lemma StepKeepsSweepLists(sha: Sha, s: Sys, step: Step)
    requires Enabled(sha, s, step) && !step.StartSweep?
    ensures SameSweeps(s, After(sha, s, step))
  {
    hide Enabled, After;
    ClockStands(sha, s, step);
    var t := After(sha, s, step);
    forall i | Sweeps(t, i)
      ensures Sweeps(s, i) && SameSweep(s.txs[i], t.txs[i])
    {
      if !(step.Begin? && step.i == i) {
        OneStepOn(sha, s, step, i);
      }
    }
  }

  lemma StepKeepsSweeps(sha: Sha, s: Sys, step: Step)
    requires SysInv(sha, s) && SweepInv(s) && Enabled(sha, s, step)
    ensures SweepInv(After(sha, s, step))
  {
    if step.StartSweep? {
      hide SysInv, SweepInv, Due;
      SweepJoins(s, step.i);
    } else {
      hide SysInv, SweepInv, SameSweeps, HoldsAdvance, Enabled, After;
      StepKeepsSweepLists(sha, s, step);
      StepAdvances(sha, s, step);
      SweepsStay(s, After(sha, s, step));
    }
  }

  lemma {:induction false} ExecutionKeepsSweeps(sha: Sha, steps: seq<Step>)
    requires Execute(sha, steps).Some?
    ensures SweepInv(Execute(sha, steps).value)
  {
    if steps != [] {
      hide SweepInv, SysInv, Enabled, After;
      ExecutionKeeps(sha, steps[..|steps| - 1]);
      ExecutionKeepsSweeps(sha, steps[..|steps| - 1]);
      StepKeepsSweeps(sha, Execute(sha, steps[..|steps| - 1]).value, steps[|steps| - 1]);
    }
  }

  // ---- a cycle can only be of sweeps

  /** Except for a sweep, what a blocked transaction wants comes after everything it owns. */
  lemma WantsComeLater(s: Sys, i: nat, q: Resource, r: Resource, j: nat)
    requires LockInv(s) && BlockedOn(s, i, r, j) && !Sweeps(s, i) && HeldFirst(s.txs[i])
    requires q in s.locks && s.locks[q] == i
    ensures Precedes(q, r)
  {
    var tx := s.txs[i];
    assert MayOwn(tx, q) && InOrder(tx) && q != r;
    if q.RowLock? && r.RowLock? {
      LessIsTotal(q.account, r.account);
    }
  }

  lemma SweepsOwnHolds(s: Sys, i: nat, q: Resource)
    requires LockInv(s) && Sweeps(s, i) && q in s.locks && s.locks[q] == i
    ensures Level(q) == 0
  {
    assert MayOwn(s.txs[i], q) && InOrder(s.txs[i]);
  }

  ghost predicate AllHeldFirst(s: Sys) {
    forall i :: i in s.txs ==> HeldFirst(s.txs[i])
  }

  /** From a wait on a row, the chain or a slot, every further wait is for something later. */
  lemma {:induction false} WaitsRise(s: Sys, p: seq<nat>, n: nat, r: Resource) returns (last: Resource)
    requires LockInv(s) && AllHeldFirst(s) && 1 <= n < |p|
    requires forall k :: 0 <= k < |p| - 1 ==> Edge(s, p, k)
    requires BlockedOn(s, p[0], r, p[1]) && Level(r) >= 1
    ensures BlockedOn(s, p[n - 1], last, p[n]) && Level(last) >= 1
    ensures last == r || Precedes(r, last)
  {
    if n == 1 {
      last := r;
    } else {
      var q := WaitsRise(s, p, n - 1, r);
      assert Edge(s, p, n - 1);
      last :| BlockedOn(s, p[n - 1], last, p[n]);
      if Sweeps(s, p[n - 1]) {
        SweepsOwnHolds(s, p[n - 1], q);
        assert false;
      }
      WantsComeLater(s, p[n - 1], q, last, p[n]);
      if q != r {
        PrecedesIsTransitive(r, q, last);
      }
    }
  }

  lemma NoHighCycle(s: Sys, p: seq<nat>, r: Resource)
    requires LockInv(s) && AllHeldFirst(s) && Cycle(s, p)
    requires BlockedOn(s, p[0], r, p[1])
    ensures Level(r) == 0
  {
    if Level(r) >= 1 {
      var n := |p| - 1;
      var last := WaitsRise(s, p, n, r);
      if Sweeps(s, p[0]) {
        SweepsOwnHolds(s, p[0], last);
      } else {
        WantsComeLater(s, p[0], last, r, p[1]);
        if last != r {
          PrecedesIsTransitive(r, last, r);
        }
        PrecedesIsIrreflexive(r);
      }
    }
  }

  lemma Rotate(s: Sys, p: seq<nat>)
    requires Cycle(s, p)
    ensures Cycle(s, p[1..] + [p[1]])
  {
    var t := p[1..] + [p[1]];
    forall k | 0 <= k < |t| - 1
      ensures Edge(s, t, k)
    {
      if k + 2 < |p| {
        assert Edge(s, p, k + 1);
      } else {
        assert Edge(s, p, 0);
      }
    }
  }

  lemma Rotated(p: seq<nat>, k: nat)
    requires 0 < k < |p| - 1
    ensures (p[k - 1..] + p[1..k])[1] == p[k]
    ensures (p[k - 1..] + p[1..k])[1..] + [p[k]] == p[k..] + p[1..k + 1]
  {
    assert p[1..k + 1] == p[1..k] + [p[k]];
    assert p[k - 1..] == [p[k - 1]] + p[k..];
    assert (p[k - 1..] + p[1..k])[1..] == p[k..] + p[1..k];
  }

  lemma {:induction false} RotateBy(s: Sys, p: seq<nat>, k: nat)
    requires Cycle(s, p) && k < |p| - 1
    ensures Cycle(s, p[k..] + p[1..k + 1])
  {
    hide Cycle, Edge;
    if k == 0 {
      assert p[0..] + p[1..1] == p;
    } else {
      RotateBy(s, p, k - 1);
      Rotated(p, k);
      Rotate(s, p[k - 1..] + p[1..k]);
    }
  }

  /** A wait for a hold is followed by a wait for something later, unless its owner is a sweep. */
  lemma SecondWait(s: Sys, p: seq<nat>)
    requires LockInv(s) && AllHeldFirst(s) && Cycle(s, p)
    ensures Sweeps(s, p[1])
  {
    if !Sweeps(s, p[1]) {
      assert Edge(s, p, 0);
      var q :| BlockedOn(s, p[0], q, p[1]);
      Rotate(s, p);
      var t := p[1..] + [p[1]];
      assert Edge(s, t, 0);
      var r :| BlockedOn(s, t[0], r, t[1]);
      WantsComeLater(s, p[1], q, r, t[1]);
      NoHighCycle(s, t, r);
    }
  }

  lemma OwnerSweeps(s: Sys, p: seq<nat>, k: nat)
    requires LockInv(s) && AllHeldFirst(s) && Cycle(s, p) && 1 <= k < |p|
    ensures Sweeps(s, p[k])
  {
    hide LockInv, AllHeldFirst, Cycle, Sweeps, Edge;
    RotateBy(s, p, k - 1);
    var t := p[k - 1..] + p[1..k];
    assert t[1] == p[k] by {
      if k < |p| - 1 {
        Rotated(p, k);
      }
    }
    SecondWait(s, t);
  }

  lemma CycleIsOfSweeps(s: Sys, p: seq<nat>)
    requires LockInv(s) && AllHeldFirst(s) && Cycle(s, p)
    ensures forall k :: 0 <= k < |p| ==> Sweeps(s, p[k])
  {
    hide LockInv, AllHeldFirst, Cycle, Sweeps, Edge;
    forall k | 1 <= k < |p|
      ensures Sweeps(s, p[k])
    {
      OwnerSweeps(s, p, k);
    }
    EndsMeet(s, p);
  }

  lemma EndsMeet(s: Sys, p: seq<nat>)
    requires Cycle(s, p)
    ensures |p| >= 3 && p[0] == p[|p| - 1]
  {
    assert Edge(s, p, 0);
  }

  /** Two sweeps that have found the same two holds, both still active. */
  ghost predicate Overlap(s: Sys, i: nat, j: nat, x: Text, y: Text) {
    && Sweeps(s, i) && Sweeps(s, j) && i != j && x != y
    && {x, y} <= s.txs[i].due && {x, y} <= s.txs[j].due
    && x in s.db.holds && s.db.holds[x].status == Active
    && y in s.db.holds && s.db.holds[y].status == Active
  }

  ghost predicate SweepsOverlap(s: Sys) {
    exists i, j, x, y :: Overlap(s, i, j, x, y)
  }

  lemma {:induction false} Earliest(s: Sys, p: seq<nat>, n: nat) returns (k: nat)
    requires 1 <= n <= |p| && forall j :: 0 <= j < |p| ==> p[j] in s.txs
    ensures k < n && forall j :: 0 <= j < n ==> s.txs[p[k]].started <= s.txs[p[j]].started
  {
    if n == 1 {
      k := 0;
    } else {
      k := Earliest(s, p, n - 1);
      if s.txs[p[n - 1]].started < s.txs[p[k]].started {
        k := n - 1;
      }
    }
  }

  /** A sweep in between two others, begun before both, shares its two holds with one of them. */
  lemma MiddleOverlaps(s: Sys, i: nat, j: nat, k: nat)
    requires LockInv(s) && SweepInv(s) && Sweeps(s, i) && Sweeps(s, j) && Sweeps(s, k)
    requires WaitsFor(s, i, j) && WaitsFor(s, j, k)
    requires s.txs[j].started <= s.txs[i].started && s.txs[j].started <= s.txs[k].started
    ensures SweepsOverlap(s)
  {
    hide LockInv, SweepInv;
    var y := SweepWait(s, i, j);
    var x := SweepWait(s, j, k);
    CoversAt(s, j, i);
    CoversAt(s, j, k);
    if s.txs[i].request.now <= s.txs[k].request.now {
      assert Overlap(s, j, k, x, y);
    } else {
      assert Overlap(s, j, i, x, y);
    }
  }

  lemma CoversAt(s: Sys, i: nat, j: nat)
    requires SweepInv(s) && Sweeps(s, i) && Sweeps(s, j)
    ensures Covers(s, i, j)
  {
  }

  /** A sweep waits for a sweep over a hold that both have found and that is still active. */
  lemma SweepWait(s: Sys, i: nat, j: nat) returns (x: Text)
    requires LockInv(s) && SweepInv(s) && Sweeps(s, i) && Sweeps(s, j) && WaitsFor(s, i, j)
    ensures i != j && HoldLock(x) in s.locks && s.locks[HoldLock(x)] == j
    ensures x in s.txs[i].due && x in s.txs[j].due
    ensures x in s.db.holds && s.db.holds[x].status == Active
    ensures PastDue(s.db.holds[x], s.txs[i].request.now) && PastDue(s.db.holds[x], s.txs[j].request.now)
  {
    var r :| BlockedOn(s, i, r, j);
    assert InOrder(s.txs[i]) && InOrder(s.txs[j]) && MayOwn(s.txs[j], r) && Found(s, i) && Found(s, j);
    x := r.reference;
  }

  lemma CycleOverlaps(s: Sys, p: seq<nat>)
    requires LockInv(s) && SweepInv(s) && AllHeldFirst(s) && Cycle(s, p)
    ensures SweepsOverlap(s)
  {
    CycleIsOfSweeps(s, p);
    EndsMeet(s, p);
    hide LockInv, SweepInv, AllHeldFirst, SweepsOverlap, WaitsFor;
    var n := |p| - 1;
    var k := Earliest(s, p, |p|);
    assert forall j :: 0 <= j < n ==> Edge(s, p, j);
    if 1 <= k < n {
      assert Edge(s, p, k - 1) && Edge(s, p, k);
      MiddleOverlaps(s, p[k - 1], p[k], p[k + 1]);
    } else {
      assert Edge(s, p, n - 1) && Edge(s, p, 0);
      MiddleOverlaps(s, p[n - 1], p[0], p[1]);
    }
  }

  /**
   No reachable state of any interleaving has a cycle of waits, unless some capture has locked an account above
   the one it wants next, or two sweeps have found the same two holds and both are still active.
   */
  lemma NoDeadlock(sha: Sha, steps: seq<Step>, p: seq<nat>)
    requires Execute(sha, steps).Some?
    requires AllHeldFirst(Execute(sha, steps).value) && !SweepsOverlap(Execute(sha, steps).value)
    ensures !Cycle(Execute(sha, steps).value, p)
  {
    hide Execute, LockInv, SweepInv, AllHeldFirst, SweepsOverlap, Cycle;
    ExecutionKeepsOrder(sha, steps);
    ExecutionKeepsSweeps(sha, steps);
    if Cycle(Execute(sha, steps).value, p) {
      CycleOverlaps(Execute(sha, steps).value, p);
    }
  }

  // ---- which rows a transaction's locks can be

  /** The account rows that the transfer takes in sorted order. */
  function Locked(db: Db, d: Draft): set<Text> {
    AccountsOf(d.postings) * db.accounts.Keys
  }

  /** A capture's first row is the held account's; all others, locked or still to lock, are of its own postings. */
  ghost predicate Listed(db: Db, tx: Tx) {
    && (tx.first.Some? && !tx.request.Holding? ==>
          && tx.request.Capturing? && tx.request.reference in db.holds
          && tx.first.value == db.holds[tx.request.reference].account)
    && (Transfers(tx.request) ==>
          && (forall a :: a in tx.seen ==> a in Locked(db, tx.request.d) || tx.first == Some(a))
          && (forall a :: a in tx.todo ==> a in Locked(db, tx.request.d)))
  }

  ghost predicate ListInv(s: Sys) {
    forall i :: i in s.txs ==> Listed(s.db, s.txs[i])
  }

  ghost predicate TablesGrow(from: Db, to: Db) {
    from.accounts.Keys <= to.accounts.Keys && HoldsAdvance(from, to)
  }

  lemma ListedStays(from: Db, to: Db, tx: Tx)
    requires TablesGrow(from, to) && Listed(from, tx)
    ensures Listed(to, tx)
  {
  }

  lemma AppliedAccounts(s: Sys, i: nat)
    requires CanCommit(s, i)
    ensures Applied(s.db, s.txs[i]).accounts == s.db.accounts
  {
    hide Move, Movements, AllPassed, SweepDone;
  }

  lemma AccountsGrow(sha: Sha, s: Sys, step: Step)
    requires Enabled(sha, s, step)
    ensures s.db.accounts.Keys <= After(sha, s, step).db.accounts.Keys
  {
    if Commits(step) {
      hide Applied, CanCommit, Committed, Drop;
      if step.Commit? {
        AppliedAccounts(s, step.i);
      }
    } else {
      hide Enabled, After;
      TablesStand(sha, s, step);
    }
  }

  lemma ListMoves(sha: Sha, s: Sys, step: Step, i: nat)
    requires Enabled(sha, s, step) && MovesList(step, i) && i in s.txs && Listed(s.db, s.txs[i])
    ensures i in After(sha, s, step).txs && Listed(s.db, After(sha, s, step).txs[i])
  {
    hide Spent, PastDue, Sorted, AccountsOf, Free;
  }

  lemma BeginLists(sha: Sha, s: Sys, step: Step)
    requires Enabled(sha, s, step) && step.Begin?
    ensures step.i in After(sha, s, step).txs && Listed(After(sha, s, step).db, After(sha, s, step).txs[step.i])
  {
    hide Acceptable;
  }

  lemma StepKeepsLists(sha: Sha, s: Sys, step: Step)
    requires SysInv(sha, s) && ListInv(s) && Enabled(sha, s, step)
    ensures ListInv(After(sha, s, step))
  {
    hide SysInv, Enabled, After, Listed, HoldsAdvance;
    var t := After(sha, s, step);
    StepAdvances(sha, s, step);
    AccountsGrow(sha, s, step);
    forall i | i in t.txs
      ensures Listed(t.db, t.txs[i])
    {
      if step.Begin? && step.i == i {
        BeginLists(sha, s, step);
      } else {
        OneStepOn(sha, s, step, i);
        if MovesList(step, i) {
          ListMoves(sha, s, step, i);
        } else {
          SameList(s.db, s.txs[i], t.txs[i]);
        }
        ListedStays(s.db, t.db, t.txs[i]);
      }
    }
  }

  lemma SameList(db: Db, tx: Tx, tx': Tx)
    requires Listed(db, tx)
    requires tx'.request == tx.request && tx'.first == tx.first && tx'.todo == tx.todo && tx'.seen == tx.seen
    ensures Listed(db, tx')
  {
  }

  lemma {:induction false} ExecutionKeepsLists(sha: Sha, steps: seq<Step>)
    requires Execute(sha, steps).Some?
    ensures ListInv(Execute(sha, steps).value)
  {
    if steps != [] {
      hide ListInv, SysInv, Enabled, After;
      ExecutionKeeps(sha, steps[..|steps| - 1]);
      ExecutionKeepsLists(sha, steps[..|steps| - 1]);
      StepKeepsLists(sha, Execute(sha, steps[..|steps| - 1]).value, steps[|steps| - 1]);
    }
  }

  // ---- the promise, on what a caller knows before the call

  /** The transfer touches no account whose id is less than the held one's. */
  ghost predicate HeldIsLeast(db: Db, q: Request) {
    q.Capturing? && q.reference in db.holds ==>
      forall a :: a in AccountsOf(q.d.postings) ==> !Less(a, db.holds[q.reference].account)
  }

  lemma LeastIsHeldFirst(s: Sys, i: nat)
    requires LockInv(s) && ListInv(s) && i in s.txs && HeldIsLeast(s.db, s.txs[i].request)
    ensures HeldFirst(s.txs[i])
  {
    var tx := s.txs[i];
    assert InOrder(tx) && Listed(s.db, tx);
    hide AccountsOf, Less;
    if tx.stage == Locking && tx.first.Some? && tx.todo != [] {
      assert tx.todo[0] in tx.todo;
    }
  }

  /**
   Any number of posts, reversals, holds, releases, expiry marks and captures, with at most one sweep under way, never
   deadlock as long as each open capture touches no account whose id is less than the held one's.
   */
  lemma NoDeadlockWhenHeldIsLeast(sha: Sha, steps: seq<Step>, p: seq<nat>)
    requires Execute(sha, steps).Some?
    requires var s := Execute(sha, steps).value;
             && (forall i :: i in s.txs ==> HeldIsLeast(s.db, s.txs[i].request))
             && (forall i, j :: Sweeps(s, i) && Sweeps(s, j) ==> i == j)
    ensures !Cycle(Execute(sha, steps).value, p)
  {
    hide Execute, LockInv, ListInv, Cycle, HeldIsLeast, HeldFirst;
    var s := Execute(sha, steps).value;
    ExecutionKeepsOrder(sha, steps);
    ExecutionKeepsLists(sha, steps);
    forall i | i in s.txs
      ensures HeldFirst(s.txs[i])
    {
      LeastIsHeldFirst(s, i);
    }
    NoDeadlock(sha, steps, p);
  }
}
