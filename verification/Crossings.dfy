/** Exactly when two transactions, begun on an idle ledger, can come to wait for each other. */
module Crossings {
  import opened Int64Math
  import opened Domain
  import opened Drafts
  import opened ChainEncoding
  import opened Books
  import opened BooksInvariants
  import opened Transactions
  import opened Serializability
  import opened Interleavings
  import opened Deadlock

  ghost predicate Idle(s: Sys) {
    s.txs == map[] && s.locks == map[]
  }

  ghost predicate Deadlocked(sha: Sha, steps: seq<Step>) {
    Execute(sha, steps).Some? && exists p :: Cycle(Execute(sha, steps).value, p)
  }

  /** A statement of one transaction, which can only be q. */
  predicate StepBy(step: Step, i: nat, q: Request) {
    match step
    case Begin(j, x) => j == i && x == q
    case CreateAccount(_, _) => false
    case ArchiveAccount(_) => false
    case _ => true
  }

  ghost predicate By(steps: seq<Step>, i: nat, q: Request) {
    forall k :: 0 <= k < |steps| ==> StepBy(steps[k], i, q)
  }

  /** Statements of transaction 0, which can only be q, and of transaction 1, which can only be r. */
  ghost predicate Only(steps: seq<Step>, q: Request, r: Request) {
    forall k :: 0 <= k < |steps| ==> StepBy(steps[k], 0, q) || StepBy(steps[k], 1, r)
  }

  /** Some interleaving of the statements of q and r, after this run, ends in a cycle of waits. */
  ghost predicate CanDeadlock(sha: Sha, steps: seq<Step>, q: Request, r: Request) {
    exists more: seq<Step> :: Only(more, q, r) && Deadlocked(sha, steps + more)
  }

  // ---- what two transactions alone can do

  ghost predicate SameTables(from: Db, to: Db) {
    to.accounts == from.accounts && to.holds.Keys == from.holds.Keys && HoldsAdvance(from, to)
  }

  predicate Member(i: nat, q': Request, q: Request, r: Request) {
    (i == 0 && q' == q) || (i == 1 && q' == r)
  }

  ghost predicate Pair(db: Db, s: Sys, q: Request, r: Request) {
    SameTables(db, s.db) && forall i :: i in s.txs ==> Member(i, s.txs[i].request, q, r)
  }

  lemma CommitKeepsTables(s: Sys, i: nat)
    requires CanCommit(s, i) && !s.txs[i].request.Holding?
    ensures Applied(s.db, s.txs[i]).accounts == s.db.accounts
    ensures Applied(s.db, s.txs[i]).holds.Keys == s.db.holds.Keys
  {
    hide Move, Movements, AllPassed, SweepDone;
  }

  lemma CommitOf(sha: Sha, s: Sys, i: nat)
    requires Enabled(sha, s, Commit(i))
    ensures i in s.txs && CanCommit(s, i) && After(sha, s, Commit(i)).db == Applied(s.db, s.txs[i])
  {
    hide Applied, Committed;
  }

  lemma PairStays(sha: Sha, db: Db, s: Sys, step: Step, q: Request, r: Request)
    requires SysInv(sha, s) && Pair(db, s, q, r) && Enabled(sha, s, step) && !q.Holding? && !r.Holding?
    requires StepBy(step, 0, q) || StepBy(step, 1, r)
    ensures Pair(db, After(sha, s, step), q, r)
  {
    hide SysInv, Enabled, After, HoldsAdvance, CanCommit, Applied;
    var t := After(sha, s, step);
    StepAdvances(sha, s, step);
    AdvanceTwice(db, s.db, t.db);
    if step.Commit? {
      CommitOf(sha, s, step.i);
      CommitKeepsTables(s, step.i);
    }
    forall i | i in t.txs
      ensures Member(i, t.txs[i].request, q, r)
    {
      if step.Begin? && step.i == i {
        Began(sha, s, step);
      } else {
        OneStepOn(sha, s, step, i);
      }
    }
  }

  lemma {:induction false} PairRuns(sha: Sha, steps: seq<Step>, more: seq<Step>, q: Request, r: Request)
    requires Execute(sha, steps).Some? && Idle(Execute(sha, steps).value)
    requires Execute(sha, steps + more).Some? && Only(more, q, r) && !q.Holding? && !r.Holding?
    ensures Pair(Execute(sha, steps).value.db, Execute(sha, steps + more).value, q, r)
    decreases |more|
  {
    if more == [] {
      assert steps + more == steps;
    } else {
      hide Execute, SysInv, Pair, Enabled, After;
      var init, n := more[..|more| - 1], |steps + more| - 1;
      assert (steps + more)[..n] == steps + init && (steps + more)[n] == more[|more| - 1];
      StepAt(sha, steps + more, n);
      assert (steps + more)[..n + 1] == steps + more;
      PairRuns(sha, steps, init, q, r);
      PairStays(sha, Execute(sha, steps).value.db, Execute(sha, steps + init).value, more[|more| - 1], q, r);
    }
  }

  lemma PairWaits(db: Db, s: Sys, q: Request, r: Request, p: seq<nat>)
    requires LockInv(s) && Pair(db, s, q, r) && Cycle(s, p)
    ensures WaitsFor(s, 0, 1) && WaitsFor(s, 1, 0)
  {
    EndsMeet(s, p);
    assert Edge(s, p, 0) && Edge(s, p, 1);
    var x :| BlockedOn(s, p[0], x, p[1]);
    var y :| BlockedOn(s, p[1], y, p[2]);
    hide LockInv, Wants, SameTables;
    Waiting(s, p[0], x, p[1]);
    Waiting(s, p[1], y, p[2]);
    assert Member(p[0], s.txs[p[0]].request, q, r) && Member(p[1], s.txs[p[1]].request, q, r)
        && Member(p[2], s.txs[p[2]].request, q, r);
  }

  lemma Waiting(s: Sys, i: nat, x: Resource, j: nat)
    requires LockInv(s) && BlockedOn(s, i, x, j)
    ensures i in s.txs && j in s.txs && i != j && InOrder(s.txs[i]) && InOrder(s.txs[j]) && MayOwn(s.txs[j], x)
  {
  }

  // ---- transfers that cross

  ghost predicate CanCapture(db: Db, q: Request) {
    q.Capturing? && Acceptable(db, q) && Drawable(db, q.reference, q.d, q.now)
  }

  /** The other transfer, d, locks the held account, and below it an account that the capture, c, locks too. */
  ghost predicate Conflict(db: Db, held: Text, c: Draft, d: Draft) {
    held in Locked(db, d) && exists a :: Less(a, held) && a in Locked(db, c) && a in Locked(db, d)
  }

  /** A transfer that waits while another waits for it: unless it owns only its hold, it is at its sorted list. */
  lemma TransferWaits(s: Sys, i: nat, owned: Resource, wanted: Resource, j: nat)
    requires LockInv(s) && BlockedOn(s, i, wanted, j) && Transfers(s.txs[i].request)
    requires owned in s.locks && s.locks[owned] == i
    ensures (owned.HoldLock? || owned.RowLock?) && (wanted.RowLock? || wanted.ChainLock?)
    ensures owned.RowLock? && wanted.RowLock? ==>
              && s.txs[i].stage == Locking && owned.account in s.txs[i].seen && wanted.account in s.txs[i].todo
              && (Less(owned.account, wanted.account) || s.txs[i].first == Some(owned.account))
  {
    assert InOrder(s.txs[i]) && MayOwn(s.txs[i], owned) && owned != wanted;
  }

  lemma HeldRowIsOwned(sha: Sha, s: Sys, i: nat)
    requires SysInv(sha, s) && i in s.txs && s.txs[i].request.Capturing? && s.txs[i].stage == Locking
    ensures s.txs[i].request.reference in s.db.holds
    ensures RowLock(s.db.holds[s.txs[i].request.reference].account) in Owned(s, i)
  {
    hide Replay, LastId, Acceptable, Spent, TransferOk;
    assert TxOk(sha, s.db, Owned(s, i), s.txs[i], s.next);
  }

  lemma DrawnIsTouched(ps: seq<Posting>, a: Text, typ: AccountType)
    requires Spent(ps, a, typ) > 0
    ensures a in AccountsOf(ps)
  {
    if a !in AccountsOf(ps) {
      UntouchedDelta(ps, a);
      WrapFits(0);
    }
  }

  lemma HeldIsLocked(db: Db, q: Request)
    requires CanCapture(db, q)
    ensures db.holds[q.reference].account in Locked(db, q.d)
  {
    hide Spent, Acceptable;
    DrawnIsTouched(q.d.postings, db.holds[q.reference].account, db.accounts[db.holds[q.reference].account].typ);
  }

  /** What can be begun here, and if it is a capture, can draw on its hold. */
  ghost predicate Startable(db: Db, q: Request) {
    Transfers(q) && Acceptable(db, q) && (q.Capturing? ==> CanCapture(db, q))
  }

  /** The two can cross: a capture, and a transfer in conflict with it that does not start with the same row. */
  ghost predicate Crossable(db: Db, q: Request, r: Request) {
    && q.Capturing? && q.reference in db.holds && Transfers(r)
    && Conflict(db, db.holds[q.reference].account, q.d, r.d)
    && (r.Capturing? ==>
          r.reference in db.holds && db.holds[r.reference].account != db.holds[q.reference].account)
  }

  /** Seen from transaction i: it waits for a, below the row b that it owns and transaction j wants. */
  lemma CrossingIsConflict(sha: Sha, db: Db, s: Sys, q: Request, r: Request, i: nat, j: nat, a: Text, b: Text)
    requires SysInv(sha, s) && SameTables(db, s.db) && i in s.txs && j in s.txs && i != j
    requires s.txs[i].request == q && s.txs[j].request == r && Startable(db, q) && Startable(db, r)
    requires Listed(s.db, s.txs[i]) && Listed(s.db, s.txs[j])
    requires s.txs[i].stage == Locking && s.txs[j].stage == Locking
    requires RowLock(b) in s.locks && s.locks[RowLock(b)] == i
    requires a in s.txs[i].todo && b in s.txs[j].todo && a in s.txs[j].seen && Less(a, b) && s.txs[i].first == Some(b)
    ensures Crossable(db, q, r)
  {
    hide SysInv, Acceptable, Spent, AccountsOf, Less;
    assert Later(db.holds[q.reference], s.db.holds[q.reference]);
    assert b == db.holds[q.reference].account;
    if r.Capturing? {
      assert Later(db.holds[r.reference], s.db.holds[r.reference]);
      HeldRowIsOwned(sha, s, j);
      HeldIsLocked(db, r);
    }
    assert a in Locked(db, q.d) && a in Locked(db, r.d) && b in Locked(db, r.d);
  }

  lemma WaitingIsCrossing(sha: Sha, db: Db, s: Sys, q: Request, r: Request)
    requires SysInv(sha, s) && LockInv(s) && ListInv(s) && Pair(db, s, q, r) && Startable(db, q) && Startable(db, r)
    requires WaitsFor(s, 0, 1) && WaitsFor(s, 1, 0)
    ensures Crossable(db, q, r) || Crossable(db, r, q)
  {
    var x :| BlockedOn(s, 0, x, 1);
    var y :| BlockedOn(s, 1, y, 0);
    Waiting(s, 0, x, 1);
    Waiting(s, 1, y, 0);
    assert Member(0, s.txs[0].request, q, r) && Member(1, s.txs[1].request, q, r);
    assert Listed(s.db, s.txs[0]) && Listed(s.db, s.txs[1]);
    TransferWaits(s, 0, y, x, 1);
    TransferWaits(s, 1, x, y, 0);
    hide SysInv, LockInv, ListInv, Listed, Startable, SameTables, Crossable, InOrder, MayOwn, Wants, Less;
    LessIsTotal(x.account, y.account);
    if Less(x.account, y.account) {
      CrossingIsConflict(sha, db, s, q, r, 0, 1, x.account, y.account);
    } else {
      CrossingIsConflict(sha, db, s, r, q, 1, 0, y.account, x.account);
    }
  }

  lemma DeadlockNeedsCrossing(sha: Sha, steps: seq<Step>, q: Request, r: Request, more: seq<Step>)
    requires Execute(sha, steps).Some? && Idle(Execute(sha, steps).value)
    requires Startable(Execute(sha, steps).value.db, q) && Startable(Execute(sha, steps).value.db, r)
    requires Only(more, q, r) && Deadlocked(sha, steps + more)
    ensures Crossable(Execute(sha, steps).value.db, q, r) || Crossable(Execute(sha, steps).value.db, r, q)
  {
    assert !q.Holding? && !r.Holding?;
    hide Execute, Cycle, SysInv, LockInv, ListInv, Pair, Idle, Startable, Only, Crossable, WaitsFor;
    var db, s := Execute(sha, steps).value.db, Execute(sha, steps + more).value;
    var p :| Cycle(s, p);
    ExecutionKeeps(sha, steps + more);
    ExecutionKeepsOrder(sha, steps + more);
    ExecutionKeepsLists(sha, steps + more);
    PairRuns(sha, steps, more, q, r);
    PairWaits(db, s, q, r, p);
    WaitingIsCrossing(sha, db, s, q, r);
  }

  // ---- taking a list, and the rows on it

  lemma OneMoreStep(sha: Sha, steps: seq<Step>, s: Sys, step: Step)
    requires Execute(sha, steps) == Some(s) && Enabled(sha, s, step)
    ensures Execute(sha, steps + [step]) == Some(After(sha, s, step))
  {
    hide Enabled, After;
    assert (steps + [step])[..|steps|] == steps;
  }

  /** Transaction i has locked the first n rows of its list, all of them free, and nothing else has changed. */
  ghost predicate LockedRows(s: Sys, t: Sys, i: nat, n: nat)
    requires i in s.txs && n <= |s.txs[i].todo|
  {
    && t.db == s.db && t.txs.Keys == s.txs.Keys
    && (forall j :: j in s.txs && j != i ==> t.txs[j] == s.txs[j])
    && t.txs[i].request == s.txs[i].request && t.txs[i].stage == Locking && t.txs[i].todo == s.txs[i].todo[n..]
    && (forall r :: r in t.locks <==> r in s.locks || (r.RowLock? && r.account in s.txs[i].todo[..n]))
    && (forall r :: r in t.locks ==> t.locks[r] == if r in s.locks then s.locks[r] else i)
  }

  ghost predicate CanLockRows(s: Sys, i: nat, n: nat) {
    && i in s.txs && s.txs[i].stage == Locking && n <= |s.txs[i].todo|
    && forall k :: 0 <= k < n ==> s.txs[i].todo[k] in s.db.accounts && Free(s, RowLock(s.txs[i].todo[k]), i)
  }

  lemma {:induction false} LockRows(sha: Sha, steps: seq<Step>, s: Sys, i: nat, n: nat) returns (more: seq<Step>)
    requires Execute(sha, steps) == Some(s) && CanLockRows(s, i, n)
    ensures Execute(sha, steps + more).Some? && LockedRows(s, Execute(sha, steps + more).value, i, n)
    ensures forall k :: 0 <= k < |more| ==> more[k] == LockNext(i)
    decreases n
  {
    hide Execute;
    if n == 0 {
      more := [];
      assert steps + more == steps && s.txs[i].todo[0..] == s.txs[i].todo;
    } else {
      var init := LockRows(sha, steps, s, i, n - 1);
      var t := Execute(sha, steps + init).value;
      NextRow(sha, s, t, i, n);
      OneMoreStep(sha, steps + init, t, LockNext(i));
      more := init + [LockNext(i)];
      assert steps + more == steps + init + [LockNext(i)];
    }
  }

  lemma NextRow(sha: Sha, s: Sys, t: Sys, i: nat, n: nat)
    requires 0 < n && CanLockRows(s, i, n) && LockedRows(s, t, i, n - 1)
    ensures CanLockNext(t, i) && LockedRows(s, After(sha, t, LockNext(i)), i, n)
  {
    var ids := s.txs[i].todo;
    var a := ids[n - 1];
    assert ids[n - 1..][0] == a && ids[n - 1..][1..] == ids[n..];
    assert Free(s, RowLock(a), i);
    hide Free;
    var tx := t.txs[i].(todo := ids[n..], seen := t.txs[i].seen[a := t.db.accounts[a]]);
    TakenRow(s, t, i, n, tx);
    assert CanLockNext(t, i) by {
      assert Free(t, RowLock(a), i) by {
        StillFree(s, t, i, n);
      }
    }
  }

  lemma StillFree(s: Sys, t: Sys, i: nat, n: nat)
    requires 0 < n && CanLockRows(s, i, n) && LockedRows(s, t, i, n - 1)
    ensures Free(t, RowLock(s.txs[i].todo[n - 1]), i)
  {
    assert Free(s, RowLock(s.txs[i].todo[n - 1]), i);
  }

  lemma TakenRow(s: Sys, t: Sys, i: nat, n: nat, tx: Tx)
    requires i in s.txs && 0 < n <= |s.txs[i].todo| && LockedRows(s, t, i, n - 1)
    requires RowLock(s.txs[i].todo[n - 1]) in s.locks ==> s.locks[RowLock(s.txs[i].todo[n - 1])] == i
    requires tx.request == s.txs[i].request && tx.stage == Locking && tx.todo == s.txs[i].todo[n..]
    ensures LockedRows(s, Take(t, RowLock(s.txs[i].todo[n - 1]), i, tx), i, n)
  {
    var ids := s.txs[i].todo;
    forall a
      ensures a in ids[..n] <==> a in ids[..n - 1] || a == ids[n - 1]
    {
      assert ids[..n] == ids[..n - 1] + [ids[n - 1]];
    }
  }

  // ---- sorted lists exist

  lemma {:induction false} Least(xs: set<Text>) returns (m: Text)
    requires xs != {}
    ensures m in xs && forall x :: x in xs && x != m ==> Less(m, x)
    decreases xs
  {
    hide Less;
    var x :| x in xs;
    if xs == {x} {
      m := x;
    } else {
      m := Least(xs - {x});
      LessIsTotal(m, x);
      if Less(x, m) {
        forall y | y in xs && y != x
          ensures Less(x, y)
        {
          if y != m {
            LessIsTransitive(x, m, y);
          }
        }
        m := x;
      }
    }
  }

  lemma {:induction false} InSortedOrder(xs: set<Text>) returns (ids: seq<Text>)
    ensures Sorted(ids) && (set a | a in ids) == xs
    decreases xs
  {
    hide Less;
    if xs == {} {
      ids := [];
    } else {
      var m := Least(xs);
      var rest := InSortedOrder(xs - {m});
      ids := [m] + rest;
      assert forall a :: a in rest <==> a in xs - {m};
      assert forall a :: a in ids <==> a == m || a in rest;
      forall j, k | 0 <= j < k < |ids|
        ensures Less(ids[j], ids[k])
      {
        assert ids[k] in rest;
      }
    }
  }

  lemma PositionOf(ids: seq<Text>, a: Text) returns (k: nat)
    requires Sorted(ids) && a in ids
    ensures k < |ids| && ids[k] == a
    ensures forall x :: x in ids && Less(x, a) ==> x in ids[..k]
    ensures forall x :: x in ids[..k] ==> x in ids && Less(x, a)
  {
    k :| 0 <= k < |ids| && ids[k] == a;
    forall x | x in ids && Less(x, a)
      ensures x in ids[..k]
    {
      var j :| 0 <= j < |ids| && ids[j] == x;
      LessIsTotal(x, a);
      assert j < k;
    }
  }

  // ---- the crossing itself

  /** What a capture has locked before its sorted list, and a post has not. */
  predicate Ahead(db: Db, q: Request, x: Resource) {
    && q.Capturing? && q.reference in db.holds
    && (x == HoldLock(q.reference) || x == RowLock(db.holds[q.reference].account))
  }

  /** Transaction i has begun, and has its sorted list before it; of the locks only its own first ones are new. */
  ghost predicate TookList(s: Sys, t: Sys, i: nat, q: Request, ids: seq<Text>) {
    && t.db == s.db && t.txs.Keys == s.txs.Keys + {i}
    && (forall j :: j in s.txs ==> t.txs[j] == s.txs[j])
    && t.txs[i].request == q && t.txs[i].stage == Locking && t.txs[i].todo == ids
    && (forall x :: x in t.locks <==> x in s.locks || Ahead(s.db, q, x))
    && (forall x :: x in t.locks ==> t.locks[x] == if x in s.locks then s.locks[x] else i)
  }

  ghost predicate FreeToStart(s: Sys, i: nat, q: Request) {
    i !in s.txs && Startable(s.db, q) && forall x :: Ahead(s.db, q, x) ==> x !in s.locks
  }

  lemma PostTakesList(sha: Sha, steps: seq<Step>, s: Sys, i: nat, q: Request, ids: seq<Text>) returns (more: seq<Step>)
    requires Execute(sha, steps) == Some(s) && FreeToStart(s, i, q) && q.Posting?
    requires Sorted(ids) && (set a | a in ids) == Locked(s.db, q.d)
    ensures By(more, i, q) && Execute(sha, steps + more).Some? && TookList(s, Execute(sha, steps + more).value, i, q, ids)
  {
    hide Execute, Acceptable, Sorted, AccountsOf;
    OneMoreStep(sha, steps, s, Begin(i, q));
    var t := Put(s, i, Fresh(q));
    OneMoreStep(sha, steps + [Begin(i, q)], t, StartLocking(i, ids));
    more := [Begin(i, q), StartLocking(i, ids)];
    assert steps + more == steps + [Begin(i, q)] + [StartLocking(i, ids)];
  }

  /** The capture owns its hold and the held account's row. */
  function HasFirstRow(s: Sys, i: nat, q: Request): Sys
    requires q.Capturing? && q.reference in s.db.holds && s.db.holds[q.reference].account in s.db.accounts
  {
    var held := s.db.holds[q.reference].account;
    var tx := Fresh(q).(stage := AccountRead, first := Some(held), seen := map[][held := s.db.accounts[held]]);
    Take(Take(s, HoldLock(q.reference), i, Fresh(q).(stage := HoldRead)), RowLock(held), i, tx)
  }

  lemma CaptureTakesHold(sha: Sha, steps: seq<Step>, s: Sys, i: nat, q: Request)
    requires Execute(sha, steps) == Some(s) && FreeToStart(s, i, q) && q.Capturing?
    ensures Execute(sha, steps + [Begin(i, q)] + [LockHold(i)])
         == Some(Take(s, HoldLock(q.reference), i, Fresh(q).(stage := HoldRead)))
  {
    hide Execute, Acceptable, Spent;
    assert Ahead(s.db, q, HoldLock(q.reference));
    OneMoreStep(sha, steps, s, Begin(i, q));
    OneMoreStep(sha, steps + [Begin(i, q)], Put(s, i, Fresh(q)), LockHold(i));
    assert s.txs[i := Fresh(q)][i := Fresh(q).(stage := HoldRead)] == s.txs[i := Fresh(q).(stage := HoldRead)];
  }

  lemma CaptureTakesRow(sha: Sha, steps: seq<Step>, s: Sys, i: nat, q: Request)
    requires Execute(sha, steps) == Some(s) && FreeToStart(s, i, q) && q.Capturing?
    ensures Execute(sha, steps + [Begin(i, q)] + [LockHold(i)] + [LockAccount(i)]) == Some(HasFirstRow(s, i, q))
  {
    hide Execute, Acceptable, Spent;
    CaptureTakesHold(sha, steps, s, i, q);
    assert Ahead(s.db, q, RowLock(s.db.holds[q.reference].account));
    OneMoreStep(sha, steps + [Begin(i, q)] + [LockHold(i)], Take(s, HoldLock(q.reference), i, Fresh(q).(stage := HoldRead)),
                LockAccount(i));
  }

  lemma CaptureTakesList(sha: Sha, steps: seq<Step>, s: Sys, i: nat, q: Request, ids: seq<Text>) returns (more: seq<Step>)
    requires Execute(sha, steps) == Some(s) && FreeToStart(s, i, q) && q.Capturing?
    requires Sorted(ids) && (set a | a in ids) == Locked(s.db, q.d)
    ensures By(more, i, q) && Execute(sha, steps + more).Some? && TookList(s, Execute(sha, steps + more).value, i, q, ids)
  {
    hide Execute, Acceptable, Spent, AccountsOf, Sorted;
    CaptureTakesRow(sha, steps, s, i, q);
    var t := HasFirstRow(s, i, q);
    OneMoreStep(sha, steps + [Begin(i, q)] + [LockHold(i)] + [LockAccount(i)], t, StartLocking(i, ids));
    more := [Begin(i, q), LockHold(i), LockAccount(i), StartLocking(i, ids)];
    assert steps + more == steps + [Begin(i, q)] + [LockHold(i)] + [LockAccount(i)] + [StartLocking(i, ids)];
  }

  /** Transaction i has locked, besides its first rows, every listed row below a, and a is what it wants next. */
  ghost predicate Reached(s: Sys, t: Sys, i: nat, q: Request, a: Text)
    requires Transfers(q)
  {
    && t.db == s.db && t.txs.Keys == s.txs.Keys + {i}
    && (forall j :: j in s.txs ==> t.txs[j] == s.txs[j])
    && t.txs[i].request == q && t.txs[i].stage == Locking && t.txs[i].todo != [] && t.txs[i].todo[0] == a
    && (forall x :: x in t.locks <==> x in s.locks || Ahead(s.db, q, x) || Below(s.db, q, x, a))
    && (forall x :: x in t.locks ==> t.locks[x] == if x in s.locks then s.locks[x] else i)
  }

  predicate Below(db: Db, q: Request, x: Resource, a: Text)
    requires Transfers(q)
  {
    x.RowLock? && x.account in Locked(db, q.d) && Less(x.account, a)
  }

  /** If none of them is another's, a transfer can get as far as wanting any account it locks. */
  lemma Reaches(sha: Sha, steps: seq<Step>, s: Sys, i: nat, q: Request, a: Text) returns (more: seq<Step>)
    requires Execute(sha, steps) == Some(s) && FreeToStart(s, i, q) && a in Locked(s.db, q.d)
    requires forall x :: Below(s.db, q, x, a) ==> x !in s.locks
    ensures By(more, i, q) && Execute(sha, steps + more).Some?
    ensures Reached(s, Execute(sha, steps + more).value, i, q, a)
  {
    hide Execute, CanCapture, Acceptable, AccountsOf;
    var ids := InSortedOrder(Locked(s.db, q.d));
    var k := PositionOf(ids, a);
    hide Less, Sorted;
    var start: seq<Step>;
    if q.Posting? {
      start := PostTakesList(sha, steps, s, i, q, ids);
    } else {
      start := CaptureTakesList(sha, steps, s, i, q, ids);
    }
    var t := Execute(sha, steps + start).value;
    assert forall x :: x in ids <==> x in Locked(s.db, q.d);
    RowsAreFree(s, t, i, q, ids, k, a);
    var rows := LockRows(sha, steps + start, t, i, k);
    more := start + rows;
    assert steps + more == steps + start + rows;
    assert ids[k..][0] == a;
    ReachedBoth(s, t, Execute(sha, steps + more).value, i, q, ids, k, a);
  }

  lemma RowsAreFree(s: Sys, t: Sys, i: nat, q: Request, ids: seq<Text>, k: nat, a: Text)
    requires Transfers(q) && TookList(s, t, i, q, ids) && k <= |ids|
    requires forall x :: x in ids ==> x in Locked(s.db, q.d)
    requires forall x :: x in ids[..k] ==> x in ids && Less(x, a)
    requires forall x :: Below(s.db, q, x, a) ==> x !in s.locks
    ensures CanLockRows(t, i, k)
  {
    hide Less, AccountsOf, Ahead;
    forall j | 0 <= j < k
      ensures ids[j] in t.db.accounts && Free(t, RowLock(ids[j]), i)
    {
      assert ids[j] in ids[..k];
      assert Below(s.db, q, RowLock(ids[j]), a);
    }
  }

  lemma ReachedBoth(s: Sys, t: Sys, u: Sys, i: nat, q: Request, ids: seq<Text>, k: nat, a: Text)
    requires Transfers(q) && TookList(s, t, i, q, ids) && k < |ids| && ids[k] == a && i !in s.txs
    requires LockedRows(t, u, i, k)
    requires forall x :: x in ids <==> x in Locked(s.db, q.d)
    requires forall x :: x in ids && Less(x, a) ==> x in ids[..k]
    requires forall x :: x in ids[..k] ==> x in ids && Less(x, a)
    ensures Reached(s, u, i, q, a)
  {
    hide Less, AccountsOf, Ahead, Locked;
    assert u.txs[i].todo[0] == ids[k..][0];
  }

  /** Each of the two is at its list, and owns the row the other wants next. */
  ghost predicate Crossed(s: Sys, i: nat, j: nat, a: Text, b: Text) {
    && i != j && i in s.txs && j in s.txs
    && s.txs[i].stage == Locking && s.txs[i].todo != [] && s.txs[i].todo[0] == a
    && s.txs[j].stage == Locking && s.txs[j].todo != [] && s.txs[j].todo[0] == b
    && RowLock(a) in s.locks && s.locks[RowLock(a)] == j
    && RowLock(b) in s.locks && s.locks[RowLock(b)] == i
  }

  lemma CrossedIsCycle(s: Sys, i: nat, j: nat, a: Text, b: Text)
    requires Crossed(s, i, j, a, b)
    ensures Cycle(s, [i, j, i])
  {
    var p: seq<nat> := [i, j, i];
    assert BlockedOn(s, i, RowLock(a), j) && BlockedOn(s, j, RowLock(b), i);
    assert Edge(s, p, 0) && Edge(s, p, 1);
  }

  lemma LeastConflict(db: Db, held: Text, c: Draft, d: Draft) returns (a: Text)
    requires Conflict(db, held, c, d)
    ensures a in Locked(db, c) && a in Locked(db, d) && Less(a, held)
    ensures forall x :: x in Locked(db, c) && x in Locked(db, d) && Less(x, held) && x != a ==> Less(a, x)
  {
    hide Locked, Less;
    var w :| Less(w, held) && w in Locked(db, c) && w in Locked(db, d);
    var below := set x | x in Locked(db, c) && x in Locked(db, d) && Less(x, held);
    assert w in below;
    a := Least(below);
  }

  /** After the capture has reached the least account in conflict, nothing that the other needs before is taken. */
  lemma WayIsFree(s: Sys, t: Sys, i: nat, j: nat, q: Request, r: Request, a: Text)
    requires Idle(s) && i != j && Transfers(q) && Transfers(r)
    requires Startable(s.db, q) && Startable(s.db, r) && Crossable(s.db, q, r) && Reached(s, t, i, q, a)
    requires var held := s.db.holds[q.reference].account;
             && Less(a, held)
             && forall x :: x in Locked(s.db, q.d) && x in Locked(s.db, r.d) && Less(x, held) && x != a ==> Less(a, x)
    ensures FreeToStart(t, j, r)
    ensures forall x :: Below(s.db, r, x, s.db.holds[q.reference].account) ==> x !in t.locks
  {
    var db, held := s.db, s.db.holds[q.reference].account;
    if r.Capturing? {
      HeldIsLocked(db, r);
    }
    hide Startable, AccountsOf, Conflict, Locked;
    forall x: Text | x in Locked(db, r.d) && Less(x, held)
      ensures RowLock(x) !in t.locks
    {
      LessIsTotal(x, held);
      LessIsTotal(x, a);
      LessIsTotal(x, x);
    }
    if r.Capturing? {
      var other := db.holds[r.reference].account;
      LessIsTotal(other, held);
      assert RowLock(other) !in t.locks by {
        if Less(other, a) {
          LessIsTransitive(other, a, held);
        }
      }
      SameHold(db, q, r);
    }
  }

  lemma SameHold(db: Db, q: Request, r: Request)
    requires Crossable(db, q, r) && r.Capturing?
    ensures q.reference != r.reference
  {
    hide Conflict;
  }

  lemma CrossingEnds(s: Sys, t: Sys, u: Sys, i: nat, j: nat, q: Request, r: Request, a: Text)
    requires Idle(s) && i != j && Transfers(q) && Transfers(r) && Crossable(s.db, q, r)
    requires Reached(s, t, i, q, a) && Reached(t, u, j, r, s.db.holds[q.reference].account)
    requires a in Locked(s.db, r.d) && Less(a, s.db.holds[q.reference].account)
    ensures Crossed(u, i, j, a, s.db.holds[q.reference].account)
  {
    var held := s.db.holds[q.reference].account;
    hide Conflict, AccountsOf, Locked;
    LessIsTotal(a, held);
    LessIsTotal(a, a);
    assert Ahead(s.db, q, RowLock(held));
    assert RowLock(held) in t.locks && RowLock(a) !in t.locks;
    assert Below(t.db, r, RowLock(a), held);
  }

  lemma CrossableCross(sha: Sha, steps: seq<Step>, i: nat, j: nat, q: Request, r: Request)
    returns (first: seq<Step>, second: seq<Step>)
    requires Execute(sha, steps).Some? && Idle(Execute(sha, steps).value) && i != j
    requires Startable(Execute(sha, steps).value.db, q) && Startable(Execute(sha, steps).value.db, r)
    requires Crossable(Execute(sha, steps).value.db, q, r)
    ensures By(first, i, q) && By(second, j, r) && Deadlocked(sha, steps + first + second)
  {
    var s := Execute(sha, steps).value;
    var held := s.db.holds[q.reference].account;
    var a := LeastConflict(s.db, held, q.d, r.d);
    assert FreeToStart(s, i, q) && held in Locked(s.db, r.d);
    hide Execute, Startable, Crossable, Locked, Less, Reached, By, Cycle, FreeToStart, Below;
    NothingBelow(s, q, a);
    first := Reaches(sha, steps, s, i, q, a);
    var t := Execute(sha, steps + first).value;
    WayIsFree(s, t, i, j, q, r, a);
    assert t.db == s.db by {
      ReachedTables(s, t, i, q, a);
    }
    second := Reaches(sha, steps + first, t, j, r, held);
    CrossingEnds(s, t, Execute(sha, steps + first + second).value, i, j, q, r, a);
    CrossedIsCycle(Execute(sha, steps + first + second).value, i, j, a, held);
  }

  lemma NothingBelow(s: Sys, q: Request, a: Text)
    requires Idle(s) && Transfers(q)
    ensures forall x :: Below(s.db, q, x, a) ==> x !in s.locks
  {
  }

  lemma ReachedTables(s: Sys, t: Sys, i: nat, q: Request, a: Text)
    requires Transfers(q) && Reached(s, t, i, q, a)
    ensures t.db == s.db
  {
  }

  lemma OneAfterTheOther(sha: Sha, steps: seq<Step>, first: seq<Step>, second: seq<Step>, q: Request, r: Request)
    requires (By(first, 0, q) && By(second, 1, r)) || (By(first, 1, r) && By(second, 0, q))
    requires Deadlocked(sha, steps + first + second)
    ensures CanDeadlock(sha, steps, q, r)
  {
    hide StepBy, Deadlocked;
    assert steps + (first + second) == steps + first + second;
    assert Only(first + second, q, r);
  }

  lemma CrossableCanDeadlock(sha: Sha, steps: seq<Step>, q: Request, r: Request)
    requires Execute(sha, steps).Some? && Idle(Execute(sha, steps).value)
    requires Startable(Execute(sha, steps).value.db, q) && Startable(Execute(sha, steps).value.db, r)
    requires Crossable(Execute(sha, steps).value.db, q, r) || Crossable(Execute(sha, steps).value.db, r, q)
    ensures CanDeadlock(sha, steps, q, r)
  {
    hide Execute, Idle, Startable, Crossable, By, Deadlocked, CanDeadlock;
    if Crossable(Execute(sha, steps).value.db, q, r) {
      var first, second := CrossableCross(sha, steps, 0, 1, q, r);
      OneAfterTheOther(sha, steps, first, second, q, r);
    } else {
      var first, second := CrossableCross(sha, steps, 1, 0, r, q);
      OneAfterTheOther(sha, steps, first, second, q, r);
    }
  }

  lemma TransfersMeetIff(sha: Sha, steps: seq<Step>, q: Request, r: Request)
    requires Execute(sha, steps).Some? && Idle(Execute(sha, steps).value)
    requires Startable(Execute(sha, steps).value.db, q) && Startable(Execute(sha, steps).value.db, r)
    ensures CanDeadlock(sha, steps, q, r)
       <==> Crossable(Execute(sha, steps).value.db, q, r) || Crossable(Execute(sha, steps).value.db, r, q)
  {
    hide Execute, Idle, Startable, Deadlocked, Only, Crossable;
    if more: seq<Step> :| Only(more, q, r) && Deadlocked(sha, steps + more) {
      DeadlockNeedsCrossing(sha, steps, q, r, more);
    }
    if Crossable(Execute(sha, steps).value.db, q, r) || Crossable(Execute(sha, steps).value.db, r, q) {
      CrossableCanDeadlock(sha, steps, q, r);
    }
  }

  /**
   Begun on an idle ledger, a capture and a post can deadlock exactly when the post locks the held account and,
   below it, an account that the capture locks too.
   */
  lemma CaptureMeetsPostIff(sha: Sha, steps: seq<Step>, q: Request, r: Request)
    requires Execute(sha, steps).Some? && Idle(Execute(sha, steps).value)
    requires CanCapture(Execute(sha, steps).value.db, q)
    requires r.Posting? && Acceptable(Execute(sha, steps).value.db, r)
    ensures CanDeadlock(sha, steps, q, r)
       <==> Conflict(Execute(sha, steps).value.db, Execute(sha, steps).value.db.holds[q.reference].account, q.d, r.d)
  {
    hide Execute, Idle, CanDeadlock, Conflict, Spent, Acceptable;
    TransfersMeetIff(sha, steps, q, r);
  }

  /**
   Two captures can, exactly when their held accounts differ and one of them locks the other's held account and,
   below it, an account that both lock.
   */
  lemma CapturesMeetIff(sha: Sha, steps: seq<Step>, q: Request, r: Request)
    requires Execute(sha, steps).Some? && Idle(Execute(sha, steps).value)
    requires CanCapture(Execute(sha, steps).value.db, q) && CanCapture(Execute(sha, steps).value.db, r)
    ensures var db := Execute(sha, steps).value.db;
            var x, y := db.holds[q.reference].account, db.holds[r.reference].account;
            CanDeadlock(sha, steps, q, r) <==> (x != y && (Conflict(db, x, q.d, r.d) || Conflict(db, y, r.d, q.d)))
  {
    hide Execute, Idle, CanDeadlock, Conflict, Acceptable, Spent;
    TransfersMeetIff(sha, steps, q, r);
  }

  /** Two posts never. */
  lemma PostsNeverMeet(sha: Sha, steps: seq<Step>, q: Request, r: Request)
    requires Execute(sha, steps).Some? && Idle(Execute(sha, steps).value)
    requires q.Posting? && Acceptable(Execute(sha, steps).value.db, q)
    requires r.Posting? && Acceptable(Execute(sha, steps).value.db, r)
    ensures !CanDeadlock(sha, steps, q, r)
  {
    hide Execute, Idle, CanDeadlock, Acceptable;
    TransfersMeetIff(sha, steps, q, r);
  }

  // ---- a capture among any number of others

  /** Every transaction begun is q, or neither a capture nor a sweep. */
  predicate Joins(step: Step, q: Request) {
    step.Begin? ==> step.request == q || (!step.request.Capturing? && !step.request.Expiring?)
  }

  ghost predicate Among(steps: seq<Step>, q: Request) {
    forall k :: 0 <= k < |steps| ==> Joins(steps[k], q)
  }

  ghost predicate CanDeadlockAmong(sha: Sha, steps: seq<Step>, q: Request) {
    exists more: seq<Step> :: Among(more, q) && Deadlocked(sha, steps + more)
  }

  lemma {:induction false} AmongRuns(sha: Sha, steps: seq<Step>, more: seq<Step>, q: Request)
    requires Execute(sha, steps).Some? && Idle(Execute(sha, steps).value)
    requires Execute(sha, steps + more).Some? && Among(more, q)
    ensures var s := Execute(sha, steps + more).value;
            forall i :: i in s.txs ==>
              s.txs[i].request == q || (!s.txs[i].request.Capturing? && !s.txs[i].request.Expiring?)
    decreases |more|
  {
    if more == [] {
      assert steps + more == steps;
    } else {
      hide Execute, SysInv, Enabled, After;
      var init, n := more[..|more| - 1], |steps + more| - 1;
      assert (steps + more)[..n] == steps + init && (steps + more)[n] == more[|more| - 1];
      StepAt(sha, steps + more, n);
      assert (steps + more)[..n + 1] == steps + more;
      AmongRuns(sha, steps, init, q);
      var s, step := Execute(sha, steps + init).value, more[|more| - 1];
      assert Joins(step, q);
      var t := After(sha, s, step);
      forall i | i in t.txs
        ensures t.txs[i].request == q || (!t.txs[i].request.Capturing? && !t.txs[i].request.Expiring?)
      {
        if step.Begin? && step.i == i {
          Began(sha, s, step);
        } else {
          OneStepOn(sha, s, step, i);
        }
      }
    }
  }

  lemma LeastStays(from: Db, to: Db, q: Request)
    requires HoldsAdvance(from, to) && q.Capturing? && q.reference in from.holds && HeldIsLeast(from, q)
    ensures HeldIsLeast(to, q)
  {
    hide Less, AccountsOf;
    assert Later(from.holds[q.reference], to.holds[q.reference]);
  }

  lemma LeastIsSafe(sha: Sha, steps: seq<Step>, more: seq<Step>, q: Request)
    requires Execute(sha, steps).Some? && Idle(Execute(sha, steps).value)
    requires CanCapture(Execute(sha, steps).value.db, q) && HeldIsLeast(Execute(sha, steps).value.db, q)
    requires Among(more, q)
    ensures !Deadlocked(sha, steps + more)
  {
    hide Execute, Idle, Cycle, HeldIsLeast, Acceptable, Spent, HoldsAdvance;
    if Execute(sha, steps + more).Some? {
      var s := Execute(sha, steps + more).value;
      AmongRuns(sha, steps, more, q);
      InterleavedHoldsOnlyMoveForward(sha, steps + more, |steps|);
      assert (steps + more)[..|steps|] == steps;
      forall i | i in s.txs
        ensures HeldIsLeast(s.db, s.txs[i].request)
      {
        if s.txs[i].request.Capturing? {
          LeastStays(Execute(sha, steps).value.db, s.db, q);
        } else {
          NoCapture(s.db, s.txs[i].request);
        }
      }
      forall p
        ensures !Cycle(s, p)
      {
        NoDeadlockWhenHeldIsLeast(sha, steps + more, p);
      }
    }
  }

  lemma NoCapture(db: Db, q: Request)
    requires !q.Capturing?
    ensures HeldIsLeast(db, q)
  {
  }

  /** An account that the transfer names and the ledger lacks can be created meanwhile. */
  lemma Arrives(sha: Sha, steps: seq<Step>, q: Request, a: Text) returns (more: seq<Step>)
    requires Execute(sha, steps).Some? && Idle(Execute(sha, steps).value)
    requires CanCapture(Execute(sha, steps).value.db, q) && a in AccountsOf(q.d.postings)
    ensures Among(more, q) && Execute(sha, steps + more).Some? && Idle(Execute(sha, steps + more).value)
    ensures CanCapture(Execute(sha, steps + more).value.db, q) && a in Locked(Execute(sha, steps + more).value.db, q.d)
    ensures Execute(sha, steps + more).value.db.holds == Execute(sha, steps).value.db.holds
  {
    var s := Execute(sha, steps).value;
    if a in s.db.accounts {
      more := [];
      assert steps + more == steps;
    } else {
      NamedAccounts(q.d, a);
      hide Execute, ValidationError, Spent, AccountsOf;
      var step := CreateAccount(a, Account(Asset, [69, 85, 82], false, true));
      OneMoreStep(sha, steps, s, step);
      more := [step];
    }
  }

  lemma NamedAccounts(d: Draft, a: Text)
    requires ValidationError(d) == None && a in AccountsOf(d.postings)
    ensures a != []
  {
    FirstPostingErrorMeans(d.postings, 0);
    var p :| p in d.postings && p.account == a;
    var k :| 0 <= k < |d.postings| && d.postings[k] == p;
    assert WellFormed(d.postings[k]);
  }

  lemma BelowInConflict(db: Db, q: Request, a: Text)
    requires CanCapture(db, q) && a in Locked(db, q.d) && Less(a, db.holds[q.reference].account)
    ensures Acceptable(db, Request.Posting(q.d, q.at))
    ensures Conflict(db, db.holds[q.reference].account, q.d, q.d)
  {
    HeldIsLocked(db, q);
    hide Locked, Less, Spent, ValidationError;
  }

  lemma OnlyIsAmong(first: seq<Step>, second: seq<Step>, q: Request, r: Request)
    requires Among(first, q) && Only(second, q, r) && r.Posting?
    ensures Among(first + second, q)
  {
    forall k | 0 <= k < |first + second|
      ensures Joins((first + second)[k], q)
    {
      if k < |first| {
        assert Joins(first[k], q);
      } else {
        var step := second[k - |first|];
        assert StepBy(step, 0, q) || StepBy(step, 1, r);
      }
    }
  }

  lemma TouchesBelowCanDeadlock(sha: Sha, steps: seq<Step>, q: Request, a: Text)
    requires Execute(sha, steps).Some? && Idle(Execute(sha, steps).value)
    requires CanCapture(Execute(sha, steps).value.db, q) && a in AccountsOf(q.d.postings)
    requires Less(a, Execute(sha, steps).value.db.holds[q.reference].account)
    ensures CanDeadlockAmong(sha, steps, q)
  {
    hide Execute, Idle, Less, AccountsOf, Locked, Deadlocked, Only, Among, Conflict, Acceptable, Drawable, CanDeadlock;
    var first := Arrives(sha, steps, q, a);
    var r := Request.Posting(q.d, q.at);
    BelowInConflict(Execute(sha, steps + first).value.db, q, a);
    CaptureMeetsPostIff(sha, steps + first, q, r);
    var second := SomeCrossing(sha, steps + first, q, r);
    assert steps + (first + second) == steps + first + second;
    OnlyIsAmong(first, second, q, r);
  }

  lemma SomeCrossing(sha: Sha, steps: seq<Step>, q: Request, r: Request) returns (more: seq<Step>)
    requires CanDeadlock(sha, steps, q, r)
    ensures Only(more, q, r) && Deadlocked(sha, steps + more)
  {
    hide Only, Deadlocked;
    more :| Only(more, q, r) && Deadlocked(sha, steps + more);
  }

  /**
   Among any number of other transactions, none of them a capture or a sweep, a capture can be part of a deadlock
   exactly when its transfer touches an account whose id is less than the held one's.
   */
  lemma CaptureCanDeadlockIff(sha: Sha, steps: seq<Step>, q: Request)
    requires Execute(sha, steps).Some? && Idle(Execute(sha, steps).value)
    requires CanCapture(Execute(sha, steps).value.db, q)
    ensures CanDeadlockAmong(sha, steps, q) <==> !HeldIsLeast(Execute(sha, steps).value.db, q)
  {
    var db := Execute(sha, steps).value.db;
    hide Execute, Idle, Less, AccountsOf, Deadlocked, CanDeadlockAmong, Among, Acceptable, Spent;
    if HeldIsLeast(db, q) {
      if CanDeadlockAmong(sha, steps, q) {
        var more := SomeRun(sha, steps, q);
        LeastIsSafe(sha, steps, more, q);
      }
    } else {
      var a :| a in AccountsOf(q.d.postings) && Less(a, db.holds[q.reference].account);
      TouchesBelowCanDeadlock(sha, steps, q, a);
    }
  }

  lemma SomeRun(sha: Sha, steps: seq<Step>, q: Request) returns (more: seq<Step>)
    requires CanDeadlockAmong(sha, steps, q)
    ensures Among(more, q) && Deadlocked(sha, steps + more)
  {
    hide Among, Deadlocked;
    more :| Among(more, q) && Deadlocked(sha, steps + more);
  }

  // ---- two sweeps

  ghost predicate TwoDue(db: Db, now: int, now': int) {
    exists x, y :: x != y && {x, y} <= Due(db, now) && {x, y} <= Due(db, now')
  }

  lemma OverlapIsDue(sha: Sha, db: Db, s: Sys, now: int, now': int)
    requires SweepInv(s) && Pair(db, s, Expiring(now), Expiring(now')) && SweepsOverlap(s)
    ensures TwoDue(db, now, now')
  {
    var i, j, x, y :| Overlap(s, i, j, x, y);
    assert Found(s, i) && Found(s, j);
    assert Later(db.holds[x], s.db.holds[x]) && Later(db.holds[y], s.db.holds[y]);
    assert {x, y} <= Due(db, now) && {x, y} <= Due(db, now');
  }

  lemma SweepsLockNoRows(db: Db, s: Sys, now: int, now': int)
    requires LockInv(s) && Pair(db, s, Expiring(now), Expiring(now'))
    ensures AllHeldFirst(s)
  {
    forall i | i in s.txs
      ensures HeldFirst(s.txs[i])
    {
      assert InOrder(s.txs[i]);
    }
  }

  /** Each sweep has marked the hold the other has still to reach. */
  ghost predicate SweepsCrossed(s: Sys, x: Text, y: Text) {
    && x != y && Sweeps(s, 0) && Sweeps(s, 1)
    && s.txs[0].expired == {x} && s.txs[1].expired == {y}
    && {x, y} <= s.txs[0].due && {x, y} <= s.txs[1].due
    && x in s.db.holds && y in s.db.holds
    && s.db.holds[x].status == Active && s.db.holds[y].status == Active
    && HoldLock(x) in s.locks && s.locks[HoldLock(x)] == 0
    && HoldLock(y) in s.locks && s.locks[HoldLock(y)] == 1
  }

  lemma SweepsCrossedIsCycle(s: Sys, x: Text, y: Text)
    requires SweepsCrossed(s, x, y)
    ensures Cycle(s, [0, 1, 0])
  {
    var p: seq<nat> := [0, 1, 0];
    assert BlockedOn(s, 0, HoldLock(y), 1) && BlockedOn(s, 1, HoldLock(x), 0);
    assert Edge(s, p, 0) && Edge(s, p, 1);
  }

  function SweepBegun(s: Sys, i: nat, now: int): Sys {
    Put(s, i, Fresh(Expiring(now)).(stage := Sweeping, due := Due(s.db, now), started := s.clock)).(clock := s.clock + 1)
  }

  lemma SweepBegins(sha: Sha, steps: seq<Step>, s: Sys, i: nat, now: int)
    requires Execute(sha, steps) == Some(s) && i !in s.txs
    ensures Execute(sha, steps + [Begin(i, Expiring(now))] + [StartSweep(i)]) == Some(SweepBegun(s, i, now))
  {
    hide Execute, Due;
    var q := Expiring(now);
    OneMoreStep(sha, steps, s, Begin(i, q));
    OneMoreStep(sha, steps + [Begin(i, q)], Put(s, i, Fresh(q)), StartSweep(i));
    var swept := Fresh(q).(stage := Sweeping, due := Due(s.db, now), started := s.clock);
    assert s.txs[i := Fresh(q)][i := swept] == s.txs[i := swept];
  }

  lemma SweepsCross(sha: Sha, steps: seq<Step>, now: int, now': int, x: Text, y: Text) returns (more: seq<Step>)
    requires Execute(sha, steps).Some? && Idle(Execute(sha, steps).value) && x != y
    requires {x, y} <= Due(Execute(sha, steps).value.db, now) && {x, y} <= Due(Execute(sha, steps).value.db, now')
    ensures Only(more, Expiring(now), Expiring(now')) && Deadlocked(sha, steps + more)
  {
    hide Execute, Cycle;
    var q, r := Expiring(now), Expiring(now');
    var s0 := Execute(sha, steps).value;
    assert x in Due(s0.db, now) && y in Due(s0.db, now) && x in Due(s0.db, now') && y in Due(s0.db, now');
    SweepBegins(sha, steps, s0, 0, now);
    var one := SweepBegun(s0, 0, now);
    SweepBegins(sha, steps + [Begin(0, q)] + [StartSweep(0)], one, 1, now');
    var s4 := SweepBegun(one, 1, now');
    var begun := [Begin(0, q), StartSweep(0), Begin(1, r), StartSweep(1)];
    assert steps + begun == steps + [Begin(0, q)] + [StartSweep(0)] + [Begin(1, r)] + [StartSweep(1)];
    var s5 := Take(s4, HoldLock(x), 0, s4.txs[0].(expired := {} + {x}));
    OneMoreStep(sha, steps + begun, s4, ExpireRow(0, x));
    var s6 := Take(s5, HoldLock(y), 1, s5.txs[1].(expired := {} + {y}));
    OneMoreStep(sha, steps + begun + [ExpireRow(0, x)], s5, ExpireRow(1, y));
    SweepsCrossedIsCycle(s6, x, y);
    more := begun + [ExpireRow(0, x)] + [ExpireRow(1, y)];
    assert steps + more == steps + begun + [ExpireRow(0, x)] + [ExpireRow(1, y)];
  }

  /** Begun on an idle ledger, two sweeps can deadlock exactly when two active holds are past due for both. */
  lemma SweepsMeetIff(sha: Sha, steps: seq<Step>, now: int, now': int)
    requires Execute(sha, steps).Some? && Idle(Execute(sha, steps).value)
    ensures CanDeadlock(sha, steps, Expiring(now), Expiring(now')) <==> TwoDue(Execute(sha, steps).value.db, now, now')
  {
    var db := Execute(sha, steps).value.db;
    hide Execute, Cycle, LockInv, SweepInv, Pair, Idle, Due, SweepsOverlap, AllHeldFirst;
    if more :| Only(more, Expiring(now), Expiring(now')) && Deadlocked(sha, steps + more) {
      var p :| Cycle(Execute(sha, steps + more).value, p);
      ExecutionKeepsOrder(sha, steps + more);
      ExecutionKeepsSweeps(sha, steps + more);
      PairRuns(sha, steps, more, Expiring(now), Expiring(now'));
      SweepsLockNoRows(db, Execute(sha, steps + more).value, now, now');
      CycleOverlaps(Execute(sha, steps + more).value, p);
      OverlapIsDue(sha, db, Execute(sha, steps + more).value, now, now');
    }
    if x, y :| x != y && {x, y} <= Due(db, now) && {x, y} <= Due(db, now') {
      var more := SweepsCross(sha, steps, now, now', x, y);
    }
  }
}
