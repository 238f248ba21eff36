/** What holds and sweeps do between two moments of one interleaving. */
module Interleavings {
  import opened Drafts
  import opened ChainEncoding
  import opened Books
  import opened BooksInvariants
  import opened Guard
  import opened Holds
  import opened Transactions
  import opened Serializability

  // ---- one statement

  predicate MovesList(step: Step, i: nat) {
    (step.LockAccount? || step.StartLocking? || step.LockNext?) && step.i == i
  }

  /** A transaction's own statements other than Begin. */
  predicate StepOf(step: Step, i: nat) {
    match step
    case Begin(_, _) => false
    case SkipId => false
    case CreateAccount(_, _) => false
    case ArchiveAccount(_) => false
    case _ => step.i == i
  }

  lemma OthersStand(sha: Sha, s: Sys, step: Step, i: nat)
    requires Enabled(sha, s, step) && !StepOf(step, i) && !(step.Begin? && step.i == i) && i in After(sha, s, step).txs
    ensures i in s.txs && After(sha, s, step).txs[i] == s.txs[i]
  {
    hide OpOk, OpDb, Acceptable, Inserted, Due, Applied, Committed, Spent, LegsAdmitted, CanWrite, CanCheckGuard,
         CanCheckFunds, PastDue, Sorted, Free, SweepDone, AllPassed, CanStartLocking, CanTakeChain;
  }

  predicate TakesLock(step: Step) {
    step.LockHold? || step.LockAccount? || step.LockNext? || step.TakeChain? || step.InsertHold? || step.ExpireRow?
    || step.MarkRow?
  }

  /** The same request and sweep; the same list too, unless the statement moves it. */
  predicate Same(step: Step, tx: Tx, tx': Tx) {
    && tx'.request == tx.request
    && (step.LockAccount? || step.StartLocking? || step.LockNext?
        || (tx'.first == tx.first && tx'.todo == tx.todo && tx'.seen == tx.seen))
    && (step.StartSweep?
        || (tx'.due == tx.due && tx'.started == tx.started && (tx'.stage == Sweeping <==> tx.stage == Sweeping)))
  }

  lemma LockerStaysItself(sha: Sha, s: Sys, step: Step, i: nat)
    requires Enabled(sha, s, step) && StepOf(step, i) && TakesLock(step) && i in After(sha, s, step).txs
    ensures i in s.txs && Same(step, s.txs[i], After(sha, s, step).txs[i])
  {
    hide Due, Spent, LegsAdmitted, PastDue, Free;
  }

  lemma WorkerStaysItself(sha: Sha, s: Sys, step: Step, i: nat)
    requires Enabled(sha, s, step) && StepOf(step, i) && !TakesLock(step) && i in After(sha, s, step).txs
    ensures i in s.txs && Same(step, s.txs[i], After(sha, s, step).txs[i])
  {
    hide Inserted, Due, Applied, Committed, CodeAvailableOf, Movements, MovementsFit, FreshReference, LinkAllowed, AllPassed,
         SweepDone, Sorted;
  }

  lemma ActingStaysItself(sha: Sha, s: Sys, step: Step, i: nat)
    requires Enabled(sha, s, step) && StepOf(step, i) && i in After(sha, s, step).txs
    ensures i in s.txs && Same(step, s.txs[i], After(sha, s, step).txs[i])
  {
    hide Enabled, After, StepOf;
    if TakesLock(step) {
      LockerStaysItself(sha, s, step, i);
    } else {
      WorkerStaysItself(sha, s, step, i);
    }
  }

  /** What a statement leaves of an open transaction as it was. */
  lemma OneStepOn(sha: Sha, s: Sys, step: Step, i: nat)
    requires Enabled(sha, s, step) && !(step.Begin? && step.i == i) && i in After(sha, s, step).txs
    ensures i in s.txs
    ensures var tx, tx' := s.txs[i], After(sha, s, step).txs[i];
            && tx'.request == tx.request
            && (!MovesList(step, i) ==> tx'.first == tx.first && tx'.todo == tx.todo && tx'.seen == tx.seen)
            && (!(step.StartSweep? && step.i == i) ==>
                  tx'.due == tx.due && tx'.started == tx.started && (tx'.stage == Sweeping <==> tx.stage == Sweeping))
            && (step.StartSweep? && step.i == i ==> tx.stage == Begun)
  {
    hide After, CanStartSweep;
    if StepOf(step, i) {
      hide Enabled;
      ActingStaysItself(sha, s, step, i);
      if step.StartSweep? {
        SweepStartsBegun(sha, s, i);
      }
    } else {
      hide Enabled;
      OthersStand(sha, s, step, i);
    }
  }

  lemma SweepStartsBegun(sha: Sha, s: Sys, i: nat)
    requires Enabled(sha, s, StartSweep(i))
    ensures i in s.txs && s.txs[i].stage == Begun
  {
  }

  // ---- holds

  lemma CommitAdvances(sha: Sha, s: Sys, i: nat)
    requires SysInv(sha, s) && CanCommit(s, i)
    ensures HoldsAdvance(s.db, Applied(s.db, s.txs[i]))
  {
    assert TxOk(sha, s.db, Owned(s, i), s.txs[i], s.next);
    hide SysInv, TxOk, OpOk, OpDb, Applied, CanCommit, Owned, HoldsAdvance;
    CommitIsSerial(sha, s, i);
    OpAdvances(sha, s.db, Committed(s.txs[i]));
  }

  predicate Commits(step: Step) {
    step.Commit? || step.CreateAccount? || step.ArchiveAccount?
  }

  /** Only commits reach the committed tables. */
  lemma TablesStand(sha: Sha, s: Sys, step: Step)
    requires Enabled(sha, s, step) && !Commits(step)
    ensures After(sha, s, step).db == s.db && After(sha, s, step).log == s.log
  {
    hide OpOk, OpDb, Acceptable, Inserted, Due, Spent, LegsAdmitted, CodeAvailableOf, Movements, MovementsFit,
         FreshReference, LinkAllowed, PastDue, Sorted, Free;
  }

  lemma CommitsAdvance(sha: Sha, s: Sys, step: Step)
    requires SysInv(sha, s) && Enabled(sha, s, step) && Commits(step)
    ensures HoldsAdvance(s.db, After(sha, s, step).db) && s.log <= After(sha, s, step).log
  {
    hide SysInv, TxOk, OpOk, Applied, CanCommit, Committed, Owned, Drop;
    if step.Commit? {
      hide HoldsAdvance;
      CommitAdvances(sha, s, step.i);
    }
  }

  lemma NothingAdvances(db: Db)
    ensures HoldsAdvance(db, db)
  {
  }

  /** No statement brings a hold back, or changes what it reserves. */
  lemma StepAdvances(sha: Sha, s: Sys, step: Step)
    requires SysInv(sha, s) && Enabled(sha, s, step)
    ensures HoldsAdvance(s.db, After(sha, s, step).db)
    ensures After(sha, s, step).db == s.db || Commits(step)
    ensures s.log <= After(sha, s, step).log
  {
    hide SysInv, Enabled, After, HoldsAdvance, Commits;
    if Commits(step) {
      CommitsAdvance(sha, s, step);
    } else {
      TablesStand(sha, s, step);
      NothingAdvances(s.db);
    }
  }

  lemma {:induction false} ExecutionPrefix(sha: Sha, steps: seq<Step>, n: nat)
    requires n <= |steps| && Execute(sha, steps).Some?
    ensures Execute(sha, steps[..n]).Some?
    decreases |steps|
  {
    if n == |steps| {
      assert steps[..n] == steps;
    } else {
      hide Enabled, After;
      assert steps[..|steps| - 1][..n] == steps[..n];
      ExecutionPrefix(sha, steps[..|steps| - 1], n);
    }
  }

  lemma StepAt(sha: Sha, steps: seq<Step>, n: nat)
    requires n < |steps| && Execute(sha, steps).Some?
    ensures Execute(sha, steps[..n]).Some? && Execute(sha, steps[..n + 1]).Some?
    ensures Enabled(sha, Execute(sha, steps[..n]).value, steps[n])
    ensures Execute(sha, steps[..n + 1]).value == After(sha, Execute(sha, steps[..n]).value, steps[n])
    ensures SysInv(sha, Execute(sha, steps[..n]).value)
  {
    ExecutionPrefix(sha, steps, n);
    ExecutionPrefix(sha, steps, n + 1);
    ExecutionKeeps(sha, steps[..n]);
    hide Enabled, After, SysInv;
    assert steps[..n + 1][..n] == steps[..n];
  }

  lemma AdvanceTwice(a: Db, b: Db, c: Db)
    requires HoldsAdvance(a, b) && HoldsAdvance(b, c)
    ensures HoldsAdvance(a, c)
  {
  }

  /**
   Between any two moments of one interleaving a hold leaves the active state at most once and is frozen
   afterwards, and what had committed stays committed.
   */
  lemma {:induction false} InterleavedHoldsOnlyMoveForward(sha: Sha, steps: seq<Step>, n: nat)
    requires n <= |steps| && Execute(sha, steps).Some?
    ensures Execute(sha, steps[..n]).Some?
    ensures HoldsAdvance(Execute(sha, steps[..n]).value.db, Execute(sha, steps).value.db)
    ensures Execute(sha, steps[..n]).value.log <= Execute(sha, steps).value.log
    decreases |steps|
  {
    if n == |steps| {
      assert steps[..n] == steps;
    } else {
      hide Execute, Enabled, After, SysInv, HoldsAdvance;
      var last := |steps| - 1;
      StepAt(sha, steps, last);
      assert steps[..last + 1] == steps && steps[..last][..n] == steps[..n];
      InterleavedHoldsOnlyMoveForward(sha, steps[..last], n);
      StepAdvances(sha, Execute(sha, steps[..last]).value, steps[last]);
      AdvanceTwice(Execute(sha, steps[..n]).value.db, Execute(sha, steps[..last]).value.db, Execute(sha, steps).value.db);
    }
  }

  lemma CaptureDraws(sha: Sha, s: Sys, i: nat)
    requires SysInv(sha, s) && i in s.txs && s.txs[i].request.Capturing? && s.txs[i].stage == Written
    ensures Inv(sha, s.db)
    ensures var tx := s.txs[i];
            && tx.row.Some?
            && Drawable(s.db, tx.request.reference, tx.request.d, tx.request.now)
            && Postable(s.db, tx.request.d, tx.row.value.id, tx.request.at)
            && View(s.db, tx) == PostedDb(sha, s.db, tx.request.d, tx.row.value.id, tx.request.at)
            && s.db.holds[tx.request.reference].account in tx.seen
            && tx.seen[s.db.holds[tx.request.reference].account] == s.db.accounts[s.db.holds[tx.request.reference].account]
  {
    CommittedBooks(sha, s);
    hide Inv, Replay, Owned, LastId, Postable, View, PostedDb, ValidationError, Spent, Available, NewRow;
    var tx := s.txs[i];
    assert TxOk(sha, s.db, Owned(s, i), tx, s.next);
    ViewIsPosted(sha, s.db, tx, tx.row.value.id);
  }

  /**
   In every reachable state, whatever the others are doing, a capture that has written its transfer finds the
   held account funded.
   */
  lemma WrittenCapturePasses(sha: Sha, steps: seq<Step>, i: nat)
    requires Execute(sha, steps).Some?
    requires var s := Execute(sha, steps).value;
             i in s.txs && s.txs[i].request.Capturing? && s.txs[i].stage == Written
    ensures var s := Execute(sha, steps).value;
            && s.txs[i].request.reference in s.db.holds
            && var a := s.db.holds[s.txs[i].request.reference].account;
               && a in s.txs[i].seen
               && (!s.txs[i].seen[a].allowNegative ==> CanCheckGuard(s, i, a))
  {
    ExecutionKeeps(sha, steps);
    hide Execute, SysInv, Inv, View, PostedDb, Postable, CodeAvailableOf, Spent;
    var s := Execute(sha, steps).value;
    var tx := s.txs[i];
    CaptureDraws(sha, s, i);
    var a := s.db.holds[tx.request.reference].account;
    if !tx.seen[a].allowNegative {
      HeldAccountIsFunded(sha, s.db, tx.request.reference, tx.request.d, tx.row.value.id, tx.request.at, tx.request.now);
    }
  }

  // ---- links

  /** Committed links are mirror images, and so is every link that an open transaction is about to make. */
  ghost predicate LinkInv(s: Sys) {
    && Linked(s.db.transfers)
    && forall i :: i in s.txs ==> LinkReady(s.db, s.txs[i].request)
  }

  ghost predicate LinkReady(db: Db, q: Request) {
    Transfers(q) ==> LinkedByReverse(db.transfers, q.d)
  }

  lemma HistoryGrows(sha: Sha, db: Db, op: Op)
    requires OpOk(sha, db, op)
    ensures db.transfers <= OpDb(sha, db, op).transfers
  {
    hide NewRow, Move, Movements, PostOk;
  }

  lemma LinkStaysReady(from: Db, to: Db, q: Request)
    requires from.transfers <= to.transfers && LinkReady(from, q)
    ensures LinkReady(to, q)
  {
  }

  lemma CommitKeepsLinks(sha: Sha, s: Sys, i: nat)
    requires SysInv(sha, s) && CanCommit(s, i) && LinkInv(s)
    ensures Linked(Applied(s.db, s.txs[i]).transfers) && s.db.transfers <= Applied(s.db, s.txs[i]).transfers
  {
    assert TxOk(sha, s.db, Owned(s, i), s.txs[i], s.next);
    assert LinkReady(s.db, s.txs[i].request);
    hide SysInv, TxOk, OpOk, OpDb, Applied, Owned, Linked;
    CommitIsSerial(sha, s, i);
    OpKeepsLinks(sha, s.db, Committed(s.txs[i]));
    HistoryGrows(sha, s.db, Committed(s.txs[i]));
  }

  lemma StepAppends(sha: Sha, s: Sys, step: Step)
    requires SysInv(sha, s) && LinkInv(s) && Enabled(sha, s, step)
    ensures s.db.transfers <= After(sha, s, step).db.transfers && Linked(After(sha, s, step).db.transfers)
  {
    if Commits(step) {
      hide SysInv, Linked, Applied, CanCommit, Committed, OpOk, LinkReady;
      if step.Commit? {
        CommitKeepsLinks(sha, s, step.i);
      }
    } else {
      hide SysInv, Enabled, After, Linked;
      TablesStand(sha, s, step);
    }
  }

  lemma StepKeepsLinks(sha: Sha, s: Sys, step: Step)
    requires SysInv(sha, s) && LinkInv(s) && Enabled(sha, s, step)
    requires step.Begin? ==> LinkReady(s.db, step.request)
    ensures LinkInv(After(sha, s, step))
  {
    hide SysInv, Enabled, After, Linked, LinkReady;
    var t := After(sha, s, step);
    StepAppends(sha, s, step);
    forall i | i in t.txs
      ensures LinkReady(t.db, t.txs[i].request)
    {
      if step.Begin? && step.i == i {
        Began(sha, s, step);
        LinkStaysReady(s.db, t.db, step.request);
      } else {
        OneStepOn(sha, s, step, i);
        assert LinkReady(s.db, s.txs[i].request);
        LinkStaysReady(s.db, t.db, s.txs[i].request);
      }
    }
  }

  lemma Began(sha: Sha, s: Sys, step: Step)
    requires Enabled(sha, s, step) && step.Begin?
    ensures step.i in After(sha, s, step).txs && After(sha, s, step).txs[step.i].request == step.request
  {
  }

  /** Every transfer of this run that carries a link was begun, as Reverse begins it, as the mirror of a committed one. */
  ghost predicate BegunByReverse(sha: Sha, steps: seq<Step>) {
    steps != [] ==>
      var init, last := steps[..|steps| - 1], steps[|steps| - 1];
      && BegunByReverse(sha, init)
      && (Execute(sha, init).Some? && last.Begin? ==> LinkReady(Execute(sha, init).value.db, last.request))
  }

  /** Then, whatever the interleaving, every committed link is that of a mirror image, and none is shared. */
  lemma {:induction false} InterleavingsKeepLinks(sha: Sha, steps: seq<Step>)
    requires Execute(sha, steps).Some? && BegunByReverse(sha, steps)
    ensures LinkInv(Execute(sha, steps).value)
  {
    if steps != [] {
      hide SysInv, LinkInv, LinkReady, Enabled, After;
      ExecutionKeeps(sha, steps[..|steps| - 1]);
      InterleavingsKeepLinks(sha, steps[..|steps| - 1]);
      StepKeepsLinks(sha, Execute(sha, steps[..|steps| - 1]).value, steps[|steps| - 1]);
    }
  }

  // ---- sweeps, and Capture's mark

  /**
   A sweep commits as the expiry of exactly those holds that were past due at its start and still are: when none
   became due meanwhile, as the ExpireHolds of the tables it commits on.
   */
  lemma SweepExpiresWhatIsDue(sha: Sha, s: Sys, i: nat)
    requires SysInv(sha, s) && CanCommit(s, i) && s.txs[i].request.Expiring?
    ensures var tx := s.txs[i];
            && tx.expired == Due(s.db, tx.request.now) * tx.due
            && (Due(s.db, tx.request.now) <= tx.due ==>
                  Committed(tx) == Expire(Due(s.db, tx.request.now), tx.request.now))
    ensures forall r :: r in s.txs[i].due ==>
              r in Applied(s.db, s.txs[i]).holds && Applied(s.db, s.txs[i]).holds[r].status != Active
  {
    hide Replay, Owned, LastId;
    assert TxOk(sha, s.db, Owned(s, i), s.txs[i], s.next);
  }

  /** Capture's mark closes its hold if nobody else has, and touches no other. */
  lemma MarkClosesItsHold(sha: Sha, s: Sys, i: nat)
    requires SysInv(sha, s) && CanCommit(s, i) && s.txs[i].request.Marking?
    ensures var r := s.txs[i].request.reference;
            && r in s.db.holds
            && s.txs[i].expired == (if s.db.holds[r].status == Active then {r} else {})
            && Applied(s.db, s.txs[i]).holds[r].status != Active
            && forall k :: k in s.db.holds && k != r ==> Applied(s.db, s.txs[i]).holds[k] == s.db.holds[k]
  {
    hide Replay, Owned, LastId;
    assert TxOk(sha, s.db, Owned(s, i), s.txs[i], s.next);
  }

  /** The sweep of transaction i, begun on db, is still under way. */
  ghost predicate SweepingOn(db: Db, now: int, tx: Tx) {
    tx.request == Expiring(now) && tx.stage == Sweeping && tx.due == Due(db, now)
  }

  lemma SweepGoesOn(sha: Sha, s: Sys, step: Step, i: nat, db: Db, now: int)
    requires Enabled(sha, s, step) && !(step.Begin? && step.i == i)
    requires i in s.txs ==> SweepingOn(db, now, s.txs[i])
    ensures i in After(sha, s, step).txs ==> SweepingOn(db, now, After(sha, s, step).txs[i])
  {
    if i in After(sha, s, step).txs {
      hide Enabled, After, Due;
      OneStepOn(sha, s, step, i);
    }
  }

  lemma {:induction false} SweepKeepsItsList(sha: Sha, steps: seq<Step>, n: nat, m: nat, i: nat)
    requires n < m <= |steps| && Execute(sha, steps).Some? && steps[n] == StartSweep(i)
    requires forall k :: n < k < m ==> !(steps[k].Begin? && steps[k].i == i)
    ensures Execute(sha, steps[..n]).Some? && Execute(sha, steps[..m]).Some?
    ensures var from, to := Execute(sha, steps[..n]).value, Execute(sha, steps[..m]).value;
            && i in from.txs && from.txs[i].request.Expiring?
            && (i in to.txs ==> SweepingOn(from.db, from.txs[i].request.now, to.txs[i]))
    decreases m
  {
    hide Execute, SysInv, Due;
    StepAt(sha, steps, n);
    if m > n + 1 {
      hide Enabled, After, CanStartSweep, SweepingOn;
      SweepKeepsItsList(sha, steps, n, m - 1, i);
      StepAt(sha, steps, m - 1);
      var from := Execute(sha, steps[..n]).value;
      SweepGoesOn(sha, Execute(sha, steps[..m - 1]).value, steps[m - 1], i, from.db, from.txs[i].request.now);
    }
  }

  /** Whatever happens in between, no hold past due when a sweep began is still active once it has committed. */
  lemma SweepIsComplete(sha: Sha, steps: seq<Step>, n: nat, i: nat)
    requires n < |steps| - 1 && Execute(sha, steps).Some?
    requires steps[n] == StartSweep(i) && steps[|steps| - 1] == Commit(i)
    requires forall k :: n < k < |steps| - 1 ==> !(steps[k].Begin? && steps[k].i == i)
    ensures Execute(sha, steps[..n]).Some? && i in Execute(sha, steps[..n]).value.txs
    ensures Execute(sha, steps[..n]).value.txs[i].request.Expiring?
    ensures var from, to := Execute(sha, steps[..n]).value, Execute(sha, steps).value;
            forall r :: r in Due(from.db, from.txs[i].request.now) ==> r in to.db.holds && to.db.holds[r].status != Active
  {
    hide Execute, SysInv, Due, Applied;
    var m := |steps| - 1;
    SweepKeepsItsList(sha, steps, n, m, i);
    StepAt(sha, steps, m);
    assert steps[..m + 1] == steps;
    SweepExpiresWhatIsDue(sha, Execute(sha, steps[..m]).value, i);
  }
}
