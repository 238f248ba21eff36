/** Two runs from the empty ledger that end in a deadlock: neither family is hypothetical. */
module Witnesses {
  import opened Int64Math
  import opened Domain
  import opened Drafts
  import opened ChainEncoding
  import opened Books
  import opened Transactions
  import opened Deadlock
  import opened Crossings

  const A: Text := [97]
  const B: Text := [98]
  const EUR: Text := [69, 85, 82]
  const OPEN: Account := Account(Asset, EUR, false, true)

  function Opened(log: seq<Op>, holds: map<Text, HoldRow>): Sys {
    Sys(Db(map[A := OPEN, B := OPEN], map[A := 0, B := 0], [], holds), map[], map[], 1, log, 0)
  }

  lemma TwoAccounts(sha: Sha) returns (steps: seq<Step>, log: seq<Op>)
    ensures Execute(sha, steps) == Some(Opened(log, map[]))
  {
    hide Execute;
    assert Execute(sha, []) == Some(START) by {
      NothingRun(sha);
    }
    OneMoreStep(sha, [], START, CreateAccount(A, OPEN));
    var s := After(sha, START, CreateAccount(A, OPEN));
    assert A[0] != B[0] && s.db.accounts == map[A := OPEN] && s.db.balances == map[A := 0];
    OneMoreStep(sha, [] + [CreateAccount(A, OPEN)], s, CreateAccount(B, OPEN));
    steps, log := [] + [CreateAccount(A, OPEN)] + [CreateAccount(B, OPEN)], s.log + [Create(B, OPEN)];
    assert After(sha, s, CreateAccount(B, OPEN)) == Opened(log, map[]);
  }

  lemma NothingRun(sha: Sha)
    ensures Execute(sha, []) == Some(START)
  {
  }

  function OneHeld(account: Text, expiresAt: Option<int>): HoldRow {
    HoldRow(account, 1, EUR, Active, Truncated(expiresAt), None)
  }

  /** On these accounts, with nobody else there, a hold of one is placed. */
  lemma HoldCommits(sha: Sha, steps: seq<Step>, log: seq<Op>, holds: map<Text, HoldRow>, reference: Text, account: Text,
                    expiresAt: Option<int>)
    returns (more: seq<Step>, log': seq<Op>)
    requires Execute(sha, steps) == Some(Opened(log, holds))
    requires reference != [] && reference !in holds && (account == A || account == B)
    ensures Execute(sha, steps + more) == Some(Opened(log', holds[reference := OneHeld(account, expiresAt)]))
  {
    hide Execute, Held, Available, ValidationError, Spent, Due;
    var q := Holding(reference, account, Money(1, EUR), expiresAt);
    var s := RowLocked(log, holds, q);
    HoldLocksRow(sha, steps, log, holds, q);
    var begun := steps + [Begin(0, q)] + [LockAccount(0)];
    OneMoreStep(sha, begun, s, CheckFunds(0));
    log' := log + [Hold(reference, account, Money(1, EUR), expiresAt)];
    InsertCommits(sha, begun + [CheckFunds(0)], log, holds, q, Put(s, 0, s.txs[0].(stage := FundsSeen)));
    more := [Begin(0, q), LockAccount(0), CheckFunds(0), InsertHold(0), Commit(0)];
    assert steps + more == begun + [CheckFunds(0)] + [InsertHold(0)] + [Commit(0)];
  }

  function RowLocked(log: seq<Op>, holds: map<Text, HoldRow>, q: Request): Sys
    requires q.Holding?
  {
    Take(Opened(log, holds), RowLock(q.account), 0,
         Fresh(q).(stage := AccountRead, first := Some(q.account), seen := map[q.account := OPEN]))
  }

  lemma HoldLocksRow(sha: Sha, steps: seq<Step>, log: seq<Op>, holds: map<Text, HoldRow>, q: Request)
    requires Execute(sha, steps) == Some(Opened(log, holds))
    requires q.Holding? && q.reference != [] && q.amount == Money(1, EUR) && (q.account == A || q.account == B)
    ensures Execute(sha, steps + [Begin(0, q)] + [LockAccount(0)]) == Some(RowLocked(log, holds, q))
  {
    hide Execute, Held, Available, ValidationError, Spent, Due;
    var s := Opened(log, holds);
    OneMoreStep(sha, steps, s, Begin(0, q));
    OneMoreStep(sha, steps + [Begin(0, q)], Put(s, 0, Fresh(q)), LockAccount(0));
    var t, u := After(sha, Put(s, 0, Fresh(q)), LockAccount(0)), RowLocked(log, holds, q);
    assert t.txs[0].seen == u.txs[0].seen;
    assert t.txs == u.txs && t.locks == u.locks;
  }

  lemma InsertCommits(sha: Sha, steps: seq<Step>, log: seq<Op>, holds: map<Text, HoldRow>, q: Request, s: Sys)
    requires q.Holding? && q.reference !in holds && q.amount == Money(1, EUR)
    requires Execute(sha, steps) == Some(s) && s.txs.Keys == {0} && s.db == Opened(log, holds).db
    requires s.txs[0].request == q && s.txs[0].stage == FundsSeen && s.locks == map[RowLock(q.account) := 0]
    requires s.next == 1 && s.log == log && s.clock == 0
    ensures Execute(sha, steps + [InsertHold(0)] + [Commit(0)])
         == Some(Opened(log + [Hold(q.reference, q.account, q.amount, q.expiresAt)],
                        holds[q.reference := OneHeld(q.account, q.expiresAt)]))
  {
    hide Execute, Held, Available, ValidationError, Spent, Due;
    OneMoreStep(sha, steps, s, InsertHold(0));
    var t := Take(s, KeySlot(q.reference), 0, s.txs[0].(stage := Ready));
    OneMoreStep(sha, steps + [InsertHold(0)], t, Commit(0));
    var u := After(sha, t, Commit(0));
    assert u.txs == map[] && u.locks == map[];
  }

  const H: Text := [104]
  const I: Text := [105]

  /** One unit from one of the accounts to the other. */
  function Pay(from: Text, to: Text): Draft {
    Draft([112], [], [Posting.Posting(to, Money(1, EUR), DEBIT), Posting.Posting(from, Money(1, EUR), CREDIT)], None, 0)
  }

  lemma PayDraws(from: Text, to: Text)
    requires (from == A && to == B) || (from == B && to == A)
    ensures ValidationError(Pay(from, to)) == None
    ensures Spent(Pay(from, to).postings, from, Asset) == 1
    ensures AccountsOf(Pay(from, to).postings) == {A, B}
  {
    var x, y := Posting.Posting(to, Money(1, EUR), DEBIT), Posting.Posting(from, Money(1, EUR), CREDIT);
    assert Pay(from, to).postings == [] + [x] + [y];
    AIsLess();
    forall c
      ensures ExactNet(Pay(from, to).postings, c) == 0
    {
      SumSnoc(OfCurrency(c), [] + [x], y);
      SumSnoc(OfCurrency(c), [], x);
    }
    SumSnoc(OfAccount(from), [] + [x], y);
    SumSnoc(OfAccount(from), [], x);
    WrapFits(1);
    AcceptedIff(Pay(from, to));
    assert x in Pay(from, to).postings && y in Pay(from, to).postings;
  }

  lemma AIsLess()
    ensures Less(A, B) && A != B && !Less(A, A) && !Less(B, A)
  {
    LessIsTotal(A, B);
    LessIsTotal(A, A);
    assert A[0] == 97 && B[0] == 98;
  }

  lemma CanPay(db: Db, reference: Text, from: Text, to: Text)
    requires (from == A && to == B) || (from == B && to == A)
    requires db.accounts == map[A := OPEN, B := OPEN]
    requires reference in db.holds && db.holds[reference] == OneHeld(from, None)
    ensures CanCapture(db, Capturing(reference, Pay(from, to), 0, 0))
    ensures Locked(db, Pay(from, to)) == {A, B}
  {
    PayDraws(from, to);
    hide ValidationError, Spent, AccountsOf;
  }

  lemma Interleaving(sha: Sha, steps: seq<Step>, q: Request, r: Request) returns (more: seq<Step>)
    requires CanDeadlock(sha, steps, q, r)
    ensures Only(more, q, r) && Deadlocked(sha, steps + more)
  {
    hide Only, Deadlocked;
    more :| Only(more, q, r) && Deadlocked(sha, steps + more);
  }

  /** A capture of a hold on B by a transfer that also touches A, and a post of the same transfer. */
  lemma CaptureDeadlockIsReachable(sha: Sha) returns (steps: seq<Step>, q: Request, r: Request, more: seq<Step>)
    ensures Execute(sha, steps).Some? && Idle(Execute(sha, steps).value)
    ensures CanCapture(Execute(sha, steps).value.db, q)
    ensures r.Posting? && Acceptable(Execute(sha, steps).value.db, r)
    ensures Only(more, q, r) && Deadlocked(sha, steps + more)
  {
    hide Execute, CanDeadlock, Deadlocked, Only, ValidationError, Spent, AccountsOf, Locked;
    var s1, log := TwoAccounts(sha);
    var s2, log' := HoldCommits(sha, s1, log, map[], H, B, None);
    steps := s1 + s2;
    q, r := Capturing(H, Pay(B, A), 0, 0), Request.Posting(Pay(B, A), 0);
    PayDraws(B, A);
    AIsLess();
    CanPay(Execute(sha, steps).value.db, H, B, A);
    CaptureMeetsPostIff(sha, steps, q, r);
    more := Interleaving(sha, steps, q, r);
  }

  /** A capture of a hold on B, and one of a hold on A, the least account it touches. */
  lemma TwoCapturesDeadlockIsReachable(sha: Sha) returns (steps: seq<Step>, q: Request, r: Request, more: seq<Step>)
    ensures Execute(sha, steps).Some? && Idle(Execute(sha, steps).value)
    ensures CanCapture(Execute(sha, steps).value.db, q) && CanCapture(Execute(sha, steps).value.db, r)
    ensures HeldIsLeast(Execute(sha, steps).value.db, r)
    ensures Only(more, q, r) && Deadlocked(sha, steps + more)
  {
    hide Execute, CanDeadlock, Deadlocked, Only, ValidationError, Spent, AccountsOf, Locked, Acceptable;
    var s1, log := TwoAccounts(sha);
    var s2, log' := HoldCommits(sha, s1, log, map[], H, B, None);
    var s3, log'' := HoldCommits(sha, s1 + s2, log', map[][H := OneHeld(B, None)], I, A, None);
    steps := s1 + s2 + s3;
    q, r := Capturing(H, Pay(B, A), 0, 0), Capturing(I, Pay(A, B), 0, 0);
    var db := Execute(sha, steps).value.db;
    assert H[0] == 104 && I[0] == 105;
    PayDraws(A, B);
    AIsLess();
    CanPay(db, H, B, A);
    CanPay(db, I, A, B);
    CapturesMeetIff(sha, steps, q, r);
    more := Interleaving(sha, steps, q, r);
  }

  /** Two holds past due, and two sweeps that find both. */
  lemma SweepDeadlockIsReachable(sha: Sha) returns (steps: seq<Step>, more: seq<Step>)
    ensures Execute(sha, steps).Some? && Idle(Execute(sha, steps).value)
    ensures Only(more, Expiring(0), Expiring(0)) && Deadlocked(sha, steps + more)
  {
    hide Execute, CanDeadlock, Deadlocked, Only;
    var s1, log := TwoAccounts(sha);
    var s2, log' := HoldCommits(sha, s1, log, map[], H, A, Some(0));
    var s3, log'' := HoldCommits(sha, s1 + s2, log', map[][H := OneHeld(A, Some(0))], I, A, Some(0));
    steps := s1 + s2 + s3;
    var db := Execute(sha, steps).value.db;
    assert H[0] == 104 && I[0] == 105;
    assert H != I && {H, I} <= Due(db, 0);
    SweepsMeetIff(sha, steps, 0, 0);
    more := Interleaving(sha, steps, Expiring(0), Expiring(0));
  }
}
