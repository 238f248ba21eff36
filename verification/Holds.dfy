/** The life of a hold: it can always be drawn on, it closes once, and its capture says what it drew. */
module Holds {
  import opened Int64Math
  import opened Domain
  import opened Drafts
  import opened ChainEncoding
  import opened ChainHistory
  import opened Books
  import opened BooksInvariants
  import opened Guard

  /** The movement a capture makes on the held account, in int64, is exactly what it was found to spend. */
  lemma SpentIsTheMovement(ps: seq<Posting>, a: Text, typ: AccountType)
    requires Spent(ps, a, typ) > 0
    ensures ExactNormal(Wrap(Delta(ps, a)), typ) == -Spent(ps, a, typ)
  {
  }

  /** Drawing within a hold never overflows the balance and always passes the guard on that account. */
  lemma HeldFundsSuffice(raw: Int64, moved: Int64, typ: AccountType, heldAll: int, amount: Int64, spent: Int64)
    requires 0 < spent <= amount <= heldAll <= ExactNormal(raw, typ)
    requires ExactNormal(moved, typ) == -spent
    ensures Fits(raw + moved)
    ensures 0 <= ExactNormal(raw, typ) - heldAll + amount - spent <= MAX_INT64
    ensures CodeAvailable(raw + moved, typ, heldAll - amount) == Some(ExactNormal(raw, typ) - heldAll + amount - spent)
  {
    CodeAvailableIsWrapped(raw + moved, typ, heldAll - amount);
    WrapFits(ExactNormal(raw, typ) - heldAll + amount - spent);
  }

  /**
   A placed hold is fundable: from any reachable state, a draw of 1 up to the held amount moves the held
   account within int64 and leaves it exactly the undrawn part better off, so its guard passes.
   */
  lemma HoldIsFundable(sha: Sha, db: Db, reference: Text, d: Draft, now: int)
    requires Inv(sha, db) && Drawable(db, reference, d, now)
    requires !db.accounts[db.holds[reference].account].allowNegative
    ensures var h := db.holds[reference];
            var spent := Spent(d.postings, h.account, db.accounts[h.account].typ);
            var moved := Wrap(Delta(d.postings, h.account));
            var left := Available(db, h.account, None) + h.amount - spent;
            && Fits(Balance(db.balances, h.account) + moved)
            && 0 <= left <= MAX_INT64
            && CodeAvailable(Balance(db.balances, h.account) + moved, db.accounts[h.account].typ,
                             Held(db.holds, h.account, Some(reference))) == Some(left)
  {
    hide Wrap, Held, CodeAvailable, Sum, Chained, Cached, RowsAdmitted, Numbered, Linked;
    var h := db.holds[reference];
    var typ := db.accounts[h.account].typ;
    SpentIsTheMovement(d.postings, h.account, typ);
    HeldWithout(db.holds, reference);
    PositiveHolds(db, h.account, Some(reference));
    assert Available(db, h.account, None) >= 0;
    HeldFundsSuffice(Balance(db.balances, h.account), Wrap(Delta(d.postings, h.account)), typ,
                     Held(db.holds, h.account, None), h.amount, Spent(d.postings, h.account, typ));
  }

  lemma HeldAccountIsFunded(sha: Sha, db: Db, reference: Text, d: Draft, id: Int64, at: int, now: int)
    requires Inv(sha, db) && Drawable(db, reference, d, now) && Postable(db, d, id, at)
    requires !db.accounts[db.holds[reference].account].allowNegative
    ensures var to, a := PostedDb(sha, db, d, id, at), db.holds[reference].account;
            a in to.accounts && CodeAvailableOf(to, a, Some(reference)).Some? && CodeAvailableOf(to, a, Some(reference)).value >= 0
  {
    hide Inv, Held, CodeAvailable, Postable, Wrap, Movements, Move, Hash, Spent, Available;
    HoldIsFundable(sha, db, reference, d, now);
    PostedMovement(sha, db, d, id, at, db.holds[reference].account);
  }

  /** So only another guarded account in the transfer can make the capture fail for lack of funds. */
  lemma OnlyOthersLackFunds(sha: Sha, db: Db, reference: Text, d: Draft, id: Int64, at: int, now: int)
    requires Inv(sha, db) && Drawable(db, reference, d, now) && Postable(db, d, id, at)
    ensures CodeFunded(PostedDb(sha, db, d, id, at), AccountsOf(d.postings), Some(reference))
       <==> CodeFunded(PostedDb(sha, db, d, id, at), AccountsOf(d.postings) - {db.holds[reference].account}, Some(reference))
  {
    hide Inv, Postable, CodeAvailableOf, AccountsOf, PostedDb, CodeFunded, Spent;
    if !db.accounts[db.holds[reference].account].allowNegative {
      HeldAccountIsFunded(sha, db, reference, d, id, at, now);
    }
    SameAccounts(sha, db, d, id, at);
    FundedButFor(PostedDb(sha, db, d, id, at), AccountsOf(d.postings), Some(reference), db.holds[reference].account);
  }

  lemma SameAccounts(sha: Sha, db: Db, d: Draft, id: Int64, at: int)
    ensures PostedDb(sha, db, d, id, at).accounts == db.accounts
  {
    hide NewRow, Move, Movements;
  }

  lemma FundedButFor(db: Db, among: set<Text>, exclude: Option<Text>, a: Text)
    requires a in db.accounts && !db.accounts[a].allowNegative ==>
               CodeAvailableOf(db, a, exclude).Some? && CodeAvailableOf(db, a, exclude).value >= 0
    ensures CodeFunded(db, among, exclude) <==> CodeFunded(db, among - {a}, exclude)
  {
    hide CodeAvailableOf;
  }

  /** A successful capture raises the held account's availability by exactly what was held and not spent. */
  lemma CaptureReleasesTheRest(sha: Sha, db: Db, op: Op)
    requires op.Capture? && Inv(sha, db) && OpOk(sha, db, op)
    ensures Available(OpDb(sha, db, op), db.holds[op.reference].account, None)
         == Available(db, db.holds[op.reference].account, None) + db.holds[op.reference].amount
            - Spent(op.d.postings, db.holds[op.reference].account, db.accounts[db.holds[op.reference].account].typ)
  {
    hide Inv, Held, Spent, Wrap, Movements, Move, Hash, Funded;
    var h := db.holds[op.reference];
    SpentIsTheMovement(op.d.postings, h.account, db.accounts[h.account].typ);
    PostedMovement(sha, db, op.d, op.transfer, op.at, h.account);
    HeldOfCapture(db.holds, op.reference, h.account, op.transfer);
    HeldWithout(db.holds, op.reference);
  }

  /** When the account's movement fits int64, the amount found to be spent is the amount actually drawn. */
  lemma SpentIsExact(ps: seq<Posting>, a: Text, typ: AccountType)
    ensures Spent(ps, a, typ) == -ExactNormal(Delta(ps, a), typ) <==> Fits(-ExactNormal(Delta(ps, a), typ))
  {
    WrapFits(-ExactNormal(Delta(ps, a), typ));
  }

  // ---- over a run

  lemma {:induction false} ReplayPrefix(sha: Sha, ops: seq<Op>, n: nat)
    requires n <= |ops| && Replay(sha, ops).Some?
    ensures Replay(sha, ops[..n]).Some?
    decreases |ops|
  {
    if n == |ops| {
      assert ops[..n] == ops;
    } else {
      hide OpOk, OpDb;
      assert ops[..|ops| - 1][..n] == ops[..n];
      ReplayPrefix(sha, ops[..|ops| - 1], n);
    }
  }

  /**
   Over every run a hold leaves the active state at most once and is frozen afterwards: at any later
   moment it is the same row, in the same account for the same amount.
   */
  lemma {:induction false} HoldsOnlyMoveForward(sha: Sha, ops: seq<Op>, n: nat)
    requires n <= |ops| && Replay(sha, ops).Some?
    ensures Replay(sha, ops[..n]).Some? && HoldsAdvance(Replay(sha, ops[..n]).value, Replay(sha, ops).value)
    decreases |ops|
  {
    ReplayPrefix(sha, ops, n);
    if n == |ops| {
      assert ops[..n] == ops;
    } else {
      hide OpOk, OpDb;
      var init := ops[..|ops| - 1];
      assert init[..n] == ops[..n];
      HoldsOnlyMoveForward(sha, init, n);
      OpAdvances(sha, Replay(sha, init).value, ops[|ops| - 1]);
    }
  }

  /** After every run: captured exactly when a transfer is named, which drew within the hold, and no other. */
  lemma CapturesAreAccounted(sha: Sha, ops: seq<Op>)
    requires Replay(sha, ops).Some?
    ensures HoldsSound(Replay(sha, ops).value)
  {
    hide HoldsSound, OpOk, OpDb, Replay, Chained, Linked, Numbered, RowsAdmitted, Guarded, Cached;
    RunsKeep(sha, ops);
  }

  // ---- the int64 draw, and the true one

  ghost predicate TrulyDrew(h: seq<Row>, id: Int64, account: Text, typ: AccountType, limit: Int64) {
    exists i :: 0 <= i < |h| && h[i].id == id && 0 < -ExactNormal(Delta(h[i].content.postings, account), typ) <= limit
  }

  lemma PositiveSpentIsExact(ps: seq<Posting>, a: Text, typ: AccountType)
    requires Fits(Delta(ps, a)) && Spent(ps, a, typ) > 0
    ensures Spent(ps, a, typ) == -ExactNormal(Delta(ps, a), typ)
  {
    hide Sum;
    var x := -ExactNormal(Delta(ps, a), typ);
    WrapFits(x);
    WrapUnique(TWO63, -TWO63, 1);
  }

  /**
   After every run whose transfers move each account within int64: a hold is captured exactly when it names a
   transfer, and that transfer truly drew between 1 and the held amount from the held account.
   */
  lemma CapturesAreExact(sha: Sha, ops: seq<Op>, reference: Text)
    requires Replay(sha, ops).Some? && reference in Replay(sha, ops).value.holds
    requires var h := Replay(sha, ops).value.transfers;
             forall i, a :: 0 <= i < |h| ==> Fits(Delta(h[i].content.postings, a))
    ensures var db, h := Replay(sha, ops).value, Replay(sha, ops).value.holds[reference];
            && h.account in db.accounts
            && (h.status == Captured <==> h.transferId.Some?)
            && (h.transferId.Some? ==>
                  TrulyDrew(db.transfers, h.transferId.value, h.account, db.accounts[h.account].typ, h.amount))
  {
    hide Replay, Recorded, Guarded, Spent, Delta;
    RunsKeep(sha, ops);
    var db, h := Replay(sha, ops).value, Replay(sha, ops).value.holds[reference];
    assert HoldSound(db, h);
    if h.transferId.Some? {
      var typ := db.accounts[h.account].typ;
      var i :| 0 <= i < |db.transfers| && db.transfers[i].id == h.transferId.value
               && 0 < Spent(db.transfers[i].content.postings, h.account, typ) <= h.amount;
      PositiveSpentIsExact(db.transfers[i].content.postings, h.account, typ);
    }
  }

  /** Credits of 2^64 + 1 against a debit of 1. */
  function Overdraw(reference: Text, from: Text, to: Text, currency: Text): Draft {
    Draft(reference, [],
          [Posting(from, Money(MAX_INT64, currency), CREDIT), Posting(from, Money(MAX_INT64, currency), CREDIT),
           Posting(from, Money(3, currency), CREDIT), Posting(to, Money(1, currency), DEBIT)], None, 0)
  }

  /** Beyond int64 the two part: a transfer that validates and truly draws 2^64 + 1 captures a hold of 1. */
  lemma DrawCanExceedTheHold(reference: Text, from: Text, to: Text, currency: Text)
    requires reference != [] && from != [] && to != [] && from != to && ValidCurrency(currency)
    ensures var d := Overdraw(reference, from, to, currency);
            && ValidationError(d) == None
            && Spent(d.postings, from, Asset) == 1
            && -ExactNormal(Delta(d.postings, from), Asset) == TWO64 + 1
  {
    var d := Overdraw(reference, from, to, currency);
    hide Sum;
    SumOfFour(OfAccount(from), d.postings);
    WrapUnique(TWO64 + 1, 1, 1);
    forall c
      ensures ExactNet(d.postings, c) == if c == currency then -TWO64 else 0
    {
      SumOfFour(OfCurrency(c), d.postings);
    }
    AcceptedIff(d);
  }
}
