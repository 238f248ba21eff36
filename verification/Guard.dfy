/**
 The overdraft guard as the code computes it, in int64 over values the database returns, against the
 guard over the integers.  They part only at the two values int64 cannot hold.
 */
module Guard {
  import opened Int64Math
  import opened Sums
  import opened Domain
  import opened Drafts
  import opened ChainEncoding
  import opened Books
  import opened BooksInvariants

  /** availableLocked: nothing when the sum of holds does not scan into an int64. */
  function CodeAvailable(raw: Int64, typ: AccountType, held: int): Option<Int64> {
    if Fits(held) then Some(Wrap(Normalise(raw, typ) - held)) else None
  }

  ghost function CodeAvailableOf(db: Db, account: Text, exclude: Option<Text>): Option<Int64>
    requires account in db.accounts
  {
    CodeAvailable(Balance(db.balances, account), db.accounts[account].typ, Held(db.holds, account, exclude))
  }

  /** The check Post, Capture and Reverse make on each guarded account they touched. */
  ghost predicate CodeFunded(db: Db, among: set<Text>, exclude: Option<Text>) {
    forall a :: a in among && a in db.accounts && !db.accounts[a].allowNegative ==>
      CodeAvailableOf(db, a, exclude).Some? && CodeAvailableOf(db, a, exclude).value >= 0
  }

  /** The account's availability, and what it holds back, are int64 values. */
  ghost predicate Representable(db: Db, account: Text, exclude: Option<Text>)
    requires account in db.accounts
  {
    Fits(Held(db.holds, account, exclude)) && Fits(Available(db, account, exclude))
  }

  lemma CodeAvailableIsWrapped(raw: Int64, typ: AccountType, held: int)
    requires Fits(held)
    ensures CodeAvailable(raw, typ, held) == Some(Wrap(ExactNormal(raw, typ) - held))
  {
    WrapFits(raw);
    NormaliseIsWrapped(raw, typ);
    WrapAdd(ExactNormal(raw, typ), -held);
  }

  /** From an account that covers its holds, one int64 movement cannot make the wrapped check lie. */
  lemma CodeFundsIff(raw0: Int64, raw: Int64, typ: AccountType, held0: int, held: int)
    requires 0 <= held <= held0 && ExactNormal(raw0, typ) >= held0
    requires Fits(raw - raw0)
    ensures (CodeAvailable(raw, typ, held).Some? && CodeAvailable(raw, typ, held).value >= 0)
       <==> (ExactNormal(raw, typ) - held >= 0 && Fits(held) && Fits(ExactNormal(raw, typ) - held))
  {
    if Fits(held) {
      CodeAvailableIsWrapped(raw, typ, held);
      var x := ExactNormal(raw, typ) - held;
      WrapFits(x);
      var k := WrapQuotient(x);
    }
  }

  lemma PositiveHolds(db: Db, a: Text, exclude: Option<Text>)
    requires HoldsSound(db)
    ensures 0 <= Held(db.holds, a, exclude) <= Held(db.holds, a, None)
  {
    forall r | r in db.holds
      ensures db.holds[r].amount > 0
    {
      assert HoldSound(db, db.holds[r]);
    }
    HeldShrinks(db.holds, db.holds, a, exclude, None);
  }

  lemma PostedMovement(sha: Sha, db: Db, d: Draft, id: Int64, at: int, a: Text)
    requires Postable(db, d, id, at)
    ensures Balance(PostedDb(sha, db, d, id, at).balances, a) == Balance(db.balances, a) + Wrap(Delta(d.postings, a))
  {
    hide Movements, Move;
    MoveMeans(db.balances, d.postings, a);
  }

  lemma GuardAgreesAt(sha: Sha, db: Db, d: Draft, id: Int64, at: int, exclude: Option<Text>, a: Text)
    requires Guarded(db) && HoldsSound(db) && Postable(db, d, id, at)
    requires a in db.accounts && !db.accounts[a].allowNegative
    ensures var to := PostedDb(sha, db, d, id, at);
            (CodeAvailableOf(to, a, exclude).Some? && CodeAvailableOf(to, a, exclude).value >= 0)
            <==> (Available(to, a, exclude) >= 0 && Representable(to, a, exclude))
  {
    hide Movements, Move, CodeAvailable, ExactNormal, Wrap, Hash, Held, ValidationError;
    var to := PostedDb(sha, db, d, id, at);
    PostedMovement(sha, db, d, id, at, a);
    PositiveHolds(db, a, exclude);
    assert Available(db, a, None) >= 0;
    CodeFundsIff(Balance(db.balances, a), Balance(to.balances, a), db.accounts[a].typ,
                 Held(db.holds, a, None), Held(db.holds, a, exclude));
  }

  /**
   From any reachable state the guard in the code admits exactly the transfers that leave every touched
   guarded account covered, except where a value falls outside int64; it never admits another.
   */
  lemma GuardAgrees(sha: Sha, db: Db, d: Draft, id: Int64, at: int, exclude: Option<Text>)
    requires Guarded(db) && HoldsSound(db) && Postable(db, d, id, at)
    ensures var to := PostedDb(sha, db, d, id, at);
            CodeFunded(to, AccountsOf(d.postings), exclude) <==>
            && Funded(to, AccountsOf(d.postings), exclude)
            && forall a :: a in AccountsOf(d.postings) && a in to.accounts && !to.accounts[a].allowNegative
                           ==> Representable(to, a, exclude)
  {
    hide Movements, Move, CodeAvailableOf, Available, Representable, Hash, Held, ValidationError, Guarded;
    var to := PostedDb(sha, db, d, id, at);
    forall a | a in AccountsOf(d.postings) && a in to.accounts && !to.accounts[a].allowNegative
      ensures (CodeAvailableOf(to, a, exclude).Some? && CodeAvailableOf(to, a, exclude).value >= 0)
         <==> (Available(to, a, exclude) >= 0 && Representable(to, a, exclude))
    {
      GuardAgreesAt(sha, db, d, id, at, exclude, a);
    }
  }

  /** Without the covered start the wrapped check does lie: far below zero it reads as far above. */
  lemma GuardNeedsCoveredStart()
    ensures CodeAvailable(-TWO63, Asset, 1) == Some(MAX_INT64 as Int64)
    ensures ExactNormal(-TWO63, Asset) - 1 < 0
  {
    WrapUnique(-TWO63 - 1, MAX_INT64, -1);
  }

  // ---- the one transfer the code refuses and the exact rule admits

  const HALF: Int64 := 0x4000_0000_0000_0000
  const CREDITED: Text := [67]
  const DEBITED: Text := [68]
  const DEBITED_TOO: Text := [69]
  const UNIT: Text := [69, 85, 82]

  const SETUP: seq<Op> := [
    Create(CREDITED, Account(Liability, UNIT, false, false)),
    Create(DEBITED, Account(Asset, UNIT, false, true)),
    Create(DEBITED_TOO, Account(Asset, UNIT, false, true))]

  const NEW_BOOKS: Db := Db(
    map[CREDITED := Account(Liability, UNIT, false, false),
        DEBITED := Account(Asset, UNIT, false, true),
        DEBITED_TOO := Account(Asset, UNIT, false, true)],
    map[CREDITED := 0, DEBITED := 0, DEBITED_TOO := 0], [], map[])

  lemma NamesDiffer()
    ensures CREDITED != DEBITED && DEBITED != DEBITED_TOO && DEBITED_TOO != CREDITED
  {
    assert CREDITED[0] == 67 && DEBITED[0] == 68 && DEBITED_TOO[0] == 69;
  }

  lemma NewBooksAreReachable(sha: Sha)
    ensures Replay(sha, SETUP) == Some(NEW_BOOKS) && Inv(sha, NEW_BOOKS)
  {
    RunsKeep(sha, SETUP);
    hide Inv;
    var one := SETUP[..1];
    assert SETUP[..3] == SETUP && SETUP[..2][..1] == one && one[..0] == [];
    NamesDiffer();
    assert Replay(sha, one) == Some(OpDb(sha, EMPTY, SETUP[0]));
    assert Replay(sha, SETUP[..2]) == Some(OpDb(sha, OpDb(sha, EMPTY, SETUP[0]), SETUP[1]));
    assert Replay(sha, SETUP).value == NEW_BOOKS;
  }

  /** 2^63 credited in two legs, against two debits of 2^62. */
  function Top(): Draft {
    Draft([116], [],
          [Posting(DEBITED, Money(HALF, UNIT), DEBIT), Posting(DEBITED_TOO, Money(HALF, UNIT), DEBIT),
           Posting(CREDITED, Money(HALF, UNIT), CREDIT), Posting(CREDITED, Money(HALF, UNIT), CREDIT)], None, 0)
  }

  lemma TopMoves()
    ensures ValidationError(Top()) == None
    ensures Delta(Top().postings, CREDITED) == -TWO63
    ensures Delta(Top().postings, DEBITED) == Delta(Top().postings, DEBITED_TOO) == HALF
    ensures AccountsOf(Top().postings) == {CREDITED, DEBITED, DEBITED_TOO}
  {
    hide Sum;
    NamesDiffer();
    SumOfFour(OfAccount(CREDITED), Top().postings);
    SumOfFour(OfAccount(DEBITED), Top().postings);
    SumOfFour(OfAccount(DEBITED_TOO), Top().postings);
    forall c
      ensures ExactNet(Top().postings, c) == 0
    {
      SumOfFour(OfCurrency(c), Top().postings);
    }
    var ps := Top().postings;
    assert ps[0] in ps && ps[1] in ps && ps[2] in ps;
    AcceptedIff(Top());
  }

  lemma TopIsPostable()
    ensures Postable(NEW_BOOKS, Top(), 1, 0)
  {
    TopMoves();
    WrapFits(-TWO63);
    WrapFits(HALF);
    hide Sum, ValidationError, Wrap;
    forall a | a in Movements(Top().postings)
      ensures Fits(Balance(NEW_BOOKS.balances, a) + Movements(Top().postings)[a])
    {
    }
  }

  lemma TopLeaves(sha: Sha)
    ensures var to := PostedDb(sha, NEW_BOOKS, Top(), 1, 0);
            to.accounts == NEW_BOOKS.accounts && to.holds == map[] && Balance(to.balances, CREDITED) == -TWO63
  {
    TopIsPostable();
    TopMoves();
    WrapFits(-TWO63);
    hide Postable, Sum, Movements, Move, ValidationError, NewRow;
    PostedMovement(sha, NEW_BOOKS, Top(), 1, 0, CREDITED);
  }

  lemma CoveredButRefused(to: Db)
    requires to.accounts == NEW_BOOKS.accounts && to.holds == map[] && Balance(to.balances, CREDITED) == -TWO63
    ensures Funded(to, {CREDITED, DEBITED, DEBITED_TOO}, None) && !CodeFunded(to, {CREDITED, DEBITED, DEBITED_TOO}, None)
  {
    NamesDiffer();
    WrapUnique(TWO63, -TWO63, 1);
    WrapFits(-TWO63);
    hide SumMap, Wrap;
    assert HeldAmounts(to.holds, CREDITED, None) == map[];
    SumMapZero(HeldAmounts(to.holds, CREDITED, None));
    assert to.accounts[CREDITED] == Account(Liability, UNIT, false, false);
    assert CodeAvailableOf(to, CREDITED, None) == Some((-TWO63) as Int64);
  }

  /**
   A normal balance of 2^63 is the one the code cannot tell from an overdraft: from books any ledger can reach, it
   refuses a transfer that leaves the guarded account it touches covered.
   */
  lemma GuardRefusesAtTheTop(sha: Sha)
    ensures Replay(sha, SETUP) == Some(NEW_BOOKS) && Inv(sha, NEW_BOOKS)
    ensures Postable(NEW_BOOKS, Top(), 1, 0)
    ensures Funded(PostedDb(sha, NEW_BOOKS, Top(), 1, 0), AccountsOf(Top().postings), None)
    ensures !CodeFunded(PostedDb(sha, NEW_BOOKS, Top(), 1, 0), AccountsOf(Top().postings), None)
  {
    NewBooksAreReachable(sha);
    TopIsPostable();
    TopMoves();
    TopLeaves(sha);
    hide Inv, Replay, Postable, PostedDb, Funded, CodeFunded, ValidationError, Sum;
    CoveredButRefused(PostedDb(sha, NEW_BOOKS, Top(), 1, 0));
  }
}
