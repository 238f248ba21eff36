/** Sums over the whole history, as SQL takes them over postings joined with transfers. */
module History {
  import opened Int64Math
  import opened Sums
  import opened Domain
  import opened Drafts
  import opened ChainEncoding
  import opened ChainHistory
  import opened Books
  import opened BooksInvariants

  /** sum(CASE direction WHEN 'debit' THEN amount ELSE -amount END), before it is scanned into an int64. */
  method SumPostings(m: Measure, ps: seq<Posting>) returns (sum: int)
    ensures sum == Sum(m, ps)
  {
    sum := 0;
    for i := 0 to |ps|
      invariant sum == Sum(m, ps[..i])
    {
      assert ps[..i + 1] == ps[..i] + [ps[i]];
      SumSnoc(m, ps[..i], ps[i]);
      sum := sum + m.Of(ps[i]);
    }
    assert ps[..|ps|] == ps;
  }

  function AllLegs(h: seq<Row>): seq<Posting> {
    if h == [] then [] else AllLegs(h[..|h| - 1]) + h[|h| - 1].content.postings
  }

  lemma AllLegsSnoc(h: seq<Row>, r: Row)
    ensures AllLegs(h + [r]) == AllLegs(h) + r.content.postings
  {
    assert (h + [r])[..|h|] == h;
  }

  /** The exact movement of the account over the history. */
  ghost function Total(h: seq<Row>, account: Text): int {
    Delta(AllLegs(h), account)
  }

  /** Every movement the transfer makes is an int64, and it sums to zero over the integers. */
  ghost predicate Exact(ps: seq<Posting>) {
    (forall a :: Fits(Delta(ps, a))) && SumsToZero(ps)
  }

  ghost predicate ExactHistory(h: seq<Row>) {
    forall i :: 0 <= i < |h| ==> Exact(h[i].content.postings)
  }

  /** A validated transfer is exact if no account's or currency's movement leaves its range. */
  lemma ExactIff(d: Draft)
    requires ValidationError(d) == None
    ensures Exact(d.postings) <==>
            (forall a :: Fits(Delta(d.postings, a))) && forall c :: -TWO64 < ExactNet(d.postings, c) < TWO64
  {
    AcceptedSumsToZeroIff(d);
  }

  lemma {:induction false} DeltaWithinVolume(ps: seq<Posting>, a: Text, c: Text)
    requires forall i :: 0 <= i < |ps| ==> ps[i].amount.amount > 0
    requires forall i :: 0 <= i < |ps| && ps[i].account == a ==> ps[i].amount.currency == c
    ensures -Volume(ps, c) <= Delta(ps, a) <= Volume(ps, c)
  {
    if ps != [] {
      var n := |ps| - 1;
      DeltaWithinVolume(ps[..n], a, c);
      assert ps[n].account == a ==> ps[n].amount.currency == c;
    }
  }

  /** An admitted transfer whose amounts in each currency total less than 2^63 is exact. */
  lemma SmallTransfersAreExact(accounts: map<Text, Account>, d: Draft)
    requires ValidationError(d) == None && LegsAdmitted(accounts, d.postings)
    requires forall c :: Volume(d.postings, c) <= MAX_INT64
    ensures Exact(d.postings)
  {
    hide Sum, WellFormed, NetsToZeroInMachine;
    FirstPostingErrorMeans(d.postings, 0);
    AmountsArePositive(d);
    forall a
      ensures Fits(Delta(d.postings, a))
    {
      if a in accounts {
        assert forall i :: 0 <= i < |d.postings| ==> LegAdmitted(accounts, d.postings[i]);
        DeltaWithinVolume(d.postings, a, accounts[a].currency);
      } else {
        AdmittedAccounts(accounts, d.postings);
        UntouchedDelta(d.postings, a);
      }
    }
    SmallTransfersSumToZero(d);
  }

  lemma AmountsArePositive(d: Draft)
    requires ValidationError(d) == None
    ensures forall i :: 0 <= i < |d.postings| ==> d.postings[i].amount.amount > 0
  {
    FirstPostingErrorMeans(d.postings, 0);
    assert forall i :: 0 <= i < |d.postings| ==> WellFormed(d.postings[i]);
  }

  /** Where every movement fits, the cached total is the exact one. */
  lemma {:induction false} CachedIsTotal(h: seq<Row>, a: Text)
    requires forall i :: 0 <= i < |h| ==> Fits(Delta(h[i].content.postings, a))
    ensures CachedTotal(h, a) == Total(h, a)
  {
    if h != [] {
      var init, r := h[..|h| - 1], h[|h| - 1];
      assert Fits(Delta(h[|h| - 1].content.postings, a));
      CachedIsTotal(init, a);
      SumAppend(OfAccount(a), AllLegs(init), r.content.postings);
      WrapFits(Delta(r.content.postings, a));
    }
  }

  /** The cached total is the exact one modulo 2^64, without any bound. */
  lemma {:induction false} CachedIsTotalInMachine(h: seq<Row>, a: Text)
    ensures Wrap(CachedTotal(h, a)) == Wrap(Total(h, a))
  {
    hide Wrap, Sum;
    if h != [] {
      var init, r := h[..|h| - 1], h[|h| - 1];
      var moved := Delta(r.content.postings, a);
      CachedIsTotalInMachine(init, a);
      SumAppend(OfAccount(a), AllLegs(init), r.content.postings);
      WrapAdd(CachedTotal(init, a), moved);
      WrapAdd(CachedTotal(init, a), Wrap(moved));
      WrapAdd(Total(init, a), moved);
    } else {
      assert Total(h, a) == 0 by { EmptyTotal(a); }
    }
  }

  lemma EmptyTotal(a: Text)
    ensures Total([], a) == 0
  {
  }

  /** applyBalances moves the cache by the exact movement precisely when that movement is an int64. */
  lemma CacheMovesExactlyIff(balances: map<Text, Int64>, ps: seq<Posting>, a: Text)
    requires MovementsFit(balances, Movements(ps))
    ensures Balance(Move(balances, Movements(ps)), a) == Balance(balances, a) + Delta(ps, a) <==> Fits(Delta(ps, a))
  {
    hide Move, Movements;
    MoveMeans(balances, ps, a);
    WrapFits(Delta(ps, a));
  }

  lemma {:induction false} NetOfHistory(h: seq<Row>, c: Text)
    requires forall i :: 0 <= i < |h| ==> SumsToZero(h[i].content.postings)
    ensures ExactNet(AllLegs(h), c) == 0
  {
    if h != [] {
      var init, r := h[..|h| - 1], h[|h| - 1];
      NetOfHistory(init, c);
      assert ExactNet(r.content.postings, c) == 0;
      SumAppend(OfCurrency(c), AllLegs(init), r.content.postings);
    }
  }

  /** Modulo 2^64 the whole history nets to zero, exact or not: that much Validate checked. */
  lemma {:induction false} HistoryNetsInMachine(h: seq<Row>, c: Text)
    requires forall i :: 0 <= i < |h| ==> NetsToZeroInMachine(h[i].content.postings)
    ensures Wrap(ExactNet(AllLegs(h), c)) == 0
  {
    if h != [] {
      var init, r := h[..|h| - 1], h[|h| - 1];
      HistoryNetsInMachine(init, c);
      assert NetsToZeroInMachine(h[|h| - 1].content.postings);
      SumAppend(OfCurrency(c), AllLegs(init), r.content.postings);
      if c !in CurrenciesOf(r.content.postings) {
        AbsentNet(r.content.postings, c);
      }
      assert Wrap(ExactNet(r.content.postings, c)) == 0;
      hide Wrap, Sum;
      WrapAdd(ExactNet(AllLegs(init), c), ExactNet(r.content.postings, c));
    } else {
      assert ExactNet(AllLegs(h), c) == 0;
    }
  }

  lemma {:induction false} SumMapInMachine(x: map<Text, int>, y: map<Text, int>)
    requires x.Keys == y.Keys && forall k :: k in x ==> Wrap(x[k]) == Wrap(y[k])
    ensures Wrap(SumMap(x)) == Wrap(SumMap(y))
    decreases |x|
  {
    hide Wrap, SumMap;
    if x == map[] {
      assert y == map[];
    } else {
      var k :| k in x;
      SumMapPull(x, k);
      SumMapPull(y, k);
      SumMapInMachine(x - {k}, y - {k});
      WrapAdd(SumMap(x - {k}), x[k]);
      WrapAdd(SumMap(y - {k}), y[k]);
      WrapAdd(SumMap(x - {k}), Wrap(y[k]));
      WrapAdd(Wrap(SumMap(x - {k})), x[k]);
      WrapAdd(Wrap(SumMap(y - {k})), y[k]);
    }
  }

  ghost predicate LegsRecorded(accounts: map<Text, Account>, ps: seq<Posting>) {
    forall i :: 0 <= i < |ps| ==> LegRecorded(accounts, ps[i])
  }

  lemma {:induction false} HistoryRecorded(accounts: map<Text, Account>, h: seq<Row>)
    requires forall i :: 0 <= i < |h| ==> RowAdmitted(accounts, h[i])
    ensures LegsRecorded(accounts, AllLegs(h))
  {
    hide LegRecorded, NetsToZeroInMachine;
    if h != [] {
      HistoryRecorded(accounts, h[..|h| - 1]);
      assert RowAdmitted(accounts, h[|h| - 1]);
    }
  }

  // ---- the trial balance: accounts of a currency against postings of that currency

  ghost function DeltasIn(accounts: map<Text, Account>, ps: seq<Posting>, c: Text): map<Text, int> {
    map a | a in accounts && accounts[a].currency == c :: Delta(ps, a)
  }

  /** Summed over the accounts of one currency, the movements are the net in that currency. */
  lemma {:induction false} TrialIsNet(accounts: map<Text, Account>, ps: seq<Posting>, c: Text)
    requires LegsRecorded(accounts, ps)
    ensures SumMap(DeltasIn(accounts, ps, c)) == ExactNet(ps, c)
  {
    hide SumMap, WellFormed;
    if ps == [] {
      SumMapZero(DeltasIn(accounts, ps, c));
    } else {
      var init, p := ps[..|ps| - 1], ps[|ps| - 1];
      assert ps == init + [p];
      assert LegRecorded(accounts, ps[|ps| - 1]);
      forall i | 0 <= i < |init|
        ensures LegRecorded(accounts, init[i])
      {
        assert LegRecorded(accounts, ps[i]);
      }
      TrialIsNet(accounts, init, c);
      TrialStep(accounts, init, p, c);
      SumSnoc(OfCurrency(c), init, p);
    }
  }

  lemma TrialStep(accounts: map<Text, Account>, ps: seq<Posting>, p: Posting, c: Text)
    requires LegRecorded(accounts, p)
    ensures SumMap(DeltasIn(accounts, ps + [p], c)) == SumMap(DeltasIn(accounts, ps, c)) + OfCurrency(c).Of(p)
  {
    hide SumMap, Sum, WellFormed;
    forall a
      ensures Delta(ps + [p], a) == Delta(ps, a) + OfAccount(a).Of(p)
    {
      SumSnoc(OfAccount(a), ps, p);
    }
    var before, after := DeltasIn(accounts, ps, c), DeltasIn(accounts, ps + [p], c);
    if p.amount.currency == c {
      assert after == before[p.account := before[p.account] + ExactSigned(p)];
      SumMapPut(before, p.account, before[p.account] + ExactSigned(p));
    } else {
      assert after == before;
    }
  }

  // ---- histories cut at an instant

  /** The transfers posted at or before an instant: backdating makes this no prefix of the id order. */
  function Upto(h: seq<Row>, at: int): seq<Row> {
    if h == [] then []
    else Upto(h[..|h| - 1], at) + (if h[|h| - 1].content.postedAt <= at then [h[|h| - 1]] else [])
  }

  lemma {:induction false} UptoKeeps(h: seq<Row>, at: int)
    ensures forall i :: 0 <= i < |Upto(h, at)| ==> Upto(h, at)[i] in h && Upto(h, at)[i].content.postedAt <= at
  {
    if h != [] {
      UptoKeeps(h[..|h| - 1], at);
    }
  }

  /** At every instant, the raw as-of balances of each currency sum to zero. */
  lemma AsOfTrialIsZero(sha: Sha, db: Db, at: int, c: Text)
    requires Inv(sha, db) && ExactHistory(db.transfers)
    ensures SumMap(DeltasIn(db.accounts, AllLegs(Upto(db.transfers, at)), c)) == 0
  {
    hide Chained, Cached, Guarded, HoldsSound, Linked, Numbered, Keyed, RowAdmitted, SumMap, Exact;
    var h := Upto(db.transfers, at);
    UptoKeeps(db.transfers, at);
    forall i | 0 <= i < |h|
      ensures RowAdmitted(db.accounts, h[i]) && SumsToZero(h[i].content.postings)
    {
      var j :| 0 <= j < |db.transfers| && db.transfers[j] == h[i];
      ExactSums(db.transfers, j);
    }
    HistoryRecorded(db.accounts, h);
    TrialIsNet(db.accounts, AllLegs(h), c);
    NetOfHistory(h, c);
  }

  /** Exact or not, at every instant they do so modulo 2^64. */
  lemma AsOfTrialInMachine(sha: Sha, db: Db, at: int, c: Text)
    requires Inv(sha, db)
    ensures Wrap(SumMap(DeltasIn(db.accounts, AllLegs(Upto(db.transfers, at)), c))) == 0
  {
    hide Chained, Cached, Guarded, HoldsSound, Linked, Numbered, Keyed, LegRecorded, SumMap, Wrap, NetsToZeroInMachine;
    var h := Upto(db.transfers, at);
    UptoKeeps(db.transfers, at);
    forall i | 0 <= i < |h|
      ensures RowAdmitted(db.accounts, h[i])
    {
      var j :| 0 <= j < |db.transfers| && db.transfers[j] == h[i];
    }
    HistoryRecorded(db.accounts, h);
    TrialIsNet(db.accounts, AllLegs(h), c);
    HistoryNetsInMachine(h, c);
  }

  lemma ExactSums(h: seq<Row>, i: nat)
    requires ExactHistory(h) && i < |h|
    ensures SumsToZero(h[i].content.postings) && forall a :: Fits(Delta(h[i].content.postings, a))
  {
    assert Exact(h[i].content.postings);
  }

  /** The cached balances of each currency sum to zero, and each is the sum of its account's postings. */
  lemma BalancesAreTheBooks(sha: Sha, db: Db)
    requires Inv(sha, db) && ExactHistory(db.transfers)
    ensures forall a :: a in db.balances ==> db.balances[a] == Total(db.transfers, a)
    ensures forall c :: SumMap(DeltasIn(db.accounts, AllLegs(db.transfers), c)) == 0
  {
    hide Chained, Guarded, HoldsSound, Linked, Numbered, Keyed, RowAdmitted, SumMap, Exact;
    forall a | a in db.balances
      ensures db.balances[a] == Total(db.transfers, a)
    {
      forall i | 0 <= i < |db.transfers|
        ensures Fits(Delta(db.transfers[i].content.postings, a))
      {
        ExactSums(db.transfers, i);
      }
      CachedIsTotal(db.transfers, a);
    }
    forall c
      ensures SumMap(DeltasIn(db.accounts, AllLegs(db.transfers), c)) == 0
    {
      forall i | 0 <= i < |db.transfers|
        ensures SumsToZero(db.transfers[i].content.postings)
      {
        ExactSums(db.transfers, i);
      }
      HistoryRecorded(db.accounts, db.transfers);
      TrialIsNet(db.accounts, AllLegs(db.transfers), c);
      NetOfHistory(db.transfers, c);
    }
  }
}
