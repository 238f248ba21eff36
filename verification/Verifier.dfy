/** Verify: the books re-derived from the stored rows, trusting no cached number. */
module Verifier {
  import opened Int64Math
  import opened Bytes
  import opened Sums
  import opened Domain
  import opened Drafts
  import opened ChainEncoding
  import opened ChainHistory
  import opened ChainScan
  import opened Books
  import opened BooksInvariants
  import opened History
  import opened Transactions
  import opened Serializability
  import opened Interleavings

  ghost predicate NoRepeats(problems: seq<Problem>) {
    forall i, j :: 0 <= i < j < |problems| ==> problems[i] != problems[j]
  }

  lemma NoRepeatsAppend(x: seq<Problem>, y: seq<Problem>)
    requires NoRepeats(x) && NoRepeats(y) && forall p :: p in x ==> p !in y
    ensures NoRepeats(x + y)
  {
    forall i, j | 0 <= i < j < |x + y|
      ensures (x + y)[i] != (x + y)[j]
    {
      if i < |x| <= j {
        assert x[i] in x && y[j - |x|] in y;
      }
    }
  }

  // ---- transfers that do not sum to zero

  ghost predicate UnbalancedAt(h: seq<Row>, i: int, p: Problem) {
    && 0 <= i < |h|
    && p.UnbalancedTransfer? && p.id == h[i].id
    && p.net == ExactNet(h[i].content.postings, p.currency) != 0
  }

  ghost predicate Unscannable(h: seq<Row>, i: int, c: Text) {
    0 <= i < |h| && !Fits(ExactNet(h[i].content.postings, c))
  }

  /** The groups of one transfer whose sum is not zero, scanned into int64. */
  method CheckOneTransfer(r: Row) returns (found: Result<seq<Problem>>)
    ensures found.Err? <==> exists c :: Unscannable([r], 0, c)
    ensures found.Ok? ==> NoRepeats(found.value) && forall p :: p in found.value <==> UnbalancedAt([r], 0, p)
  {
    hide Sum;
    var ps := r.content.postings;
    var problems: seq<Problem> := [];
    var left := CurrenciesOf(ps);
    forall c | c !in left
      ensures ExactNet(ps, c) == 0
    {
      AbsentNet(ps, c);
    }
    while left != {}
      invariant left <= CurrenciesOf(ps)
      invariant forall c :: c in CurrenciesOf(ps) - left ==> Fits(ExactNet(ps, c))
      invariant NoRepeats(problems)
      invariant forall p :: p in problems <==> UnbalancedAt([r], 0, p) && p.currency !in left
      decreases left
    {
      var c :| c in left;
      var net := SumPostings(OfCurrency(c), ps);
      if !Fits(net) {
        assert Unscannable([r], 0, c);
        return Err(DatabaseError);
      }
      if net != 0 {
        problems := problems + [UnbalancedTransfer(r.id, c, net)];
      }
      left := left - {c};
    }
    return Ok(problems);
  }

  method CheckTransfersBalance(h: seq<Row>) returns (found: Result<seq<Problem>>)
    requires DistinctIds(h)
    ensures found.Err? <==> exists i, c :: Unscannable(h, i, c)
    ensures found.Ok? ==> NoRepeats(found.value)
    ensures found.Ok? ==> forall p :: p in found.value <==> exists i :: UnbalancedAt(h, i, p)
  {
    hide Sum, ExactNet;
    var problems: seq<Problem> := [];
    for k := 0 to |h|
      invariant forall i, c :: Unscannable(h, i, c) ==> i >= k
      invariant NoRepeats(problems)
      invariant forall p :: p in problems <==> exists i :: i < k && UnbalancedAt(h, i, p)
    {
      var one := CheckOneTransfer(h[k]);
      forall c
        ensures Unscannable([h[k]], 0, c) <==> Unscannable(h, k, c)
      {
      }
      if one.Err? {
        ghost var c :| Unscannable([h[k]], 0, c);
        assert Unscannable(h, k, c);
        return one;
      }
      forall p
        ensures p in one.value <==> UnbalancedAt(h, k, p)
      {
        assert UnbalancedAt([h[k]], 0, p) <==> UnbalancedAt(h, k, p);
      }
      NoRepeatsAppend(problems, one.value);
      problems := problems + one.value;
    }
    return Ok(problems);
  }

  // ---- cached balances that drifted

  ghost predicate Drifted(db: Db, p: Problem) {
    && p.BalanceDrift? && p.account in db.balances
    && p.cached == db.balances[p.account] != Total(db.transfers, p.account)
    && p.fromPostings == Total(db.transfers, p.account)
  }

  method CheckBalancesMatchPostings(db: Db) returns (found: Result<seq<Problem>>)
    ensures found.Err? <==> exists a :: a in db.balances && !Fits(Total(db.transfers, a))
    ensures found.Ok? ==> NoRepeats(found.value) && forall p :: p in found.value <==> Drifted(db, p)
  {
    hide Sum, Delta;
    var legs := AllLegs(db.transfers);
    var problems: seq<Problem> := [];
    var left := db.balances.Keys;
    while left != {}
      invariant left <= db.balances.Keys
      invariant forall a :: a in db.balances.Keys - left ==> Fits(Total(db.transfers, a))
      invariant NoRepeats(problems)
      invariant forall p :: p in problems <==> Drifted(db, p) && p.account !in left
      decreases left
    {
      var a :| a in left;
      var total := SumPostings(OfAccount(a), legs);
      assert total == Total(db.transfers, a) by {
        SameSum(db.transfers, a);
      }
      if !Fits(total) {
        return Err(DatabaseError);
      }
      if db.balances[a] != total {
        problems := problems + [BalanceDrift(a, db.balances[a], total)];
      }
      left := left - {a};
    }
    return Ok(problems);
  }

  lemma SameSum(h: seq<Row>, a: Text)
    ensures Sum(OfAccount(a), AllLegs(h)) == Total(h, a)
  {
  }

  // ---- the trial balance

  function BalancesIn(db: Db, c: Text): map<Text, int> {
    map a | a in db.balances && a in db.accounts && db.accounts[a].currency == c :: db.balances[a] as int
  }

  function CurrenciesIn(db: Db): set<Text> {
    set a | a in db.balances && a in db.accounts :: db.accounts[a].currency
  }

  /** TrialBalance: every stored balance, summed per currency. */
  method SumBalances(db: Db, c: Text) returns (sum: int)
    ensures sum == SumMap(BalancesIn(db, c))
  {
    hide SumMap;
    sum := 0;
    ghost var all := BalancesIn(db, c);
    ghost var todo := all;
    var left := db.balances.Keys;
    while left != {}
      invariant left <= db.balances.Keys
      invariant todo.Keys == all.Keys * left && forall a :: a in todo ==> todo[a] == all[a]
      invariant sum + SumMap(todo) == SumMap(all)
      decreases left
    {
      var a :| a in left;
      if a in db.accounts && db.accounts[a].currency == c {
        SumMapPull(todo, a);
        sum := sum + db.balances[a];
      } else {
        assert todo - {a} == todo;
      }
      todo := todo - {a};
      left := left - {a};
    }
    assert todo == map[];
    SumMapZero(todo);
  }

  ghost predicate OffTrial(db: Db, p: Problem) {
    p.TrialBalance? && p.sum == SumMap(BalancesIn(db, p.currency)) != 0
  }

  method CheckTrialBalance(db: Db) returns (found: Result<seq<Problem>>)
    ensures found.Err? <==> exists c :: !Fits(SumMap(BalancesIn(db, c)))
    ensures found.Ok? ==> NoRepeats(found.value) && forall p :: p in found.value <==> OffTrial(db, p)
  {
    hide SumMap;
    var problems: seq<Problem> := [];
    var left := CurrenciesIn(db);
    forall c | c !in left
      ensures SumMap(BalancesIn(db, c)) == 0
    {
      assert BalancesIn(db, c) == map[];
      SumMapZero(BalancesIn(db, c));
    }
    while left != {}
      invariant left <= CurrenciesIn(db)
      invariant forall c :: c in CurrenciesIn(db) - left ==> Fits(SumMap(BalancesIn(db, c)))
      invariant NoRepeats(problems)
      invariant forall p :: p in problems <==> OffTrial(db, p) && p.currency !in left
      decreases left
    {
      var c :| c in left;
      var sum := SumBalances(db, c);
      if !Fits(sum) {
        return Err(DatabaseError);
      }
      if sum != 0 {
        problems := problems + [TrialBalance(c, sum)];
      }
      left := left - {c};
    }
    return Ok(problems);
  }

  // ---- all four

  /** The report names this transfer as unbalanced, in some currency and by some amount. */
  ghost predicate Names(report: seq<Problem>, id: Int64) {
    exists p :: p in report && p.UnbalancedTransfer? && p.id == id && p.net != 0
  }

  lemma InexactIsReported(h: seq<Row>, found: seq<Problem>, i: nat)
    requires forall p :: p in found <==> exists k :: UnbalancedAt(h, k, p)
    requires forall k, c :: !Unscannable(h, k, c)
    requires i < |h| && !SumsToZero(h[i].content.postings)
    ensures Names(found, h[i].id)
  {
    hide ExactNet;
    var c :| ExactNet(h[i].content.postings, c) != 0;
    assert !Unscannable(h, i, c);
    var p := UnbalancedTransfer(h[i].id, c, ExactNet(h[i].content.postings, c));
    assert UnbalancedAt(h, i, p);
    assert p in found;
  }

  lemma NamesMore(x: seq<Problem>, y: seq<Problem>, id: Int64)
    requires Names(x, id)
    ensures Names(x + y, id)
  {
    var p :| p in x && p.UnbalancedTransfer? && p.id == id && p.net != 0;
    assert p in x + y;
  }

  /** What a clean report means about the stored rows. */
  ghost predicate Clean(sha: Sha, db: Db) {
    && (forall i :: 0 <= i < |db.transfers| ==> SumsToZero(db.transfers[i].content.postings))
    && (forall a :: a in db.balances ==> db.balances[a] == Total(db.transfers, a))
    && (forall c :: SumMap(BalancesIn(db, c)) == 0)
    && Chained(sha, db.transfers)
  }

  /** Verify: the four checks in turn; the report is clean exactly when the rows are. */
  method Verify(sha: Sha, db: Db) returns (report: Result<seq<Problem>>)
    requires DistinctIds(db.transfers)
    ensures report == Ok([]) <==> Clean(sha, db)
    ensures report.Err? <==>
              || (exists i, c :: Unscannable(db.transfers, i, c))
              || (exists a :: a in db.balances && !Fits(Total(db.transfers, a)))
              || (exists c :: !Fits(SumMap(BalancesIn(db, c))))
    ensures report.Ok? ==> forall p :: p in report.value <==>
              || (exists i :: UnbalancedAt(db.transfers, i, p))
              || Drifted(db, p)
              || OffTrial(db, p)
              || p in ChainProblems(sha, db.transfers)
    ensures report.Ok? ==>
              exists sums :: NoRepeats(sums) && report.value == sums + ChainProblems(sha, db.transfers)
    ensures Inv(sha, db) && report.Ok? ==> report.value == []
    ensures report.Ok? ==>
              forall i :: 0 <= i < |db.transfers| && !SumsToZero(db.transfers[i].content.postings) ==>
                Names(report.value, db.transfers[i].id)
  {
    hide Inv, Joined, ChainProblems, Fits, Names, SumsToZero;
    var a := CheckTransfersBalance(db.transfers);
    if a.Err? {
      NotBalanced(sha, db);
      return a;
    }
    var b := CheckBalancesMatchPostings(db);
    if b.Err? {
      NotMatching(sha, db);
      return b;
    }
    var c := CheckTrialBalance(db);
    if c.Err? {
      NotTrial(sha, db);
      return c;
    }
    var d := CheckChain(sha, Joined(db.transfers), db.transfers);
    KindsDiffer(db, a.value, b.value, c.value);
    report := Ok(a.value + b.value + c.value + d);
    CleanMeans(sha, db, a.value, b.value, c.value, d);
    forall i | 0 <= i < |db.transfers| && !SumsToZero(db.transfers[i].content.postings)
      ensures Names(report.value, db.transfers[i].id)
    {
      InexactIsReported(db.transfers, a.value, i);
      NamesMore(a.value, b.value + c.value + d, db.transfers[i].id);
      assert a.value + (b.value + c.value + d) == report.value;
    }
    if Inv(sha, db) {
      ReachableReportIsEmpty(sha, db, report.value);
    }
  }

  lemma KindsDiffer(db: Db, a: seq<Problem>, b: seq<Problem>, c: seq<Problem>)
    requires NoRepeats(a) && forall p :: p in a <==> exists i :: UnbalancedAt(db.transfers, i, p)
    requires NoRepeats(b) && forall p :: p in b <==> Drifted(db, p)
    requires NoRepeats(c) && forall p :: p in c <==> OffTrial(db, p)
    ensures NoRepeats(a + b + c)
  {
    hide NoRepeats, Total, SumMap;
    NoRepeatsAppend(a, b);
    NoRepeatsAppend(a + b, c);
  }

  lemma NotBalanced(sha: Sha, db: Db)
    requires exists i, c :: Unscannable(db.transfers, i, c)
    ensures !Clean(sha, db)
  {
    var i, c :| Unscannable(db.transfers, i, c);
    hide ExactNet;
    assert !SumsToZero(db.transfers[i].content.postings);
  }

  lemma NotMatching(sha: Sha, db: Db)
    requires exists a :: a in db.balances && !Fits(Total(db.transfers, a))
    ensures !Clean(sha, db)
  {
    hide Total, SumMap, Chained;
  }

  lemma NotTrial(sha: Sha, db: Db)
    requires exists c :: !Fits(SumMap(BalancesIn(db, c)))
    ensures !Clean(sha, db)
  {
    hide Total, SumMap, Chained;
    var c :| !Fits(SumMap(BalancesIn(db, c)));
  }

  lemma CleanMeans(sha: Sha, db: Db, a: seq<Problem>, b: seq<Problem>, c: seq<Problem>, d: seq<Problem>)
    requires forall p :: p in a <==> exists i :: UnbalancedAt(db.transfers, i, p)
    requires forall i, x :: !Unscannable(db.transfers, i, x)
    requires forall p :: p in b <==> Drifted(db, p)
    requires forall x :: x in db.balances ==> Fits(Total(db.transfers, x))
    requires forall p :: p in c <==> OffTrial(db, p)
    requires forall x :: Fits(SumMap(BalancesIn(db, x)))
    requires d == ChainProblems(sha, db.transfers)
    ensures a + b + c + d == [] <==> Clean(sha, db)
  {
    SilentIffChained(sha, [], db.transfers);
    NoneUnbalanced(db.transfers, a);
    NoneDrifted(db, b);
    NoneOffTrial(db, c);
    hide Chained, Total, SumMap, ProblemsFrom, SumsToZero;
    assert a + b + c + d == [] <==> a == [] && b == [] && c == [] && d == [];
  }

  lemma NoneUnbalanced(h: seq<Row>, a: seq<Problem>)
    requires forall p :: p in a <==> exists i :: UnbalancedAt(h, i, p)
    requires forall i, x :: !Unscannable(h, i, x)
    ensures a == [] <==> forall i :: 0 <= i < |h| ==> SumsToZero(h[i].content.postings)
  {
    hide ExactNet;
    if a == [] {
      forall i, c | 0 <= i < |h|
        ensures ExactNet(h[i].content.postings, c) == 0
      {
        assert !Unscannable(h, i, c);
        var p := UnbalancedTransfer(h[i].id, c, ExactNet(h[i].content.postings, c));
        assert p !in a;
        assert !UnbalancedAt(h, i, p);
      }
    } else {
      assert a[0] in a;
      var i :| UnbalancedAt(h, i, a[0]);
    }
  }

  lemma NoneDrifted(db: Db, b: seq<Problem>)
    requires forall p :: p in b <==> Drifted(db, p)
    requires forall x :: x in db.balances ==> Fits(Total(db.transfers, x))
    ensures b == [] <==> forall a :: a in db.balances ==> db.balances[a] == Total(db.transfers, a)
  {
    hide Total;
    if b == [] {
      forall a | a in db.balances
        ensures db.balances[a] == Total(db.transfers, a)
      {
        assert !Drifted(db, BalanceDrift(a, db.balances[a], Total(db.transfers, a)));
      }
    } else {
      assert Drifted(db, b[0]);
    }
  }

  lemma NoneOffTrial(db: Db, c: seq<Problem>)
    requires forall p :: p in c <==> OffTrial(db, p)
    requires forall x :: Fits(SumMap(BalancesIn(db, x)))
    ensures c == [] <==> forall x :: SumMap(BalancesIn(db, x)) == 0
  {
    hide SumMap;
    if c == [] {
      forall x
        ensures SumMap(BalancesIn(db, x)) == 0
      {
        assert !OffTrial(db, Problem.TrialBalance(x, SumMap(BalancesIn(db, x))));
      }
    } else {
      assert OffTrial(db, c[0]);
    }
  }

  // ---- silent on every reachable state

  lemma BalancesAreDeltas(db: Db, c: Text)
    requires Keyed(db) && forall a :: a in db.balances ==> db.balances[a] == Total(db.transfers, a)
    ensures BalancesIn(db, c) == DeltasIn(db.accounts, AllLegs(db.transfers), c)
  {
    hide Sum;
  }

  /** On a reachable state Verify is clean exactly when transfers sum to zero and caches equal postings. */
  lemma ReachableIsCleanIff(sha: Sha, db: Db)
    requires Inv(sha, db)
    ensures Clean(sha, db) <==>
            && (forall i :: 0 <= i < |db.transfers| ==> SumsToZero(db.transfers[i].content.postings))
            && (forall a :: a in db.balances ==> db.balances[a] == Total(db.transfers, a))
  {
    hide Chained, Cached, Guarded, HoldsSound, Linked, Numbered, RowAdmitted, SumMap, SumsToZero, Total;
    if && (forall i :: 0 <= i < |db.transfers| ==> SumsToZero(db.transfers[i].content.postings))
       && (forall a :: a in db.balances ==> db.balances[a] == Total(db.transfers, a))
    {
      forall c
        ensures SumMap(BalancesIn(db, c)) == 0
      {
        BalancesAreDeltas(db, c);
        HistoryRecorded(db.accounts, db.transfers);
        TrialIsNet(db.accounts, AllLegs(db.transfers), c);
        NetOfHistory(db.transfers, c);
      }
    }
  }

  /** Verify reports nothing on a reachable state whose transfers are exact. */
  lemma ReachableIsClean(sha: Sha, db: Db)
    requires Inv(sha, db) && ExactHistory(db.transfers)
    ensures Clean(sha, db) && DistinctIds(db.transfers)
  {
    BalancesAreTheBooks(sha, db);
    ReachableIsCleanIff(sha, db);
    hide Chained, Cached, Guarded, HoldsSound, Linked, RowAdmitted, SumMap, Total, Clean, Exact, SumsToZero;
    forall i | 0 <= i < |db.transfers|
      ensures SumsToZero(db.transfers[i].content.postings)
    {
      ExactSums(db.transfers, i);
    }
  }

  lemma ReachableTrialInMachine(sha: Sha, db: Db, c: Text)
    requires Inv(sha, db)
    ensures Wrap(SumMap(BalancesIn(db, c))) == 0
  {
    hide Chained, Guarded, HoldsSound, Linked, Numbered, LegRecorded, Sum, SumMap, Wrap, CachedTotal, NetsToZeroInMachine;
    var x, y := BalancesIn(db, c), DeltasIn(db.accounts, AllLegs(db.transfers), c);
    forall a | a in x
      ensures Wrap(x[a]) == Wrap(y[a])
    {
      CachedIsTotalInMachine(db.transfers, a);
    }
    SumMapInMachine(x, y);
    HistoryRecorded(db.accounts, db.transfers);
    TrialIsNet(db.accounts, AllLegs(db.transfers), c);
    HistoryNetsInMachine(db.transfers, c);
  }

  lemma OneNetInMachine(ps: seq<Posting>, c: Text)
    requires NetsToZeroInMachine(ps)
    ensures Wrap(ExactNet(ps, c)) == 0
  {
    if c !in CurrenciesOf(ps) {
      AbsentNet(ps, c);
    }
  }

  lemma ReachableIsBalanced(sha: Sha, db: Db, i: int, p: Problem)
    requires Inv(sha, db)
    ensures !UnbalancedAt(db.transfers, i, p)
  {
    hide Inv, Wrap, ExactNet, LegRecorded, NetsToZeroInMachine;
    if p.UnbalancedTransfer? && 0 <= i < |db.transfers| {
      ReachableRow(sha, db, i);
      OneNetInMachine(db.transfers[i].content.postings, p.currency);
      WrapFits(p.net);
    }
  }

  lemma ReachableRow(sha: Sha, db: Db, i: nat)
    requires Inv(sha, db) && i < |db.transfers|
    ensures NetsToZeroInMachine(db.transfers[i].content.postings)
  {
    hide Chained, Cached, Guarded, HoldsSound, Linked, Numbered, LegRecorded, NetsToZeroInMachine;
    assert RowAdmitted(db.accounts, db.transfers[i]);
  }

  lemma ReachableIsCached(sha: Sha, db: Db, p: Problem)
    requires Inv(sha, db)
    ensures !Drifted(db, p)
  {
    hide Chained, Guarded, HoldsSound, Linked, Numbered, RowsAdmitted, Wrap, CachedTotal, Total;
    if p.BalanceDrift? && p.account in db.balances {
      CachedIsTotalInMachine(db.transfers, p.account);
      WrapFits(p.fromPostings);
      WrapFits(p.cached);
    }
  }

  /**
   On any reachable state there is nothing for Verify to report, whatever the amounts: it is clean, or a sum
   is too large to be scanned into an int64 and it fails with an error.
   */
  lemma ReachableHasNoProblem(sha: Sha, db: Db, i: int, p: Problem)
    requires Inv(sha, db)
    ensures !UnbalancedAt(db.transfers, i, p) && !Drifted(db, p) && !OffTrial(db, p)
    ensures ChainProblems(sha, db.transfers) == []
  {
    hide UnbalancedAt, Drifted, ChainedFrom, ProblemsFrom, Guarded, Cached, RowsAdmitted, HoldsSound, Linked, Numbered, SumMap, Wrap;
    SilentIffChained(sha, [], db.transfers);
    ReachableIsBalanced(sha, db, i, p);
    ReachableIsCached(sha, db, p);
    if p.TrialBalance? {
      ReachableTrialInMachine(sha, db, p.currency);
      WrapFits(p.sum);
    }
  }

  /** What Verify promises of a report, met on a reachable state only by the empty one. */
  lemma ReachableReportIsEmpty(sha: Sha, db: Db, report: seq<Problem>)
    requires Inv(sha, db)
    requires forall p :: p in report ==>
               || (exists i :: UnbalancedAt(db.transfers, i, p))
               || Drifted(db, p)
               || OffTrial(db, p)
               || p in ChainProblems(sha, db.transfers)
    ensures report == []
  {
    hide Inv, UnbalancedAt, Drifted, OffTrial, ChainProblems;
    if report != [] {
      var p := report[0];
      assert p in report;
      forall i
        ensures !UnbalancedAt(db.transfers, i, p)
      {
        ReachableHasNoProblem(sha, db, i, p);
      }
      ReachableHasNoProblem(sha, db, 0, p);
      assert false;
    }
  }

  /**
   The four checks are four statements, each on what is committed when it begins.  At any four moments of any
   interleaving, one for each, there is still nothing to report.
   */
  lemma FourMomentsHaveNoProblem(sha: Sha, steps: seq<Step>, n1: nat, n2: nat, n3: nat, n4: nat, i: int, p: Problem)
    requires Execute(sha, steps).Some? && n1 <= n2 <= n3 <= n4 <= |steps|
    ensures Execute(sha, steps[..n1]).Some? && !UnbalancedAt(Execute(sha, steps[..n1]).value.db.transfers, i, p)
    ensures Execute(sha, steps[..n2]).Some? && !Drifted(Execute(sha, steps[..n2]).value.db, p)
    ensures Execute(sha, steps[..n3]).Some? && !OffTrial(Execute(sha, steps[..n3]).value.db, p)
    ensures Execute(sha, steps[..n4]).Some? && ChainProblems(sha, Execute(sha, steps[..n4]).value.db.transfers) == []
  {
    hide Execute, Inv, UnbalancedAt, Drifted, OffTrial, ChainProblems;
    MomentHasNoProblem(sha, steps, n1, i, p);
    MomentHasNoProblem(sha, steps, n2, i, p);
    MomentHasNoProblem(sha, steps, n3, i, p);
    MomentHasNoProblem(sha, steps, n4, i, p);
  }

  lemma MomentHasNoProblem(sha: Sha, steps: seq<Step>, n: nat, i: int, p: Problem)
    requires Execute(sha, steps).Some? && n <= |steps|
    ensures Execute(sha, steps[..n]).Some?
    ensures var db := Execute(sha, steps[..n]).value.db;
            && !UnbalancedAt(db.transfers, i, p) && !Drifted(db, p) && !OffTrial(db, p)
            && ChainProblems(sha, db.transfers) == []
  {
    hide Execute, Inv, UnbalancedAt, Drifted, OffTrial, ChainProblems;
    ExecutionPrefix(sha, steps, n);
    InterleavingsKeepTheBooks(sha, steps[..n]);
    ReachableHasNoProblem(sha, Execute(sha, steps[..n]).value.db, i, p);
  }

  /** Texts short enough for a four-byte length, and an instant UnixNano can express. */
  predicate Measured(c: Content) {
    && |c.reference| < TWO32
    && |c.description| < TWO32
    && Fits(c.postedAt)
    && forall p :: p in c.postings ==> |p.account| < TWO32
  }

  /** What validation admits into the history is what the chain's encoding can tell apart. */
  lemma ReachableIsEncodable(sha: Sha, db: Db)
    requires Inv(sha, db) && forall i :: 0 <= i < |db.transfers| ==> Measured(db.transfers[i].content)
    ensures AllEncodable(db.transfers)
  {
    hide Chained, Cached, Guarded, HoldsSound, Linked, Numbered, NetsToZeroInMachine, EncodableLeg;
    forall i | 0 <= i < |db.transfers|
      ensures Encodable(db.transfers[i].content)
    {
      var r := db.transfers[i];
      assert RowAdmitted(db.accounts, db.transfers[i]) && Measured(db.transfers[i].content);
      forall p | p in r.content.postings
        ensures EncodableLeg(p)
      {
        var k :| 0 <= k < |r.content.postings| && r.content.postings[k] == p;
        assert LegRecorded(db.accounts, r.content.postings[k]);
        ValidLegIsEncodable(p);
      }
    }
  }

  /** The ranges within which a caller's transfers are recorded exactly. */
  ghost predicate ExactOp(op: Op) {
    op.Post? || op.Capture? ==>
      && (forall a :: Fits(Delta(op.d.postings, a)))
      && (forall c :: -TWO64 < ExactNet(op.d.postings, c) < TWO64)
  }

  ghost predicate SmallOp(op: Op) {
    op.Post? || op.Capture? ==> forall c :: Volume(op.d.postings, c) <= MAX_INT64
  }

  lemma {:induction false} ExactOpsMakeExactHistory(sha: Sha, ops: seq<Op>)
    requires Replay(sha, ops).Some? && forall i :: 0 <= i < |ops| ==> ExactOp(ops[i]) || SmallOp(ops[i])
    ensures ExactHistory(Replay(sha, ops).value.transfers)
  {
    hide ExactOp, SmallOp;
    if ops != [] {
      var n := |ops| - 1;
      assert ExactOp(ops[n]) || SmallOp(ops[n]);
      ExactOpsMakeExactHistory(sha, ops[..n]);
      var db := Replay(sha, ops[..n]).value;
      ExactStep(sha, db, ops[n]);
    }
  }

  lemma ExactStep(sha: Sha, db: Db, op: Op)
    requires OpOk(sha, db, op) && (ExactOp(op) || SmallOp(op)) && ExactHistory(db.transfers)
    ensures ExactHistory(OpDb(sha, db, op).transfers)
  {
    hide Hash, Preimage, Move, Movements, Exact, Available, Spent, ValidationError, LegAdmitted;
    if op.Post? || op.Capture? {
      if ExactOp(op) {
        ExactIff(op.d);
      } else {
        SmallTransfersAreExact(db.accounts, op.d);
      }
    }
  }

  /** Over every interleaving of transactions in those ranges, Verify is silent on every committed state. */
  lemma InterleavingsVerify(sha: Sha, steps: seq<Step>)
    requires Execute(sha, steps).Some?
    requires var log := Execute(sha, steps).value.log;
             forall i :: 0 <= i < |log| ==> ExactOp(log[i]) || SmallOp(log[i])
    ensures Clean(sha, Execute(sha, steps).value.db)
  {
    hide Execute, Replay, Clean, Inv, ExactOp, SmallOp, ExactHistory;
    InterleavingsAreSerial(sha, steps);
    InterleavingsKeepTheBooks(sha, steps);
    ExactOpsMakeExactHistory(sha, Execute(sha, steps).value.log);
    ReachableIsClean(sha, Execute(sha, steps).value.db);
  }
}
