/** What a history of reversals, and reversals of reversals, amounts to. */
module Reversals {
  import opened Int64Math
  import opened Domain
  import opened Drafts
  import opened ChainEncoding
  import opened ChainHistory
  import opened Books
  import opened BooksInvariants
  import opened History

  /** What the tables keep about reversals: ids identify transfers, and links are mirror images. */
  ghost predicate Reversible(h: seq<Row>) {
    Numbered(h) && Linked(h)
  }

  ghost predicate Reverses(h: seq<Row>, i: int, j: int) {
    0 <= i < |h| && 0 <= j < |h| && h[i].content.reverses == h[j].id
  }

  /** The transfer a link names is the one whose postings it mirrors, and it came before. */
  lemma ReversesMeansUndoes(h: seq<Row>, i: nat, j: nat)
    requires Reversible(h) && Reverses(h, i, j)
    ensures Undoes(h, i, j)
  {
    hide Mirror;
    assert h[j].id > 0;
    var k :| 0 <= k < |h| && Undoes(h, i, k);
    SameId(h, j, k);
  }

  lemma SameId(h: seq<Row>, j: nat, k: nat)
    requires Numbered(h) && j < |h| && k < |h| && h[j].id == h[k].id
    ensures j == k
  {
  }

  /** transfers_reverses_key: one reversal per transfer. */
  lemma ReversalIsUnique(h: seq<Row>, i: nat, k: nat, j: nat)
    requires Reversible(h) && Reverses(h, i, j) && Reverses(h, k, j)
    ensures i == k
  {
    hide Undoes;
    assert h[j].id > 0;
  }

  /** A transfer, the transfer that reversed it, the one that reversed that, and so on. */
  ghost function Chain(h: seq<Row>, j: nat): (chain: seq<nat>)
    requires Reversible(h) && j < |h|
    ensures chain != [] && chain[0] == j
    ensures forall i :: i in chain ==> j <= i < |h|
    decreases |h| - j
  {
    if exists i :: Reverses(h, i, j) then
      var i :| Reverses(h, i, j);
      ReversesMeansUndoes(h, i, j);
      [j] + Chain(h, i)
    else [j]
  }

  lemma ChainStep(h: seq<Row>, i: nat, j: nat)
    requires Reversible(h) && Reverses(h, i, j)
    ensures i > j && Chain(h, j) == [j] + Chain(h, i)
  {
    hide Reversible, Undoes;
    ReversesMeansUndoesLater(h, i, j);
    forall k | Reverses(h, k, j)
      ensures k == i
    {
      ReversalIsUnique(h, i, k, j);
    }
  }

  lemma ReversesMeansUndoesLater(h: seq<Row>, i: nat, j: nat)
    requires Reversible(h) && Reverses(h, i, j)
    ensures j < i
  {
    ReversesMeansUndoes(h, i, j);
  }

  ghost predicate Root(h: seq<Row>, i: int) {
    0 <= i < |h| && h[i].content.reverses == 0
  }

  // ---- the chains are disjoint and cover the history

  /** Beyond its first transfer, a chain holds the reversals of its own members and nothing else. */
  lemma {:induction false} ChainMembers(h: seq<Row>, r: nat, i: nat)
    requires Reversible(h) && r < |h| && i < |h|
    ensures i in Chain(h, r) <==> i == r || exists j :: Reverses(h, i, j) && j in Chain(h, r)
    decreases |h| - r
  {
    hide Reversible;
    if k: nat :| Reverses(h, k, r) {
      ChainStep(h, k, r);
      ChainMembers(h, k, i);
      if i == k {
        assert r in Chain(h, r);
      }
      forall j | Reverses(h, i, j) && j == r
        ensures i == k
      {
        ReversalIsUnique(h, i, k, r);
      }
    }
  }

  /** Every transfer lies in the chain of exactly one root. */
  lemma {:induction false} ChainsPartition(h: seq<Row>, i: nat) returns (root: nat)
    requires Reversible(h) && i < |h|
    ensures Root(h, root) && i in Chain(h, root)
    ensures forall r: nat :: Root(h, r) && i in Chain(h, r) ==> r == root
    decreases i
  {
    hide Chain;
    if h[i].content.reverses == 0 {
      root := i;
      ChainMembers(h, i, i);
      forall r: nat | Root(h, r) && i in Chain(h, r)
        ensures r == i
      {
        ChainMembers(h, r, i);
        assert forall j :: 0 <= j < |h| ==> h[j].id > 0;
      }
    } else {
      var j :| 0 <= j < |h| && Undoes(h, i, j);
      root := ChainsPartition(h, j);
      ChainMembers(h, root, i);
      assert Reverses(h, i, j);
      forall r: nat | Root(h, r) && i in Chain(h, r)
        ensures r == root
      {
        ChainMembers(h, r, i);
        var k :| Reverses(h, i, k) && k in Chain(h, r);
        SameId(h, j, k);
      }
    }
  }

  // ---- what each chain is worth

  /** Reversing a reversal posts the original again, leg for leg. */
  lemma ReversedReversalRestores(accounts: map<Text, Account>, h: seq<Row>, i: nat, j: nat, k: nat)
    requires Reversible(h) && Reverses(h, j, i) && Reverses(h, k, j)
    requires RowAdmitted(accounts, h[i])
    ensures h[k].content.postings == h[i].content.postings
  {
    hide Reversible, Mirror, NetsToZeroInMachine;
    ReversesMeansUndoes(h, j, i);
    ReversesMeansUndoes(h, k, j);
    DirectionsValid(accounts, h[i]);
    MirrorTwice(h[i].content.postings);
  }

  lemma DirectionsValid(accounts: map<Text, Account>, r: Row)
    requires RowAdmitted(accounts, r)
    ensures forall p :: p in r.content.postings ==> ValidDirection(p.dir)
  {
  }

  ghost predicate Directed(h: seq<Row>) {
    forall i, p :: 0 <= i < |h| && p in h[i].content.postings ==> ValidDirection(p.dir)
  }

  /** The chain's worth: the root's movement when its length is odd, nothing when even. */
  ghost function Worth(h: seq<Row>, i: nat, account: Text): int
    requires Reversible(h) && i < |h|
  {
    if |Chain(h, i)| % 2 == 1 then Delta(h[i].content.postings, account) else 0
  }

  lemma ReversalNegates(h: seq<Row>, i: nat, j: nat, account: Text)
    requires Reversible(h) && Directed(h) && Reverses(h, i, j)
    ensures Delta(h[i].content.postings, account) == -Delta(h[j].content.postings, account)
  {
    ReversesMeansUndoes(h, i, j);
    hide Reversible, Mirror, Sum, ValidDirection;
    MirrorNegates(h[j].content.postings, account);
  }

  lemma WorthStep(h: seq<Row>, i: nat, j: nat, account: Text)
    requires Reversible(h) && Directed(h) && Reverses(h, i, j)
    ensures Worth(h, j, account) == Delta(h[j].content.postings, account) + Worth(h, i, account)
  {
    hide Reversible, Chain, Directed, Delta;
    ChainStep(h, i, j);
    assert |Chain(h, j)| == |Chain(h, i)| + 1;
    ReversalNegates(h, i, j, account);
  }

  /** The roots from m on, each taken at its chain's worth. */
  ghost function Standing(h: seq<Row>, m: nat, account: Text): int
    requires Reversible(h) && m <= |h|
    decreases |h| - m
  {
    if m == |h| then 0
    else Standing(h, m + 1, account) + if h[m].content.reverses == 0 then Worth(h, m, account) else 0
  }

  /** Cut at n, a transfer heads its chain if it reverses nothing from n on. */
  ghost predicate Head(h: seq<Row>, n: nat, i: nat) {
    i < |h| && forall j :: n <= j < |h| ==> h[i].content.reverses != h[j].id
  }

  ghost function Heads(h: seq<Row>, n: nat, m: nat, account: Text): int
    requires Reversible(h) && m <= |h|
    decreases |h| - m
  {
    if m == |h| then 0
    else Heads(h, n, m + 1, account) + if Head(h, n, m) then Worth(h, m, account) else 0
  }

  /** Extending the cut by one transfer only stops that transfer's own reversal from being a head. */
  lemma {:induction false} HeadsShift(h: seq<Row>, n: nat, m: nat, account: Text)
    requires Reversible(h) && n < m <= |h|
    ensures (forall i :: m <= i < |h| ==> !Reverses(h, i, n)) ==> Heads(h, n, m, account) == Heads(h, n + 1, m, account)
    ensures forall i: nat :: m <= i < |h| && Reverses(h, i, n) ==>
              Heads(h, n, m, account) == Heads(h, n + 1, m, account) - Worth(h, i, account)
    decreases |h| - m
  {
    hide Worth, Reversible;
    if m < |h| {
      HeadsShift(h, n, m + 1, account);
      HeadShift(h, n, m);
      forall i: nat | m <= i < |h| && Reverses(h, i, n)
        ensures Heads(h, n, m, account) == Heads(h, n + 1, m, account) - Worth(h, i, account)
      {
        if i == m {
          forall k | m < k < |h|
            ensures !Reverses(h, k, n)
          {
            if Reverses(h, k, n) {
              ReversalIsUnique(h, k, m, n);
            }
          }
        } else {
          if Reverses(h, m, n) {
            ReversalIsUnique(h, i, m, n);
          }
        }
      }
    }
  }

  lemma HeadShift(h: seq<Row>, n: nat, i: nat)
    requires Reversible(h) && n < |h| && i < |h|
    ensures Reverses(h, i, n) ==> Head(h, n + 1, i) && !Head(h, n, i)
    ensures !Reverses(h, i, n) ==> Head(h, n + 1, i) == Head(h, n, i)
  {
  }

  ghost function SuffixTotal(h: seq<Row>, n: nat, account: Text): int
    requires n <= |h|
    decreases |h| - n
  {
    if n == |h| then 0 else SuffixTotal(h, n + 1, account) + Delta(h[n].content.postings, account)
  }

  /** From any cut on, the history moves an account by what the chains that start there are worth. */
  lemma {:induction false} SuffixIsHeads(h: seq<Row>, n: nat, account: Text)
    requires Reversible(h) && Directed(h) && n <= |h|
    ensures SuffixTotal(h, n, account) == Heads(h, n, n, account)
    decreases |h| - n
  {
    hide Reversible, Directed, Sum;
    if n < |h| {
      SuffixIsHeads(h, n + 1, account);
      HeadsShift(h, n, n + 1, account);
      LaterHead(h, n);
      if i: nat :| Reverses(h, i, n) {
        ReversesMeansUndoesLater(h, i, n);
        WorthStep(h, i, n, account);
      } else {
        assert Chain(h, n) == [n];
      }
    }
  }

  lemma LaterHead(h: seq<Row>, n: nat)
    requires Reversible(h) && n < |h|
    ensures Head(h, n, n)
  {
  }

  lemma {:induction false} HeadsAreRoots(h: seq<Row>, m: nat, account: Text)
    requires Reversible(h) && m <= |h|
    ensures Heads(h, 0, m, account) == Standing(h, m, account)
    decreases |h| - m
  {
    hide Worth;
    if m < |h| {
      HeadsAreRoots(h, m + 1, account);
      assert Head(h, 0, m) <==> h[m].content.reverses == 0;
    }
  }

  lemma {:induction false} TotalSplits(h: seq<Row>, n: nat, account: Text)
    requires n <= |h|
    ensures Total(h, account) == Total(h[..n], account) + SuffixTotal(h, n, account)
    decreases |h| - n
  {
    if n == |h| {
      assert h[..n] == h;
    } else {
      hide Sum;
      TotalSplits(h, n + 1, account);
      assert h[..n + 1] == h[..n] + [h[n]];
      AllLegsSnoc(h[..n], h[n]);
      SumAppend(OfAccount(account), AllLegs(h[..n]), h[n].content.postings);
    }
  }

  /** Over any history of reversals, an account holds what the roots of odd-length chains moved. */
  lemma HistoryIsItsOddChains(h: seq<Row>, account: Text)
    requires Reversible(h) && Directed(h)
    ensures Total(h, account) == Standing(h, 0, account)
  {
    hide Reversible, Directed;
    TotalSplits(h, 0, account);
    assert h[..0] == [];
    EmptyTotal(account);
    SuffixIsHeads(h, 0, account);
    HeadsAreRoots(h, 0, account);
  }

  /** So is every cached balance, in int64. */
  lemma BalancesAreOddChains(sha: Sha, db: Db, account: Text)
    requires Inv(sha, db) && Linked(db.transfers) && account in db.balances
    ensures Reversible(db.transfers)
    ensures db.balances[account] == Wrap(Standing(db.transfers, 0, account))
  {
    hide Chained, Guarded, HoldsSound, Wrap, CachedTotal, Total, Standing;
    hide RowAdmitted, Linked, Numbered, LegRecorded;
    forall i, p | 0 <= i < |db.transfers| && p in db.transfers[i].content.postings
      ensures ValidDirection(p.dir)
    {
      assert RowAdmitted(db.accounts, db.transfers[i]);
      DirectionsValid(db.accounts, db.transfers[i]);
    }
    HistoryIsItsOddChains(db.transfers, account);
    CachedIsTotalInMachine(db.transfers, account);
    WrapFits(db.balances[account]);
  }
}
