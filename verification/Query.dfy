/** Reads over the stored rows: the cached balance, balances as of an instant, statements. */
module Query {
  import opened Int64Math
  import opened Sums
  import opened Domain
  import opened ChainEncoding
  import opened ChainHistory
  import opened Books
  import opened BooksInvariants
  import opened History

  // ---- balances

  /** The raw balance of the postings up to and including an instant, as the database sums it. */
  ghost function RawAsOf(db: Db, account: Text, at: int): int {
    Total(Upto(db.transfers, at), account)
  }

  method ReadBalance(db: Db, account: Text) returns (read: Result<Money>)
    ensures read.Ok? <==> account in db.balances && account in db.accounts
    ensures read.Ok? ==>
              read.value == Money(Normalise(db.balances[account], db.accounts[account].typ), db.accounts[account].currency)
    ensures read.Err? ==> read.error == UnknownAccount
  {
    if account !in db.balances || account !in db.accounts {
      return Err(UnknownAccount);
    }
    var raw := db.balances[account];
    return Ok(Money(Normalise(raw, db.accounts[account].typ), db.accounts[account].currency));
  }

  method SumUpto(h: seq<Row>, account: Text, at: int) returns (raw: int)
    ensures raw == Total(Upto(h, at), account)
  {
    hide Sum, Upto;
    raw := 0;
    assert Upto([], at) == [] by {
      UptoLatest([], at);
    }
    EmptyTotal(account);
    assert h[..0] == [];
    for i := 0 to |h|
      invariant raw == Total(Upto(h[..i], at), account)
    {
      assert h[..i + 1] == h[..i] + [h[i]];
      UptoSnoc(h[..i], h[i], at);
      if h[i].content.postedAt <= at {
        var moved := SumPostings(OfAccount(account), h[i].content.postings);
        TotalSnoc(Upto(h[..i], at), h[i], account);
        raw := raw + moved;
      }
    }
    assert h[..|h|] == h;
  }

  /** The instant reaches the database in whole microseconds. */
  method BalanceAsOf(db: Db, account: Text, at: int) returns (read: Result<Money>)
    ensures read == Err(UnknownAccount) <==> account !in db.accounts
    ensures read == Err(DatabaseError) <==> account in db.accounts && !Fits(RawAsOf(db, account, Micros(at)))
    ensures read.Ok? ==>
              read.value == Money(Normalise(RawAsOf(db, account, Micros(at)), db.accounts[account].typ),
                                  db.accounts[account].currency)
    ensures read.Err? ==> read.error == UnknownAccount || read.error == DatabaseError
  {
    if account !in db.accounts {
      return Err(UnknownAccount);
    }
    var raw := SumUpto(db.transfers, account, Micros(at));
    if !Fits(raw) {
      return Err(DatabaseError);
    }
    return Ok(Money(Normalise(raw, db.accounts[account].typ), db.accounts[account].currency));
  }

  lemma UptoSnoc(h: seq<Row>, r: Row, at: int)
    ensures Upto(h + [r], at) == if r.content.postedAt <= at then Upto(h, at) + [r] else Upto(h, at)
  {
    assert (h + [r])[..|h|] == h;
  }

  lemma TotalSnoc(h: seq<Row>, r: Row, account: Text)
    ensures Total(h + [r], account) == Total(h, account) + Delta(r.content.postings, account)
  {
    AllLegsSnoc(h, r);
    SumAppend(OfAccount(account), AllLegs(h), r.content.postings);
  }

  lemma {:induction false} UptoLatest(h: seq<Row>, at: int)
    requires forall i :: 0 <= i < |h| ==> h[i].content.postedAt <= at
    ensures Upto(h, at) == h
  {
    if h != [] {
      UptoLatest(h[..|h| - 1], at);
    }
  }

  lemma WholeReaches(postedAt: int, at: int)
    requires postedAt % 1000 == 0
    ensures postedAt <= Micros(at) <==> postedAt <= at
  {
    assert postedAt == 1000 * (postedAt / 1000) && Micros(at) == 1000 * (at / 1000);
  }

  /** Rows carry whole microseconds, so truncating the instant loses none of them. */
  lemma {:induction false} UptoWhole(h: seq<Row>, at: int)
    requires forall i :: 0 <= i < |h| ==> h[i].content.postedAt % 1000 == 0
    ensures Upto(h, Micros(at)) == Upto(h, at)
  {
    hide Micros;
    if h != [] {
      WholeReaches(h[|h| - 1].content.postedAt, at);
      UptoWhole(h[..|h| - 1], at);
    }
  }

  /**
   At or after the latest posted_at, history and cache agree whenever the history's sum is an int64:
   the cached number is that sum modulo 2^64.
   */
  lemma LatestAsOfIsBalance(sha: Sha, db: Db, account: Text, at: int)
    requires Inv(sha, db) && account in db.accounts
    requires forall i :: 0 <= i < |db.transfers| ==> db.transfers[i].content.postedAt <= at
    ensures Wrap(RawAsOf(db, account, Micros(at))) == db.balances[account]
    ensures Fits(RawAsOf(db, account, Micros(at))) ==> RawAsOf(db, account, Micros(at)) == db.balances[account]
  {
    hide Chained, Guarded, HoldsSound, Linked, Numbered, LegRecorded, Wrap, Total, CachedTotal;
    forall i | 0 <= i < |db.transfers|
      ensures db.transfers[i].content.postedAt % 1000 == 0
    {
      assert RowAdmitted(db.accounts, db.transfers[i]);
    }
    UptoWhole(db.transfers, at);
    UptoLatest(db.transfers, at);
    CachedIsTotalInMachine(db.transfers, account);
    WrapFits(db.balances[account]);
    WrapFits(Total(db.transfers, account));
  }

  /** A transfer changes a balance only from its own posted_at on, and by exactly what it moves. */
  lemma OpMovesAsOf(sha: Sha, db: Db, op: Op, account: Text, at: int)
    requires OpOk(sha, db, op)
    ensures RawAsOf(OpDb(sha, db, op), account, at)
         == RawAsOf(db, account, at)
          + if (op.Post? || op.Capture?) && op.at <= at then Delta(op.d.postings, account) else 0
  {
    hide Hash, Preimage, Move, Movements, Total, Available, Spent, Postable;
    if op.Post? || op.Capture? {
      var h, row := db.transfers, NewRow(sha, db.transfers, op.d, op.transfer, op.at);
      assert OpDb(sha, db, op).transfers == h + [row];
      UptoSnoc(h, row, at);
      TotalSnoc(Upto(h, at), row, account);
    }
  }

  // ---- statements

  datatype Entry = Entry(transferId: Int64, reference: Text, description: Text, postedAt: int, amount: Money, dir: Text)

  function EntryOf(r: Row, p: Posting): Entry {
    Entry(r.id, r.content.reference, r.content.description, r.content.postedAt, p.amount, p.dir)
  }

  /** The account's lines in one transfer. */
  function EntriesOf(r: Row, ps: seq<Posting>, account: Text): seq<Entry> {
    if ps == [] then []
    else
      EntriesOf(r, ps[..|ps| - 1], account)
      + (if ps[|ps| - 1].account == account then [EntryOf(r, ps[|ps| - 1])] else [])
  }

  /** Both bounds included; an absent bound is the zero time, and each is truncated on its way to the database. */
  predicate InWindow(postedAt: int, from: Option<int>, to: Option<int>) {
    && (from.Some? ==> Micros(from.value) <= postedAt)
    && (to.Some? ==> postedAt <= Micros(to.value))
  }

  /** The account's lines within the window, in the order they were posted. */
  function Window(h: seq<Row>, account: Text, from: Option<int>, to: Option<int>): seq<Entry> {
    if h == [] then []
    else
      var r := h[|h| - 1];
      Window(h[..|h| - 1], account, from, to)
      + (if InWindow(r.content.postedAt, from, to) then EntriesOf(r, r.content.postings, account) else [])
  }

  predicate NotOlder(x: Entry, y: Entry) {
    x.postedAt > y.postedAt || (x.postedAt == y.postedAt && x.transferId >= y.transferId)
  }

  predicate NewestFirst(entries: seq<Entry>) {
    forall i, j :: 0 <= i < j < |entries| ==> NotOlder(entries[i], entries[j])
  }

  method Insert(entries: seq<Entry>, e: Entry) returns (r: seq<Entry>)
    requires NewestFirst(entries)
    ensures NewestFirst(r) && multiset(r) == multiset(entries) + multiset{e}
  {
    var i := 0;
    while i < |entries| && NotOlder(entries[i], e)
      invariant 0 <= i <= |entries|
      invariant forall j :: 0 <= j < i ==> NotOlder(entries[j], e)
    {
      i := i + 1;
    }
    r := entries[..i] + [e] + entries[i..];
    assert entries == entries[..i] + entries[i..];
    forall j | i <= j < |entries|
      ensures NotOlder(e, entries[j])
    {
      assert NotOlder(entries[i], entries[j]);
    }
  }

  function PageSize(limit: int): nat {
    if limit <= 0 || limit > 1000 then 1000 else limit
  }

  /** The page is the head of all, which is the whole window, newest first. */
  method Statement(db: Db, account: Text, from: Option<int>, to: Option<int>, limit: int)
    returns (page: Result<seq<Entry>>, ghost all: seq<Entry>)
    ensures page.Err? ==> page == Err(UnknownAccount)
    ensures page.Ok? <==> account in db.accounts
    ensures page.Ok? ==>
              && NewestFirst(all)
              && multiset(all) == multiset(Window(db.transfers, account, from, to))
              && page.value == if |all| <= PageSize(limit) then all else all[..PageSize(limit)]
  {
    if account !in db.accounts {
      return Err(UnknownAccount), [];
    }
    var h, found := db.transfers, [];
    for i := 0 to |h|
      invariant NewestFirst(found)
      invariant multiset(found) == multiset(Window(h[..i], account, from, to))
    {
      var r := h[i];
      assert h[..i + 1][..i] == h[..i];
      if InWindow(r.content.postedAt, from, to) {
        found := InsertLegs(found, r, account);
      }
    }
    assert h[..|h|] == h;
    all := found;
    page := Ok(if |found| <= PageSize(limit) then found else found[..PageSize(limit)]);
  }

  method InsertLegs(entries: seq<Entry>, r: Row, account: Text) returns (found: seq<Entry>)
    requires NewestFirst(entries)
    ensures NewestFirst(found)
    ensures multiset(found) == multiset(entries) + multiset(EntriesOf(r, r.content.postings, account))
  {
    hide NotOlder, EntriesOf;
    var ps := r.content.postings;
    found := entries;
    EntriesSnoc(r, [], account);
    assert ps[..0] == [];
    for k := 0 to |ps|
      invariant NewestFirst(found)
      invariant multiset(found) == multiset(entries) + multiset(EntriesOf(r, ps[..k], account))
    {
      EntriesSnoc(r, ps[..k + 1], account);
      assert ps[..k + 1][..k] == ps[..k];
      if ps[k].account == account {
        found := Insert(found, EntryOf(r, ps[k]));
      }
    }
    assert ps[..|ps|] == ps;
  }

  lemma EntriesSnoc(r: Row, ps: seq<Posting>, account: Text)
    ensures ps == [] ==> EntriesOf(r, ps, account) == []
    ensures ps != [] ==>
              var n := |ps| - 1;
              multiset(EntriesOf(r, ps, account))
              == multiset(EntriesOf(r, ps[..n], account))
               + (if ps[n].account == account then multiset{EntryOf(r, ps[n])} else multiset{})
  {
  }

  // ---- a statement explains the change in the balance

  function SignedEntry(e: Entry): int {
    if e.dir == CREDIT then -(e.amount.amount as int) else e.amount.amount
  }

  ghost function EntrySum(entries: seq<Entry>): int {
    if entries == [] then 0 else EntrySum(entries[..|entries| - 1]) + SignedEntry(entries[|entries| - 1])
  }

  lemma {:induction false} EntrySumAppend(x: seq<Entry>, y: seq<Entry>)
    ensures EntrySum(x + y) == EntrySum(x) + EntrySum(y)
  {
    if y == [] {
      assert x + y == x;
    } else {
      EntrySumAppend(x, y[..|y| - 1]);
      assert (x + y)[..|x + y| - 1] == x + y[..|y| - 1];
    }
  }

  lemma {:induction false} EntrySumPermutation(x: seq<Entry>, y: seq<Entry>)
    requires multiset(x) == multiset(y)
    ensures EntrySum(x) == EntrySum(y)
    decreases |x|
  {
    if x == [] {
      assert |y| == |multiset(y)| == 0;
    } else {
      var init, e := x[..|x| - 1], x[|x| - 1];
      assert x == init + [e];
      var i := PullOut(init, e, y);
      EntrySumPermutation(init, y[..i] + y[i + 1..]);
      EntrySumAppend(y[..i], y[i + 1..]);
      EntrySumAppend(y[..i], [e] + y[i + 1..]);
      EntrySumAppend([e], y[i + 1..]);
      assert y == y[..i] + ([e] + y[i + 1..]);
    }
  }

  lemma EntrySumSnoc(x: seq<Entry>, e: Entry)
    ensures EntrySum(x + [e]) == EntrySum(x) + SignedEntry(e)
  {
    assert (x + [e])[..|x|] == x;
  }

  lemma EntriesExtend(r: Row, ps: seq<Posting>, p: Posting, account: Text)
    ensures EntriesOf(r, ps + [p], account)
         == if p.account == account then EntriesOf(r, ps, account) + [EntryOf(r, p)] else EntriesOf(r, ps, account)
  {
    assert (ps + [p])[..|ps|] == ps;
  }

  lemma {:induction false} EntriesAreTheDelta(r: Row, ps: seq<Posting>, account: Text)
    ensures EntrySum(EntriesOf(r, ps, account)) == Delta(ps, account)
  {
    if ps != [] {
      hide EntrySum, EntriesOf, Sum;
      var init, p := ps[..|ps| - 1], ps[|ps| - 1];
      assert ps == init + [p];
      EntriesAreTheDelta(r, init, account);
      EntriesExtend(r, init, p, account);
      EntrySumSnoc(EntriesOf(r, init, account), EntryOf(r, p));
      SumSnoc(OfAccount(account), init, p);
    }
  }

  /** The raw balance before a window opens, and when it closes. */
  ghost function Opening(h: seq<Row>, account: Text, from: Option<int>): int {
    if from.Some? then Total(Upto(h, Micros(from.value) - 1), account) else 0
  }

  ghost function Closing(h: seq<Row>, account: Text, to: Option<int>): int {
    if to.Some? then Total(Upto(h, Micros(to.value)), account) else Total(h, account)
  }

  lemma WindowSnoc(h: seq<Row>, r: Row, account: Text, from: Option<int>, to: Option<int>)
    ensures EntrySum(Window(h + [r], account, from, to))
         == EntrySum(Window(h, account, from, to))
          + if InWindow(r.content.postedAt, from, to) then Delta(r.content.postings, account) else 0
  {
    hide EntrySum, Sum;
    assert (h + [r])[..|h|] == h;
    EntriesAreTheDelta(r, r.content.postings, account);
    EntrySumAppend(Window(h, account, from, to), EntriesOf(r, r.content.postings, account));
    assert Window(h, account, from, to) + [] == Window(h, account, from, to);
  }

  lemma EndsSnoc(h: seq<Row>, r: Row, account: Text, from: Option<int>, to: Option<int>)
    ensures Closing(h + [r], account, to)
         == Closing(h, account, to)
          + if to.Some? ==> r.content.postedAt <= Micros(to.value) then Delta(r.content.postings, account) else 0
    ensures Opening(h + [r], account, from)
         == Opening(h, account, from)
          + if from.Some? && r.content.postedAt < Micros(from.value) then Delta(r.content.postings, account) else 0
  {
    hide Upto, Total, Micros, Sum;
    TotalSnoc(h, r, account);
    if to.Some? {
      UptoSnoc(h, r, Micros(to.value));
      TotalSnoc(Upto(h, Micros(to.value)), r, account);
    }
    if from.Some? {
      UptoSnoc(h, r, Micros(from.value) - 1);
      TotalSnoc(Upto(h, Micros(from.value) - 1), r, account);
    }
  }

  lemma {:induction false} WindowIsTheDifference(h: seq<Row>, account: Text, from: Option<int>, to: Option<int>)
    requires from.Some? && to.Some? ==> Micros(from.value) <= Micros(to.value)
    ensures EntrySum(Window(h, account, from, to)) == Closing(h, account, to) - Opening(h, account, from)
  {
    if h == [] {
      EmptyTotal(account);
    } else {
      hide Sum, Micros, Upto, Total, Window, EntrySum, Closing, Opening;
      var init, r := h[..|h| - 1], h[|h| - 1];
      assert h == init + [r];
      WindowIsTheDifference(init, account, from, to);
      WindowSnoc(init, r, account, from, to);
      EndsSnoc(init, r, account, from, to);
    }
  }

  /** An untruncated statement, in whatever order, accounts for the whole change between its two ends. */
  lemma StatementExplainsBalances(db: Db, account: Text, from: Option<int>, to: Option<int>, entries: seq<Entry>)
    requires multiset(entries) == multiset(Window(db.transfers, account, from, to))
    requires from.Some? && to.Some? ==> Micros(from.value) <= Micros(to.value)
    ensures EntrySum(entries)
         == (if to.Some? then RawAsOf(db, account, Micros(to.value)) else Total(db.transfers, account))
          - (if from.Some? then RawAsOf(db, account, Micros(from.value) - 1) else 0)
  {
    EntrySumPermutation(entries, Window(db.transfers, account, from, to));
    WindowIsTheDifference(db.transfers, account, from, to);
  }

  /** A window whose ends are inverted lists nothing. */
  lemma {:induction false} InvertedWindowIsEmpty(h: seq<Row>, account: Text, from: int, to: int)
    requires Micros(from) > Micros(to)
    ensures Window(h, account, Some(from), Some(to)) == []
  {
    if h != [] {
      InvertedWindowIsEmpty(h[..|h| - 1], account, from, to);
    }
  }

  /** A bound between two microseconds lets in rows posted before it: From rounds down. */
  lemma FromRoundsDown(from: int, postedAt: int)
    requires postedAt % 1000 == 0
    ensures InWindow(postedAt, Some(from), None) <==> from - 1000 < postedAt
  {
    assert postedAt == 1000 * (postedAt / 1000) && Micros(from) == 1000 * (from / 1000);
  }
}
