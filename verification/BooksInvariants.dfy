/** What every operation keeps, and so what holds after every run. */
module BooksInvariants {
  import opened Int64Math
  import opened Sums
  import opened Domain
  import opened Drafts
  import opened ChainEncoding
  import opened ChainHistory
  import opened Books

  // ---- the invariant, part by part

  ghost predicate RowAdmitted(accounts: map<Text, Account>, r: Row) {
    && r.content.reference != []
    && |r.content.postings| >= 2
    && (forall i :: 0 <= i < |r.content.postings| ==> LegRecorded(accounts, r.content.postings[i]))
    && NetsToZeroInMachine(r.content.postings)
    && r.content.postedAt % 1000 == 0
  }

  ghost predicate LegRecorded(accounts: map<Text, Account>, p: Posting) {
    WellFormed(p) && p.account in accounts && accounts[p.account].currency == p.amount.currency
  }

  ghost predicate RowsAdmitted(db: Db) {
    forall i :: 0 <= i < |db.transfers| ==> RowAdmitted(db.accounts, db.transfers[i])
  }

  /** Ids ascend in commit order and references are never reused. */
  ghost predicate Numbered(h: seq<Row>) {
    && (forall i :: 0 <= i < |h| ==> h[i].id > 0)
    && (forall i, j :: 0 <= i < j < |h| ==> h[i].id < h[j].id)
    && (forall i, j :: 0 <= i < j < |h| ==> h[i].content.reference != h[j].content.reference)
  }

  ghost predicate Keyed(db: Db) {
    && db.balances.Keys == db.accounts.Keys
    && forall a :: a in db.accounts ==> ValidCurrency(db.accounts[a].currency)
  }

  /** The sum over transfers of the int64 movement each one made in the account. */
  ghost function CachedTotal(h: seq<Row>, account: Text): int {
    if h == [] then 0
    else CachedTotal(h[..|h| - 1], account) + Wrap(Delta(h[|h| - 1].content.postings, account))
  }

  ghost predicate Cached(db: Db) {
    forall a :: a in db.balances ==> db.balances[a] == CachedTotal(db.transfers, a)
  }

  /** The overdraft guard: no guarded account has promised more than it holds. */
  ghost predicate Guarded(db: Db) {
    Funded(db, db.accounts.Keys, None)
  }

  ghost predicate HasTransfer(h: seq<Row>, id: Int64, account: Text, typ: AccountType, limit: Int64) {
    exists i :: 0 <= i < |h| && h[i].id == id && 0 < Spent(h[i].content.postings, account, typ) <= limit
  }

  /** A hold is captured exactly when it names a transfer, and that transfer drew within the hold. */
  ghost predicate HoldSound(db: Db, h: HoldRow) {
    && h.amount > 0
    && h.account in db.accounts
    && db.accounts[h.account].currency == h.currency
    && (h.status == Captured <==> h.transferId.Some?)
    && (h.transferId.Some? ==>
          HasTransfer(db.transfers, h.transferId.value, h.account, db.accounts[h.account].typ, h.amount))
  }

  ghost predicate HoldsSound(db: Db) {
    && (forall r :: r in db.holds ==> HoldSound(db, db.holds[r]))
    && (forall r, s :: r in db.holds && s in db.holds && r != s && db.holds[r].transferId.Some?
                       ==> db.holds[r].transferId != db.holds[s].transferId)
  }

  ghost predicate Undoes(h: seq<Row>, i: nat, j: nat)
    requires i < |h| && j < |h|
  {
    j < i && h[i].content.reverses == h[j].id && h[i].content.postings == Mirror(h[j].content.postings)
  }

  /** Every reversal mirrors an earlier transfer, and no transfer is reversed twice. */
  ghost predicate Linked(h: seq<Row>) {
    && (forall i :: 0 <= i < |h| && h[i].content.reverses != 0 ==> exists j :: 0 <= j < |h| && Undoes(h, i, j))
    && (forall i, j :: 0 <= i < j < |h| && h[i].content.reverses != 0
                       ==> h[i].content.reverses != h[j].content.reverses)
  }

  /** What is on record, whatever is held. */
  ghost predicate Recorded(sha: Sha, db: Db) {
    && Keyed(db)
    && RowsAdmitted(db)
    && Numbered(db.transfers)
    && Chained(sha, db.transfers)
    && Cached(db)
  }

  ghost predicate Inv(sha: Sha, db: Db) {
    Recorded(sha, db) && Guarded(db) && HoldsSound(db)
  }

  // ---- movements

  lemma MoveMeans(balances: map<Text, Int64>, ps: seq<Posting>, a: Text)
    requires MovementsFit(balances, Movements(ps))
    ensures Balance(Move(balances, Movements(ps)), a) == Balance(balances, a) + Wrap(Delta(ps, a))
  {
    if a !in AccountsOf(ps) {
      UntouchedDelta(ps, a);
    }
    WrapFits(0);
  }

  lemma AdmittedAccounts(accounts: map<Text, Account>, ps: seq<Posting>)
    requires LegsAdmitted(accounts, ps)
    ensures AccountsOf(ps) <= accounts.Keys
  {
  }

  // ---- held amounts

  lemma HeldShrinks(small: map<Text, HoldRow>, big: map<Text, HoldRow>, a: Text, x: Option<Text>, y: Option<Text>)
    requires forall r :: r in HeldAmounts(small, a, x) ==> r in HeldAmounts(big, a, y) && small[r].amount == big[r].amount
    requires forall r :: r in big ==> big[r].amount > 0
    ensures 0 <= Held(small, a, x) <= Held(big, a, y)
  {
    hide SumMap;
    SumMapShrink(HeldAmounts(small, a, x), HeldAmounts(big, a, y));
  }

  lemma HeldOfCapture(holds: map<Text, HoldRow>, reference: Text, a: Text, id: Int64)
    requires reference in holds
    ensures Held(holds[reference := holds[reference].(status := Captured, transferId := Some(id))], a, None)
         == Held(holds, a, Some(reference))
  {
    hide SumMap;
    assert HeldAmounts(holds[reference := holds[reference].(status := Captured, transferId := Some(id))], a, None)
        == HeldAmounts(holds, a, Some(reference));
  }

  lemma HeldOfHold(holds: map<Text, HoldRow>, reference: Text, row: HoldRow, a: Text)
    requires reference !in holds && row.status == Active
    ensures Held(holds[reference := row], a, None) == Held(holds, a, None) + if a == row.account then row.amount else 0
  {
    hide SumMap;
    var before, after := HeldAmounts(holds, a, None), HeldAmounts(holds[reference := row], a, None);
    if a == row.account {
      assert after == before[reference := row.amount as int];
      SumMapPut(before, reference, row.amount);
    } else {
      assert after == before;
    }
  }

  /** Excluding an active hold from its own account's total removes exactly its amount. */
  lemma HeldWithout(holds: map<Text, HoldRow>, reference: Text)
    requires reference in holds && holds[reference].status == Active
    ensures Held(holds, holds[reference].account, None)
         == Held(holds, holds[reference].account, Some(reference)) + holds[reference].amount
  {
    hide SumMap;
    var a := holds[reference].account;
    var all := HeldAmounts(holds, a, None);
    SumMapPull(all, reference);
    assert all - {reference} == HeldAmounts(holds, a, Some(reference));
  }

  // ---- posting keeps each part

  lemma PostKeepsRows(sha: Sha, db: Db, d: Draft, id: Int64, at: int)
    requires Inv(sha, db) && Postable(db, d, id, at)
    ensures RowsAdmitted(PostedDb(sha, db, d, id, at))
    ensures Numbered(PostedDb(sha, db, d, id, at).transfers)
  {
    hide Hash, Preimage, Move, Movements, Chained, Cached, Guarded, HoldsSound, Linked, NetsToZeroInMachine;
    var row := NewRow(sha, db.transfers, d, id, at);
    FirstPostingErrorMeans(d.postings, 0);
    forall i | 0 <= i < |d.postings|
      ensures LegRecorded(db.accounts, d.postings[i])
    {
      assert LegAdmitted(db.accounts, d.postings[i]);
    }
    assert RowAdmitted(db.accounts, row);
    var h := db.transfers;
    forall i | 0 <= i < |h|
      ensures h[i].id <= LastId(h) && h[i].id < id
    {
    }
  }

  lemma PostKeepsChain(sha: Sha, db: Db, d: Draft, id: Int64, at: int)
    requires Chained(sha, db.transfers)
    ensures Chained(sha, PostedDb(sha, db, d, id, at).transfers)
  {
    hide Preimage, Move, Movements, Chained;
    ChainedAppend(sha, db.transfers, NewRow(sha, db.transfers, d, id, at));
  }

  lemma PostKeepsBalances(sha: Sha, db: Db, d: Draft, id: Int64, at: int)
    requires Keyed(db) && Cached(db) && Postable(db, d, id, at)
    ensures Keyed(PostedDb(sha, db, d, id, at)) && Cached(PostedDb(sha, db, d, id, at))
  {
    hide Hash, Preimage, Wrap, Fits, FreshReference, LinkAllowed, ValidationError;
    var to := PostedDb(sha, db, d, id, at);
    AdmittedAccounts(db.accounts, d.postings);
    forall a | a in to.balances
      ensures to.balances[a] == CachedTotal(to.transfers, a)
    {
      MoveMeans(db.balances, d.postings, a);
      assert to.transfers[..|to.transfers| - 1] == db.transfers;
    }
  }

  /** A transfer the guard let through leaves every account covered, whatever hold it left out of account. */
  lemma PostKeepsGuard(sha: Sha, db: Db, d: Draft, id: Int64, at: int, a: Text)
    requires Keyed(db) && Postable(db, d, id, at) && a in db.accounts && a !in AccountsOf(d.postings)
    ensures Available(PostedDb(sha, db, d, id, at), a, None) == Available(db, a, None)
  {
    hide Hash, Preimage, FreshReference, LinkAllowed, ValidationError, Movements;
    MoveMeans(db.balances, d.postings, a);
    UntouchedDelta(d.postings, a);
    WrapFits(0);
  }

  lemma PostKeepsHolds(sha: Sha, db: Db, d: Draft, id: Int64, at: int)
    requires HoldsSound(db)
    ensures HoldsSound(PostedDb(sha, db, d, id, at))
  {
    hide Hash, Preimage, Move, Movements, Spent;
    var to := PostedDb(sha, db, d, id, at);
    forall r | r in db.holds
      ensures HoldSound(to, to.holds[r])
    {
      var h := db.holds[r];
      assert HoldSound(db, h);
      if h.transferId.Some? {
        var typ := db.accounts[h.account].typ;
        var i :| 0 <= i < |db.transfers| && db.transfers[i].id == h.transferId.value
                 && 0 < Spent(db.transfers[i].content.postings, h.account, typ) <= h.amount;
        assert to.transfers[i] == db.transfers[i];
      }
    }
  }

  lemma {:induction false} FindRowMeans(h: seq<Row>, reference: Text)
    ensures FindRow(h, reference).None? <==> FreshReference(h, reference)
    ensures FindRow(h, reference).Some? ==>
              exists j :: 0 <= j < |h| && h[j] == FindRow(h, reference).value && h[j].content.reference == reference
  {
    if h != [] && h[|h| - 1].content.reference != reference {
      FindRowMeans(h[..|h| - 1], reference);
    }
  }

  // ---- every operation keeps the invariant

  lemma PostKeepsRecord(sha: Sha, db: Db, d: Draft, id: Int64, at: int)
    requires Inv(sha, db) && Postable(db, d, id, at)
    ensures Recorded(sha, PostedDb(sha, db, d, id, at))
  {
    PostKeepsRows(sha, db, d, id, at);
    hide PostedDb, Postable, Guarded, HoldsSound, Numbered, RowsAdmitted, Keyed, Cached, Chained;
    PostKeepsChain(sha, db, d, id, at);
    PostKeepsBalances(sha, db, d, id, at);
  }

  lemma RecordedWhateverHeld(sha: Sha, db: Db, to: Db)
    requires Recorded(sha, db) && to == db.(holds := to.holds)
    ensures Recorded(sha, to)
  {
    hide RowAdmitted, Numbered, Chained, CachedTotal;
  }

  lemma PostKeepsGuarded(sha: Sha, db: Db, d: Draft, id: Int64, at: int)
    requires Inv(sha, db) && PostOk(sha, db, d, id, at, None)
    ensures Guarded(PostedDb(sha, db, d, id, at))
  {
    hide Hash, Preimage, Move, Movements, Available, Postable, RowsAdmitted, Numbered, Chained, Cached, HoldsSound;
    var to := PostedDb(sha, db, d, id, at);
    forall a | a in to.accounts && !to.accounts[a].allowNegative
      ensures Available(to, a, None) >= 0
    {
      if a !in AccountsOf(d.postings) {
        PostKeepsGuard(sha, db, d, id, at, a);
      }
    }
  }

  lemma PostKeeps(sha: Sha, db: Db, d: Draft, id: Int64, at: int, exclude: Option<Text>)
    requires Inv(sha, db) && PostOk(sha, db, d, id, at, exclude)
    ensures Recorded(sha, PostedDb(sha, db, d, id, at)) && HoldsSound(PostedDb(sha, db, d, id, at))
    ensures exclude == None ==> Guarded(PostedDb(sha, db, d, id, at))
  {
    PostKeepsRecord(sha, db, d, id, at);
    hide PostedDb, Postable, Funded, Recorded, HoldsSound;
    PostKeepsHolds(sha, db, d, id, at);
    if exclude == None {
      PostKeepsGuarded(sha, db, d, id, at);
    }
  }

  lemma CaptureKeepsGuard(sha: Sha, db: Db, op: Op)
    requires op.Capture? && Inv(sha, db) && OpOk(sha, db, op)
    ensures Guarded(OpDb(sha, db, op))
  {
    hide Hash, Preimage, Move, Movements, Held, ValidationError, FreshReference, Spent;
    var mid := PostedDb(sha, db, op.d, op.transfer, op.at);
    var to := OpDb(sha, db, op);
    forall a | a in to.accounts && !to.accounts[a].allowNegative
      ensures Available(to, a, None) >= 0
    {
      HeldOfCapture(db.holds, op.reference, a, op.transfer);
      assert Available(to, a, None) == Available(mid, a, Some(op.reference));
      if a !in AccountsOf(op.d.postings) {
        PostKeepsGuard(sha, db, op.d, op.transfer, op.at, a);
        forall r | r in db.holds
          ensures db.holds[r].amount > 0
        {
          assert HoldSound(db, db.holds[r]);
        }
        HeldShrinks(db.holds, db.holds, a, Some(op.reference), None);
      }
    }
  }

  lemma CapturedEarlier(db: Db, h: HoldRow)
    requires Numbered(db.transfers) && HoldSound(db, h)
    ensures h.transferId.Some? ==> h.transferId.value <= LastId(db.transfers)
  {
  }

  /** One active hold is closed by a transfer that drew within it and that no other hold names. */
  lemma CaptureStaysSound(mid: Db, reference: Text, id: Int64)
    requires HoldsSound(mid) && reference in mid.holds && mid.holds[reference].status == Active
    requires mid.holds[reference].account in mid.accounts
    requires HasTransfer(mid.transfers, id, mid.holds[reference].account, mid.accounts[mid.holds[reference].account].typ,
                         mid.holds[reference].amount)
    requires forall r :: r in mid.holds ==> mid.holds[r].transferId != Some(id)
    ensures HoldsSound(mid.(holds := mid.holds[reference := mid.holds[reference].(status := Captured, transferId := Some(id))]))
  {
    hide HasTransfer;
    var to := mid.(holds := mid.holds[reference := mid.holds[reference].(status := Captured, transferId := Some(id))]);
    assert HoldSound(mid, mid.holds[reference]);
    forall r | r in to.holds
      ensures HoldSound(to, to.holds[r])
    {
      assert HoldSound(mid, mid.holds[r]);
    }
  }

  lemma NewTransferDraws(sha: Sha, db: Db, reference: Text, d: Draft, id: Int64, at: int, now: int)
    requires Drawable(db, reference, d, now)
    ensures var h := db.holds[reference];
            HasTransfer(PostedDb(sha, db, d, id, at).transfers, id, h.account, db.accounts[h.account].typ, h.amount)
  {
    hide Hash, Preimage, Spent, Move, Movements;
    var t := PostedDb(sha, db, d, id, at).transfers;
    assert t[|db.transfers|].id == id && t[|db.transfers|].content.postings == d.postings;
  }

  lemma NoHoldNamesIt(db: Db, id: Int64)
    requires Numbered(db.transfers) && HoldsSound(db) && LastId(db.transfers) < id
    ensures forall r :: r in db.holds ==> db.holds[r].transferId != Some(id)
  {
    hide HoldSound, Numbered, LastId;
    forall r | r in db.holds
      ensures db.holds[r].transferId != Some(id)
    {
      assert HoldSound(db, db.holds[r]);
      CapturedEarlier(db, db.holds[r]);
    }
  }

  lemma CaptureKeepsHolds(sha: Sha, db: Db, op: Op)
    requires op.Capture? && Inv(sha, db) && OpOk(sha, db, op)
    ensures HoldsSound(OpDb(sha, db, op))
  {
    hide HoldsSound, NewRow, Move, Movements, Funded, Spent, HasTransfer, Numbered, RowsAdmitted, Cached, Chained, Keyed,
         ValidationError, FreshReference, LinkAllowed, MovementsFit, LegsAdmitted;
    var mid := PostedDb(sha, db, op.d, op.transfer, op.at);
    PostKeepsHolds(sha, db, op.d, op.transfer, op.at);
    NewTransferDraws(sha, db, op.reference, op.d, op.transfer, op.at, op.now);
    NoHoldNamesIt(db, op.transfer);
    CaptureStaysSound(mid, op.reference, op.transfer);
  }

  lemma CaptureKeepsRecord(sha: Sha, db: Db, op: Op)
    requires op.Capture? && Inv(sha, db) && OpOk(sha, db, op)
    ensures Recorded(sha, OpDb(sha, db, op))
  {
    hide Inv, Recorded, Postable, Funded, NewRow, Move, Movements, Drawable;
    PostKeepsRecord(sha, db, op.d, op.transfer, op.at);
    RecordedWhateverHeld(sha, PostedDb(sha, db, op.d, op.transfer, op.at), OpDb(sha, db, op));
  }

  lemma CaptureKeeps(sha: Sha, db: Db, op: Op)
    requires op.Capture? && Inv(sha, db) && OpOk(sha, db, op)
    ensures Inv(sha, OpDb(sha, db, op))
  {
    hide OpOk, OpDb, Recorded, Guarded, HoldsSound;
    CaptureKeepsRecord(sha, db, op);
    CaptureKeepsGuard(sha, db, op);
    CaptureKeepsHolds(sha, db, op);
  }

  lemma HoldKeepsGuard(sha: Sha, db: Db, op: Op)
    requires op.Hold? && Guarded(db) && OpOk(sha, db, op)
    ensures Guarded(OpDb(sha, db, op))
  {
    hide Held;
    var to := OpDb(sha, db, op);
    forall a | a in to.accounts && !to.accounts[a].allowNegative
      ensures Available(to, a, None) >= 0
    {
      HeldOfHold(db.holds, op.reference, to.holds[op.reference], a);
    }
  }

  lemma HoldKeepsHolds(sha: Sha, db: Db, op: Op)
    requires op.Hold? && HoldsSound(db) && OpOk(sha, db, op)
    ensures HoldsSound(OpDb(sha, db, op))
  {
    hide HasTransfer, Available;
    var to := OpDb(sha, db, op);
    forall r | r in to.holds
      ensures HoldSound(to, to.holds[r])
    {
      if r != op.reference {
        assert HoldSound(db, db.holds[r]);
      }
    }
  }

  lemma HoldKeeps(sha: Sha, db: Db, op: Op)
    requires op.Hold? && Inv(sha, db) && OpOk(sha, db, op)
    ensures Inv(sha, OpDb(sha, db, op))
  {
    hide HoldOk, Recorded, Guarded, HoldsSound;
    HoldKeepsGuard(sha, db, op);
    HoldKeepsHolds(sha, db, op);
    RecordedWhateverHeld(sha, db, OpDb(sha, db, op));
  }

  /** to differs from from in holds only by closing some active ones without a transfer. */
  ghost predicate Closes(from: Db, to: Db) {
    && to == from.(holds := to.holds)
    && to.holds.Keys == from.holds.Keys
    && forall r :: r in from.holds ==>
         || to.holds[r] == from.holds[r]
         || (from.holds[r].status == Active
             && (to.holds[r] == from.holds[r].(status := Released) || to.holds[r] == from.holds[r].(status := Expired)))
  }

  lemma ClosingKeepsHolds(db: Db, to: Db)
    requires HoldsSound(db) && Closes(db, to)
    ensures HoldsSound(to)
  {
    hide HasTransfer;
    forall r | r in db.holds
      ensures HoldSound(to, to.holds[r]) && to.holds[r].transferId == db.holds[r].transferId
    {
      assert HoldSound(db, db.holds[r]);
    }
  }

  lemma ClosingKeepsGuard(db: Db, to: Db)
    requires HoldsSound(db) && Guarded(db) && Closes(db, to)
    ensures Guarded(to)
  {
    hide Held, HasTransfer;
    forall r | r in db.holds
      ensures db.holds[r].amount > 0
    {
      assert HoldSound(db, db.holds[r]);
    }
    forall a | a in to.accounts && !to.accounts[a].allowNegative
      ensures Available(to, a, None) >= 0
    {
      HeldShrinks(to.holds, db.holds, a, None, None);
    }
  }

  lemma ClosingKeeps(sha: Sha, db: Db, to: Db)
    requires Inv(sha, db) && Closes(db, to)
    ensures Inv(sha, to)
  {
    hide Chained, Linked, Numbered, RowAdmitted, HoldsSound, Guarded;
    ClosingKeepsHolds(db, to);
    ClosingKeepsGuard(db, to);
  }

  /** Rows stay admitted when accounts are added, or change nothing but their archived flag. */
  lemma RowsStayAdmitted(db: Db, to: Db)
    requires RowsAdmitted(db) && to.transfers == db.transfers
    requires forall a :: a in db.accounts ==> a in to.accounts && to.accounts[a].currency == db.accounts[a].currency
    ensures RowsAdmitted(to)
  {
  }

  lemma RowsTouchOnlyAccounts(db: Db, a: Text)
    requires RowsAdmitted(db) && a !in db.accounts
    ensures forall i :: 0 <= i < |db.transfers| ==> a !in AccountsOf(db.transfers[i].content.postings)
  {
  }

  lemma HoldsStaySound(db: Db, to: Db)
    requires HoldsSound(db) && to.transfers == db.transfers && to.holds == db.holds
    requires forall a :: a in db.accounts ==> a in to.accounts && to.accounts[a].currency == db.accounts[a].currency
                                              && to.accounts[a].typ == db.accounts[a].typ
    ensures HoldsSound(to)
  {
  }

  lemma CreateKeepsGuard(sha: Sha, db: Db, op: Op)
    requires op.Create? && Guarded(db) && HoldsSound(db) && OpOk(sha, db, op)
    ensures Guarded(OpDb(sha, db, op))
  {
    hide SumMap;
    var to := OpDb(sha, db, op);
    forall r | r in db.holds
      ensures db.holds[r].account != op.id && db.holds[r].amount > 0
    {
      assert HoldSound(db, db.holds[r]);
    }
    assert HeldAmounts(to.holds, op.id, None) == map[];
    SumMapZero(HeldAmounts(to.holds, op.id, None));
    forall a | a in to.accounts && !to.accounts[a].allowNegative
      ensures Available(to, a, None) >= 0
    {
      if a != op.id {
        assert Available(to, a, None) == Available(db, a, None);
      }
    }
  }

  lemma CreateKeeps(sha: Sha, db: Db, op: Op)
    requires op.Create? && Inv(sha, db) && OpOk(sha, db, op)
    ensures Inv(sha, OpDb(sha, db, op))
  {
    CreateKeepsGuard(sha, db, op);
    CreateKeepsCache(db, op.id, op.account);
    hide Chained, Linked, Numbered, Guarded, HoldsSound, RowsAdmitted, Cached, Keyed;
    var to := OpDb(sha, db, op);
    RowsStayAdmitted(db, to);
    HoldsStaySound(db, to);
  }

  lemma CreateKeepsCache(db: Db, id: Text, account: Account)
    requires Keyed(db) && Cached(db) && RowsAdmitted(db) && id !in db.accounts && ValidCurrency(account.currency)
    ensures var to := db.(accounts := db.accounts[id := account], balances := db.balances[id := 0]);
            Keyed(to) && Cached(to)
  {
    hide RowsAdmitted, CachedTotal, ValidCurrency;
    RowsTouchOnlyAccounts(db, id);
    UntouchedTotal(db.transfers, id);
  }

  lemma {:induction false} UntouchedTotal(h: seq<Row>, a: Text)
    requires forall i :: 0 <= i < |h| ==> a !in AccountsOf(h[i].content.postings)
    ensures CachedTotal(h, a) == 0
  {
    if h != [] {
      UntouchedDelta(h[|h| - 1].content.postings, a);
      WrapFits(0);
      UntouchedTotal(h[..|h| - 1], a);
    }
  }

  lemma ArchiveKeeps(sha: Sha, db: Db, op: Op)
    requires op.Archive? && Inv(sha, db) && OpOk(sha, db, op)
    ensures Inv(sha, OpDb(sha, db, op))
  {
    hide Held, Chained, Linked, Numbered, RowsAdmitted, HoldsSound;
    var to := OpDb(sha, db, op);
    RowsStayAdmitted(db, to);
    HoldsStaySound(db, to);
    forall a | a in to.accounts && !to.accounts[a].allowNegative
      ensures Available(to, a, None) >= 0
    {
      assert Available(to, a, None) == Available(db, a, None);
    }
  }

  lemma OpKeeps(sha: Sha, db: Db, op: Op)
    requires Inv(sha, db) && OpOk(sha, db, op)
    ensures Inv(sha, OpDb(sha, db, op))
  {
    match op
    case Create(_, _) => CreateKeeps(sha, db, op);
    case Archive(_) => ArchiveKeeps(sha, db, op);
    case Post(d, id, at) =>
      hide PostedDb;
      PostKeeps(sha, db, d, id, at, None);
    case Hold(_, _, _, _) => HoldKeeps(sha, db, op);
    case Capture(_, _, _, _, _) => CaptureKeeps(sha, db, op);
    case Release(_) => hide Inv; ClosingKeeps(sha, db, OpDb(sha, db, op));
    case Expire(_, _) => hide Inv; ClosingKeeps(sha, db, OpDb(sha, db, op));
  }

  /** The books agree after every run of successful operations. */
  lemma {:induction false} RunsKeep(sha: Sha, ops: seq<Op>)
    ensures Replay(sha, ops).Some? ==> Inv(sha, Replay(sha, ops).value)
  {
    if ops == [] {
    } else {
      hide Inv, OpOk, OpDb;
      RunsKeep(sha, ops[..|ops| - 1]);
      if Replay(sha, ops).Some? {
        OpKeeps(sha, Replay(sha, ops[..|ops| - 1]).value, ops[|ops| - 1]);
      }
    }
  }

  // ---- links, as long as Reverse makes them

  lemma PostKeepsLinks(h: seq<Row>, row: Row)
    requires Linked(h) && LinkAllowed(h, row.content.reverses)
    requires row.content.reverses != 0 ==>
               exists j :: 0 <= j < |h| && row.content.reverses == h[j].id
                           && row.content.postings == Mirror(h[j].content.postings)
    ensures Linked(h + [row])
  {
    var g := h + [row];
    forall i | 0 <= i < |g| && g[i].content.reverses != 0
      ensures exists j :: 0 <= j < |g| && Undoes(g, i, j)
    {
      if i < |h| {
        var j :| 0 <= j < |h| && Undoes(h, i, j);
        assert Undoes(g, i, j);
      } else {
        var j :| 0 <= j < |h| && row.content.reverses == h[j].id && row.content.postings == Mirror(h[j].content.postings);
        assert Undoes(g, i, j);
      }
    }
  }

  /** The operation posts no transfer, or one whose link, if any, is that of a mirror image. */
  ghost predicate LinksByReverse(db: Db, op: Op) {
    op.Post? || op.Capture? ==> LinkedByReverse(db.transfers, op.d)
  }

  lemma OpKeepsLinks(sha: Sha, db: Db, op: Op)
    requires Linked(db.transfers) && OpOk(sha, db, op) && LinksByReverse(db, op)
    ensures Linked(OpDb(sha, db, op).transfers)
  {
    hide Hash, Preimage, Move, Movements, Available, Spent, ValidationError, FreshReference, Linked, MovementsFit;
    if op.Post? || op.Capture? {
      PostKeepsLinks(db.transfers, NewRow(sha, db.transfers, op.d, op.transfer, op.at));
    }
  }

  // ---- what becomes of holds

  /** What may become of a hold between two moments. */
  ghost predicate Later(h: HoldRow, k: HoldRow) {
    && k == h.(status := k.status, transferId := k.transferId)
    && (h.status != Active ==> k == h)
  }

  ghost predicate HoldsAdvance(from: Db, to: Db) {
    forall r :: r in from.holds ==> r in to.holds && Later(from.holds[r], to.holds[r])
  }

  lemma OpAdvances(sha: Sha, db: Db, op: Op)
    requires OpOk(sha, db, op)
    ensures HoldsAdvance(db, OpDb(sha, db, op))
  {
    hide PostOk, Move, Movements, Available, NewRow, FindRow;
  }
}
