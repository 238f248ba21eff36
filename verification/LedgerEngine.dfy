/**
 The Ledger object: methods that insert and update rows one statement after another inside a
 transaction, and roll the tables back when a check fails.
 */
module LedgerEngine {
  import opened Int64Math
  import opened Sums
  import opened Domain
  import opened Drafts
  import opened ChainEncoding
  import opened ChainHistory
  import opened Books
  import opened BooksInvariants
  import opened Guard

  // ---- which error a refused transfer gets

  function LegError(accounts: map<Text, Account>, p: Posting): Option<Error> {
    if p.account !in accounts then Some(UnknownAccount)
    else if accounts[p.account].archived then Some(AccountArchived)
    else if accounts[p.account].currency != p.amount.currency then Some(CurrencyMismatch)
    else None
  }

  /** The error of the first leg, from position i on, that its account refuses. */
  function FirstLegError(accounts: map<Text, Account>, ps: seq<Posting>, i: nat): Option<Error>
    requires i <= |ps|
    decreases |ps| - i
  {
    if i == |ps| then None
    else if LegError(accounts, ps[i]).Some? then LegError(accounts, ps[i])
    else FirstLegError(accounts, ps, i + 1)
  }

  lemma {:induction false} FirstLegErrorMeans(accounts: map<Text, Account>, ps: seq<Posting>, i: nat)
    requires i <= |ps|
    ensures FirstLegError(accounts, ps, i).None? <==> forall k :: i <= k < |ps| ==> LegAdmitted(accounts, ps[k])
    ensures FirstLegError(accounts, ps, i).Some? ==>
              FirstLegError(accounts, ps, i).value in {UnknownAccount, AccountArchived, CurrencyMismatch}
    decreases |ps| - i
  {
    if i < |ps| {
      FirstLegErrorMeans(accounts, ps, i + 1);
    }
  }

  function Resolve(d: Draft, now: int): int {
    Micros(if d.postedAt.Some? then d.postedAt.value else now)
  }

  /** Whether the code accepts an already validated transfer, drawing the given id. */
  ghost predicate Accepted(sha: Sha, db: Db, d: Draft, id: int, at: int, exclude: Option<Text>) {
    && 0 < id <= MAX_INT64
    && Postable(db, d, id, at)
    && CodeFunded(PostedDb(sha, db, d, id, at), AccountsOf(d.postings), exclude)
  }

  /** Some guarded account's total of holds does not scan into an int64. */
  ghost predicate HoldsOverflow(db: Db, among: set<Text>, exclude: Option<Text>) {
    exists a :: a in among && a in db.accounts && !db.accounts[a].allowNegative && !Fits(Held(db.holds, a, exclude))
  }

  /** Why the transfers row could not be inserted; with two reasons the database may name either. */
  predicate InsertError(h: seq<Row>, d: Draft, id: int, e: Error) {
    match e
    case DuplicateReference => !FreshReference(h, d.reference)
    case AlreadyReversed => d.reverses != 0 && exists i :: 0 <= i < |h| && h[i].content.reverses == d.reverses
    case DatabaseError =>
      id > MAX_INT64 || (d.reverses != 0 && forall i :: 0 <= i < |h| ==> h[i].id != d.reverses)
    case _ => false
  }

  /** Why a validated transfer was refused; where several reasons hold the code may name any of them. */
  ghost predicate Refused(sha: Sha, db: Db, d: Draft, id: int, at: int, exclude: Option<Text>, e: Error) {
    if FirstLegError(db.accounts, d.postings, 0).Some? then FirstLegError(db.accounts, d.postings, 0) == Some(e)
    else if e == InsufficientFunds then
      0 < id <= MAX_INT64 && Postable(db, d, id, at) && !CodeFunded(PostedDb(sha, db, d, id, at), AccountsOf(d.postings), exclude)
    else
      || InsertError(db.transfers, d, id, e)
      || (e == DatabaseError
          && (!MovementsFit(db.balances, Movements(d.postings)) || HoldsOverflow(db, AccountsOf(d.postings), exclude)))
  }

  /** Some of the movements, those of these accounts, have reached the balances. */
  ghost predicate Moved(balances: map<Text, Int64>, to: map<Text, Int64>, moves: map<Text, Int64>) {
    exists part :: to == Move(balances, Among(moves, part))
  }

  /** What a refused transfer has written, for whoever opened the transaction to roll back. */
  ghost predicate LeftBehind(sha: Sha, db: Db, to: Db, d: Draft, id: int, at: int, e: Error) {
    match e
    case InsufficientFunds => 0 < id <= MAX_INT64 && to == PostedDb(sha, db, d, id, at)
    case DatabaseError =>
      || to == db
      || (0 < id <= MAX_INT64
          && to == PostedDb(sha, db, d, id, at).(balances := to.balances)
          && (to.balances == Move(db.balances, Movements(d.postings)) || Moved(db.balances, to.balances, Movements(d.postings))))
    case _ => to == db
  }

  lemma NothingLeft(sha: Sha, db: Db, d: Draft, id: int, at: int, e: Error)
    requires e in {UnknownAccount, AccountArchived, CurrencyMismatch}
    ensures LeftBehind(sha, db, db, d, id, at, e)
  {
  }

  class Ledger {
    const sha: Sha
    var accounts: map<Text, Account>
    var balances: map<Text, Int64>
    var transfers: seq<Row>
    var holds: map<Text, HoldRow>
    var nextTransfer: int  // the identity sequence: it moves on even when the transaction rolls back

    function Tables(): Db
      reads this
    {
      Db(accounts, balances, transfers, holds)
    }

    ghost predicate Valid()
      reads this
    {
      Inv(sha, Tables()) && LastId(transfers) < nextTransfer && 0 < nextTransfer
    }

    constructor (sha: Sha)
      ensures this.sha == sha && Valid() && Tables() == EMPTY
    {
      this.sha := sha;
      accounts, balances, transfers, holds, nextTransfer := map[], map[], [], map[], 1;
    }

    // ---- accounts

    method CreateAccount(id: Text, a: Account) returns (e: Option<Error>)
      requires Valid()
      modifies this
      ensures Valid()
      ensures e.None? <==> OpOk(sha, old(Tables()), Create(id, a.(archived := false)))
      ensures Tables() == if e.None? then OpDb(sha, old(Tables()), Create(id, a.(archived := false))) else old(Tables())
      ensures e.Some? ==> match e.value
                          case InvalidAccount => id == []
                          case InvalidType => !a.typ.Valid()
                          case InvalidCurrency => !ValidCurrency(a.currency)
                          case AccountExists => id in old(accounts)
                          case _ => false
    {
      if id == [] {
        return Some(InvalidAccount);
      }
      if !a.typ.Valid() {
        return Some(InvalidType);
      }
      if !ValidCurrency(a.currency) {
        return Some(InvalidCurrency);
      }
      if id in accounts {
        return Some(AccountExists);
      }
      hide Inv;
      OpKeeps(sha, Tables(), Create(id, a.(archived := false)));
      accounts := accounts[id := a.(archived := false)];
      balances := balances[id := 0];
      return None;
    }

    method ArchiveAccount(id: Text) returns (e: Option<Error>)
      requires Valid()
      modifies `accounts
      ensures Valid()
      ensures e.None? <==> OpOk(sha, old(Tables()), Archive(id))
      ensures Tables() == if e.None? then OpDb(sha, old(Tables()), Archive(id)) else old(Tables())
      ensures e.Some? ==> e.value == UnknownAccount
    {
      if id !in accounts {
        return Some(UnknownAccount);
      }
      hide Inv;
      OpKeeps(sha, Tables(), Archive(id));
      accounts := accounts[id := accounts[id].(archived := true)];
      return None;
    }

    // ---- availability

    /** SELECT sum(amount) FROM holds WHERE account_id = … AND status = 'active' AND id <> …. */
    method SumHolds(account: Text, exclude: Option<Text>) returns (held: int)
      ensures held == Held(holds, account, exclude)
    {
      hide SumMap;
      held := 0;
      ghost var all := HeldAmounts(holds, account, exclude);
      ghost var todo := all;
      var left := holds.Keys;
      while left != {}
        invariant left <= holds.Keys
        invariant todo.Keys == all.Keys * left && forall r :: r in todo ==> todo[r] == all[r]
        invariant held + SumMap(todo) == SumMap(all)
        decreases left
      {
        var r :| r in left;
        if holds[r].status == Active && holds[r].account == account && exclude != Some(r) {
          SumMapPull(todo, r);
          held := held + holds[r].amount;
        } else {
          assert todo - {r} == todo;
        }
        todo := todo - {r};
        left := left - {r};
      }
      assert todo == map[];
      SumMapZero(todo);
    }

    /** availableLocked. */
    method AvailableLocked(account: Text, acc: Account, exclude: Option<Text>) returns (avail: Option<Int64>)
      ensures avail == CodeAvailable(Balance(balances, account), acc.typ, Held(holds, account, exclude))
    {
      var raw := Balance(balances, account);
      var held := SumHolds(account, exclude);
      if !Fits(held) {
        return None;
      }
      avail := Some(Wrap(Normalise(raw, acc.typ) - held));
    }

    // ---- posting

    /** lockAccounts: every distinct account the transfer touches that exists, read once. */
    method LockAccounts(ps: seq<Posting>) returns (out: map<Text, Account>)
      ensures out == map a | a in AccountsOf(ps) && a in accounts :: accounts[a]
    {
      var ids: seq<Text> := [];
      var seen: set<Text> := {};
      for i := 0 to |ps|
        invariant seen == AccountsOf(ps[..i]) == set a | a in ids
      {
        assert ps[..i + 1] == ps[..i] + [ps[i]];
        if ps[i].account !in seen {
          seen := seen + {ps[i].account};
          ids := ids + [ps[i].account];
        }
      }
      assert ps[..|ps|] == ps;
      out := map[];
      for i := 0 to |ids|
        invariant out == map a | a in ids[..i] && a in accounts :: accounts[a]
      {
        assert ids[..i + 1] == ids[..i] + [ids[i]];
        if ids[i] in accounts {
          out := out[ids[i] := accounts[ids[i]]];
        }
      }
      assert ids[..|ids|] == ids;
    }

    method CheckLegs(locked: map<Text, Account>, ps: seq<Posting>) returns (e: Option<Error>)
      requires locked == map a | a in AccountsOf(ps) && a in accounts :: accounts[a]
      ensures e == FirstLegError(accounts, ps, 0)
    {
      for i := 0 to |ps|
        invariant FirstLegError(accounts, ps, 0) == FirstLegError(accounts, ps, i)
      {
        var p := ps[i];
        assert p.account in AccountsOf(ps);
        if p.account !in locked {
          return Some(UnknownAccount);
        }
        if locked[p.account].archived {
          return Some(AccountArchived);
        }
        if locked[p.account].currency != p.amount.currency {
          return Some(CurrencyMismatch);
        }
      }
      return None;
    }

    /** The tail of the chain is read and the row inserted; the sequence is drawn on whatever the outcome. */
    method InsertTransfer(d: Draft, at: int) returns (r: Result<Int64>)
      requires LastId(transfers) < nextTransfer && 0 < nextTransfer
      modifies `transfers, `nextTransfer
      ensures nextTransfer > LastId(transfers) && nextTransfer >= old(nextTransfer)
      ensures r.Ok? <==> old(nextTransfer) <= MAX_INT64 && FreshReference(old(transfers), d.reference)
                         && LinkAllowed(old(transfers), d.reverses)
      ensures r.Ok? ==> r.value == old(nextTransfer)
                        && transfers == old(transfers) + [NewRow(sha, old(transfers), d, r.value, at)]
      ensures r.Err? ==> transfers == old(transfers)
      ensures r.Err? ==> InsertError(transfers, d, old(nextTransfer), r.error)
    {
      hide Hash, Preimage;
      if nextTransfer > MAX_INT64 {
        return Err(DatabaseError);
      }
      var id: Int64 := nextTransfer;
      nextTransfer := nextTransfer + 1;
      var duplicate := !FreshReference(transfers, d.reference);
      var reversed := d.reverses != 0 && exists i :: 0 <= i < |transfers| && transfers[i].content.reverses == d.reverses;
      if duplicate || reversed {
        var named: bool := *;  // which of two violated indexes the database names
        return Err(if reversed && (named || !duplicate) then AlreadyReversed else DuplicateReference);
      }
      if d.reverses != 0 && forall i :: 0 <= i < |transfers| ==> transfers[i].id != d.reverses {
        return Err(DatabaseError);
      }
      var prev := if transfers == [] then [] else transfers[|transfers| - 1].hash;
      var c := Content(d.reference, d.description, at, d.reverses, d.postings);
      var digest := ChainDigest(sha, prev, c);
      transfers := transfers + [Row(id, c, prev, digest)];
      return Ok(id);
    }

    /** applyBalances: int64 movements per account first, then one upsert for each that is not zero. */
    method ApplyBalances(ps: seq<Posting>) returns (ok: bool)
      modifies `balances
      ensures ok <==> MovementsFit(old(balances), Movements(ps))
      ensures ok ==> balances == Move(old(balances), Movements(ps))
      ensures !ok ==> Moved(old(balances), balances, Movements(ps))
    {
      var delta, order := SumMovements(ps);
      ghost var all := Movements(ps);
      assert forall a :: a in all <==> a in delta && delta[a] != 0;
      hide Movements, Wrap, Delta, Fits, Stored, Balance, Move, MovementsFit, Among, Moved;
      ok := UpsertAll(all, delta, order);
    }

    /** The second loop: one upsert for each account that moved, until one leaves the column's range. */
    method UpsertAll(ghost all: map<Text, Int64>, delta: map<Text, Int64>, order: seq<Text>) returns (ok: bool)
      requires forall a :: a in order <==> a in delta
      requires forall i, j :: 0 <= i < j < |order| ==> order[i] != order[j]
      requires forall a :: a in all <==> a in delta && delta[a] != 0
      requires forall a :: a in all ==> all[a] == delta[a]
      modifies `balances
      ensures ok <==> MovementsFit(old(balances), all)
      ensures ok ==> balances == Move(old(balances), all)
      ensures !ok ==> Moved(old(balances), balances, all)
    {
      hide Fits, Stored, Balance, Move, MovementsFit, Among, Moved;
      ghost var was := balances;
      MoveNothing(was);
      AmongNothing(all, order);
      for i := 0 to |order|
        invariant balances == Move(was, Among(all, order[..i]))
        invariant MovementsFit(was, Among(all, order[..i]))
      {
        var a := order[i];
        ghost var done := Among(all, order[..i]);
        AmongOneMore(all, order, i);
        if delta[a] != 0 {
          MoveOneMore(was, done, a, delta[a]);
          FitOneMore(was, done, a, delta[a]);
          if !Fits(Balance(balances, a) + delta[a]) {
            FitsInPart(was, order[..i + 1], all);
            SomeMoved(was, all, order[..i]);
            return false;
          }
          balances := balances[a := Stored(Balance(balances, a) + delta[a])];
        }
      }
      AmongAll(all, order);
      return true;
    }

    /** The first loop of applyBalances: delta grows in int64 and order keeps first appearances. */
    static method SumMovements(ps: seq<Posting>) returns (delta: map<Text, Int64>, order: seq<Text>)
      ensures delta.Keys == AccountsOf(ps) && forall a :: a in order <==> a in delta
      ensures forall i, j :: 0 <= i < j < |order| ==> order[i] != order[j]
      ensures forall a :: a in delta ==> delta[a] == Wrap(Delta(ps, a))
    {
      delta, order := map[], [];
      for i := 0 to |ps|
        invariant delta.Keys == AccountsOf(ps[..i]) && forall a :: a in order <==> a in delta
        invariant forall i, j :: 0 <= i < j < |order| ==> order[i] != order[j]
        invariant forall a :: a in delta ==> delta[a] == Wrap(Delta(ps[..i], a))
      {
        var p := ps[i];
        assert ps[..i + 1] == ps[..i] + [p];
        var sofar := if p.account in delta then delta[p.account] else 0;
        if p.account !in delta {
          UntouchedDelta(ps[..i], p.account);
          order := order + [p.account];
        }
        MovementStep(ps[..i], p, sofar);
        delta := delta[p.account := Wrap(sofar + Signed(p.dir, p.amount.amount))];
      }
      assert ps[..|ps|] == ps;
    }

    /** The overdraft guard over the locked accounts, in whatever order the map yields them. */
    method CheckGuard(locked: map<Text, Account>, exclude: Option<Text>) returns (e: Option<Error>)
      requires locked.Keys <= accounts.Keys && forall a :: a in locked ==> locked[a] == accounts[a]
      ensures e.None? <==> CodeFunded(Tables(), locked.Keys, exclude)
      ensures e == Some(DatabaseError) ==> HoldsOverflow(Tables(), locked.Keys, exclude)
      ensures e.None? || e.value in {DatabaseError, InsufficientFunds}
    {
      hide Held, CodeAvailable;
      var left := locked.Keys;
      while left != {}
        invariant left <= locked.Keys
        invariant CodeFunded(Tables(), locked.Keys - left, exclude)
        decreases left
      {
        var a :| a in left;
        if !locked[a].allowNegative {
          var avail := AvailableLocked(a, locked[a], exclude);
          assert avail == CodeAvailableOf(Tables(), a, exclude);
          if avail.None? {
            UnscannableHolds(a, exclude);
            return Some(DatabaseError);
          }
          if avail.value < 0 {
            return Some(InsufficientFunds);
          }
        }
        left := left - {a};
      }
      return None;
    }

    lemma UnscannableHolds(a: Text, exclude: Option<Text>)
      requires a in accounts && CodeAvailableOf(Tables(), a, exclude).None?
      ensures !Fits(Held(holds, a, exclude))
    {
    }

    /** The writing half of post, under the chain lock: the row, the balances, and the guard over the result. */
    method WriteTransfer(d: Draft, at: int, locked: map<Text, Account>, exclude: Option<Text>) returns (r: Result<Int64>)
      requires Valid() && ValidationError(d) == None && FirstLegError(accounts, d.postings, 0).None? && ResolvedInstant(d, at)
      requires locked == map a | a in AccountsOf(d.postings) && a in accounts :: accounts[a]
      modifies `transfers, `balances, `nextTransfer
      ensures nextTransfer >= old(nextTransfer) && nextTransfer > LastId(transfers) && nextTransfer > LastId(old(transfers))
      ensures r.Ok? <==> Accepted(sha, old(Tables()), d, old(nextTransfer), at, exclude)
      ensures r.Ok? ==> r.value == old(nextTransfer) && Tables() == PostedDb(sha, old(Tables()), d, r.value, at)
      ensures r.Err? ==> Refused(sha, old(Tables()), d, old(nextTransfer), at, exclude, r.error)
      ensures r.Err? ==> LeftBehind(sha, old(Tables()), Tables(), d, old(nextTransfer), at, r.error)
    {
      hide Inv, ValidationError, NewRow, Movements, Move, MovementsFit, CodeFunded, HoldsOverflow, Among, Moved, LegsAdmitted,
           FreshReference, LinkAllowed, InsertError, Postable, Accepted, Refused, LeftBehind;
      ghost var db, next := Tables(), nextTransfer;
      var inserted := InsertTransfer(d, at);
      if inserted.Err? {
        InsertRefusal(sha, db, d, next, at, exclude, inserted.error);
        return inserted;
      }
      var applied := ApplyBalances(d.postings);
      if !applied {
        BalanceRefusal(sha, db, Tables(), d, next, at, exclude);
        return Err(DatabaseError);
      }
      WrittenIsPostable(db, d, next, at);
      assert locked.Keys == AccountsOf(d.postings) by {
        PostableAccounts(db, d, next, at);
      }
      var unfunded := CheckGuard(locked, exclude);
      if unfunded.Some? {
        SameHoldsOverflow(db, Tables(), locked.Keys, exclude);
        GuardRefusal(sha, db, d, next, at, exclude, unfunded.value);
        return Err(unfunded.value);
      }
      NoRefusal(sha, db, d, next, at, exclude);
      return inserted;
    }

    /**
     post: inside an open transaction, for a transfer that passed Validate.  A refusal by the guard comes
     after the rows were written, so it leaves them behind for the caller to roll back.
     */
    method PostInTx(t: Transfer, now: int, exclude: Option<Text>) returns (r: Result<Int64>)
      requires Valid() && ValidationError(t.Value()) == None
      modifies this, t
      ensures nextTransfer >= old(nextTransfer) && nextTransfer > LastId(old(transfers))
      ensures nextTransfer > LastId(transfers)
      ensures accounts == old(accounts) && holds == old(holds)
      ensures t.Value() == old(t.Value()).(postedAt := Some(Resolve(old(t.Value()), now)))
      ensures var d, at := old(t.Value()), Resolve(old(t.Value()), now);
              && (r.Ok? <==> Accepted(sha, old(Tables()), d, old(nextTransfer), at, exclude))
              && (r.Ok? ==> r.value == old(nextTransfer) && Tables() == PostedDb(sha, old(Tables()), d, r.value, at))
              && (r.Err? ==> Refused(sha, old(Tables()), d, old(nextTransfer), at, exclude, r.error))
              && (r.Err? ==> LeftBehind(sha, old(Tables()), Tables(), d, old(nextTransfer), at, r.error))
    {
      hide Inv, ValidationError, PostedDb, Movements, CodeFunded, HoldsOverflow, MovementsFit, InsertError, LeftBehind;
      ghost var db := Tables();
      var d := t.Value();
      var at := Resolve(d, now);
      t.postedAt := Some(at);
      var locked := LockAccounts(d.postings);
      var refused := CheckLegs(locked, d.postings);
      if refused.Some? {
        FirstLegErrorMeans(accounts, d.postings, 0);
        NothingLeft(sha, db, d, nextTransfer, at, refused.value);
        return Err(refused.value);
      }
      r := WriteTransfer(d, at, locked, exclude);
    }

    lemma SameHoldsOverflow(db: Db, to: Db, among: set<Text>, exclude: Option<Text>)
      requires db.accounts == to.accounts && db.holds == to.holds
      ensures HoldsOverflow(to, among, exclude) ==> HoldsOverflow(db, among, exclude)
    {
    }

    /** Post, on a ledger that owns its connections: validation, one transaction, and no trace of a failure. */
    method PostTransfer(t: Transfer, now: int) returns (r: Result<Int64>)
      requires Valid()
      modifies this, t
      ensures Valid() && nextTransfer >= old(nextTransfer)
      ensures var d, at := old(t.Value()), Resolve(old(t.Value()), now);
              && (r.Ok? <==> Accepted(sha, old(Tables()), d, old(nextTransfer), at, None))
              && (r.Ok? ==> r.value == old(nextTransfer)
                            && PostOk(sha, old(Tables()), d, r.value, at, None)
                            && OpOk(sha, old(Tables()), Post(d, r.value, at))
                            && Tables() == PostedDb(sha, old(Tables()), d, r.value, at))
              && (r.Err? ==> Tables() == old(Tables()))
              && (r.Err? ==> if ValidationError(d).Some? then ValidationError(d) == Some(r.error)
                             else Refused(sha, old(Tables()), d, old(nextTransfer), at, None, r.error))
              && (t.Value() == if ValidationError(d).Some? then d else d.(postedAt := Some(at)))
    {
      hide Inv, ValidationError, Hash, Preimage, Refused, Accepted, PostedDb, PostOk, NewRow;
      var invalid := t.Validate();
      ghost var d, db, id := t.Value(), Tables(), nextTransfer;
      if invalid.Some? {
        InvalidIsNotAccepted(sha, db, d, id, Resolve(d, now), None);
        return Err(invalid.value);
      }
      var a, b, h, k := accounts, balances, transfers, holds;
      r := PostInTx(t, now, None);
      if r.Err? {
        accounts, balances, transfers, holds := a, b, h, k;
      } else {
        AcceptedKeeps(sha, db, d, id, Resolve(d, now), None);
      }
    }

    // ---- reversing

    method TransferByReference(reference: Text) returns (r: Option<Row>)
      ensures r == FindRow(transfers, reference)
    {
      var i := |transfers|;
      assert transfers[..i] == transfers;
      while i > 0
        invariant 0 <= i <= |transfers|
        invariant FindRow(transfers, reference) == FindRow(transfers[..i], reference)
      {
        i := i - 1;
        assert transfers[..i + 1][..i] == transfers[..i];
        if transfers[i].content.reference == reference {
          return Some(transfers[i]);
        }
      }
      return None;
    }

    /**
     Reverse: the mirror image of an earlier transfer, linked to it.  The mirror of a stored transfer
     always passes validation, so only the store can refuse it.
     */
    method ReverseTransfer(reference: Text, newReference: Text, description: Text, now: int) returns (r: Result<Int64>)
      requires Valid()
      modifies this
      ensures Valid()
      ensures r.Err? ==> Tables() == old(Tables())
      ensures newReference == [] ==> r == Err(MissingReference)
      ensures newReference != [] && FindRow(old(transfers), reference).None? ==> r == Err(UnknownTransfer)
      ensures newReference != [] && FindRow(old(transfers), reference).Some? ==>
                var d := ReversalDraft(FindRow(old(transfers), reference).value, newReference, description);
                && (r.Ok? <==> Accepted(sha, old(Tables()), d, old(nextTransfer), Micros(now), None))
                && (r.Err? ==> Refused(sha, old(Tables()), d, old(nextTransfer), Micros(now), None, r.error))
                && (r.Ok? ==>
                      var op := Post(d, r.value, Micros(now));
                      && OpOk(sha, old(Tables()), op) && Tables() == OpDb(sha, old(Tables()), op)
                      && LinksByReverse(old(Tables()), op))
    {
      hide Inv, ValidationError, Refused, Accepted, PostedDb, PostOk, OpOk, OpDb;
      if newReference == [] {
        return Err(MissingReference);
      }
      var found := TransferByReference(reference);
      if found.None? {
        return Err(UnknownTransfer);
      }
      var original := found.value;
      FindRowMeans(transfers, reference);
      var rev := BuildReversal(original, newReference, description);
      ghost var d := rev.Value();
      StoredMirrorIsValid(sha, Tables(), original, d);
      hide FindRow;
      r := PostTransfer(rev, now);
      if r.Ok? {
        ReversePosted(sha, old(Tables()), original, d, r.value, Micros(now));
      }
    }

    /** The loop that flips every leg. */
    static method BuildReversal(original: Row, newReference: Text, description: Text) returns (rev: Transfer)
      ensures fresh(rev) && rev.Value() == ReversalDraft(original, newReference, description)
    {
      var text := if description == [] then REVERSAL_OF + original.content.reference else description;
      rev := new Transfer(newReference, text, original.id);
      for i := 0 to |original.content.postings|
        invariant fresh(rev)
        invariant rev.Value() == Draft(newReference, text, Mirror(original.content.postings)[..i], None, original.id)
      {
        var p := original.content.postings[i];
        var dir := CREDIT;
        if p.dir == CREDIT {
          dir := DEBIT;
        }
        rev.postings := rev.postings + [Posting(p.account, p.amount, dir)];
      }
    }

    // ---- holds

    /** Hold: reserves an amount, on a guarded account only out of what is available. */
    method PlaceHold(reference: Text, account: Text, amount: Money, expiresAt: Option<int>) returns (r: Result<HoldRow>)
      requires Valid()
      modifies `holds
      ensures Valid()
      ensures r.Ok? <==> HoldAdmitted(old(Tables()), reference, account, amount)
      ensures r.Ok? ==>
                var op := Hold(reference, account, amount, expiresAt);
                OpOk(sha, old(Tables()), op) && Tables() == OpDb(sha, old(Tables()), op) && r.value == holds[reference]
      ensures r.Err? ==> Tables() == old(Tables())
      ensures r.Err? ==> HoldRefused(Tables(), reference, account, amount, r.error)
    {
      hide Held, CodeAvailable, Fits, SumMap, Available, OpOk, OpDb, Inv;
      if reference == [] {
        return Err(MissingReference);
      }
      if amount.amount <= 0 {
        return Err(NonPositiveAmount);
      }
      if account !in accounts {
        return Err(UnknownAccount);
      }
      var acc := accounts[account];
      if acc.archived {
        return Err(AccountArchived);
      }
      if acc.currency != amount.currency {
        return Err(CurrencyMismatch);
      }
      if !acc.allowNegative {
        var avail := AvailableLocked(account, acc, None);
        HoldGuardAgrees(sha, Tables(), account, amount.amount);
        if avail.None? {
          UnscannableHolds(account, None);
          return Err(DatabaseError);
        }
        if avail.value < amount.amount {
          return Err(InsufficientFunds);
        }
      }
      if reference in holds {
        return Err(DuplicateReference);
      }
      var row := HoldRow(account, amount.amount, amount.currency, Active, Truncated(expiresAt), None);
      ghost var op := Hold(reference, account, amount, expiresAt);
      HoldPlaced(sha, Tables(), op);
      holds := holds[reference := row];
      return Ok(row);
    }

    lemma OpKeepsHidden(op: Op)
      requires Inv(sha, Tables()) && OpOk(sha, Tables(), op)
      ensures Inv(sha, OpDb(sha, Tables(), op))
    {
      OpKeeps(sha, Tables(), op);
    }

    /** The loop in Capture: what the transfer takes off the held account, accumulated in int64. */
    static method SumSpent(ps: seq<Posting>, account: Text, typ: AccountType) returns (spent: Int64)
      ensures spent == Spent(ps, account, typ)
    {
      spent := 0;
      WrapFits(0);
      for i := 0 to |ps|
        invariant spent == Spent(ps[..i], account, typ)
      {
        assert ps[..i + 1] == ps[..i] + [ps[i]];
        SpentStep(ps[..i], ps[i], account, typ);
        if ps[i].account == account {
          spent := Wrap(spent - Normalise(Signed(ps[i].dir, ps[i].amount.amount), typ));
        }
      }
      assert ps[..|ps|] == ps;
    }

    /**
     Capture: posts the transfer and closes the hold together.  A past-due hold is refused and, after the
     rollback, marked expired by a statement of its own.
     */
    method CaptureHold(reference: Text, t: Transfer, now: int, later: int) returns (r: Result<Int64>)
      requires Valid()
      modifies this, t
      ensures Valid()
      ensures var d, at := old(t.Value()), Resolve(old(t.Value()), later);
              && (r.Ok? <==> Drawable(old(Tables()), reference, d, now)
                             && Accepted(sha, old(Tables()), d, old(nextTransfer), at, Some(reference)))
              && (r.Ok? ==>
                    var op := Capture(reference, d, r.value, at, now);
                    OpOk(sha, old(Tables()), op) && Tables() == OpDb(sha, old(Tables()), op))
              && (r.Err? && r.error != HoldExpired ==> Tables() == old(Tables()))
              && (r == Err(HoldExpired) ==>
                    OpOk(sha, old(Tables()), Expire({reference}, now))
                    && Tables() == OpDb(sha, old(Tables()), Expire({reference}, now)))
              && (r.Err? ==> if ValidationError(d).Some? then ValidationError(d) == Some(r.error)
                             else CaptureRefused(sha, old(Tables()), reference, d, old(nextTransfer), at, now, r.error))
              && (t.Value() == d || t.Value() == d.(postedAt := Some(at)))
    {
      hide Inv, ValidationError, Hash, Preimage, Refused, Accepted, PostedDb, PostOk, Spent, OpDb, OpOk;
      var invalid := t.Validate();
      ghost var d, db, id := t.Value(), Tables(), nextTransfer;
      if invalid.Some? {
        ValidationErrorKinds(d);
        InvalidIsNotAccepted(sha, db, d, id, Resolve(d, later), Some(reference));
        return Err(invalid.value);
      }
      if reference !in holds {
        return Err(UnknownHold);
      }
      var h := holds[reference];
      if h.status != Active {
        return Err(HoldNotActive);
      }
      if PastDue(h, now) {
        ExpireOne(sha, db, reference, now);
        holds := CloseAll(holds, {reference}, Expired);
        return Err(HoldExpired);
      }
      if h.account !in accounts {
        return Err(UnknownAccount);
      }
      var spent := SumSpent(t.postings, h.account, accounts[h.account].typ);
      if spent <= 0 || spent > h.amount {
        return Err(CaptureMismatch);
      }
      var a, b, k := accounts, balances, transfers;
      r := PostInTx(t, later, Some(reference));
      if r.Err? {
        RefusedKinds(sha, db, d, id, Resolve(d, later), Some(reference), r.error);
        accounts, balances, transfers := a, b, k;
      } else {
        CaptureAccepted(sha, db, reference, d, id, Resolve(d, later), now);
        holds := holds[reference := h.(status := Captured, transferId := Some(r.value))];
      }
    }

    method ReleaseHold(reference: Text) returns (e: Option<Error>)
      requires Valid()
      modifies `holds
      ensures Valid()
      ensures e.None? <==> OpOk(sha, old(Tables()), Release(reference))
      ensures Tables() == if e.None? then OpDb(sha, old(Tables()), Release(reference)) else old(Tables())
      ensures e == Some(UnknownHold) <==> reference !in holds
      ensures e.Some? ==> e.value in {UnknownHold, HoldNotActive}
    {
      hide Inv;
      if reference !in holds {
        return Some(UnknownHold);
      }
      if holds[reference].status != Active {
        return Some(HoldNotActive);
      }
      OpKeepsHidden(Release(reference));
      holds := holds[reference := holds[reference].(status := Released)];
      return None;
    }

    /** ExpireHolds: every active past-due hold, and how many there were. */
    method ExpireHolds(now: int) returns (n: nat)
      requires Valid()
      modifies `holds
      ensures Valid()
      ensures var due := set r | r in old(holds) && old(holds)[r].status == Active && PastDue(old(holds)[r], now);
              n == |due|
              && OpOk(sha, old(Tables()), Expire(due, now)) && Tables() == OpDb(sha, old(Tables()), Expire(due, now))
    {
      hide Inv;
      var due := set r | r in holds && holds[r].status == Active && PastDue(holds[r], now);
      OpKeepsHidden(Expire(due, now));
      holds := CloseAll(holds, due, Expired);
      return |due|;
    }
  }

  /** Whether the code places the hold: what the exact rules allow, as long as int64 can express it. */
  ghost predicate HoldAdmitted(db: Db, reference: Text, account: Text, amount: Money) {
    && HoldOk(db, reference, account, amount)
    && (!db.accounts[account].allowNegative ==> Representable(db, account, None))
  }

  lemma HoldPlaced(sha: Sha, db: Db, op: Op)
    requires op.Hold? && Inv(sha, db) && HoldOk(db, op.reference, op.holder, op.amount)
    ensures OpOk(sha, db, op) && Inv(sha, OpDb(sha, db, op))
    ensures OpDb(sha, db, op) == db.(holds := db.holds[op.reference :=
              HoldRow(op.holder, op.amount.amount, op.amount.currency, Active, Truncated(op.expiresAt), None)])
  {
    hide Inv, HoldOk;
    OpKeeps(sha, db, op);
  }

  ghost predicate HoldRefused(db: Db, reference: Text, account: Text, amount: Money, e: Error) {
    match e
    case MissingReference => reference == []
    case NonPositiveAmount => amount.amount <= 0
    case UnknownAccount => account !in db.accounts
    case AccountArchived => account in db.accounts && db.accounts[account].archived
    case CurrencyMismatch => account in db.accounts && db.accounts[account].currency != amount.currency
    case InsufficientFunds =>
      && account in db.accounts && !db.accounts[account].allowNegative
      && !(Available(db, account, None) >= amount.amount && Representable(db, account, None))
    case DuplicateReference => reference in db.holds
    case DatabaseError => !Fits(Held(db.holds, account, None))
    case _ => false
  }

  lemma ReversePosted(sha: Sha, db: Db, original: Row, d: Draft, id: Int64, at: int)
    requires original in db.transfers && d.reverses == original.id && d.postings == Mirror(original.content.postings)
    requires PostOk(sha, db, d, id, at, None)
    ensures LinkedByReverse(db.transfers, d)
    ensures OpOk(sha, db, Post(d, id, at)) && OpDb(sha, db, Post(d, id, at)) == PostedDb(sha, db, d, id, at)
  {
    hide PostOk, PostedDb, Mirror;
  }

  lemma RefusedKinds(sha: Sha, db: Db, d: Draft, id: int, at: int, exclude: Option<Text>, e: Error)
    requires Refused(sha, db, d, id, at, exclude, e)
    ensures e != HoldExpired
  {
    hide CodeFunded, Postable, PostedDb, MovementsFit, HoldsOverflow;
    FirstLegErrorMeans(db.accounts, d.postings, 0);
  }

  lemma ValidationErrorKinds(d: Draft)
    ensures ValidationError(d) != Some(HoldExpired)
  {
    FirstPostingErrorMeans(d.postings, 0);
  }

  ghost predicate CaptureRefused(sha: Sha, db: Db, reference: Text, d: Draft, id: int, at: int, now: int, e: Error) {
    if reference !in db.holds then e == UnknownHold
    else
      var h := db.holds[reference];
      if h.status != Active then e == HoldNotActive
      else if PastDue(h, now) then e == HoldExpired
      else if h.account !in db.accounts then e == UnknownAccount
      else if !Drawable(db, reference, d, now) then e == CaptureMismatch
      else Refused(sha, db, d, id, at, Some(reference), e)
  }

  lemma ExpireOne(sha: Sha, db: Db, reference: Text, now: int)
    requires Inv(sha, db) && reference in db.holds
    requires db.holds[reference].status == Active && PastDue(db.holds[reference], now)
    ensures OpOk(sha, db, Expire({reference}, now))
    ensures OpDb(sha, db, Expire({reference}, now)) == db.(holds := CloseAll(db.holds, {reference}, Expired))
    ensures Inv(sha, db.(holds := CloseAll(db.holds, {reference}, Expired)))
  {
    hide Inv;
    OpKeeps(sha, db, Expire({reference}, now));
  }

  lemma CaptureAccepted(sha: Sha, db: Db, reference: Text, d: Draft, id: int, at: int, now: int)
    requires Inv(sha, db)
    requires Drawable(db, reference, d, now) && Accepted(sha, db, d, id, at, Some(reference))
    ensures 0 < id <= MAX_INT64
    ensures var op := Capture(reference, d, id, at, now);
            && OpOk(sha, db, op)
            && OpDb(sha, db, op) == PostedDb(sha, db, d, id, at)
                 .(holds := db.holds[reference := db.holds[reference].(status := Captured, transferId := Some(id))])
            && Inv(sha, OpDb(sha, db, op))
  {
    hide Inv, Spent, PostedDb, CodeFunded;
    AcceptedKeeps(sha, db, d, id, at, Some(reference));
    OpKeeps(sha, db, Capture(reference, d, id, at, now));
  }

  lemma HoldGuardAgrees(sha: Sha, db: Db, a: Text, amount: Int64)
    requires Inv(sha, db)
    requires a in db.accounts && !db.accounts[a].allowNegative && amount > 0
    ensures (CodeAvailableOf(db, a, None).Some? && CodeAvailableOf(db, a, None).value >= amount)
       <==> (Available(db, a, None) >= amount && Representable(db, a, None))
  {
    hide CodeAvailable, Held, Wrap;
    PositiveHolds(db, a, None);
    if Fits(Held(db.holds, a, None)) {
      CodeAvailableIsWrapped(Balance(db.balances, a), db.accounts[a].typ, Held(db.holds, a, None));
      WrapFits(Available(db, a, None));
      WrapTop(Available(db, a, None));
    } else {
      NotScanned(db, a);
    }
  }

  lemma NotScanned(db: Db, a: Text)
    requires a in db.accounts && !Fits(Held(db.holds, a, None))
    ensures CodeAvailableOf(db, a, None).None?
  {
  }

  lemma WrapTop(x: int)
    requires 0 <= x <= TWO63
    ensures !Fits(x) ==> Wrap(x) < 0
  {
    if !Fits(x) {
      WrapUnique(x, -TWO63, 1);
    }
  }

  lemma SpentStep(ps: seq<Posting>, p: Posting, account: Text, typ: AccountType)
    ensures Spent(ps + [p], account, typ) ==
            if p.account == account then Wrap(Spent(ps, account, typ) - Normalise(Signed(p.dir, p.amount.amount), typ))
            else Spent(ps, account, typ)
  {
    hide Wrap, Sum;
    SumSnoc(OfAccount(account), ps, p);
    SignedIsWrapped(p);
    NormaliseIsWrapped(ExactSigned(p), typ);
    WrapSubtract(-ExactNormal(Delta(ps, account), typ), ExactNormal(ExactSigned(p), typ));
  }

  /** The mirror of a stored transfer is valid. */
  lemma StoredMirrorIsValid(sha: Sha, db: Db, original: Row, d: Draft)
    requires Inv(sha, db) && original in db.transfers
    requires d.reference != [] && d.postings == Mirror(original.content.postings)
    ensures ValidationError(d) == None
  {
    hide Chained, Cached, Guarded, HoldsSound, Linked, Numbered;
    var i :| 0 <= i < |db.transfers| && db.transfers[i] == original;
    assert RowAdmitted(db.accounts, db.transfers[i]);
    var c := original.content;
    var posted := Draft(c.reference, c.description, c.postings, None, c.reverses);
    FirstPostingErrorMeans(posted.postings, 0);
    forall k | 0 <= k < |posted.postings|
      ensures WellFormed(posted.postings[k])
    {
      assert LegRecorded(db.accounts, posted.postings[k]);
    }
    MirrorIsAccepted(posted, d);
  }

  lemma InsertRefusal(sha: Sha, db: Db, d: Draft, id: int, at: int, exclude: Option<Text>, e: Error)
    requires FirstLegError(db.accounts, d.postings, 0).None?
    requires !(id <= MAX_INT64 && FreshReference(db.transfers, d.reference) && LinkAllowed(db.transfers, d.reverses))
    requires InsertError(db.transfers, d, id, e)
    ensures Refused(sha, db, d, id, at, exclude, e) && !Accepted(sha, db, d, id, at, exclude)
    ensures LeftBehind(sha, db, db, d, id, at, e)
  {
    hide ValidationError, Movements, FreshReference, LinkAllowed, CodeFunded, PostedDb, Moved;
  }

  lemma BalanceRefusal(sha: Sha, db: Db, to: Db, d: Draft, id: int, at: int, exclude: Option<Text>)
    requires FirstLegError(db.accounts, d.postings, 0).None? && 0 < id <= MAX_INT64
    requires !MovementsFit(db.balances, Movements(d.postings))
    requires to == db.(transfers := db.transfers + [NewRow(sha, db.transfers, d, id, at)], balances := to.balances)
    requires Moved(db.balances, to.balances, Movements(d.postings))
    ensures Refused(sha, db, d, id, at, exclude, DatabaseError) && !Accepted(sha, db, d, id, at, exclude)
    ensures LeftBehind(sha, db, to, d, id, at, DatabaseError)
  {
    hide ValidationError, Movements, FreshReference, LinkAllowed, CodeFunded, Moved, NewRow, Move, MovementsFit, InsertError;
  }

  lemma WrittenIsPostable(db: Db, d: Draft, id: Int64, at: int)
    requires ValidationError(d) == None && FirstLegError(db.accounts, d.postings, 0).None? && ResolvedInstant(d, at)
    requires LastId(db.transfers) < id && FreshReference(db.transfers, d.reference) && LinkAllowed(db.transfers, d.reverses)
    requires MovementsFit(db.balances, Movements(d.postings))
    ensures Postable(db, d, id, at)
  {
    hide ValidationError, FreshReference, LinkAllowed, MovementsFit, LegAdmitted;
    FirstLegErrorMeans(db.accounts, d.postings, 0);
  }

  lemma PostableAccounts(db: Db, d: Draft, id: Int64, at: int)
    requires Postable(db, d, id, at)
    ensures AccountsOf(d.postings) <= db.accounts.Keys
  {
    hide ValidationError, FreshReference, LinkAllowed, MovementsFit, LegAdmitted, LegsAdmitted, AccountsOf;
    AdmittedAccounts(db.accounts, d.postings);
  }

  lemma GuardRefusal(sha: Sha, db: Db, d: Draft, id: Int64, at: int, exclude: Option<Text>, e: Error)
    requires FirstLegError(db.accounts, d.postings, 0).None? && 0 < id && Postable(db, d, id, at)
    requires !CodeFunded(PostedDb(sha, db, d, id, at), AccountsOf(d.postings), exclude)
    requires e == InsufficientFunds || (e == DatabaseError && HoldsOverflow(db, AccountsOf(d.postings), exclude))
    ensures Refused(sha, db, d, id, at, exclude, e) && !Accepted(sha, db, d, id, at, exclude)
    ensures LeftBehind(sha, db, PostedDb(sha, db, d, id, at), d, id, at, e)
  {
    hide Postable, CodeFunded, HoldsOverflow, Moved, NewRow, Move, Movements, InsertError, MovementsFit;
  }

  lemma NoRefusal(sha: Sha, db: Db, d: Draft, id: Int64, at: int, exclude: Option<Text>)
    requires 0 < id && Postable(db, d, id, at)
    requires CodeFunded(PostedDb(sha, db, d, id, at), AccountsOf(d.postings), exclude)
    ensures Accepted(sha, db, d, id, at, exclude)
  {
  }

  lemma SomeMoved(balances: map<Text, Int64>, moves: map<Text, Int64>, part: seq<Text>)
    ensures Moved(balances, Move(balances, Among(moves, part)), moves)
  {
    hide Move, Among;
  }

  lemma InvalidIsNotAccepted(sha: Sha, db: Db, d: Draft, id: int, at: int, exclude: Option<Text>)
    requires ValidationError(d).Some?
    ensures !Accepted(sha, db, d, id, at, exclude)
  {
  }

  /** What the int64 code accepts, the exact rules accept; and the books stay in agreement. */
  lemma AcceptedKeeps(sha: Sha, db: Db, d: Draft, id: int, at: int, exclude: Option<Text>)
    requires Inv(sha, db)
    requires Accepted(sha, db, d, id, at, exclude)
    ensures PostOk(sha, db, d, id, at, exclude)
    ensures exclude == None ==> Inv(sha, PostedDb(sha, db, d, id, at))
  {
    hide CodeFunded, Hash, Preimage, Movements, Move, Funded, ValidationError, Representable;
    GuardAgrees(sha, db, d, id, at, exclude);
    hide Postable;
    PostKeeps(sha, db, d, id, at, exclude);
  }

  lemma FitOneMore(balances: map<Text, Int64>, moves: map<Text, Int64>, a: Text, v: Int64)
    requires a !in moves && MovementsFit(balances, moves)
    ensures MovementsFit(balances, moves[a := v]) <==> Fits(Balance(balances, a) + v)
  {
    assert a in moves[a := v];
  }

  function Among(moves: map<Text, Int64>, accounts: seq<Text>): map<Text, Int64> {
    map a | a in moves && a in accounts :: moves[a]
  }

  lemma AmongNothing(moves: map<Text, Int64>, order: seq<Text>)
    ensures Among(moves, order[..0]) == map[]
  {
  }

  lemma AmongOneMore(moves: map<Text, Int64>, order: seq<Text>, i: nat)
    requires i < |order| && order[i] !in order[..i]
    ensures order[i] !in Among(moves, order[..i])
    ensures Among(moves, order[..i + 1]) ==
            if order[i] in moves then Among(moves, order[..i])[order[i] := moves[order[i]]] else Among(moves, order[..i])
  {
    assert order[..i + 1] == order[..i] + [order[i]];
  }

  lemma AmongAll(moves: map<Text, Int64>, order: seq<Text>)
    requires forall a :: a in moves ==> a in order
    ensures Among(moves, order[..|order|]) == moves
  {
    assert order[..|order|] == order;
  }

  lemma FitsInPart(balances: map<Text, Int64>, part: seq<Text>, whole: map<Text, Int64>)
    ensures MovementsFit(balances, whole) ==> MovementsFit(balances, Among(whole, part))
  {
    hide Fits, Balance;
  }

  lemma MoveNothing(balances: map<Text, Int64>)
    ensures Move(balances, map[]) == balances && MovementsFit(balances, map[])
  {
  }

  lemma MoveOneMore(balances: map<Text, Int64>, moves: map<Text, Int64>, a: Text, v: Int64)
    requires a !in moves
    ensures Balance(Move(balances, moves), a) == Balance(balances, a)
    ensures Move(balances, moves[a := v]) == Move(balances, moves)[a := Stored(Balance(balances, a) + v)]
  {
    var x, y := Move(balances, moves[a := v]), Move(balances, moves)[a := Stored(Balance(balances, a) + v)];
    assert x.Keys == y.Keys;
    assert forall k :: k in x ==> x[k] == y[k];
  }

  lemma MovementStep(ps: seq<Posting>, p: Posting, sofar: Int64)
    requires sofar == Wrap(Delta(ps, p.account))
    ensures Wrap(sofar + Signed(p.dir, p.amount.amount)) == Wrap(Delta(ps + [p], p.account))
    ensures forall a :: a != p.account ==> Delta(ps + [p], a) == Delta(ps, a)
  {
    hide Wrap, Sum, Signed;
    SignedIsWrapped(p);
    SumSnoc(OfAccount(p.account), ps, p);
    WrapAdd(sofar, ExactSigned(p));
    WrapAdd(Delta(ps, p.account), ExactSigned(p));
    forall a | a != p.account
      ensures Delta(ps + [p], a) == Delta(ps, a)
    {
      SumSnoc(OfAccount(a), ps, p);
    }
  }
}
