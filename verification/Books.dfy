/**
 The ledger's tables and what each committed operation does to them, one at a time.  Identifiers drawn
 from sequences are part of the operation, so that gaps left by failed transactions need no account.
 */
module Books {
  import opened Int64Math
  import opened Sums
  import opened Domain
  import opened Drafts
  import opened ChainEncoding
  import opened ChainHistory

  datatype HoldStatus = Active | Captured | Released | Expired

  /** A hold, stored under its unique reference. */
  datatype HoldRow = HoldRow(
    account: Text,
    amount: Int64,
    currency: Text,
    status: HoldStatus,
    expiresAt: Option<int>,
    transferId: Option<Int64>)

  datatype Db = Db(
    accounts: map<Text, Account>,
    balances: map<Text, Int64>,
    transfers: seq<Row>,
    holds: map<Text, HoldRow>)

  const EMPTY: Db := Db(map[], map[], [], map[])

  // ---- balances

  function Balance(balances: map<Text, Int64>, account: Text): Int64 {
    if account in balances then balances[account] else 0
  }

  /** A bigint column keeps what fits; every caller has established that the value does. */
  function Stored(x: int): Int64 {
    if Fits(x) then x else 0
  }

  /** The int64 movement per account, with the accounts that do not move left out. */
  ghost function Movements(ps: seq<Posting>): map<Text, Int64> {
    map a | a in AccountsOf(ps) && Wrap(Delta(ps, a)) != 0 :: Wrap(Delta(ps, a))
  }

  predicate MovementsFit(balances: map<Text, Int64>, moves: map<Text, Int64>) {
    forall a :: a in moves ==> Fits(Balance(balances, a) + moves[a])
  }

  /** INSERT … ON CONFLICT DO UPDATE SET balance = balance + excluded.balance, for each moved account. */
  function Move(balances: map<Text, Int64>, moves: map<Text, Int64>): map<Text, Int64> {
    map a | a in balances.Keys + moves.Keys ::
      Stored(Balance(balances, a) + (if a in moves then moves[a] else 0))
  }

  // ---- holds and availability

  function HeldAmounts(holds: map<Text, HoldRow>, account: Text, exclude: Option<Text>): map<Text, int> {
    map r | r in holds && holds[r].status == Active && holds[r].account == account && exclude != Some(r)
      :: holds[r].amount as int
  }

  /** The sum of the account's active holds, leaving out the one being captured. */
  ghost function Held(holds: map<Text, HoldRow>, account: Text, exclude: Option<Text>): int {
    SumMap(HeldAmounts(holds, account, exclude))
  }

  /** Balance on the normal side minus active holds, over the integers. */
  ghost function Available(db: Db, account: Text, exclude: Option<Text>): int
    requires account in db.accounts
  {
    ExactNormal(Balance(db.balances, account), db.accounts[account].typ) - Held(db.holds, account, exclude)
  }

  /** Every guarded account among these still covers its active holds. */
  ghost predicate Funded(db: Db, among: set<Text>, exclude: Option<Text>) {
    forall a :: a in among && a in db.accounts && !db.accounts[a].allowNegative ==> Available(db, a, exclude) >= 0
  }

  predicate PastDue(h: HoldRow, now: int) {
    h.expiresAt.Some? && h.expiresAt.value <= now
  }

  function CloseAll(holds: map<Text, HoldRow>, refs: set<Text>, status: HoldStatus): map<Text, HoldRow> {
    map r | r in holds :: if r in refs then holds[r].(status := status) else holds[r]
  }

  /** What the transfer takes off the account on its normal side, as the int64 loop in Capture finds it. */
  ghost function Spent(ps: seq<Posting>, account: Text, typ: AccountType): Int64 {
    Wrap(-ExactNormal(Delta(ps, account), typ))
  }

  // ---- posting a transfer

  predicate LegAdmitted(accounts: map<Text, Account>, p: Posting) {
    p.account in accounts && !accounts[p.account].archived && accounts[p.account].currency == p.amount.currency
  }

  predicate LegsAdmitted(accounts: map<Text, Account>, ps: seq<Posting>) {
    forall i :: 0 <= i < |ps| ==> LegAdmitted(accounts, ps[i])
  }

  function LastId(h: seq<Row>): int {
    if h == [] then 0 else h[|h| - 1].id
  }

  /** transfers_reference_key. */
  predicate FreshReference(h: seq<Row>, reference: Text) {
    forall i :: 0 <= i < |h| ==> h[i].content.reference != reference
  }

  /** The foreign key on reverses_transfer_id, and transfers_reverses_key. */
  predicate LinkAllowed(h: seq<Row>, reverses: Int64) {
    reverses != 0 ==>
      && (exists i :: 0 <= i < |h| && h[i].id == reverses)
      && (forall i :: 0 <= i < |h| ==> h[i].content.reverses != reverses)
  }

  function NewRow(sha: Sha, h: seq<Row>, d: Draft, id: Int64, at: int): Row {
    var c := Content(d.reference, d.description, at, d.reverses, d.postings);
    var prev := TailHash([], h);
    Row(id, c, prev, Hash(sha, Preimage(prev, c)))
  }

  ghost function PostedDb(sha: Sha, db: Db, d: Draft, id: Int64, at: int): Db {
    db.(transfers := db.transfers + [NewRow(sha, db.transfers, d, id, at)],
        balances := Move(db.balances, Movements(d.postings)))
  }

  /** The stored instant is whole microseconds, and the caller's own when the caller gave one. */
  predicate ResolvedInstant(d: Draft, at: int) {
    at % 1000 == 0 && (d.postedAt.Some? ==> at == Micros(d.postedAt.value))
  }

  /** Everything the database and the account rows decide about a transfer, short of the guard. */
  ghost predicate Postable(db: Db, d: Draft, id: Int64, at: int) {
    && ValidationError(d) == None
    && LegsAdmitted(db.accounts, d.postings)
    && LastId(db.transfers) < id
    && ResolvedInstant(d, at)
    && FreshReference(db.transfers, d.reference)
    && LinkAllowed(db.transfers, d.reverses)
    && MovementsFit(db.balances, Movements(d.postings))
  }

  ghost predicate PostOk(sha: Sha, db: Db, d: Draft, id: Int64, at: int, exclude: Option<Text>) {
    Postable(db, d, id, at) && Funded(PostedDb(sha, db, d, id, at), AccountsOf(d.postings), exclude)
  }

  // ---- reversing one

  function FindRow(h: seq<Row>, reference: Text): Option<Row> {
    if h == [] then None
    else if h[|h| - 1].content.reference == reference then Some(h[|h| - 1])
    else FindRow(h[..|h| - 1], reference)
  }

  /** "reversal of ", the default description. */
  const REVERSAL_OF: Text := [114, 101, 118, 101, 114, 115, 97, 108, 32, 111, 102, 32]

  function ReversalDraft(original: Row, newReference: Text, description: Text): Draft {
    Draft(newReference,
          if description == [] then REVERSAL_OF + original.content.reference else description,
          Mirror(original.content.postings),
          None,
          original.id)
  }

  /** The Reverses field is set by Reverse alone: it names a posted transfer that the legs mirror. */
  ghost predicate LinkedByReverse(h: seq<Row>, d: Draft) {
    d.reverses != 0 ==>
      exists j :: 0 <= j < |h| && d.reverses == h[j].id && d.postings == Mirror(h[j].content.postings)
  }

  // ---- the operations

  /** Post covers reversals too: a reversal is the posting of a draft that Reverse built. */
  datatype Op =
    | Create(id: Text, account: Account)
    | Archive(id: Text)
    | Post(d: Draft, transfer: Int64, at: int)
    | Hold(reference: Text, holder: Text, amount: Money, expiresAt: Option<int>)
    | Capture(reference: Text, d: Draft, transfer: Int64, at: int, now: int)
    | Release(reference: Text)
    | Expire(refs: set<Text>, now: int)

  ghost predicate HoldOk(db: Db, reference: Text, account: Text, amount: Money) {
    && reference != []
    && amount.amount > 0
    && account in db.accounts
    && !db.accounts[account].archived
    && db.accounts[account].currency == amount.currency
    && (!db.accounts[account].allowNegative ==> Available(db, account, None) >= amount.amount)
    && reference !in db.holds
  }

  /** The hold can be drawn on now, and the transfer draws on it within the held amount. */
  ghost predicate Drawable(db: Db, reference: Text, d: Draft, now: int) {
    && reference in db.holds
    && var h := db.holds[reference];
       && h.status == Active
       && !PastDue(h, now)
       && h.account in db.accounts
       && 0 < Spent(d.postings, h.account, db.accounts[h.account].typ) <= h.amount
  }

  ghost predicate CaptureOk(sha: Sha, db: Db, reference: Text, d: Draft, id: Int64, at: int, now: int) {
    Drawable(db, reference, d, now) && PostOk(sha, db, d, id, at, Some(reference))
  }

  /** Whether the operation succeeds on these tables. */
  ghost predicate OpOk(sha: Sha, db: Db, op: Op) {
    match op
    case Create(id, account) =>
      id != [] && account.typ.Valid() && ValidCurrency(account.currency) && !account.archived && id !in db.accounts
    case Archive(id) =>
      id in db.accounts
    case Post(d, id, at) =>
      PostOk(sha, db, d, id, at, None)
    case Hold(reference, account, amount, _) =>
      HoldOk(db, reference, account, amount)
    case Capture(reference, d, id, at, now) =>
      CaptureOk(sha, db, reference, d, id, at, now)
    case Release(reference) =>
      reference in db.holds && db.holds[reference].status == Active
    case Expire(refs, now) =>
      forall r :: r in refs ==> r in db.holds && db.holds[r].status == Active && PastDue(db.holds[r], now)
  }

  function Truncated(t: Option<int>): Option<int> {
    if t.Some? then Some(Micros(t.value)) else None
  }

  /** The tables after a successful operation. */
  ghost function OpDb(sha: Sha, db: Db, op: Op): Db
    requires OpOk(sha, db, op)
  {
    match op
    case Create(id, account) =>
      db.(accounts := db.accounts[id := account], balances := db.balances[id := 0])
    case Archive(id) =>
      db.(accounts := db.accounts[id := db.accounts[id].(archived := true)])
    case Post(d, id, at) =>
      PostedDb(sha, db, d, id, at)
    case Hold(reference, account, amount, expiresAt) =>
      db.(holds := db.holds[reference := HoldRow(account, amount.amount, amount.currency, Active, Truncated(expiresAt), None)])
    case Capture(reference, d, id, at, now) =>
      PostedDb(sha, db, d, id, at).(holds := db.holds[reference := db.holds[reference].(status := Captured, transferId := Some(id))])
    case Release(reference) =>
      db.(holds := db.holds[reference := db.holds[reference].(status := Released)])
    case Expire(refs, now) =>
      db.(holds := CloseAll(db.holds, refs, Expired))
  }

  /** The tables after a run of operations from the empty database, if every one of them succeeds. */
  ghost function Replay(sha: Sha, ops: seq<Op>): Option<Db> {
    if ops == [] then Some(EMPTY)
    else
      match Replay(sha, ops[..|ops| - 1])
      case None => None
      case Some(db) => if OpOk(sha, db, ops[|ops| - 1]) then Some(OpDb(sha, db, ops[|ops| - 1])) else None
  }
}
