/** Accounts, money, postings, and the sign conventions everything else uses. */
module Domain {
  import opened Int64Math
  import opened Sums

  type Byte = b: int | 0 <= b < 256

  /** A Go string: a sequence of bytes. */
  type Text = seq<Byte>

  datatype Option<+T> = None | Some(value: T)

  datatype Result<+T> = Ok(value: T) | Err(error: Error)

  datatype Error =
    | InvalidAccount
    | InvalidType
    | InvalidCurrency
    | AccountExists
    | UnknownAccount
    | AccountArchived
    | TooFewPostings
    | Unbalanced
    | CurrencyMismatch
    | NonPositiveAmount
    | InvalidDirection
    | MissingReference
    | DuplicateReference
    | UnknownTransfer
    | InsufficientFunds
    | UnknownHold
    | HoldNotActive
    | CaptureMismatch
    | HoldExpired
    | AlreadyReversed
    | DatabaseError  // a statement the database itself refuses, such as bigint out of range

  datatype AccountType = Asset | Liability | Equity | Income | Expense | OtherType(name: Text) {

    predicate Valid() {
      !OtherType?
    }

    /** Assets and expenses grow by debits, the other types by credits. */
    predicate DebitNormal() {
      Asset? || Expense?
    }
  }

  datatype Account = Account(typ: AccountType, currency: Text, archived: bool, allowNegative: bool)

  const DEBIT: Text := [100, 101, 98, 105, 116]
  const CREDIT: Text := [99, 114, 101, 100, 105, 116]

  predicate ValidDirection(dir: Text) {
    dir == DEBIT || dir == CREDIT
  }

  /** Three capital ASCII letters. */
  predicate ValidCurrency(c: Text) {
    |c| == 3 && forall i :: 0 <= i < 3 ==> 65 <= c[i] <= 90
  }

  datatype Money = Money(amount: Int64, currency: Text)

  datatype Posting = Posting(account: Text, amount: Money, dir: Text)

  /** The contribution of one leg, debits counted up and credits down, as int64 arithmetic gives it. */
  function Signed(dir: Text, minor: Int64): Int64 {
    if dir == CREDIT then Wrap(-(minor as int)) else minor
  }

  /** The movement itself, without a machine width. */
  function ExactSigned(p: Posting): int {
    if p.dir == CREDIT then -(p.amount.amount as int) else p.amount.amount
  }

  lemma SignedIsWrapped(p: Posting)
    ensures Signed(p.dir, p.amount.amount) == Wrap(ExactSigned(p))
  {
    WrapFits(p.amount.amount);
  }

  /** normalise: the debit-positive number turned to the account's normal side, in int64. */
  function Normalise(raw: Int64, typ: AccountType): Int64 {
    if typ.DebitNormal() then raw else Wrap(-(raw as int))
  }

  function ExactNormal(raw: int, typ: AccountType): int {
    if typ.DebitNormal() then raw else -raw
  }

  lemma NormaliseIsWrapped(raw: int, typ: AccountType)
    ensures Normalise(Wrap(raw), typ) == Wrap(ExactNormal(raw, typ))
  {
    WrapNegate(raw);
  }

  // ---- the order of texts

  /** Byte-wise lexicographic order, as Go compares strings. */
  predicate Less(a: Text, b: Text) {
    b != [] && (a == [] || a[0] < b[0] || (a[0] == b[0] && Less(a[1..], b[1..])))
  }

  lemma {:induction false} LessIsTransitive(a: Text, b: Text, c: Text)
    requires Less(a, b) && Less(b, c)
    ensures Less(a, c)
  {
    if a != [] && a[0] == b[0] && b[0] == c[0] {
      LessIsTransitive(a[1..], b[1..], c[1..]);
    }
  }

  lemma {:induction false} LessIsTotal(a: Text, b: Text)
    ensures !(Less(a, b) && Less(b, a))
    ensures Less(a, b) || Less(b, a) || a == b
  {
    if a != [] && b != [] && a[0] == b[0] {
      LessIsTotal(a[1..], b[1..]);
      assert a == [a[0]] + a[1..] && b == [b[0]] + b[1..];
    }
  }

  // ---- what a list of postings does

  /** What a sum over postings looks at: one account, one currency, or the bare amounts of a currency. */
  datatype Measure = OfAccount(key: Text) | OfCurrency(key: Text) | VolumeOf(key: Text) {

    function Of(p: Posting): int {
      match this
      case OfAccount(a) => if p.account == a then ExactSigned(p) else 0
      case OfCurrency(c) => if p.amount.currency == c then ExactSigned(p) else 0
      case VolumeOf(c) => if p.amount.currency == c then p.amount.amount else 0
    }
  }

  ghost function Sum(m: Measure, ps: seq<Posting>): int {
    if ps == [] then 0 else Sum(m, ps[..|ps| - 1]) + m.Of(ps[|ps| - 1])
  }

  /** How the postings move one account, exactly. */
  ghost function Delta(ps: seq<Posting>, account: Text): int {
    Sum(OfAccount(account), ps)
  }

  /** Debits minus credits in one currency, exactly. */
  ghost function ExactNet(ps: seq<Posting>, currency: Text): int {
    Sum(OfCurrency(currency), ps)
  }

  /** The total of the amounts in one currency, whatever their side. */
  ghost function Volume(ps: seq<Posting>, currency: Text): int {
    Sum(VolumeOf(currency), ps)
  }

  lemma SumSnoc(m: Measure, ps: seq<Posting>, p: Posting)
    ensures Sum(m, ps + [p]) == Sum(m, ps) + m.Of(p)
  {
    assert (ps + [p])[..|ps|] == ps;
  }

  lemma SumOfFour(m: Measure, ps: seq<Posting>)
    requires |ps| == 4
    ensures Sum(m, ps) == m.Of(ps[0]) + m.Of(ps[1]) + m.Of(ps[2]) + m.Of(ps[3])
  {
    assert ps == [] + [ps[0]] + [ps[1]] + [ps[2]] + [ps[3]];
    SumSnoc(m, [] + [ps[0]] + [ps[1]] + [ps[2]], ps[3]);
    SumSnoc(m, [] + [ps[0]] + [ps[1]], ps[2]);
    SumSnoc(m, [] + [ps[0]], ps[1]);
    SumSnoc(m, [], ps[0]);
  }

  lemma {:induction false} SumAppend(m: Measure, ps: seq<Posting>, qs: seq<Posting>)
    ensures Sum(m, ps + qs) == Sum(m, ps) + Sum(m, qs)
  {
    if qs == [] {
      assert ps + qs == ps;
    } else {
      var n := |qs| - 1;
      SumAppend(m, ps, qs[..n]);
      SumSnoc(m, ps + qs[..n], qs[n]);
      assert ps + qs == ps + qs[..n] + [qs[n]];
    }
  }

  lemma SumRemove(m: Measure, ps: seq<Posting>, i: nat)
    requires i < |ps|
    ensures Sum(m, ps) == Sum(m, ps[..i] + ps[i + 1..]) + m.Of(ps[i])
  {
    hide Sum;
    var a, b := ps[..i], ps[i + 1..];
    assert ps == a + [ps[i]] + b;
    SumAppend(m, a + [ps[i]], b);
    SumSnoc(m, a, ps[i]);
    SumAppend(m, a, b);
  }

  /** The order in which postings are summed does not matter. */
  lemma {:induction false} SumPermutation(m: Measure, ps: seq<Posting>, qs: seq<Posting>)
    requires multiset(ps) == multiset(qs)
    ensures Sum(m, ps) == Sum(m, qs)
    decreases |ps|
  {
    if ps == [] {
      assert |qs| == |multiset(qs)| == 0;
    } else {
      var init, p := ps[..|ps| - 1], ps[|ps| - 1];
      assert ps == init + [p];
      var i := PullOut(init, p, qs);
      hide Sum;
      SumRemove(m, qs, i);
      SumSnoc(m, init, p);
      SumPermutation(m, init, qs[..i] + qs[i + 1..]);
    }
  }

  function AccountsOf(ps: seq<Posting>): set<Text> {
    set p | p in ps :: p.account
  }

  function CurrenciesOf(ps: seq<Posting>): set<Text> {
    set p | p in ps :: p.amount.currency
  }

  lemma {:induction false} UntouchedDelta(ps: seq<Posting>, account: Text)
    requires account !in AccountsOf(ps)
    ensures Delta(ps, account) == 0
  {
    if ps != [] {
      var init := ps[..|ps| - 1];
      assert ps[|ps| - 1] in ps;
      assert forall p :: p in init ==> p in ps;
      UntouchedDelta(init, account);
    }
  }

  lemma {:induction false} AbsentNet(ps: seq<Posting>, currency: Text)
    requires currency !in CurrenciesOf(ps)
    ensures ExactNet(ps, currency) == 0
  {
    if ps != [] {
      var init := ps[..|ps| - 1];
      assert ps[|ps| - 1] in ps;
      assert forall p :: p in init ==> p in ps;
      AbsentNet(init, currency);
    }
  }

  // ---- the mirror image of a transfer

  function Flip(p: Posting): Posting {
    p.(dir := if p.dir == CREDIT then DEBIT else CREDIT)
  }

  function Mirror(ps: seq<Posting>): (r: seq<Posting>)
    ensures |r| == |ps|
  {
    seq(|ps|, i requires 0 <= i < |ps| => Flip(ps[i]))
  }

  lemma MirrorTwice(ps: seq<Posting>)
    requires forall p :: p in ps ==> ValidDirection(p.dir)
    ensures Mirror(Mirror(ps)) == ps
  {
    forall i | 0 <= i < |ps|
      ensures Mirror(Mirror(ps))[i] == ps[i]
    {
      assert ps[i] in ps;
    }
  }

  lemma {:induction false} MirrorNegates(ps: seq<Posting>, key: Text)
    requires forall p :: p in ps ==> ValidDirection(p.dir)
    ensures Delta(Mirror(ps), key) == -Delta(ps, key)
    ensures ExactNet(Mirror(ps), key) == -ExactNet(ps, key)
  {
    if ps != [] {
      var n := |ps| - 1;
      assert ps[n] in ps;
      assert Mirror(ps)[..n] == Mirror(ps[..n]);
      MirrorNegates(ps[..n], key);
    }
  }
}
