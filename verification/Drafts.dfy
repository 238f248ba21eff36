/** A transfer as a caller builds it: the chainable legs, the net, and the sum-zero validation. */
module Drafts {
  import opened Int64Math
  import opened Domain

  /** The value of a transfer under construction; no instant means "now" at write time. */
  datatype Draft = Draft(
    reference: Text,
    description: Text,
    postings: seq<Posting>,
    postedAt: Option<int>,
    reverses: Int64)

  // ---- the rules, as Validate applies them

  function PostingError(p: Posting): Option<Error> {
    if p.account == [] then Some(InvalidAccount)
    else if !ValidDirection(p.dir) then Some(InvalidDirection)
    else if !ValidCurrency(p.amount.currency) then Some(InvalidCurrency)
    else if p.amount.amount <= 0 then Some(NonPositiveAmount)
    else None
  }

  /** The error of the first bad posting at or after position i. */
  function FirstPostingError(ps: seq<Posting>, i: nat): Option<Error>
    requires i <= |ps|
    decreases |ps| - i
  {
    if i == |ps| then None
    else if PostingError(ps[i]).Some? then PostingError(ps[i])
    else FirstPostingError(ps, i + 1)
  }

  function ShapeError(d: Draft): Option<Error> {
    if d.reference == [] then Some(MissingReference)
    else if |d.postings| < 2 then Some(TooFewPostings)
    else FirstPostingError(d.postings, 0)
  }

  ghost predicate NetsToZeroInMachine(ps: seq<Posting>) {
    forall c :: c in CurrenciesOf(ps) ==> Wrap(ExactNet(ps, c)) == 0
  }

  ghost function ValidationError(d: Draft): Option<Error> {
    if ShapeError(d).Some? then ShapeError(d)
    else if !NetsToZeroInMachine(d.postings) then Some(Unbalanced)
    else None
  }

  predicate WellFormed(p: Posting) {
    && p.account != []
    && ValidDirection(p.dir)
    && ValidCurrency(p.amount.currency)
    && p.amount.amount > 0
  }

  /** Every currency nets to zero over the integers: the rule the package is named after. */
  ghost predicate SumsToZero(ps: seq<Posting>) {
    forall c :: ExactNet(ps, c) == 0
  }

  lemma {:induction false} FirstPostingErrorMeans(ps: seq<Posting>, i: nat)
    requires i <= |ps|
    ensures FirstPostingError(ps, i) == None <==> forall k :: i <= k < |ps| ==> WellFormed(ps[k])
    ensures FirstPostingError(ps, i).Some? ==>
              exists k :: i <= k < |ps| && PostingError(ps[k]) == FirstPostingError(ps, i)
                          && forall j :: i <= j < k ==> WellFormed(ps[j])
    decreases |ps| - i
  {
    if i < |ps| {
      FirstPostingErrorMeans(ps, i + 1);
    }
  }

  /** One more leg, in int64 and exactly. */
  lemma NetStep(ps: seq<Posting>, p: Posting, sofar: Int64)
    requires sofar == Wrap(ExactNet(ps, p.amount.currency))
    ensures Wrap(sofar + Signed(p.dir, p.amount.amount)) == Wrap(ExactNet(ps + [p], p.amount.currency))
    ensures forall k :: k != p.amount.currency ==> ExactNet(ps + [p], k) == ExactNet(ps, k)
  {
    hide Wrap, Sum, Signed;
    SignedIsWrapped(p);
    SumSnoc(OfCurrency(p.amount.currency), ps, p);
    WrapAdd(sofar, ExactSigned(p));
    WrapAdd(ExactNet(ps, p.amount.currency), ExactSigned(p));
    forall k | k != p.amount.currency
      ensures ExactNet(ps + [p], k) == ExactNet(ps, k)
    {
      SumSnoc(OfCurrency(k), ps, p);
    }
  }

  // ---- the transfer object

  class Transfer {
    var reference: Text
    var description: Text
    var postings: seq<Posting>
    var postedAt: Option<int>
    var reverses: Int64

    constructor (reference: Text, description: Text, reverses: Int64)
      ensures Value() == Draft(reference, description, [], None, reverses)
    {
      this.reference := reference;
      this.description := description;
      this.postings := [];
      this.postedAt := None;
      this.reverses := reverses;
    }

    function Value(): Draft
      reads this
    {
      Draft(reference, description, postings, postedAt, reverses)
    }

    /** Appends a debit leg and returns the transfer itself, so that legs chain. */
    method Debit(account: Text, m: Money) returns (t: Transfer)
      modifies this
      ensures t == this
      ensures Value() == old(Value()).(postings := old(postings) + [Posting(account, m, DEBIT)])
      ensures forall a :: Delta(postings, a) == old(Delta(postings, a)) + if a == account then m.amount else 0
    {
      ghost var was := postings;
      postings := postings + [Posting(account, m, DEBIT)];
      forall a {
        SumSnoc(OfAccount(a), was, Posting(account, m, DEBIT));
      }
      t := this;
    }

    method Credit(account: Text, m: Money) returns (t: Transfer)
      modifies this
      ensures t == this
      ensures Value() == old(Value()).(postings := old(postings) + [Posting(account, m, CREDIT)])
      ensures forall a :: Delta(postings, a) == old(Delta(postings, a)) - if a == account then m.amount else 0
    {
      ghost var was := postings;
      postings := postings + [Posting(account, m, CREDIT)];
      forall a {
        SumSnoc(OfAccount(a), was, Posting(account, m, CREDIT));
      }
      t := this;
    }

    /** Net: int64 accumulation, leg by leg, is the exact net modulo 2^64 in every currency. */
    method Net() returns (net: map<Text, Int64>)
      ensures net.Keys == CurrenciesOf(postings)
      ensures forall c :: c in net ==> net[c] == Wrap(ExactNet(postings, c))
    {
      net := map[];
      for i := 0 to |postings|
        invariant net.Keys == CurrenciesOf(postings[..i])
        invariant forall c :: c in net ==> net[c] == Wrap(ExactNet(postings[..i], c))
      {
        var p := postings[i];
        var c := p.amount.currency;
        var sofar := if c in net then net[c] else 0;
        assert postings[..i + 1] == postings[..i] + [p];
        if c !in net {
          AbsentNet(postings[..i], c);
        }
        NetStep(postings[..i], p, sofar);
        net := net[c := Wrap(sofar + Signed(p.dir, p.amount.amount))];
      }
      assert postings[..|postings|] == postings;
    }

    /** Validate: the first shape error, then the sum-zero rule as int64 sees it. */
    method Validate() returns (e: Option<Error>)
      ensures e == ValidationError(Value())
    {
      if reference == [] {
        return Some(MissingReference);
      }
      if |postings| < 2 {
        return Some(TooFewPostings);
      }
      for i := 0 to |postings|
        invariant FirstPostingError(postings, 0) == FirstPostingError(postings, i)
      {
        if postings[i].account == [] {
          return Some(InvalidAccount);
        }
        if !ValidDirection(postings[i].dir) {
          return Some(InvalidDirection);
        }
        if !ValidCurrency(postings[i].amount.currency) {
          return Some(InvalidCurrency);
        }
        if postings[i].amount.amount <= 0 {
          return Some(NonPositiveAmount);
        }
      }
      var net := Net();
      var left := net.Keys;
      while left != {}
        invariant left <= net.Keys
        invariant forall c :: c in net.Keys - left ==> net[c] == 0
        decreases left
      {
        var c :| c in left;
        if net[c] != 0 {
          return Some(Unbalanced);
        }
        left := left - {c};
      }
      return None;
    }
  }

  // ---- what an accepted transfer satisfies

  /** Postings in any order have the same net and move every account alike. */
  lemma LegOrderIsIrrelevant(ps: seq<Posting>, qs: seq<Posting>)
    requires multiset(ps) == multiset(qs)
    ensures forall c :: ExactNet(ps, c) == ExactNet(qs, c)
    ensures forall a :: Delta(ps, a) == Delta(qs, a)
  {
    forall k
      ensures ExactNet(ps, k) == ExactNet(qs, k) && Delta(ps, k) == Delta(qs, k)
    {
      SumPermutation(OfCurrency(k), ps, qs);
      SumPermutation(OfAccount(k), ps, qs);
    }
  }

  /** Validate accepts exactly the well-formed transfers whose exact nets are multiples of 2^64. */
  lemma AcceptedIff(d: Draft)
    ensures ValidationError(d) == None <==>
              && d.reference != []
              && |d.postings| >= 2
              && (forall k :: 0 <= k < |d.postings| ==> WellFormed(d.postings[k]))
              && (forall c :: ExactNet(d.postings, c) % TWO64 == 0)
  {
    FirstPostingErrorMeans(d.postings, 0);
    forall c
      ensures Wrap(ExactNet(d.postings, c)) == 0 <==> ExactNet(d.postings, c) % TWO64 == 0
      ensures c !in CurrenciesOf(d.postings) ==> ExactNet(d.postings, c) == 0
    {
      WrapZero(ExactNet(d.postings, c));
      if c !in CurrenciesOf(d.postings) {
        AbsentNet(d.postings, c);
      }
    }
  }

  /** An accepted transfer sums to zero exactly when no currency's debits and credits are 2^64 apart. */
  lemma AcceptedSumsToZeroIff(d: Draft)
    requires ValidationError(d) == None
    ensures SumsToZero(d.postings) <==> forall c :: -TWO64 < ExactNet(d.postings, c) < TWO64
  {
    AcceptedIff(d);
    forall c | -TWO64 < ExactNet(d.postings, c) < TWO64
      ensures ExactNet(d.postings, c) == 0
    {
      WrapZero(ExactNet(d.postings, c));
      assert ExactNet(d.postings, c) % TWO64 == 0;
    }
  }

  lemma {:induction false} NetWithinVolume(ps: seq<Posting>, c: Text)
    requires forall k :: 0 <= k < |ps| ==> ps[k].amount.amount > 0
    ensures -Volume(ps, c) <= ExactNet(ps, c) <= Volume(ps, c)
  {
    if ps != [] {
      NetWithinVolume(ps[..|ps| - 1], c);
    }
  }

  /** Amounts totalling below 2^64 in each currency cannot hide an imbalance; two legs never can. */
  lemma SmallTransfersSumToZero(d: Draft)
    requires ValidationError(d) == None
    requires |d.postings| == 2 || forall c :: Volume(d.postings, c) < TWO64
    ensures SumsToZero(d.postings)
  {
    AcceptedIff(d);
    forall c
      ensures -TWO64 < ExactNet(d.postings, c) < TWO64
    {
      NetWithinVolume(d.postings, c);
      if |d.postings| == 2 {
        var ps := d.postings;
        assert ps == [] + [ps[0]] + [ps[1]];
        SumSnoc(VolumeOf(c), [ps[0]], ps[1]);
        SumSnoc(VolumeOf(c), [], ps[0]);
        assert [] + [ps[0]] == [ps[0]];
      }
    }
    AcceptedSumsToZeroIff(d);
  }

  /** Three debits and no credit can pass: the int64 net of 2^64 is zero. */
  lemma AcceptedWithoutSummingToZero(reference: Text, account: Text, currency: Text)
    requires reference != [] && account != [] && ValidCurrency(currency)
    ensures var leg := (m: Int64) => Posting(account, Money(m, currency), DEBIT);
            var d := Draft(reference, [], [leg(MAX_INT64), leg(MAX_INT64), leg(2)], None, 0);
            ValidationError(d) == None && !SumsToZero(d.postings)
  {
    var a := Posting(account, Money(MAX_INT64, currency), DEBIT);
    var b := Posting(account, Money(2, currency), DEBIT);
    var d := Draft(reference, [], [a, a, b], None, 0);
    forall c
      ensures ExactNet(d.postings, c) == if c == currency then TWO64 else 0
    {
      assert [a, a] == [a] + [a] && d.postings == [a, a] + [b] && [a] == [] + [a];
      SumSnoc(OfCurrency(c), [a, a], b);
      SumSnoc(OfCurrency(c), [a], a);
      SumSnoc(OfCurrency(c), [], a);
    }
    AcceptedIff(d);
    assert ExactNet(d.postings, currency) == TWO64;
  }

  /** The mirror of an accepted transfer is accepted, whatever reference it is given. */
  lemma MirrorIsAccepted(d: Draft, m: Draft)
    requires ValidationError(d) == None
    requires m.reference != [] && m.postings == Mirror(d.postings)
    ensures ValidationError(m) == None
  {
    AcceptedIff(d);
    AcceptedIff(m);
    forall c
      ensures ExactNet(m.postings, c) % TWO64 == 0
    {
      MirrorNegates(d.postings, c);
      WrapNegate(ExactNet(d.postings, c));
      WrapZero(ExactNet(d.postings, c));
      WrapZero(-ExactNet(d.postings, c));
    }
  }
}
