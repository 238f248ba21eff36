/**
 When the untagged reversal link can be read in two ways: never, unless a currency is a direction word and an
 account id is longer than any database column holds.
 */
module LinkReadings {
  import opened Int64Math
  import opened Domain
  import opened Bytes
  import opened ChainEncoding

  ghost predicate Legible(ps: seq<Posting>) {
    forall i :: 0 <= i < |ps| ==> LegibleLeg(ps[i])
  }

  lemma LegiblyRead(ps: seq<Posting>)
    requires Legible(ps)
    ensures forall p :: p in ps ==> LegibleLeg(p)
  {
  }

  /** The length that the last bytes of the word "credit" and a small amount spell as four bytes. */
  const LEAST_LENGTH: nat := 0x6974_0000

  // ---- one reading below that length

  lemma SameLink(r: Int64, ps: seq<Posting>, u: Int64, qs: seq<Posting>)
    requires Legible(ps) && Legible(qs) && (r == 0 <==> u == 0)
    requires Link(r) + Legs(ps) == Link(u) + Legs(qs)
    ensures r == u && ps == qs
  {
    hide Legs, U64, ReadField;
    if r != 0 {
      FieldRoundTrip(U64(r), Legs(ps));
      FieldRoundTrip(U64(u), Legs(qs));
      U64RoundTrip(r);
      U64RoundTrip(u);
      WrapFits(r);
      WrapFits(u);
    } else {
      assert [] + Legs(ps) == Legs(ps) && [] + Legs(qs) == Legs(qs);
    }
    LegiblyRead(ps);
    LegiblyRead(qs);
    LegsRoundTrip(ps);
    LegsRoundTrip(qs);
  }

  /** The first leg of a non-empty list, field by field, and what follows it. */
  function AfterAccount(ps: seq<Posting>): Text
    requires ps != []
  {
    Field(ps[0].amount.currency) + AfterCurrency(ps)
  }

  function AfterCurrency(ps: seq<Posting>): Text
    requires ps != []
  {
    Field(ps[0].dir) + AfterDirection(ps)
  }

  function AfterDirection(ps: seq<Posting>): Text
    requires ps != []
  {
    U64(ps[0].amount.amount) + Legs(ps[1..])
  }

  lemma FirstLegReads(ps: seq<Posting>)
    requires ps != [] && Legible(ps)
    ensures ReadField(Legs(ps)) == Some((ps[0].account, AfterAccount(ps)))
    ensures ReadField(AfterAccount(ps)) == Some((ps[0].amount.currency, AfterCurrency(ps)))
    ensures ReadField(AfterCurrency(ps)) == Some((ps[0].dir, AfterDirection(ps)))
    ensures |AfterDirection(ps)| == 8 + |Legs(ps[1..])|
  {
    assert LegibleLeg(ps[0]);
    LegReads(ps[0], Legs(ps[1..]));
  }

  /** If the link of the one is the first account of the other, the legs are read one field out of step. */
  lemma OutOfStep(r: Int64, ps: seq<Posting>, qs: seq<Posting>)
    requires r != 0 && Legible(ps) && Legible(qs)
    requires Link(r) + Legs(ps) == Legs(qs)
    ensures ps != [] && qs != []
    ensures qs[0].account == U64(r) && qs[0].amount.currency == ps[0].account && qs[0].dir == ps[0].amount.currency
    ensures AfterDirection(qs) == AfterCurrency(ps)
  {
    hide U64, ReadField;
    FieldRoundTrip(U64(r), Legs(ps));
    if qs != [] {
      FirstLegReads(qs);
      assert Legs(ps) == AfterAccount(qs);
      if ps != [] {
        FirstLegReads(ps);
      }
    }
  }

  lemma FieldStarts(f: Text, rest: Text)
    requires |f| < TWO32
    ensures |Field(f) + rest| >= 4 && FromBigEndian((Field(f) + rest)[..4]) == |f|
  {
    Widths();
    BigEndianRoundTrip(|f|, 4);
    hide BigEndian, FromBigEndian, Pow256;
    assert |f| % TWO32 == |f|;
    assert (Field(f) + rest)[..4] == BigEndian(|f|, 4);
  }

  lemma FourBytes(s: Text)
    requires |s| == 4
    ensures FromBigEndian(s)
         == 0x100_0000 * (s[0] as int) + 0x1_0000 * (s[1] as int) + 0x100 * (s[2] as int) + s[3] as int
  {
    assert s[..3][..2] == s[..2] && s[..2][..1] == s[..1] && s[..1][..0] == [];
    assert FromBigEndian(s[..1]) == s[0] as int;
    assert FromBigEndian(s[..2]) == 256 * FromBigEndian(s[..2][..1]) + s[1];
    assert FromBigEndian(s[..3]) == 256 * FromBigEndian(s[..3][..2]) + s[2];
  }

  /** A length field that begins in the middle of a direction word. */
  lemma WordAsLength(dir: Text, rest: Text, tail: Text)
    requires ValidDirection(dir) && |rest| >= 8 && |tail| >= 4
    requires (Field(dir) + rest)[8..] == tail
    ensures FromBigEndian(tail[..4]) >= LEAST_LENGTH
  {
    var b := Field(dir) + rest;
    assert tail[0] == b[8] && tail[1] == b[9];
    assert |BigEndian(|dir| % TWO32, 4)| == 4;
    assert b[8] == dir[4] && (dir == CREDIT ==> b[9] == dir[5]);
    FourBytes(tail[..4]);
  }

  /**
   A link read as an account takes a direction word for a currency, and makes the legs' next account at least
   LEAST_LENGTH bytes long.
   */
  lemma TwoReadingsNeed(r: Int64, ps: seq<Posting>, qs: seq<Posting>)
    requires r != 0 && Legible(ps) && Legible(qs)
    requires Link(r) + Legs(ps) == Link(0) + Legs(qs)
    ensures |ps| >= 1 && ValidDirection(ps[0].amount.currency)
    ensures |qs| >= 2 && |qs[1].account| >= LEAST_LENGTH
  {
    hide U64, ReadField, Legs;
    assert Link(0) + Legs(qs) == Legs(qs);
    OutOfStep(r, ps, qs);
    FirstLegReads(ps);
    FirstLegReads(qs);
    assert LegibleLeg(ps[0]) && LegibleLeg(qs[0]);
    var tail := Legs(qs[1..]);
    assert AfterDirection(qs)[8..] == tail;
    assert |tail| > 0;
    NextLeg(qs);
    FieldStarts(qs[1].account, AfterAccount(qs[1..]));
    WordAsLength(ps[0].dir, AfterDirection(ps), tail);
  }

  lemma LegsOpen(ps: seq<Posting>)
    requires ps != []
    ensures Legs(ps) == Field(ps[0].account) + AfterAccount(ps)
  {
    hide Field, U64;
    var p, rest := ps[0], Legs(ps[1..]);
    assert Leg(p) + rest == Field(p.account) + (Field(p.amount.currency) + (Field(p.dir) + (U64(p.amount.amount) + rest)));
  }

  lemma NoLegs(ps: seq<Posting>)
    ensures ps == [] ==> Legs(ps) == []
  {
  }

  lemma NextLeg(qs: seq<Posting>)
    requires qs != [] && Legs(qs[1..]) != [] && Legible(qs)
    ensures |qs| >= 2 && |qs[1].account| < TWO32
    ensures Legs(qs[1..]) == Field(qs[1].account) + AfterAccount(qs[1..])
  {
    hide Leg, AfterAccount, Field;
    NoLegs(qs[1..]);
    assert |qs[1..]| == |qs| - 1;
    assert LegibleLeg(qs[1]);
    LegsOpen(qs[1..]);
  }

  /** With every account id shorter than LEAST_LENGTH, link and legs have one reading, whatever the currencies. */
  lemma OneReading(r: Int64, ps: seq<Posting>, u: Int64, qs: seq<Posting>)
    requires Legible(ps) && Legible(qs)
    requires forall i :: 0 <= i < |ps| ==> |ps[i].account| < LEAST_LENGTH
    requires forall i :: 0 <= i < |qs| ==> |qs[i].account| < LEAST_LENGTH
    requires Link(r) + Legs(ps) == Link(u) + Legs(qs)
    ensures r == u && ps == qs
  {
    hide Legs, Link;
    if r == 0 && u != 0 {
      TwoReadingsNeed(u, qs, ps);
    } else if r != 0 && u == 0 {
      TwoReadingsNeed(r, ps, qs);
    } else {
      SameLink(r, ps, u, qs);
    }
  }

  // ---- two readings at that length

  const X_LENGTH: nat := LEAST_LENGTH - 10

  function PlainLeg(account: Text): Posting {
    Posting(account, Money(1, [69, 85, 82]), DEBIT)
  }

  /** A link, then a leg whose currency is the word "credit", then a leg on a very long account. */
  function Linked(x: Text): seq<Posting> {
    [Posting([69, 85, 82], Money(1, CREDIT), CREDIT), PlainLeg(x)]
  }

  /** The amount that the first eight bytes of the word's field spell. */
  const SPELT: Int64 := 0x0000_0006_6372_6564

  function Unlinked(r: Int64, x: Text): seq<Posting> {
    [Posting(U64(r), Money(SPELT, [69, 85, 82]), CREDIT), PlainLeg([0, 0, 0, 0, 0, 1] + Field(x))]
  }

  lemma NextByte(v: nat, n: nat)
    requires n > 0
    ensures BigEndian(v, n) == BigEndian(v / 256, n - 1) + [v % 256]
  {
  }

  lemma SpeltBytes()
    ensures U64(SPELT) == [0, 0, 0, 6, 99, 114, 101, 100]
    ensures U64(1) == [0, 0, 0, 0, 0, 0, 0, 1]
    ensures Field(CREDIT) == [0, 0, 0, 6, 99, 114, 101, 100, 105, 116]
    ensures BigEndian(LEAST_LENGTH, 4) == [105, 116, 0, 0]
  {
    assert SPELT % TWO64 == SPELT && 1 % TWO64 == 1 && |CREDIT| % TWO32 == 6;
    Zeros();
    hide BigEndian;
    NextByte(6, 4);
    NextByte(0x663, 5);
    NextByte(0x6_6372, 6);
    NextByte(0x663_7265, 7);
    NextByte(SPELT, 8);
    NextByte(1, 8);
    NextByte(105, 1);
    NextByte(0x6974, 2);
    NextByte(0x69_7400, 3);
    NextByte(LEAST_LENGTH, 4);
  }

  lemma Zeros()
    ensures BigEndian(0, 0) == [] && BigEndian(0, 3) == [0, 0, 0] && BigEndian(0, 7) == [0, 0, 0, 0, 0, 0, 0]
  {
    assert BigEndian(0, 1) == [0] && BigEndian(0, 2) == [0, 0];
    assert BigEndian(0, 4) == [0, 0, 0, 0] && BigEndian(0, 5) == [0, 0, 0, 0, 0] && BigEndian(0, 6) == [0, 0, 0, 0, 0, 0];
  }

  /** At LEAST_LENGTH there are two: the bytes of a reversal are also those of a transfer that reverses nothing. */
  lemma TwoReadings(r: Int64, x: Text)
    requires r != 0 && |x| == X_LENGTH
    ensures Legible(Linked(x)) && Legible(Unlinked(r, x)) && |Unlinked(r, x)[1].account| == LEAST_LENGTH
    ensures Link(r) + Legs(Linked(x)) == Link(0) + Legs(Unlinked(r, x))
  {
    LongField(x);
    hide BigEndian, U64, Legs;
    var p, legs := PlainLeg(x), Field([69, 85, 82]) + (Field(DEBIT) + U64(1));
    TwoLegs(Linked(x)[0], p);
    TwoLegs(Unlinked(r, x)[0], Unlinked(r, x)[1]);
    hide Field;
    Regroup(Field(CREDIT), U64(1), Field(x) + legs);
    Regroup(Field(CREDIT) + U64(1), Field(x), legs);
    Regroup(U64(SPELT), Field([0, 0, 0, 0, 0, 1] + Field(x)), legs);
    LinkFirst(r, Linked(x));
    LinkFirst(0, Unlinked(r, x));
  }

  lemma LinkFirst(r: Int64, ps: seq<Posting>)
    ensures Link(r) + Legs(ps) == if r == 0 then Legs(ps) else Field(U64(r)) + Legs(ps)
  {
    hide Legs, Field, U64;
  }

  lemma TwoLegs(p: Posting, q: Posting)
    ensures Legs([p, q])
         == Field(p.account) + (Field(p.amount.currency) + (Field(p.dir) + (U64(p.amount.amount)
            + (Field(q.account) + (Field(q.amount.currency) + (Field(q.dir) + U64(q.amount.amount)))))))
  {
    LegsOpen([p, q]);
    LegsOpen([q]);
    assert [p, q][1..] == [q] && [q][1..] == [];
    NoLegs([]);
    hide Legs, Field, U64;
    assert U64(q.amount.amount) + [] == U64(q.amount.amount);
  }

  /** The word, the amount and the account's field: also an amount, and the field of a longer account. */
  lemma LongField(x: Text)
    requires |x| == X_LENGTH
    ensures Field(CREDIT) + U64(1) + Field(x) == U64(SPELT) + Field([0, 0, 0, 0, 0, 1] + Field(x))
  {
    SpeltBytes();
    hide BigEndian, U64;
    var f, one := Field(x), [0, 0, 0, 0, 0, 1];
    assert |one + f| % TWO32 == LEAST_LENGTH;
    assert Field(one + f) == [105, 116, 0, 0] + (one + f);
    hide Field;
    assert Field(CREDIT) + U64(1) == U64(SPELT) + [105, 116, 0, 0] + one;
    Regroup(U64(SPELT), [105, 116, 0, 0], one);
    Regroup(U64(SPELT), [105, 116, 0, 0] + one, f);
    Regroup([105, 116, 0, 0], one, f);
  }

  // ---- so much for whole transfers

  /** Lengths and instant in range, as the encoding needs them, and no condition on currencies. */
  ghost predicate Readable(c: Content) {
    |c.reference| < TWO32 && |c.description| < TWO32 && Fits(Micros(c.postedAt)) && Legible(c.postings)
  }

  ghost predicate ShortAccounts(c: Content) {
    forall i :: 0 <= i < |c.postings| ==> |c.postings[i].account| < LEAST_LENGTH
  }

  lemma BodyReads(c: Content)
    requires Readable(c)
    ensures var tail := U64(Micros(c.postedAt)) + (Link(c.reverses) + Legs(c.postings));
            && ReadField(Body(c)) == Some((c.reference, Field(c.description) + tail))
            && ReadField(Field(c.description) + tail) == Some((c.description, tail))
  {
    var tail := U64(Micros(c.postedAt)) + (Link(c.reverses) + Legs(c.postings));
    hide Field, U64, ReadField, Link, Legs;
    FieldRoundTrip(c.reference, Field(c.description) + tail);
    FieldRoundTrip(c.description, tail);
  }

  /** Two transfers hashed over equal bytes are one, if no account id reaches LEAST_LENGTH. */
  lemma OneTransfer(p: Text, c: Content, q: Text, d: Content)
    requires Readable(c) && Readable(d) && ShortAccounts(c) && ShortAccounts(d) && |p| == |q|
    requires Preimage(p, c) == Preimage(q, d)
    ensures p == q && Canonical(c) == Canonical(d)
  {
    hide Body;
    assert (p + Body(c))[..|p|] == p && (p + Body(c))[|p|..] == Body(c);
    assert (q + Body(d))[..|q|] == q && (q + Body(d))[|q|..] == Body(d);
    BodyReads(c);
    BodyReads(d);
    hide Field, U64, ReadField, Link, Legs;
    var x, y := Link(c.reverses) + Legs(c.postings), Link(d.reverses) + Legs(d.postings);
    var s, t := U64(Micros(c.postedAt)), U64(Micros(d.postedAt));
    assert (s + x)[..8] == s && (s + x)[8..] == x && (t + y)[..8] == t && (t + y)[8..] == y;
    U64RoundTrip(Micros(c.postedAt));
    U64RoundTrip(Micros(d.postedAt));
    WrapFits(Micros(c.postedAt));
    WrapFits(Micros(d.postedAt));
    OneReading(c.reverses, c.postings, d.reverses, d.postings);
  }

  /** And at LEAST_LENGTH a reversal and a transfer that reverses nothing have one digest, whatever the hash. */
  lemma TwoTransfersOneDigest(sha: Sha, prev: Text, c: Content, x: Text)
    requires c.reverses != 0 && c.postings == Linked(x) && |x| == X_LENGTH
    ensures var d := c.(reverses := 0, postings := Unlinked(c.reverses, x));
            Canonical(c) != Canonical(d) && Hash(sha, Preimage(prev, c)) == Hash(sha, Preimage(prev, d))
  {
    TwoReadings(c.reverses, x);
    hide Field, U64, Link, Legs, Hash, Linked, Unlinked;
  }
}
