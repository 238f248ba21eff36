/**
 The byte string under the hash chain, and a decoder for it.  A reversal link is an optional field
 with no tag, written exactly like an eight-byte account id; the decoder tells the two apart by
 where the first direction word stands.
 */
module ChainEncoding {
  import opened Int64Math
  import opened Domain
  import opened Bytes

  /** SHA-256 (section 6.2 of FIPS 180-4): some function from byte strings to 32 bytes, and nothing more. */
  datatype Sha = Sha(raw: Text -> Text)

  const NO_DIGEST: Text := seq(32, _ => 0)

  function Hash(sha: Sha, b: Text): (digest: Text)
    ensures |digest| == 32
  {
    var d := sha.raw(b);
    if |d| == 32 then d else NO_DIGEST
  }

  /** What a transfer's digest covers, besides the previous digest. */
  datatype Content = Content(
    reference: Text,
    description: Text,
    postedAt: int,  // nanoseconds since the Unix epoch
    reverses: Int64,  // 0 when the transfer is not a reversal
    postings: seq<Posting>)

  /** Truncate(time.Microsecond): rounds an instant down to a multiple of 1000 nanoseconds. */
  function Micros(t: int): (r: int)
    ensures r <= t < r + 1000 && r % 1000 == 0
  {
    t - t % 1000
  }

  // ---- the encoding

  function Leg(p: Posting): Text {
    Field(p.account) + (Field(p.amount.currency) + (Field(p.dir) + U64(p.amount.amount)))
  }

  function Legs(ps: seq<Posting>): Text {
    if ps == [] then [] else Leg(ps[0]) + Legs(ps[1..])
  }

  function Link(reverses: Int64): Text {
    if reverses == 0 then [] else Field(U64(reverses))
  }

  function Body(c: Content): Text {
    Field(c.reference) + (Field(c.description) + (U64(Micros(c.postedAt)) + (Link(c.reverses) + Legs(c.postings))))
  }

  /** The bytes that chainDigest hashes. */
  function Preimage(prev: Text, c: Content): Text {
    prev + Body(c)
  }

  lemma {:induction false} LegsSnoc(ps: seq<Posting>, p: Posting)
    ensures Legs(ps + [p]) == Legs(ps) + Leg(p)
  {
    if ps == [] {
      assert (ps + [p])[1..] == [];
    } else {
      assert (ps + [p])[1..] == ps[1..] + [p];
      LegsSnoc(ps[1..], p);
      assert Leg(ps[0]) + (Legs(ps[1..]) + Leg(p)) == Leg(ps[0]) + Legs(ps[1..]) + Leg(p);
    }
  }

  // ---- chainDigest itself, over a hasher that is written piece by piece

  class Hasher {
    const sha: Sha
    var written: Text

    constructor (sha: Sha)
      ensures this.sha == sha && written == []
    {
      this.sha := sha;
      written := [];
    }

    method Write(b: Text)
      modifies this
      ensures written == old(written) + b
    {
      written := written + b;
    }

    method WriteField(b: Text)
      modifies this
      ensures written == old(written) + Field(b)
    {
      var n := new Byte[4](_ => 0);
      PutBigEndian(n, |b| % TWO32);
      Write(n[..]);
      Write(b);
    }

    method WriteU64(v: int)
      modifies this
      ensures written == old(written) + U64(v)
    {
      var n := new Byte[8](_ => 0);
      PutBigEndian(n, v % TWO64);
      Write(n[..]);
    }

    /** Nothing at all is written for a transfer that reverses nothing. */
    method WriteLink(reverses: Int64)
      modifies this
      ensures written == old(written) + Link(reverses)
    {
      if reverses != 0 {
        WriteField(U64(reverses));
      }
    }

    method WriteLeg(p: Posting)
      modifies this
      ensures written == old(written) + Leg(p)
    {
      hide Field, U64;
      WriteField(p.account);
      WriteField(p.amount.currency);
      WriteField(p.dir);
      WriteU64(p.amount.amount);
    }

    method WriteLegs(ps: seq<Posting>)
      modifies this
      ensures written == old(written) + Legs(ps)
    {
      hide Leg;
      for i := 0 to |ps|
        invariant written == old(written) + Legs(ps[..i])
      {
        WriteLeg(ps[i]);
        assert written == old(written) + (Legs(ps[..i]) + Leg(ps[i]));
        assert ps[..i + 1] == ps[..i] + [ps[i]];
        LegsSnoc(ps[..i], ps[i]);
      }
      assert ps[..|ps|] == ps;
    }

    method Sum() returns (digest: Text)
      ensures digest == Hash(sha, written)
    {
      digest := Hash(sha, written);
    }
  }

  lemma Regroup(x: Text, y: Text, z: Text)
    ensures x + y + z == x + (y + z)
  {
  }

  lemma PreimageInWriteOrder(prev: Text, c: Content)
    ensures prev + Field(c.reference) + Field(c.description) + U64(Micros(c.postedAt)) + Link(c.reverses)
            + Legs(c.postings) == Preimage(prev, c)
  {
    hide Field, U64, Link, Legs, Micros;
    var a, b, t, l, p := Field(c.reference), Field(c.description), U64(Micros(c.postedAt)), Link(c.reverses), Legs(c.postings);
    Regroup(prev + a + b + t, l, p);
    Regroup(prev + a + b, t, l + p);
    Regroup(prev + a, b, t + (l + p));
    Regroup(prev, a, b + (t + (l + p)));
  }

  /** chainDigest: every write in the source's order; the result is the hash of Preimage. */
  method ChainDigest(sha: Sha, prev: Text, c: Content) returns (digest: Text)
    ensures digest == Hash(sha, Preimage(prev, c))
  {
    var h := new Hasher(sha);
    h.Write(prev);
    h.WriteField(c.reference);
    h.WriteField(c.description);
    h.WriteU64(Micros(c.postedAt));
    h.WriteLink(c.reverses);
    h.WriteLegs(c.postings);
    assert [] + prev == prev;
    PreimageInWriteOrder(prev, c);
    digest := h.Sum();
  }

  // ---- the decoder

  function DecodeLegs(b: Text): Option<seq<Posting>>
    decreases |b|
  {
    if b == [] then Some([])
    else
      match ReadField(b)
      case None => None
      case Some((account, b1)) =>
        match ReadField(b1)
        case None => None
        case Some((currency, b2)) =>
          match ReadField(b2)
          case None => None
          case Some((dir, b3)) =>
            if |b3| < 8 then None
            else
              match DecodeLegs(b3[8..])
              case None => None
              case Some(rest) => Some([Posting(account, Money(FromU64(b3[..8]), currency), dir)] + rest)
  }

  /** Whether the third field from here is a direction word: then no reversal link precedes the legs. */
  predicate StartsWithLeg(b: Text) {
    match ReadField(b)
    case None => false
    case Some((_, b1)) =>
      match ReadField(b1)
      case None => false
      case Some((_, b2)) =>
        match ReadField(b2)
        case None => false
        case Some((dir, _)) => ValidDirection(dir)
  }

  function DecodeTail(b: Text): Option<(Int64, seq<Posting>)> {
    if b == [] || StartsWithLeg(b) then
      match DecodeLegs(b)
      case None => None
      case Some(ps) => Some((0, ps))
    else
      match ReadField(b)
      case None => None
      case Some((link, rest)) =>
        match DecodeLegs(rest)
        case None => None
        case Some(ps) => Some((FromU64(link), ps))
  }

  function DecodeBody(b: Text): Option<Content> {
    match ReadField(b)
    case None => None
    case Some((reference, b1)) =>
      match ReadField(b1)
      case None => None
      case Some((description, b2)) =>
        if |b2| < 8 then None
        else
          match DecodeTail(b2[8..])
          case None => None
          case Some((reverses, ps)) =>
            Some(Content(reference, description, FromU64(b2[..8]), reverses, ps))
  }

  function Decode(b: Text, prevLength: nat): Option<(Text, Content)> {
    if |b| < prevLength then None
    else
      match DecodeBody(b[prevLength..])
      case None => None
      case Some(c) => Some((b[..prevLength], c))
  }

  // ---- the round trip

  predicate LegibleLeg(p: Posting) {
    && |p.account| < TWO32
    && |p.amount.currency| < TWO32
    && ValidDirection(p.dir)
  }

  predicate EncodableLeg(p: Posting) {
    LegibleLeg(p) && !ValidDirection(p.amount.currency)
  }

  /** Field lengths fit four bytes, the instant is in UnixNano's range, and no currency is a direction word. */
  predicate Encodable(c: Content) {
    && |c.reference| < TWO32
    && |c.description| < TWO32
    && Fits(Micros(c.postedAt))
    && forall p :: p in c.postings ==> EncodableLeg(p)
  }

  /** What the digest can see of a transfer: everything but the nanoseconds below the microsecond. */
  function Canonical(c: Content): Content {
    c.(postedAt := Micros(c.postedAt))
  }

  lemma LegReads(p: Posting, rest: Text)
    requires LegibleLeg(p)
    ensures var b := Leg(p) + rest;
            var tail := U64(p.amount.amount) + rest;
            && ReadField(b) == Some((p.account, Field(p.amount.currency) + (Field(p.dir) + tail)))
            && ReadField(Field(p.amount.currency) + (Field(p.dir) + tail)) == Some((p.amount.currency, Field(p.dir) + tail))
            && ReadField(Field(p.dir) + tail) == Some((p.dir, tail))
  {
    var tail := U64(p.amount.amount) + rest;
    assert Leg(p) + rest == Field(p.account) + (Field(p.amount.currency) + (Field(p.dir) + tail));
    FieldRoundTrip(p.account, Field(p.amount.currency) + (Field(p.dir) + tail));
    FieldRoundTrip(p.amount.currency, Field(p.dir) + tail);
    FieldRoundTrip(p.dir, tail);
  }

  lemma {:induction false} LegsRoundTrip(ps: seq<Posting>)
    requires forall p :: p in ps ==> LegibleLeg(p)
    ensures DecodeLegs(Legs(ps)) == Some(ps)
  {
    hide Field, U64, ReadField;
    if ps != [] {
      var p, rest := ps[0], Legs(ps[1..]);
      LegReads(p, rest);
      LegsRoundTrip(ps[1..]);
      U64RoundTrip(p.amount.amount);
      WrapFits(p.amount.amount);
      var tail := U64(p.amount.amount) + rest;
      assert tail[..8] == U64(p.amount.amount) && tail[8..] == rest;
      assert ps == [p] + ps[1..];
    }
  }

  lemma SomethingToRead(b: Text)
    ensures ReadField(b).Some? ==> b != []
  {
  }

  lemma PlainTail(ps: seq<Posting>)
    requires forall p :: p in ps ==> EncodableLeg(p)
    ensures DecodeLegs(Legs(ps)) == Some(ps)
    ensures Legs(ps) == [] || StartsWithLeg(Legs(ps))
  {
    forall p | p in ps
      ensures LegibleLeg(p)
    {
      assert EncodableLeg(p);
    }
    LegsRoundTrip(ps);
    if ps != [] {
      assert EncodableLeg(ps[0]);
      LegReads(ps[0], Legs(ps[1..]));
      hide Field, U64, ReadField, DecodeLegs;
    }
  }

  lemma LinkedTail(reverses: Int64, ps: seq<Posting>)
    requires reverses != 0 && forall p :: p in ps ==> EncodableLeg(p)
    ensures var b := Link(reverses) + Legs(ps);
            b != [] && !StartsWithLeg(b) && ReadField(b) == Some((U64(reverses), Legs(ps)))
  {
    var b := Link(reverses) + Legs(ps);
    FieldRoundTrip(U64(reverses), Legs(ps));
    SomethingToRead(b);
    NoFieldInNothing();
    if ps != [] {
      assert EncodableLeg(ps[0]);
      LegReads(ps[0], Legs(ps[1..]));
    }
    hide Field, U64, ReadField;
  }

  lemma TailRoundTrip(reverses: Int64, ps: seq<Posting>)
    requires forall p :: p in ps ==> EncodableLeg(p)
    ensures DecodeTail(Link(reverses) + Legs(ps)) == Some((reverses, ps))
  {
    PlainTail(ps);
    if reverses == 0 {
      assert Link(reverses) + Legs(ps) == Legs(ps);
    } else {
      LinkedTail(reverses, ps);
      U64RoundTrip(reverses);
      WrapFits(reverses);
    }
    hide Field, U64, ReadField, DecodeLegs, StartsWithLeg, Legs;
  }

  lemma NoFieldInNothing()
    ensures ReadField([]) == None
  {
  }

  /** The bytes of any encodable transfer decode to it: the hashed string has one reading. */
  lemma DecodeEncode(prev: Text, c: Content)
    requires Encodable(c)
    ensures Decode(Preimage(prev, c), |prev|) == Some((prev, Canonical(c)))
  {
    var b3 := Link(c.reverses) + Legs(c.postings);
    var b2 := U64(Micros(c.postedAt)) + b3;
    var b1 := Field(c.description) + b2;
    FieldRoundTrip(c.reference, b1);
    FieldRoundTrip(c.description, b2);
    U64RoundTrip(Micros(c.postedAt));
    WrapFits(Micros(c.postedAt));
    TailRoundTrip(c.reverses, c.postings);
    assert b2[..8] == U64(Micros(c.postedAt)) && b2[8..] == b3;
    var b := Preimage(prev, c);
    assert b[..|prev|] == prev && b[|prev|..] == Body(c);
  }

  /** Two transfers hashed over equal bytes, after prefixes of one length, are the same transfer. */
  lemma PreimageInjective(p: Text, c: Content, q: Text, d: Content)
    requires Encodable(c) && Encodable(d) && |p| == |q|
    requires Preimage(p, c) == Preimage(q, d)
    ensures p == q && Canonical(c) == Canonical(d)
  {
    DecodeEncode(p, c);
    DecodeEncode(q, d);
  }

  /** Validation is what makes a posting encodable: three capitals are never a direction word. */
  lemma ValidLegIsEncodable(p: Posting)
    requires ValidCurrency(p.amount.currency) && ValidDirection(p.dir) && |p.account| < TWO32
    ensures EncodableLeg(p)
  {
  }
}
