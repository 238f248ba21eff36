/**
 The transfers table in id order, and what its hash chain proves.  Digest collisions are never
 assumed away: where a claim could fail only through one, the two colliding byte strings are exhibited.
 */
module ChainHistory {
  import opened Int64Math
  import opened Domain
  import opened ChainEncoding

  /** One row of transfers with its postings in id order. */
  datatype Row = Row(id: Int64, content: Content, prev: Text, hash: Text)

  datatype Problem =
    | ChainBreak(id: Int64)
    | HashMismatch(id: Int64)
    | UnbalancedTransfer(id: Int64, currency: Text, net: Int64)
    | BalanceDrift(account: Text, cached: Int64, fromPostings: Int64)
    | TrialBalance(currency: Text, sum: Int64)

  /** The hash the next transfer must carry as its prev_hash; no row gives a NULL, read as no bytes. */
  function TailHash(expected: Text, h: seq<Row>): Text {
    if h == [] then expected else h[|h| - 1].hash
  }

  function Digest(sha: Sha, r: Row): Text {
    Hash(sha, Preimage(r.prev, r.content))
  }

  /** Row i names the hash of the row before it and carries the digest of its own content. */
  ghost predicate LinkedAt(sha: Sha, expected: Text, h: seq<Row>, i: nat)
    requires i < |h|
  {
    && h[i].prev == (if i == 0 then expected else h[i - 1].hash)
    && h[i].hash == Digest(sha, h[i])
  }

  ghost predicate ChainedFrom(sha: Sha, expected: Text, h: seq<Row>) {
    forall i :: 0 <= i < |h| ==> LinkedAt(sha, expected, h, i)
  }

  /** One unforked chain: every row names the hash of the row before it and describes itself. */
  ghost predicate Chained(sha: Sha, h: seq<Row>) {
    ChainedFrom(sha, [], h)
  }

  // ---- the per-transfer definition of checkChain

  function ProblemsAt(sha: Sha, expected: Text, r: Row): seq<Problem> {
    (if r.prev != expected then [ChainBreak(r.id)] else [])
    + (if Digest(sha, r) != r.hash then [HashMismatch(r.id)] else [])
  }

  function ProblemsFrom(sha: Sha, expected: Text, h: seq<Row>): seq<Problem>
    decreases |h|
  {
    if h == [] then []
    else ProblemsAt(sha, expected, h[0]) + ProblemsFrom(sha, h[0].hash, h[1..])
  }

  function ChainProblems(sha: Sha, h: seq<Row>): seq<Problem> {
    ProblemsFrom(sha, [], h)
  }

  lemma ChainedSplit(sha: Sha, expected: Text, h: seq<Row>)
    requires h != []
    ensures ChainedFrom(sha, expected, h) <==>
            h[0].prev == expected && h[0].hash == Digest(sha, h[0]) && ChainedFrom(sha, h[0].hash, h[1..])
  {
    hide Digest;
    var t := h[1..];
    assert LinkedAt(sha, expected, h, 0) <==> h[0].prev == expected && h[0].hash == Digest(sha, h[0]);
    forall i | 0 <= i < |t|
      ensures LinkedAt(sha, h[0].hash, t, i) <==> LinkedAt(sha, expected, h, i + 1)
    {
    }
    if ChainedFrom(sha, h[0].hash, t) && LinkedAt(sha, expected, h, 0) {
      forall i | 0 <= i < |h|
        ensures LinkedAt(sha, expected, h, i)
      {
        if i > 0 {
          assert LinkedAt(sha, h[0].hash, t, i - 1);
        }
      }
    }
  }

  lemma {:induction false} SilentIffChained(sha: Sha, expected: Text, h: seq<Row>)
    ensures ProblemsFrom(sha, expected, h) == [] <==> ChainedFrom(sha, expected, h)
    decreases |h|
  {
    hide Digest;
    if h != [] {
      ChainedSplit(sha, expected, h);
      hide ChainedFrom;
      SilentIffChained(sha, h[0].hash, h[1..]);
    }
  }

  lemma {:induction false} ProblemsAppend(sha: Sha, expected: Text, h: seq<Row>, k: seq<Row>)
    ensures ProblemsFrom(sha, expected, h + k)
         == ProblemsFrom(sha, expected, h) + ProblemsFrom(sha, TailHash(expected, h), k)
    decreases |h|
  {
    hide Digest;
    if h == [] {
      assert h + k == k;
    } else {
      assert (h + k)[1..] == h[1..] + k;
      ProblemsAppend(sha, h[0].hash, h[1..], k);
      assert ProblemsAt(sha, expected, h[0]) + (ProblemsFrom(sha, h[0].hash, h[1..]) + ProblemsFrom(sha, TailHash(expected, h), k))
          == ProblemsFrom(sha, expected, h) + ProblemsFrom(sha, TailHash(expected, h), k);
    }
  }

  lemma ChainedAt(sha: Sha, h: seq<Row>, i: nat)
    requires Chained(sha, h) && i < |h|
    ensures h[i].prev == (if i == 0 then [] else h[i - 1].hash) && h[i].hash == Digest(sha, h[i])
  {
    hide Digest;
    assert LinkedAt(sha, [], h, i);
  }

  lemma ChainedPrefix(sha: Sha, h: seq<Row>, n: nat)
    requires Chained(sha, h) && n <= |h|
    ensures Chained(sha, h[..n])
  {
    hide Digest;
    forall i | 0 <= i < n
      ensures LinkedAt(sha, [], h[..n], i)
    {
      assert LinkedAt(sha, [], h, i);
    }
  }

  lemma ChainedSuffix(sha: Sha, h: seq<Row>, n: nat)
    requires Chained(sha, h) && n < |h|
    ensures ChainedFrom(sha, h[n].prev, h[n..])
  {
    hide Digest;
    forall i | 0 <= i < |h| - n
      ensures LinkedAt(sha, h[n].prev, h[n..], i)
    {
      assert LinkedAt(sha, [], h, n + i);
    }
  }

  lemma DigestLength(sha: Sha, r: Row)
    ensures |Digest(sha, r)| == 32
  {
  }

  // ---- what the last hash determines

  ghost predicate AllEncodable(h: seq<Row>) {
    forall i :: 0 <= i < |h| ==> Encodable(h[i].content)
  }

  /** Two distinct byte strings, hashed at position i of the two histories, with one digest. */
  ghost predicate CollisionAt(sha: Sha, h: seq<Row>, k: seq<Row>, i: nat) {
    && i < |h| && i < |k|
    && Preimage(h[i].prev, h[i].content) != Preimage(k[i].prev, k[i].content)
    && Digest(sha, h[i]) == Digest(sha, k[i])
  }

  ghost predicate SameRow(r: Row, s: Row) {
    r.prev == s.prev && r.hash == s.hash && Canonical(r.content) == Canonical(s.content)
  }

  /**
   Two verified histories of one length that end in the same hash hold the same transfers throughout,
   or one position shows a collision.
   */
  lemma {:induction false} LastHashDeterminesHistory(sha: Sha, h: seq<Row>, k: seq<Row>)
    requires Chained(sha, h) && Chained(sha, k)
    requires AllEncodable(h) && AllEncodable(k)
    requires |h| == |k| && TailHash([], h) == TailHash([], k)
    ensures (forall i :: 0 <= i < |h| ==> SameRow(h[i], k[i])) || (exists i: nat :: CollisionAt(sha, h, k, i))
  {
    hide Digest, Preimage, ChainedFrom, Encodable, Canonical;
    if h != [] {
      var n := |h| - 1;
      ChainedAt(sha, h, n);
      ChainedAt(sha, k, n);
      if Preimage(h[n].prev, h[n].content) != Preimage(k[n].prev, k[n].content) {
        assert CollisionAt(sha, h, k, n);
      } else {
        if n > 0 {
          ChainedAt(sha, h, n - 1);
          ChainedAt(sha, k, n - 1);
          DigestLength(sha, h[n - 1]);
          DigestLength(sha, k[n - 1]);
        }
        PreimageInjective(h[n].prev, h[n].content, k[n].prev, k[n].content);
        ChainedPrefix(sha, h, n);
        ChainedPrefix(sha, k, n);
        assert AllEncodable(h[..n]) && AllEncodable(k[..n]);
        LastHashDeterminesHistory(sha, h[..n], k[..n]);
        if j: nat :| CollisionAt(sha, h[..n], k[..n], j) {
          assert CollisionAt(sha, h, k, j);
        } else {
          forall i | 0 <= i < |h|
            ensures SameRow(h[i], k[i])
          {
            if i < n {
              assert SameRow(h[..n][i], k[..n][i]);
            }
          }
        }
      }
    }
  }

  // ---- where tampering shows

  /** The same rows with the hashed content rewritten at will, but ids and both hash columns left alone. */
  ghost predicate Rewritten(h: seq<Row>, k: seq<Row>) {
    && |h| == |k|
    && forall i :: 0 <= i < |h| ==> k[i] == h[i].(content := k[i].content)
  }

  ghost function RewrittenIds(h: seq<Row>, k: seq<Row>): seq<Problem>
    requires |h| == |k|
  {
    if h == [] then []
    else
      (if Canonical(h[0].content) != Canonical(k[0].content) then [HashMismatch(h[0].id)] else [])
      + RewrittenIds(h[1..], k[1..])
  }

  lemma CanonicalHashesAlike(prev: Text, c: Content, d: Content)
    requires Canonical(c) == Canonical(d)
    ensures Preimage(prev, c) == Preimage(prev, d)
  {
  }

  lemma RewriteShowsAt(sha: Sha, r: Row, t: Row)
    requires r.hash == Digest(sha, r) && t == r.(content := t.content)
    requires Encodable(r.content) && Encodable(t.content)
    requires Preimage(r.prev, r.content) == Preimage(t.prev, t.content) || Digest(sha, r) != Digest(sha, t)
    ensures Digest(sha, t) == t.hash <==> Canonical(r.content) == Canonical(t.content)
  {
    hide Preimage;
    if Canonical(r.content) == Canonical(t.content) {
      CanonicalHashesAlike(r.prev, r.content, t.content);
    } else if Preimage(r.prev, r.content) == Preimage(t.prev, t.content) {
      PreimageInjective(r.prev, r.content, t.prev, t.content);
    }
  }

  lemma {:induction false} RewriteShowsFrom(sha: Sha, expected: Text, h: seq<Row>, k: seq<Row>)
    requires ChainedFrom(sha, expected, h) && Rewritten(h, k)
    requires AllEncodable(h) && AllEncodable(k)
    requires forall i: nat :: !CollisionAt(sha, h, k, i)
    ensures ProblemsFrom(sha, expected, k) == RewrittenIds(h, k)
    decreases |h|
  {
    hide Digest, Preimage, ChainedFrom, Encodable, Canonical;
    if h != [] {
      assert !CollisionAt(sha, h, k, 0);
      ChainedSplit(sha, expected, h);
      RewriteShowsAt(sha, h[0], k[0]);
      forall i: nat
        ensures !CollisionAt(sha, h[1..], k[1..], i)
      {
        assert !CollisionAt(sha, h, k, i + 1);
      }
      RewriteShowsFrom(sha, h[0].hash, h[1..], k[1..]);
    }
  }

  /**
   Rewriting any set of transfers in a verified history, hashes left alone, is reported as a hash
   mismatch at exactly those transfers and nowhere as a chain break, unless a rewrite is a collision.
   */
  lemma RewriteIsLocated(sha: Sha, h: seq<Row>, k: seq<Row>)
    requires Chained(sha, h) && Rewritten(h, k)
    requires AllEncodable(h) && AllEncodable(k)
    ensures ChainProblems(sha, k) == RewrittenIds(h, k) || exists i: nat :: CollisionAt(sha, h, k, i)
  {
    if forall i: nat :: !CollisionAt(sha, h, k, i) {
      RewriteShowsFrom(sha, [], h, k);
    }
  }

  /**
   Deleting one transfer of a verified history breaks the chain at exactly its successor.  It goes
   unseen only if the deleted row was the last, or its own hash equals the one before it.
   */
  lemma DeletionIsLocated(sha: Sha, h: seq<Row>, i: nat)
    requires Chained(sha, h) && i < |h|
    ensures ChainProblems(sha, h[..i] + h[i + 1..])
         == if i + 1 == |h| || h[i].hash == h[i].prev then [] else [ChainBreak(h[i + 1].id)]
  {
    hide Digest;
    var a, b := h[..i], h[i + 1..];
    ChainedPrefix(sha, h, i);
    SilentIffChained(sha, [], a);
    ProblemsAppend(sha, [], a, b);
    assert LinkedAt(sha, [], h, i);
    if b != [] {
      assert LinkedAt(sha, [], h, i + 1);
      ChainedSuffix(sha, h, i + 1);
      ChainedSplit(sha, b[0].prev, b);
      SilentIffChained(sha, b[0].hash, b[1..]);
    }
  }

  /** The first transfer can never be deleted unseen while another follows: a hash is never empty. */
  lemma FirstDeletionIsSeen(sha: Sha, h: seq<Row>)
    requires Chained(sha, h) && |h| >= 2
    ensures ChainProblems(sha, h[1..]) == [ChainBreak(h[1].id)]
  {
    hide Digest;
    DeletionIsLocated(sha, h, 0);
    assert h[..0] + h[1..] == h[1..];
    assert LinkedAt(sha, [], h, 0);
    DigestLength(sha, h[0]);
  }

  lemma ChainedAppend(sha: Sha, h: seq<Row>, r: Row)
    requires Chained(sha, h)
    requires r.prev == TailHash([], h) && r.hash == Digest(sha, r)
    ensures Chained(sha, h + [r])
  {
    hide Digest;
    var g := h + [r];
    forall i | 0 <= i < |g|
      ensures LinkedAt(sha, [], g, i)
    {
      if i < |h| {
        assert LinkedAt(sha, [], h, i);
      }
    }
  }
}
