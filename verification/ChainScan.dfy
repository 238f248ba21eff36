/** checkChain: one pass over left-joined rows, grouping by transfer id, against the per-transfer definition. */
module ChainScan {
  import opened Int64Math
  import opened Domain
  import opened ChainEncoding
  import opened ChainHistory

  /** A row of transfers LEFT JOIN postings: no leg when the transfer has none. */
  datatype JoinRow = JoinRow(
    id: Int64,
    reference: Text,
    description: Text,
    at: int,
    prev: Text,
    hash: Text,
    reverses: Int64,
    leg: Option<Posting>)

  function Joined1(r: Row, leg: Option<Posting>): JoinRow {
    JoinRow(r.id, r.content.reference, r.content.description, r.content.postedAt, r.prev, r.hash, r.content.reverses, leg)
  }

  function LegRows(r: Row, ps: seq<Posting>): (rows: seq<JoinRow>)
    ensures |rows| == |ps|
  {
    seq(|ps|, i requires 0 <= i < |ps| => Joined1(r, Some(ps[i])))
  }

  function RowsOf(r: Row): seq<JoinRow> {
    if r.content.postings == [] then [Joined1(r, None)] else LegRows(r, r.content.postings)
  }

  /** The query's result: ordered by transfer id, then posting id. */
  function Joined(h: seq<Row>): seq<JoinRow> {
    if h == [] then [] else RowsOf(h[0]) + Joined(h[1..])
  }

  // ---- the pass as a fold

  /** The variables of the loop: the transfer being gathered, the hash expected next, the findings so far. */
  datatype Scan = Scan(cur: Option<Row>, expected: Text, problems: seq<Problem>)

  function Flush(sha: Sha, s: Scan): Scan {
    if s.cur.None? then s
    else s.(expected := s.cur.value.hash, problems := s.problems + ProblemsAt(sha, s.expected, s.cur.value))
  }

  function Opened(j: JoinRow): Row {
    Row(j.id, Content(j.reference, j.description, j.at, j.reverses, []), j.prev, j.hash)
  }

  function AddLeg(r: Row, leg: Option<Posting>): Row {
    if leg.None? then r else r.(content := r.content.(postings := r.content.postings + [leg.value]))
  }

  function Feed(sha: Sha, s: Scan, j: JoinRow): Scan {
    if s.cur.None? || j.id != s.cur.value.id then Flush(sha, s).(cur := Some(AddLeg(Opened(j), j.leg)))
    else s.(cur := Some(AddLeg(s.cur.value, j.leg)))
  }

  function FeedAll(sha: Sha, s: Scan, rows: seq<JoinRow>): Scan {
    if rows == [] then s else Feed(sha, FeedAll(sha, s, rows[..|rows| - 1]), rows[|rows| - 1])
  }

  lemma {:induction false} FeedAppend(sha: Sha, s: Scan, a: seq<JoinRow>, b: seq<JoinRow>)
    ensures FeedAll(sha, s, a + b) == FeedAll(sha, FeedAll(sha, s, a), b)
    decreases |b|
  {
    hide Feed;
    if b == [] {
      assert a + b == a;
    } else {
      var n := |b| - 1;
      assert (a + b)[..|a + b| - 1] == a + b[..n];
      FeedAppend(sha, s, a, b[..n]);
    }
  }

  function WithLegs(r: Row, ps: seq<Posting>): Row {
    r.(content := r.content.(postings := ps))
  }

  predicate Starts(s: Scan, id: Int64) {
    s.cur.None? || s.cur.value.id != id
  }

  lemma {:induction false} FeedLegs(sha: Sha, s: Scan, r: Row, ps: seq<Posting>)
    requires Starts(s, r.id) && ps != []
    ensures FeedAll(sha, s, LegRows(r, ps)) == Flush(sha, s).(cur := Some(WithLegs(r, ps)))
  {
    hide Flush;
    var n := |ps| - 1;
    assert LegRows(r, ps)[..n] == LegRows(r, ps[..n]);
    if n == 0 {
      assert [] + [ps[0]] == ps;
    } else {
      FeedLegs(sha, s, r, ps[..n]);
      assert ps[..n] + [ps[n]] == ps;
    }
  }

  /** All rows of one transfer: the previous one is flushed and this one gathered whole. */
  lemma FeedTransfer(sha: Sha, s: Scan, r: Row)
    requires Starts(s, r.id)
    ensures FeedAll(sha, s, RowsOf(r)) == Flush(sha, s).(cur := Some(r))
  {
    hide Flush;
    if r.content.postings == [] {
      assert RowsOf(r)[..0] == [];
    } else {
      FeedLegs(sha, s, r, r.content.postings);
    }
  }

  predicate DistinctIds(h: seq<Row>) {
    forall i, j :: 0 <= i < j < |h| ==> h[i].id != h[j].id
  }

  lemma {:induction false} FeedHistory(sha: Sha, s: Scan, h: seq<Row>)
    requires DistinctIds(h) && (h != [] ==> Starts(s, h[0].id))
    ensures Flush(sha, FeedAll(sha, s, Joined(h))).problems
         == Flush(sha, s).problems + ProblemsFrom(sha, Flush(sha, s).expected, h)
    decreases |h|
  {
    hide Digest, ProblemsAt, RowsOf;
    if h != [] {
      var t := Flush(sha, s).(cur := Some(h[0]));
      FeedTransfer(sha, s, h[0]);
      FeedAppend(sha, s, RowsOf(h[0]), Joined(h[1..]));
      FeedHistory(sha, t, h[1..]);
    }
  }

  const NOTHING_READ: Scan := Scan(None, [], [])

  /** The grouping pass with its final flush finds exactly the problems of the per-transfer definition. */
  lemma ScanFindsChainProblems(sha: Sha, h: seq<Row>)
    requires DistinctIds(h)
    ensures Flush(sha, FeedAll(sha, NOTHING_READ, Joined(h))).problems == ChainProblems(sha, h)
  {
    FeedHistory(sha, NOTHING_READ, h);
    assert [] + ChainProblems(sha, h) == ChainProblems(sha, h);
  }

  // ---- checkChain itself

  /** The flush closure: compares the gathered transfer with what the chain expects and with its own hash. */
  method FlushProblems(sha: Sha, cur: Row, expected: Text) returns (found: seq<Problem>)
    ensures found == ProblemsAt(sha, expected, cur)
  {
    hide Preimage, Hash;
    found := [];
    if cur.prev != expected {
      found := found + [ChainBreak(cur.id)];
    }
    var got := ChainDigest(sha, cur.prev, cur.content);
    if got != cur.hash {
      found := found + [HashMismatch(cur.id)];
    }
  }

  /** checkChain: the row loop with its mutable current transfer, and the flush after the last row. */
  method CheckChain(sha: Sha, rows: seq<JoinRow>, ghost h: seq<Row>) returns (problems: seq<Problem>)
    requires rows == Joined(h) && DistinctIds(h)
    ensures problems == ChainProblems(sha, h)
  {
    hide ProblemsAt, ProblemsFrom, Joined;
    var cur: Option<Row> := None;
    var expected: Text := [];
    problems := [];
    for i := 0 to |rows|
      invariant Scan(cur, expected, problems) == FeedAll(sha, NOTHING_READ, rows[..i])
    {
      var j := rows[i];
      assert rows[..i + 1][..i] == rows[..i];
      if cur.None? || j.id != cur.value.id {
        if cur.Some? {
          var found := FlushProblems(sha, cur.value, expected);
          problems := problems + found;
          expected := cur.value.hash;
        }
        cur := Some(Row(j.id, Content(j.reference, j.description, j.at, j.reverses, []), j.prev, j.hash));
      }
      if j.leg.Some? {
        var t := cur.value;
        cur := Some(t.(content := t.content.(postings := t.content.postings + [j.leg.value])));
      }
    }
    assert rows[..|rows|] == rows;
    if cur.Some? {
      var found := FlushProblems(sha, cur.value, expected);
      problems := problems + found;
    }
    ScanFindsChainProblems(sha, h);
  }
}
