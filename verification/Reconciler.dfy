/** Reconcile: one account's movements against an outside record, matched by reference and nothing else. */
module Reconciler {
  import opened Int64Math
  import opened Sums
  import opened Domain
  import opened ChainEncoding
  import opened ChainHistory
  import opened Books
  import opened BooksInvariants
  import opened History

  datatype External = External(reference: Text, amount: Money, date: int)

  datatype Line = Line(reference: Text, amount: Money, postedAt: int)

  datatype Match = Match(reference: Text, ledger: Money, external: Money)

  datatype Report = Report(
    matched: seq<Match>,
    amountMismatch: seq<Match>,
    missingInLedger: seq<External>,
    missingExternally: seq<Line>,
    ledgerTotal: Int64,
    externalTotal: Int64,
    difference: Int64)
  {
    predicate Clean() {
      amountMismatch == [] && missingInLedger == [] && missingExternally == []
    }
  }

  // ---- the ledger side

  predicate InPeriod(r: Row, account: Text, from: int, to: int) {
    Micros(from) <= r.content.postedAt <= Micros(to) && account in AccountsOf(r.content.postings)
  }

  /** The transfer's net movement on the account's normal side. */
  ghost function LineOf(r: Row, account: Text, a: Account): Line {
    Line(r.content.reference,
         Money(Normalise(Wrap(Delta(r.content.postings, account)), a.typ), a.currency),
         r.content.postedAt)
  }

  ghost function LedgerSide(h: seq<Row>, account: Text, a: Account, from: int, to: int): map<Text, Line> {
    if h == [] then map[]
    else
      var rest, r := LedgerSide(h[..|h| - 1], account, a, from, to), h[|h| - 1];
      if InPeriod(r, account, from, to) then rest[r.content.reference := LineOf(r, account, a)] else rest
  }

  /** Because references are unique, the map keyed by reference loses no transfer of the period. */
  lemma {:induction false} LedgerSideMeans(h: seq<Row>, account: Text, a: Account, from: int, to: int)
    requires Numbered(h)
    ensures forall i :: 0 <= i < |h| && InPeriod(h[i], account, from, to) ==>
              && h[i].content.reference in LedgerSide(h, account, a, from, to)
              && LedgerSide(h, account, a, from, to)[h[i].content.reference] == LineOf(h[i], account, a)
    ensures forall k :: k in LedgerSide(h, account, a, from, to) ==>
              exists i :: 0 <= i < |h| && InPeriod(h[i], account, from, to) && h[i].content.reference == k
  {
    hide InPeriod, LineOf;
    if h != [] {
      LedgerSideMeans(h[..|h| - 1], account, a, from, to);
    }
  }

  ghost function Amounts(side: map<Text, Line>): map<Text, int> {
    map k | k in side :: side[k].amount.amount as int
  }

  ghost predicate Scans(h: seq<Row>, account: Text, from: int, to: int) {
    forall i :: 0 <= i < |h| && InPeriod(h[i], account, from, to) ==> Fits(Delta(h[i].content.postings, account))
  }

  /** The rows of the period, grouped by transfer, into a map by reference and a running int64 total. */
  method ReadLedger(h: seq<Row>, account: Text, a: Account, from: int, to: int)
    returns (side: Result<map<Text, Line>>, total: Int64)
    requires Numbered(h)
    ensures side.Ok? <==> Scans(h, account, from, to)
    ensures side.Err? ==> side.error == DatabaseError
    ensures side.Ok? ==>
              && side.value == LedgerSide(h, account, a, from, to)
              && total == Wrap(SumMap(Amounts(side.value)))
  {
    hide InPeriod, Wrap, SumMap, Delta;
    var lines: map<Text, Line> := map[];
    total := 0;
    WrapFits(0);
    SumMapZero(Amounts(map[]));
    for i := 0 to |h|
      invariant lines == LedgerSide(h[..i], account, a, from, to)
      invariant total == Wrap(SumMap(Amounts(lines)))
      invariant Scans(h[..i], account, from, to)
    {
      var r := h[i];
      assert h[..i + 1] == h[..i] + [r] && (h[..i] + [r])[..i] == h[..i];
      if InPeriod(r, account, from, to) {
        var raw := SumPostings(OfAccount(account), r.content.postings);
        assert raw == Delta(r.content.postings, account) by { DeltaIsSum(r.content.postings, account); }
        if !Fits(raw) {
          return Err(DatabaseError), total;
        }
        WrapFits(raw);
        var line := Line(r.content.reference, Money(Normalise(raw, a.typ), a.currency), r.content.postedAt);
        FreshLine(h, i, account, a, from, to);
        SumMapPut(Amounts(lines), line.reference, line.amount.amount);
        assert Amounts(lines[line.reference := line]) == Amounts(lines)[line.reference := line.amount.amount as int];
        WrapAdd(SumMap(Amounts(lines)), line.amount.amount);
        lines := lines[line.reference := line];
        total := Wrap(total + line.amount.amount);
      }
    }
    assert h[..|h|] == h;
    side := Ok(lines);
  }

  lemma DeltaIsSum(ps: seq<Posting>, account: Text)
    ensures Delta(ps, account) == Sum(OfAccount(account), ps)
  {
  }

  lemma FreshLine(h: seq<Row>, i: nat, account: Text, a: Account, from: int, to: int)
    requires Numbered(h) && i < |h|
    ensures h[i].content.reference !in LedgerSide(h[..i], account, a, from, to)
  {
    LedgerSideMeans(h[..i], account, a, from, to);
  }

  // ---- the external side

  function References(ext: seq<External>): set<Text> {
    set e | e in ext :: e.reference
  }

  /** The first entry that refuses the whole record, and why. */
  function FirstExternalError(ext: seq<External>, currency: Text): Option<Error> {
    if ext == [] then None
    else
      var rest, e := ext[..|ext| - 1], ext[|ext| - 1];
      if FirstExternalError(rest, currency).Some? then FirstExternalError(rest, currency)
      else if e.reference == [] then Some(MissingReference)
      else if e.amount.currency != currency then Some(CurrencyMismatch)
      else if e.reference in References(rest) then Some(DuplicateReference)
      else None
  }

  ghost predicate Distinct(ext: seq<External>) {
    forall i, j :: 0 <= i < j < |ext| ==> ext[i].reference != ext[j].reference
  }

  lemma {:induction false} RecordAcceptedIff(ext: seq<External>, currency: Text)
    ensures FirstExternalError(ext, currency).None? <==>
              Distinct(ext) && forall e :: e in ext ==> e.reference != [] && e.amount.currency == currency
  {
    if ext != [] {
      hide FirstExternalError, Distinct, References;
      var rest, e := ext[..|ext| - 1], ext[|ext| - 1];
      assert ext == rest + [e];
      RecordAcceptedIff(rest, currency);
      ErrorExtend(rest, e, currency);
      DistinctExtend(rest, e);
    }
  }

  lemma DistinctExtend(rest: seq<External>, e: External)
    ensures Distinct(rest + [e]) <==> Distinct(rest) && e.reference !in References(rest)
  {
    if Distinct(rest + [e]) {
      NewReference(rest, e);
    }
    if e.reference !in References(rest) {
      forall i | 0 <= i < |rest|
        ensures rest[i].reference != e.reference
      {
        assert rest[i] in rest;
      }
    }
  }

  function Unrecorded(side: map<Text, Line>, ext: seq<External>): seq<External> {
    if ext == [] then []
    else
      var rest, e := ext[..|ext| - 1], ext[|ext| - 1];
      Unrecorded(side, rest) + if e.reference in side then [] else [e]
  }

  predicate PairedAs(side: map<Text, Line>, e: External, agree: bool) {
    e.reference in side && (side[e.reference].amount.amount == e.amount.amount) == agree
  }

  /** The references seen on both sides whose amounts agree, or disagree, in file order. */
  function Paired(side: map<Text, Line>, ext: seq<External>, agree: bool): seq<Match> {
    if ext == [] then []
    else
      var rest, e := ext[..|ext| - 1], ext[|ext| - 1];
      Paired(side, rest, agree)
      + if PairedAs(side, e, agree) then [Match(e.reference, side[e.reference].amount, e.amount)] else []
  }

  lemma BucketsExtend(side: map<Text, Line>, rest: seq<External>, e: External)
    ensures Unrecorded(side, rest + [e]) == Unrecorded(side, rest) + if e.reference in side then [] else [e]
    ensures Paired(side, rest + [e], true)
         == Paired(side, rest, true)
          + if PairedAs(side, e, true) then [Match(e.reference, side[e.reference].amount, e.amount)] else []
    ensures Paired(side, rest + [e], false)
         == Paired(side, rest, false)
          + if PairedAs(side, e, false) then [Match(e.reference, side[e.reference].amount, e.amount)] else []
  {
    assert (rest + [e])[..|rest|] == rest;
  }

  lemma ReferencesExtend(rest: seq<External>, e: External)
    ensures References(rest + [e]) == References(rest) + {e.reference}
  {
  }

  lemma ErrorExtend(rest: seq<External>, e: External, currency: Text)
    ensures FirstExternalError(rest + [e], currency)
         == if FirstExternalError(rest, currency).Some? then FirstExternalError(rest, currency)
            else if e.reference == [] then Some(MissingReference)
            else if e.amount.currency != currency then Some(CurrencyMismatch)
            else if e.reference in References(rest) then Some(DuplicateReference)
            else None
  {
    assert (rest + [e])[..|rest|] == rest;
  }

  ghost function ExternalSum(ext: seq<External>): int {
    if ext == [] then 0 else ExternalSum(ext[..|ext| - 1]) + ext[|ext| - 1].amount.amount
  }

  // ---- what only the ledger recorded

  predicate Before(x: Line, y: Line) {
    x.postedAt < y.postedAt || (x.postedAt == y.postedAt && Less(x.reference, y.reference))
  }

  ghost predicate InOrder(lines: seq<Line>) {
    forall i, j :: 0 <= i < j < |lines| ==> Before(lines[i], lines[j])
  }

  lemma BeforeIsTransitive(x: Line, y: Line, z: Line)
    requires Before(x, y) && Before(y, z)
    ensures Before(x, z)
  {
    if x.postedAt == y.postedAt == z.postedAt {
      LessIsTransitive(x.reference, y.reference, z.reference);
    }
  }

  lemma BeforeIsTotal(x: Line, y: Line)
    ensures !(Before(x, y) && Before(y, x))
    ensures x.reference != y.reference ==> Before(x, y) || Before(y, x)
  {
    LessIsTotal(x.reference, y.reference);
  }

  ghost predicate Lists(lines: seq<Line>, left: map<Text, Line>) {
    forall line :: line in lines <==> line.reference in left && left[line.reference] == line
  }

  ghost predicate KeyedByReference(side: map<Text, Line>) {
    forall k :: k in side ==> side[k].reference == k
  }

  method InsertLine(lines: seq<Line>, line: Line) returns (r: seq<Line>)
    requires InOrder(lines) && forall x :: x in lines ==> x.reference != line.reference
    ensures InOrder(r) && forall x :: x in r <==> x in lines || x == line
  {
    hide Before;
    var i := 0;
    while i < |lines| && Before(lines[i], line)
      invariant 0 <= i <= |lines|
      invariant forall j :: 0 <= j < i ==> Before(lines[j], line)
    {
      i := i + 1;
    }
    r := lines[..i] + [line] + lines[i..];
    assert lines == lines[..i] + lines[i..];
    forall j | i <= j < |lines|
      ensures Before(line, lines[j])
    {
      BeforeIsTotal(lines[i], line);
      if j > i {
        BeforeIsTransitive(line, lines[i], lines[j]);
      }
    }
  }

  /** The lines left in the map, taken in any order and sorted. */
  method SortLeft(side: map<Text, Line>) returns (lines: seq<Line>)
    requires KeyedByReference(side)
    ensures InOrder(lines) && Lists(lines, side)
  {
    lines := [];
    var left := side;
    while left != map[]
      invariant left.Keys <= side.Keys && forall k :: k in left ==> left[k] == side[k]
      invariant InOrder(lines)
      invariant forall x :: x in lines <==> x.reference in side && x.reference !in left && side[x.reference] == x
      decreases |left|
    {
      var k :| k in left;
      lines := InsertLine(lines, left[k]);
      left := left - {k};
    }
  }

  /** Sorting erases the order in which the map was walked: only one sequence lists it in order. */
  lemma {:induction false} OrderIsUnique(x: seq<Line>, y: seq<Line>)
    requires InOrder(x) && InOrder(y) && forall line :: line in x <==> line in y
    ensures x == y
    decreases |x|
  {
    hide Before, InOrder;
    EmptyTogether(x, y);
    if x != [] {
      FirstIsLeast(x, y);
      forall line
        ensures line in x[1..] <==> line in y[1..]
      {
        TailDropsFirst(x, line);
        TailDropsFirst(y, line);
      }
      TailInOrder(x);
      TailInOrder(y);
      OrderIsUnique(x[1..], y[1..]);
      assert x == [x[0]] + x[1..] && y == [y[0]] + y[1..];
    }
  }

  lemma EmptyTogether(x: seq<Line>, y: seq<Line>)
    requires forall line :: line in x <==> line in y
    ensures x == [] <==> y == []
  {
    if x != [] {
      assert x[0] in x;
    }
    if y != [] {
      assert y[0] in y;
    }
  }

  lemma TailInOrder(x: seq<Line>)
    requires x != [] && InOrder(x)
    ensures InOrder(x[1..])
  {
    hide Before;
  }

  lemma FirstIsLeast(x: seq<Line>, y: seq<Line>)
    requires x != [] && y != [] && InOrder(x) && InOrder(y) && forall line :: line in x <==> line in y
    ensures x[0] == y[0]
  {
    hide Before;
    assert x[0] in y && y[0] in x;
    BeforeIsTotal(x[0], y[0]);
  }

  lemma TailDropsFirst(x: seq<Line>, line: Line)
    requires x != [] && InOrder(x)
    ensures line in x[1..] <==> line in x && line != x[0]
  {
    hide Before;
    BeforeIsTotal(line, line);
    if line in x[1..] {
      var i :| 0 <= i < |x[1..]| && x[1..][i] == line;
      assert Before(x[0], x[i + 1]);
    }
  }

  // ---- the comparison

  /** What the loop over the record leaves in the buckets and in the map. */
  method MatchRecord(side: map<Text, Line>, currency: Text, ext: seq<External>)
    returns (error: Option<Error>, report: Report, left: map<Text, Line>)
    ensures error == FirstExternalError(ext, currency)
    ensures error.None? ==>
              && report.matched == Paired(side, ext, true)
              && report.amountMismatch == Paired(side, ext, false)
              && report.missingInLedger == Unrecorded(side, ext)
              && report.missingExternally == []
              && report.externalTotal == Wrap(ExternalSum(ext))
              && left == side - References(ext)
  {
    hide Wrap, Paired, Unrecorded, References, FirstExternalError, ExternalSum;
    NoRecord(side, currency);
    assert ext[..0] == [];
    var matched: seq<Match>, mismatch: seq<Match>, missing: seq<External> := [], [], [];
    var total: Int64, seen: set<Text> := 0, {};
    WrapFits(0);
    left := side;
    report := Report([], [], [], [], 0, 0, 0);
    for i := 0 to |ext|
      invariant FirstExternalError(ext[..i], currency).None?
      invariant matched == Paired(side, ext[..i], true) && mismatch == Paired(side, ext[..i], false)
      invariant missing == Unrecorded(side, ext[..i])
      invariant total == Wrap(ExternalSum(ext[..i]))
      invariant seen == References(ext[..i])
      invariant left == side - seen
    {
      var e := ext[i];
      assert ext[..i + 1] == ext[..i] + [e];
      ErrorExtend(ext[..i], e, currency);
      error := if e.reference == [] then Some(MissingReference)
      else if e.amount.currency != currency then Some(CurrencyMismatch)
      else if e.reference in seen then Some(DuplicateReference)
      else None;
      assert error == FirstExternalError(ext[..i + 1], currency);
      if error.Some? {
        EarlierErrorWins(ext, i + 1, currency);
        return;
      }
      BucketsExtend(side, ext[..i], e);
      ReferencesExtend(ext[..i], e);
      ExternalSumSnoc(ext[..i], e);
      seen := seen + {e.reference};
      WrapAdd(ExternalSum(ext[..i]), e.amount.amount);
      total := Wrap(total + e.amount.amount);
      if e.reference !in left {
        missing := missing + [e];
      } else if left[e.reference].amount.amount != e.amount.amount {
        mismatch := mismatch + [Match(e.reference, left[e.reference].amount, e.amount)];
      } else {
        matched := matched + [Match(e.reference, left[e.reference].amount, e.amount)];
      }
      left := left - {e.reference};
    }
    assert ext[..|ext|] == ext;
    error := None;
    report := Report(matched, mismatch, missing, [], 0, total, 0);
  }

  lemma NoRecord(side: map<Text, Line>, currency: Text)
    ensures Paired(side, [], true) == Paired(side, [], false) == [] && Unrecorded(side, []) == []
    ensures ExternalSum([]) == 0 && FirstExternalError([], currency).None?
    ensures References([]) == {} && side - References([]) == side
  {
  }

  lemma {:induction false} EarlierErrorWins(ext: seq<External>, n: nat, currency: Text)
    requires n <= |ext| && FirstExternalError(ext[..n], currency).Some?
    ensures FirstExternalError(ext, currency) == FirstExternalError(ext[..n], currency)
    decreases |ext|
  {
    if n < |ext| {
      assert ext[..|ext| - 1][..n] == ext[..n];
      EarlierErrorWins(ext[..|ext| - 1], n, currency);
    } else {
      assert ext[..n] == ext;
    }
  }

  /** Every field of a report, as the two sides determine it. */
  ghost predicate Reports(side: map<Text, Line>, ext: seq<External>, r: Report) {
    && r.matched == Paired(side, ext, true)
    && r.amountMismatch == Paired(side, ext, false)
    && r.missingInLedger == Unrecorded(side, ext)
    && InOrder(r.missingExternally) && Lists(r.missingExternally, side - References(ext))
    && r.ledgerTotal == Wrap(SumMap(Amounts(side)))
    && r.externalTotal == Wrap(ExternalSum(ext))
    && r.difference == Wrap(r.ledgerTotal - r.externalTotal)
  }

  method Reconcile(db: Db, account: Text, from: int, to: int, ext: seq<External>) returns (report: Result<Report>)
    requires Numbered(db.transfers)
    ensures report == Err(UnknownAccount) <==> account !in db.accounts
    ensures account in db.accounts && !Scans(db.transfers, account, from, to) ==> report == Err(DatabaseError)
    ensures account in db.accounts && Scans(db.transfers, account, from, to) ==>
              var a := db.accounts[account];
              match FirstExternalError(ext, a.currency)
              case Some(error) => report == Err(error)
              case None =>
                && report.Ok? && Distinct(ext)
                && Reports(LedgerSide(db.transfers, account, a, from, to), ext, report.value)
  {
    hide Scans, LedgerSide, Paired, Unrecorded, Wrap, Before;
    if account !in db.accounts {
      return Err(UnknownAccount);
    }
    var a := db.accounts[account];
    var read, ledgerTotal := ReadLedger(db.transfers, account, a, from, to);
    ErrorsOfRecord(ext, a.currency);
    if read.Err? {
      return Err(read.error);
    }
    var side := read.value;
    var error, r, left := MatchRecord(side, a.currency, ext);
    if error.Some? {
      return Err(error.value);
    }
    RecordAcceptedIff(ext, a.currency);
    LedgerSideIsKeyed(db.transfers, account, a, from, to);
    var missing := SortLeft(left);
    report := Ok(r.(missingExternally := missing,
                    ledgerTotal := ledgerTotal,
                    difference := Wrap(ledgerTotal - r.externalTotal)));
  }

  lemma {:induction false} ErrorsOfRecord(ext: seq<External>, currency: Text)
    ensures FirstExternalError(ext, currency) != Some(UnknownAccount)
    ensures FirstExternalError(ext, currency) != Some(DatabaseError)
  {
    if ext != [] {
      ErrorsOfRecord(ext[..|ext| - 1], currency);
    }
  }

  lemma {:induction false} LedgerSideIsKeyed(h: seq<Row>, account: Text, a: Account, from: int, to: int)
    ensures KeyedByReference(LedgerSide(h, account, a, from, to))
  {
    if h != [] {
      LedgerSideIsKeyed(h[..|h| - 1], account, a, from, to);
    }
  }

  // ---- what a report means

  /** The report does not depend on the order in which the map was walked. */
  lemma ReportIsDetermined(side: map<Text, Line>, ext: seq<External>, r: Report, s: Report)
    requires Reports(side, ext, r) && Reports(side, ext, s)
    ensures r == s
  {
    hide Paired, Unrecorded, Wrap, Before, SumMap;
    OrderIsUnique(r.missingExternally, s.missingExternally);
  }

  /** Matching one more entry takes its line, if there is one, out of the map. */
  lemma LeftExtend(side: map<Text, Line>, rest: seq<External>, e: External)
    requires e.reference !in References(rest)
    ensures var left := side - References(rest);
            && side - References(rest + [e]) == left - {e.reference}
            && (e.reference in left <==> e.reference in side)
            && (e.reference in side ==> left[e.reference] == side[e.reference])
  {
    ReferencesExtend(rest, e);
    hide References;
    assert side - References(rest + [e]) == (side - References(rest)) - {e.reference};
  }

  // ---- every entry of either side in exactly one bucket, at its own amount

  type Amounted = (Text, Money)

  function LedgerPairs(matches: seq<Match>): seq<Amounted> {
    if matches == [] then []
    else LedgerPairs(matches[..|matches| - 1]) + [(matches[|matches| - 1].reference, matches[|matches| - 1].ledger)]
  }

  function ExternalPairs(matches: seq<Match>): seq<Amounted> {
    if matches == [] then []
    else ExternalPairs(matches[..|matches| - 1]) + [(matches[|matches| - 1].reference, matches[|matches| - 1].external)]
  }

  function EntryPairs(ext: seq<External>): seq<Amounted> {
    if ext == [] then [] else EntryPairs(ext[..|ext| - 1]) + [(ext[|ext| - 1].reference, ext[|ext| - 1].amount)]
  }

  function LinePairs(lines: seq<Line>): seq<Amounted> {
    if lines == [] then [] else LinePairs(lines[..|lines| - 1]) + [(lines[|lines| - 1].reference, lines[|lines| - 1].amount)]
  }

  /** The ledger's side, one reference and amount a transfer. */
  function SidePairs(side: map<Text, Line>): set<Amounted> {
    set k | k in side :: (k, side[k].amount)
  }

  lemma PairsExtend(matches: seq<Match>, m: Match)
    ensures multiset(LedgerPairs(matches + [m])) == multiset(LedgerPairs(matches)) + multiset{(m.reference, m.ledger)}
    ensures multiset(ExternalPairs(matches + [m])) == multiset(ExternalPairs(matches)) + multiset{(m.reference, m.external)}
  {
    assert (matches + [m])[..|matches|] == matches;
  }

  lemma EntryPairsExtend(ext: seq<External>, e: External)
    ensures multiset(EntryPairs(ext + [e])) == multiset(EntryPairs(ext)) + multiset{(e.reference, e.amount)}
  {
    assert (ext + [e])[..|ext|] == ext;
  }

  lemma LinePairsExtend(lines: seq<Line>, line: Line)
    ensures multiset(LinePairs(lines + [line])) == multiset(LinePairs(lines)) + multiset{(line.reference, line.amount)}
  {
    assert (lines + [line])[..|lines|] == lines;
  }

  lemma PairOfSide(left: map<Text, Line>, p: Amounted)
    ensures p in SidePairs(left) <==> p.0 in left && left[p.0].amount == p.1
  {
    if p.0 in left && left[p.0].amount == p.1 {
      assert p == (p.0, left[p.0].amount);
    }
  }

  lemma SidePairsWithout(left: map<Text, Line>, k: Text)
    ensures multiset(SidePairs(left))
         == multiset(SidePairs(left - {k})) + if k in left then multiset{(k, left[k].amount)} else multiset{}
  {
    if k in left {
      var rest, x := SidePairs(left - {k}), (k, left[k].amount);
      forall p
        ensures p in SidePairs(left) <==> p in rest || p == x
        ensures p in rest ==> p != x
      {
        PairOfSide(left, p);
        PairOfSide(left - {k}, p);
      }
      assert SidePairs(left) == rest + {x};
      assert multiset(rest + {x}) == multiset(rest) + multiset{x};
    } else {
      assert left - {k} == left;
    }
  }

  /** One more entry adds its pair, and its line's if it has one, to exactly one bucket. */
  lemma BucketsGrow(side: map<Text, Line>, rest: seq<External>, e: External)
    ensures multiset(LedgerPairs(Paired(side, rest + [e], true))) + multiset(LedgerPairs(Paired(side, rest + [e], false)))
         == multiset(LedgerPairs(Paired(side, rest, true))) + multiset(LedgerPairs(Paired(side, rest, false)))
          + (if e.reference in side then multiset{(e.reference, side[e.reference].amount)} else multiset{})
    ensures multiset(ExternalPairs(Paired(side, rest + [e], true))) + multiset(ExternalPairs(Paired(side, rest + [e], false)))
          + multiset(EntryPairs(Unrecorded(side, rest + [e])))
         == multiset(ExternalPairs(Paired(side, rest, true))) + multiset(ExternalPairs(Paired(side, rest, false)))
          + multiset(EntryPairs(Unrecorded(side, rest))) + multiset{(e.reference, e.amount)}
  {
    hide Paired, Unrecorded, LedgerPairs, ExternalPairs, EntryPairs;
    BucketsExtend(side, rest, e);
    if e.reference in side {
      var m := Match(e.reference, side[e.reference].amount, e.amount);
      var agree := side[e.reference].amount.amount == e.amount.amount;
      PairsExtend(Paired(side, rest, agree), m);
      assert Paired(side, rest, !agree) + [] == Paired(side, rest, !agree);
      assert Unrecorded(side, rest) + [] == Unrecorded(side, rest);
    } else {
      EntryPairsExtend(Unrecorded(side, rest), e);
      assert Paired(side, rest, true) + [] == Paired(side, rest, true);
      assert Paired(side, rest, false) + [] == Paired(side, rest, false);
    }
  }

  lemma {:induction false} MatchedAndLeft(side: map<Text, Line>, ext: seq<External>)
    requires Distinct(ext)
    ensures multiset(LedgerPairs(Paired(side, ext, true))) + multiset(LedgerPairs(Paired(side, ext, false)))
          + multiset(SidePairs(side - References(ext))) == multiset(SidePairs(side))
  {
    if ext == [] {
      NoRecord(side, []);
    } else {
      hide Distinct, Paired, Unrecorded, References, LedgerPairs, SidePairs;
      var rest, e := ext[..|ext| - 1], ext[|ext| - 1];
      assert ext == rest + [e];
      NewReference(rest, e);
      MatchedAndLeft(side, rest);
      BucketsGrow(side, rest, e);
      LeftExtend(side, rest, e);
      SidePairsWithout(side - References(rest), e.reference);
    }
  }

  lemma {:induction false} ListedOnce(lines: seq<Line>, left: map<Text, Line>)
    requires InOrder(lines) && Lists(lines, left) && KeyedByReference(left)
    ensures multiset(LinePairs(lines)) == multiset(SidePairs(left))
    decreases |lines|
  {
    if lines == [] {
      NothingLeft(lines, left);
      assert SidePairs(left) == {};
    } else {
      hide Before, Lists, InOrder, SidePairs, LinePairs;
      var init, line := lines[..|lines| - 1], lines[|lines| - 1];
      assert lines == init + [line];
      ListsWithoutLast(init, line, left);
      ListedOnce(init, left - {line.reference});
      LinePairsExtend(init, line);
      SidePairsWithout(left, line.reference);
    }
  }

  /** Matched, mismatched and missing-externally together are the ledger's side: every transfer once, at its amount. */
  lemma LinesPartition(side: map<Text, Line>, ext: seq<External>, r: Report)
    requires Distinct(ext) && KeyedByReference(side) && Reports(side, ext, r)
    ensures multiset(LedgerPairs(r.matched)) + multiset(LedgerPairs(r.amountMismatch))
          + multiset(LinePairs(r.missingExternally)) == multiset(SidePairs(side))
  {
    hide Paired, Unrecorded, Before, LedgerPairs, LinePairs, SidePairs, SumMap, Wrap;
    MatchedAndLeft(side, ext);
    ListedOnce(r.missingExternally, side - References(ext));
  }

  /** Matched, mismatched and missing-in-ledger together are the record: every entry once, at its amount. */
  lemma EntriesPartition(side: map<Text, Line>, ext: seq<External>, r: Report)
    requires Reports(side, ext, r)
    ensures multiset(ExternalPairs(r.matched)) + multiset(ExternalPairs(r.amountMismatch))
          + multiset(EntryPairs(r.missingInLedger)) == multiset(EntryPairs(ext))
  {
    hide Paired, Unrecorded, ExternalPairs, EntryPairs, SumMap, Wrap, Lists, InOrder;
    EntriesInBuckets(side, ext);
  }

  lemma {:induction false} EntriesInBuckets(side: map<Text, Line>, ext: seq<External>)
    ensures multiset(ExternalPairs(Paired(side, ext, true))) + multiset(ExternalPairs(Paired(side, ext, false)))
          + multiset(EntryPairs(Unrecorded(side, ext))) == multiset(EntryPairs(ext))
  {
    if ext == [] {
      NoRecord(side, []);
    } else {
      hide Paired, Unrecorded, ExternalPairs, EntryPairs;
      var rest, e := ext[..|ext| - 1], ext[|ext| - 1];
      assert ext == rest + [e];
      EntriesInBuckets(side, rest);
      BucketsGrow(side, rest, e);
      EntryPairsExtend(rest, e);
    }
  }

  /** The two sides of a pair agree in the one bucket and differ in the other. */
  lemma {:induction false} BucketsSortByAgreement(side: map<Text, Line>, ext: seq<External>, agree: bool)
    ensures forall m :: m in Paired(side, ext, agree) ==> (m.ledger.amount == m.external.amount) == agree
  {
    if ext != [] {
      hide Paired;
      var rest, e := ext[..|ext| - 1], ext[|ext| - 1];
      assert ext == rest + [e];
      BucketsSortByAgreement(side, rest, agree);
      BucketsExtend(side, rest, e);
    } else {
      NoRecord(side, []);
    }
  }

  lemma NewReference(rest: seq<External>, e: External)
    requires Distinct(rest + [e])
    ensures Distinct(rest) && e.reference !in References(rest)
  {
    assert (rest + [e])[..|rest|] == rest && (rest + [e])[|rest|] == e;
    forall x | x in rest
      ensures x.reference != e.reference
    {
      var i :| 0 <= i < |rest| && rest[i] == x;
      assert (rest + [e])[i] == x;
    }
    forall i, k | 0 <= i < k < |rest|
      ensures rest[i].reference != rest[k].reference
    {
      assert (rest + [e])[i] == rest[i] && (rest + [e])[k] == rest[k];
    }
  }

  // ---- the difference, accounted for

  ghost function Gaps(matches: seq<Match>): int {
    if matches == [] then 0
    else Gaps(matches[..|matches| - 1]) + matches[|matches| - 1].ledger.amount - matches[|matches| - 1].external.amount
  }

  ghost function LineSum(lines: seq<Line>): int {
    if lines == [] then 0 else LineSum(lines[..|lines| - 1]) + lines[|lines| - 1].amount.amount
  }

  lemma GapsSnoc(matches: seq<Match>, m: Match)
    ensures Gaps(matches + [m]) == Gaps(matches) + m.ledger.amount - m.external.amount
  {
    assert (matches + [m])[..|matches|] == matches;
  }

  lemma ExternalSumSnoc(ext: seq<External>, e: External)
    ensures ExternalSum(ext + [e]) == ExternalSum(ext) + e.amount.amount
  {
    assert (ext + [e])[..|ext|] == ext;
  }

  lemma BucketsSnoc(side: map<Text, Line>, rest: seq<External>, e: External)
    ensures Gaps(Paired(side, rest + [e], false)) - ExternalSum(Unrecorded(side, rest + [e]))
         == Gaps(Paired(side, rest, false)) - ExternalSum(Unrecorded(side, rest))
          + (if e.reference in side then side[e.reference].amount.amount as int else 0) - e.amount.amount
  {
    hide Gaps, ExternalSum, Paired, Unrecorded;
    BucketsExtend(side, rest, e);
    if PairedAs(side, e, false) {
      GapsSnoc(Paired(side, rest, false), Match(e.reference, side[e.reference].amount, e.amount));
    } else {
      assert Paired(side, rest + [e], false) == Paired(side, rest, false);
    }
    if e.reference !in side {
      ExternalSumSnoc(Unrecorded(side, rest), e);
    } else {
      assert Unrecorded(side, rest + [e]) == Unrecorded(side, rest);
    }
  }

  lemma {:induction false} TotalsDiffer(side: map<Text, Line>, ext: seq<External>)
    requires Distinct(ext)
    ensures SumMap(Amounts(side)) - ExternalSum(ext)
         == Gaps(Paired(side, ext, false)) + SumMap(Amounts(side - References(ext))) - ExternalSum(Unrecorded(side, ext))
  {
    if ext == [] {
      assert side - References(ext) == side;
    } else {
      hide SumMap, Gaps, Paired, Unrecorded, ExternalSum, Distinct, References, Amounts;
      var rest, e := ext[..|ext| - 1], ext[|ext| - 1];
      assert ext == rest + [e];
      NewReference(rest, e);
      TotalsDiffer(side, rest);
      BucketsSnoc(side, rest, e);
      ExternalSumSnoc(rest, e);
      LeftExtend(side, rest, e);
      AmountsWithout(side - References(rest), e.reference);
    }
  }

  lemma AmountsWithout(left: map<Text, Line>, k: Text)
    ensures SumMap(Amounts(left))
         == SumMap(Amounts(left - {k})) + if k in left then left[k].amount.amount as int else 0
  {
    hide SumMap;
    if k in left {
      SumMapPull(Amounts(left), k);
      assert Amounts(left) - {k} == Amounts(left - {k});
    } else {
      assert left - {k} == left;
    }
  }

  lemma NothingLeft(lines: seq<Line>, left: map<Text, Line>)
    requires Lists(lines, left) && KeyedByReference(left)
    ensures lines == [] <==> left == map[]
  {
    if lines != [] {
      assert lines[0] in lines;
    }
    if k :| k in left {
      assert left[k] in lines;
    }
  }

  lemma {:induction false} LinesSumTheMap(lines: seq<Line>, left: map<Text, Line>)
    requires InOrder(lines) && Lists(lines, left) && KeyedByReference(left)
    ensures LineSum(lines) == SumMap(Amounts(left))
    decreases |lines|
  {
    if lines == [] {
      NothingLeft(lines, left);
      SumMapZero(Amounts(left));
    } else {
      hide SumMap, Before, Amounts, Lists, InOrder;
      var init, line := lines[..|lines| - 1], lines[|lines| - 1];
      assert lines == init + [line];
      ListsWithoutLast(init, line, left);
      LinesSumTheMap(init, left - {line.reference});
      AmountsWithout(left, line.reference);
    }
  }

  lemma ListsWithoutLast(init: seq<Line>, line: Line, left: map<Text, Line>)
    requires InOrder(init + [line]) && Lists(init + [line], left)
    ensures line.reference in left && left[line.reference] == line
    ensures InOrder(init) && Lists(init, left - {line.reference})
  {
    hide Before;
    assert line in init + [line];
    LastIsAlone(init + [line]);
    assert (init + [line])[..|init|] == init;
    forall x
      ensures x in init <==> x.reference in left - {line.reference} && left[x.reference] == x
    {
      assert x in init + [line] <==> x in init || x == line;
    }
    forall i, j | 0 <= i < j < |init|
      ensures Before(init[i], init[j])
    {
      assert (init + [line])[i] == init[i] && (init + [line])[j] == init[j];
    }
  }

  lemma LastIsAlone(lines: seq<Line>)
    requires lines != [] && InOrder(lines)
    ensures lines[|lines| - 1] !in lines[..|lines| - 1]
  {
    BeforeIsTotal(lines[|lines| - 1], lines[|lines| - 1]);
  }

  /** Difference is the mismatch gaps, plus what only the ledger has, minus what only the record has. */
  lemma DifferenceIsExplained(side: map<Text, Line>, ext: seq<External>, r: Report)
    requires Distinct(ext) && KeyedByReference(side) && Reports(side, ext, r)
    ensures r.difference
         == Wrap(Gaps(r.amountMismatch) + LineSum(r.missingExternally) - ExternalSum(r.missingInLedger))
  {
    hide Paired, Unrecorded, Wrap, Before, SumMap, Gaps, LineSum, ExternalSum;
    TotalsDiffer(side, ext);
    LinesSumTheMap(r.missingExternally, side - References(ext));
    WrapSubtract(SumMap(Amounts(side)), ExternalSum(ext));
  }

  // ---- a clean report

  ghost function ExternalAmounts(ext: seq<External>): map<Text, int> {
    if ext == [] then map[]
    else ExternalAmounts(ext[..|ext| - 1])[ext[|ext| - 1].reference := ext[|ext| - 1].amount.amount as int]
  }

  lemma {:induction false} ExternalAmountsMean(ext: seq<External>)
    requires Distinct(ext)
    ensures ExternalAmounts(ext).Keys == References(ext)
    ensures forall e :: e in ext ==> ExternalAmounts(ext)[e.reference] == e.amount.amount
  {
    if ext != [] {
      var rest, e := ext[..|ext| - 1], ext[|ext| - 1];
      assert ext == rest + [e];
      ExternalAmountsMean(rest);
      NewReference(rest, e);
      assert References(ext) == References(rest) + {e.reference};
      forall x | x in ext
        ensures ExternalAmounts(ext)[x.reference] == x.amount.amount
      {
        if x in rest {
          assert x.reference in References(rest);
        }
      }
    }
  }

  lemma {:induction false} EmptyBucketsMean(side: map<Text, Line>, ext: seq<External>)
    ensures Unrecorded(side, ext) == [] <==> forall e :: e in ext ==> e.reference in side
    ensures Paired(side, ext, false) == [] <==>
              forall e :: e in ext && e.reference in side ==> side[e.reference].amount.amount == e.amount.amount
  {
    if ext != [] {
      hide Paired, Unrecorded;
      var rest, e := ext[..|ext| - 1], ext[|ext| - 1];
      assert ext == rest + [e];
      EmptyBucketsMean(side, rest);
      BucketsExtend(side, rest, e);
    } else {
      NoRecord(side, []);
    }
  }

  /** A report is clean exactly when both sides hold the same references at the same amounts. */
  lemma CleanIff(side: map<Text, Line>, ext: seq<External>, r: Report)
    requires Distinct(ext) && KeyedByReference(side) && Reports(side, ext, r)
    ensures r.Clean() <==> Amounts(side) == ExternalAmounts(ext)
  {
    hide Paired, Unrecorded, Wrap, Before, SumMap, ExternalSum, ExternalAmounts;
    EmptyBucketsMean(side, ext);
    ExternalAmountsMean(ext);
    var left := side - References(ext);
    NothingLeft(r.missingExternally, left);
    if Amounts(side) == ExternalAmounts(ext) {
      assert side.Keys == Amounts(side).Keys == References(ext);
      forall e | e in ext
        ensures e.reference in side && side[e.reference].amount.amount == e.amount.amount
      {
        assert Amounts(side)[e.reference] == ExternalAmounts(ext)[e.reference];
      }
    }
    if r.Clean() {
      forall k | k in side
        ensures k in References(ext) && Amounts(side)[k] == ExternalAmounts(ext)[k]
      {
        assert k !in left;
        var e :| e in ext && e.reference == k;
      }
    }
  }
}
