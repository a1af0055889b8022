/** The qualification of daily price histories. Prices are reals; a missing or non-finite value is told apart. */
module PriceHistory {
  import opened Common

  datatype Number = Missing | NonFinite | Finite(value: real)

  /** Adjustment bases: the three plain ones, the corporate-action research one, and anything else. */
  datatype Basis = Unadjusted | Forward | Backward | Research | OtherBasis(name: string)

  /** A trade date is a plain date; a timestamp is not accepted as one. */
  datatype TradeDate = Day(ordinal: int) | Stamp(ordinal: int)

  /** Where a row comes from, by the unit contract of its endpoint. */
  datatype Source = Documented(name: string) | Legacy(name: string) | SinaV101 | SinaV102 | Mock | UnknownEndpoint

  datatype Row = Row(
    open: Number, high: Number, low: Number, close: Number, adjust: Basis, date: TradeDate, source: Source,
    volume: Number, amount: Number)

  datatype Issue =
    | HistoryMissing | UnknownPriceBasis | AmbiguousPriceBasis | InvalidOhlc | InvalidHistoryDate
    | DuplicateOrUnordered | UnexplainedDiscontinuity

  const MAX_GAP := 0.35

  function Abs(x: real): real { if x < 0.0 then -x else x }

  predicate Positive(n: Number) { n.Finite? && n.value > 0.0 }

  /** `low <= min(open, close) <= max(open, close) <= high`, all of them positive numbers. */
  predicate OhlcOk(r: Row) {
    && Positive(r.open) && Positive(r.high) && Positive(r.low) && Positive(r.close)
    && r.low.value <= r.open.value <= r.high.value && r.low.value <= r.close.value <= r.high.value
  }

  /** The low price is positive and bounds the others from below, the high price from above. */
  lemma {:induction false} OhlcMeans(r: Row)
    ensures OhlcOk(r) <==>
              && r.open.Finite? && r.high.Finite? && r.low.Finite? && r.close.Finite?
              && 0.0 < r.low.value && r.low.value <= r.open.value <= r.high.value
              && r.low.value <= r.close.value <= r.high.value
  {
  }

  predicate RowOk(r: Row) { OhlcOk(r) && r.date.Day? }

  /** No price moves by more than the gap from the previous close. */
  predicate GapOk(prior: Row, r: Row)
    requires OhlcOk(prior) && OhlcOk(r)
  {
    && Abs(r.close.value / prior.close.value - 1.0) <= MAX_GAP
    && Abs(r.open.value / prior.close.value - 1.0) <= MAX_GAP
  }

  // ---------------------------------------------------------------- clean histories

  /** A history without a price issue: one known basis, sound rows, strictly increasing dates, no gap. */
  ghost predicate Clean(rows: seq<Row>) {
    && rows != []
    && (forall i :: 0 <= i < |rows| ==> !rows[i].adjust.OtherBasis? && rows[i].adjust == rows[0].adjust)
    && (forall i :: 0 <= i < |rows| ==> RowOk(rows[i]))
    && (forall i :: 0 < i < |rows| ==> Follows(rows[i - 1], rows[i]))
  }

  ghost predicate Follows(prior: Row, r: Row) {
    RowOk(prior) && RowOk(r) && prior.date.ordinal < r.date.ordinal && GapOk(prior, r)
  }

  /** The first thing wrong with row `i`, given that the rows before it are in order. */
  function IssueAt(rows: seq<Row>, i: nat): Option<Issue>
    requires i < |rows| && forall j :: 0 <= j < i ==> RowOk(rows[j])
  {
    var r := rows[i];
    if !OhlcOk(r) then Some(InvalidOhlc)
    else if !r.date.Day? then Some(InvalidHistoryDate)
    else if i == 0 then None
    else if r.date.ordinal <= rows[i - 1].date.ordinal then Some(DuplicateOrUnordered)
    else
      assert RowOk(rows[i - 1]);
      if !GapOk(rows[i - 1], r) then Some(UnexplainedDiscontinuity) else None
  }

  /** The loop of `price_history_issue`, with the issue of the earliest offending row. */
  method PriceHistoryIssue(rows: seq<Row>) returns (issue: Option<Issue>)
    ensures issue == None <==> Clean(rows)
    ensures issue == FirstIssue(rows)
  {
    CleanHasNoIssue(rows);
    if rows == [] {
      return Some(HistoryMissing);
    }
    if exists k :: 0 <= k < |rows| && rows[k].adjust.OtherBasis? {
      return Some(UnknownPriceBasis);
    }
    if exists k :: 0 <= k < |rows| && rows[k].adjust != rows[0].adjust {
      return Some(AmbiguousPriceBasis);
    }
    var i := 0;
    while i < |rows|
      invariant 0 <= i <= |rows|
      invariant forall j :: 0 <= j < i ==> RowOk(rows[j])
      invariant FirstRowIssue(rows, 0) == FirstRowIssue(rows, i)
    {
      var r := rows[i];
      if !(Positive(r.open) && Positive(r.high) && Positive(r.low) && Positive(r.close)) {
        return Some(InvalidOhlc);
      }
      var lower := if r.open.value <= r.close.value then r.open.value else r.close.value;
      var upper := if r.open.value <= r.close.value then r.close.value else r.open.value;
      if !(r.low.value <= lower <= upper <= r.high.value) {
        return Some(InvalidOhlc);
      }
      if !r.date.Day? {
        return Some(InvalidHistoryDate);
      }
      if i > 0 {
        var prior := rows[i - 1];
        if r.date.ordinal <= prior.date.ordinal {
          return Some(DuplicateOrUnordered);
        }
        if Abs(r.close.value / prior.close.value - 1.0) > MAX_GAP
           || Abs(r.open.value / prior.close.value - 1.0) > MAX_GAP {
          return Some(UnexplainedDiscontinuity);
        }
      }
      i := i + 1;
    }
    return None;
  }

  /** The issue of the earliest row from `i` on that has one. */
  function FirstRowIssue(rows: seq<Row>, i: nat): Option<Issue>
    requires i <= |rows| && forall j :: 0 <= j < i ==> RowOk(rows[j])
    decreases |rows| - i
  {
    if i == |rows| then None
    else if IssueAt(rows, i).Some? then IssueAt(rows, i)
    else FirstRowIssue(rows, i + 1)
  }

  function FirstIssue(rows: seq<Row>): Option<Issue> {
    if rows == [] then Some(HistoryMissing)
    else if exists k :: 0 <= k < |rows| && rows[k].adjust.OtherBasis? then Some(UnknownPriceBasis)
    else if exists k :: 0 <= k < |rows| && rows[k].adjust != rows[0].adjust then Some(AmbiguousPriceBasis)
    else FirstRowIssue(rows, 0)
  }

  lemma {:induction false} NoRowIssue(rows: seq<Row>, i: nat)
    requires i <= |rows| && forall j :: 0 <= j < i ==> RowOk(rows[j])
    ensures FirstRowIssue(rows, i) == None <==>
              && (forall j :: i <= j < |rows| ==> RowOk(rows[j]))
              && (forall j :: i <= j < |rows| && 0 < j ==> Follows(rows[j - 1], rows[j]))
    decreases |rows| - i
  {
    if i < |rows| && IssueAt(rows, i).None? {
      NoRowIssue(rows, i + 1);
    }
  }

  lemma {:induction false} CleanHasNoIssue(rows: seq<Row>)
    ensures FirstIssue(rows) == None <==> Clean(rows)
  {
    NoRowIssue(rows, 0);
  }

  // ---------------------------------------------------------------- which issue

  /** Every row before `i` is sound and follows its predecessor. */
  ghost predicate SoundBefore(rows: seq<Row>, i: nat) {
    forall j :: 0 <= j < i && j < |rows| ==> RowOk(rows[j]) && (0 < j ==> Follows(rows[j - 1], rows[j]))
  }

  /** Known and common basis. */
  ghost predicate OneBasis(rows: seq<Row>) {
    forall i :: 0 <= i < |rows| ==> !rows[i].adjust.OtherBasis? && rows[i].adjust == rows[0].adjust
  }

  /** Row `i` is the first that is wrong, and this is what is wrong with it. */
  ghost predicate Offends(rows: seq<Row>, i: nat, issue: Issue) {
    && rows != [] && OneBasis(rows) && i < |rows| && SoundBefore(rows, i)
    && var r := rows[i];
       match issue
       case InvalidOhlc => !OhlcOk(r)
       case InvalidHistoryDate => OhlcOk(r) && r.date.Stamp?
       case DuplicateOrUnordered => RowOk(r) && 0 < i && r.date.ordinal <= rows[i - 1].date.ordinal
       case UnexplainedDiscontinuity =>
         && RowOk(r) && 0 < i && rows[i - 1].date.ordinal < r.date.ordinal
         && var close := rows[i - 1].close.value;
            !(0.65 * close <= r.close.value <= 1.35 * close && 0.65 * close <= r.open.value <= 1.35 * close)
       case _ => false
  }

  lemma {:induction false} GapMeans(x: real, p: real)
    requires 0.0 < p
    ensures Abs(x / p - 1.0) <= MAX_GAP <==> 0.65 * p <= x <= 1.35 * p
  {
    if Abs(x / p - 1.0) <= MAX_GAP {
      Ratio(x, p);
    }
    if 0.65 * p <= x <= 1.35 * p {
      assert x / p * p == x;
      Cancel(0.65, x / p, p);
      Cancel(x / p, 1.35, p);
    }
  }

  lemma {:induction false} Cancel(a: real, b: real, p: real)
    requires 0.0 < p && a * p <= b * p
    ensures a <= b
  {
  }

  lemma {:induction false} IssueOfRow(rows: seq<Row>, i: nat, issue: Issue)
    requires rows != [] && OneBasis(rows) && i < |rows| && SoundBefore(rows, i)
    ensures IssueAt(rows, i) == Some(issue) <==> Offends(rows, i, issue)
    ensures IssueAt(rows, i) == None ==> SoundBefore(rows, i + 1)
  {
    var r := rows[i];
    if OhlcOk(r) && 0 < i {
      GapMeans(r.close.value, rows[i - 1].close.value);
      GapMeans(r.open.value, rows[i - 1].close.value);
    }
  }

  lemma {:induction false} RowIssueMeans(rows: seq<Row>, i: nat, issue: Issue)
    requires rows != [] && OneBasis(rows) && i <= |rows| && SoundBefore(rows, i)
    ensures FirstRowIssue(rows, i) == Some(issue) <==> exists k :: i <= k && Offends(rows, k, issue)
    decreases |rows| - i
  {
    if i < |rows| {
      IssueOfRow(rows, i, issue);
      if IssueAt(rows, i).None? {
        RowIssueMeans(rows, i + 1, issue);
      } else {
        forall k | i < k
          ensures !Offends(rows, k, issue)
        {
          IssueOfRow(rows, i, IssueAt(rows, i).value);
          OffendsOnce(rows, i, k, IssueAt(rows, i).value, issue);
        }
      }
    }
  }

  lemma {:induction false} OffendsOnce(rows: seq<Row>, i: nat, k: nat, first: Issue, issue: Issue)
    requires i < k && Offends(rows, i, first)
    ensures !Offends(rows, k, issue)
  {
    if SoundBefore(rows, k) && 0 < i {
      assert Follows(rows[i - 1], rows[i]);
      GapMeans(rows[i].close.value, rows[i - 1].close.value);
      GapMeans(rows[i].open.value, rows[i - 1].close.value);
    }
  }

  /** When each issue is returned: a missing history, an unknown basis, two bases, or else what is wrong with the first
      row that is wrong. */
  lemma {:induction false} WhichIssue(rows: seq<Row>, issue: Issue)
    ensures FirstIssue(rows) == Some(issue) <==>
              match issue
              case HistoryMissing => rows == []
              case UnknownPriceBasis => exists k :: 0 <= k < |rows| && rows[k].adjust.OtherBasis?
              case AmbiguousPriceBasis =>
                && (forall k :: 0 <= k < |rows| ==> !rows[k].adjust.OtherBasis?)
                && exists j, k :: 0 <= j < |rows| && 0 <= k < |rows| && rows[j].adjust != rows[k].adjust
              case _ => exists k :: Offends(rows, k, issue)
  {
    if rows != [] && OneBasis(rows) {
      RowIssueMeans(rows, 0, issue);
    }
  }

  // ---------------------------------------------------------------- segments and bounds

  /** Every contiguous segment of a clean history is clean. */
  lemma {:induction false} SegmentIsClean(rows: seq<Row>, i: nat, j: nat)
    requires Clean(rows) && i < j <= |rows|
    ensures Clean(rows[i..j])
  {
    var part := rows[i..j];
    assert forall k :: 0 <= k < |part| ==> part[k] == rows[i + k];
  }

  function Pow(x: real, n: nat): real { if n == 0 then 1.0 else x * Pow(x, n - 1) }

  lemma {:induction false} Scale(a: real, b: real, p: real)
    requires a <= b && 0.0 <= p
    ensures a * p <= b * p
  {
  }

  lemma {:induction false} Ratio(c: real, p: real)
    requires 0.0 < p && Abs(c / p - 1.0) <= MAX_GAP
    ensures 0.65 * p <= c <= 1.35 * p
  {
    var q := c / p;
    Scale(0.65, q, p);
    Scale(q, 1.35, p);
    assert q * p == c;
  }

  lemma {:induction false} OneStep(prior: Row, r: Row)
    requires Follows(prior, r)
    ensures 0.65 * prior.close.value <= r.close.value <= 1.35 * prior.close.value
  {
    Ratio(r.close.value, prior.close.value);
  }

  ghost predicate Bounded(n: nat, first: real, last: real) {
    Pow(0.65, n) * first <= last <= Pow(1.35, n) * first
  }

  lemma {:induction false} Compound(n: nat, first: real, before: real, last: real)
    requires Bounded(n, first, before) && 0.65 * before <= last <= 1.35 * before
    ensures Bounded(n + 1, first, last)
  {
    var low, high := Pow(0.65, n), Pow(1.35, n);
    assert Pow(0.65, n + 1) * first == 0.65 * (low * first);
    assert Pow(1.35, n + 1) * first == 1.35 * (high * first);
  }

  /** In a clean history the close n rows later lies between 0.65^n and 1.35^n times the first; with the last
      row, n is one less than the number of rows. */
  lemma {:induction false} CloseIsBounded(rows: seq<Row>, n: nat)
    requires Clean(rows) && n < |rows|
    ensures Bounded(n, rows[0].close.value, rows[n].close.value)
  {
    if n > 0 {
      CloseIsBounded(rows, n - 1);
      assert Follows(rows[n - 1], rows[n]);
      OneStep(rows[n - 1], rows[n]);
      Compound(n - 1, rows[0].close.value, rows[n - 1].close.value, rows[n].close.value);
    }
  }

  // ---------------------------------------------------------------- qualification

  datatype Reason =
    | PriceIssue(issue: Issue) | LegacyUnits | SinaAbsoluteUnits | PriceOnlyUnits | UnknownUnits | MockHistory
    | VolumeMissing | AmountMissing | UnverifiedTail

  predicate UnitsVerified(r: Row) { r.source.Documented? }

  predicate Counted(n: Number) { n.Finite? && n.value >= 0.0 }

  predicate Any(rows: seq<Row>, p: Row -> bool) { exists i :: 0 <= i < |rows| && p(rows[i]) }

  /** The checks of `assess_history`, in order, each with the reason that it gives. */
  function Checks(rows: seq<Row>): seq<(bool, Reason)> {
    var issue := FirstIssue(rows);
    [ (issue.Some?, PriceIssue(if issue.Some? then issue.value else HistoryMissing)),
      (Any(rows, (r: Row) => r.source.Legacy?), LegacyUnits),
      (Any(rows, (r: Row) => r.source.SinaV102?), SinaAbsoluteUnits),
      (Any(rows, (r: Row) => r.source.SinaV101?), PriceOnlyUnits),
      (Any(rows, (r: Row) => r.source.UnknownEndpoint?), UnknownUnits),
      (Any(rows, (r: Row) => r.source.Mock?), MockHistory),
      (Any(rows, (r: Row) => !Counted(r.volume)), VolumeMissing),
      (Any(rows, (r: Row) => !Counted(r.amount)), AmountMissing) ]
  }

  /** The reasons of the checks that hold. */
  function Given(checks: seq<(bool, Reason)>): seq<Reason> {
    if checks == [] then []
    else (if checks[0].0 then [checks[0].1] else []) + Given(checks[1..])
  }

  /** `assess_history`: every reason that applies, in the order of the checks. */
  function Assess(rows: seq<Row>): seq<Reason> { Given(Checks(rows)) }

  /** A clean history from documented endpoints with volume and amount in every row. */
  ghost predicate Qualified(rows: seq<Row>) {
    Clean(rows) && forall i :: 0 <= i < |rows| ==>
      UnitsVerified(rows[i]) && Counted(rows[i].volume) && Counted(rows[i].amount)
  }

  /** The place of a reason in the order of the checks. */
  function Rank(r: Reason): nat {
    match r
    case PriceIssue(_) => 0
    case LegacyUnits => 1
    case SinaAbsoluteUnits => 2
    case PriceOnlyUnits => 3
    case UnknownUnits => 4
    case MockHistory => 5
    case VolumeMissing => 6
    case AmountMissing => 7
    case UnverifiedTail => 8
  }

  /** What a reason says about the history. */
  ghost predicate Applies(rows: seq<Row>, reason: Reason) {
    match reason
    case PriceIssue(issue) => FirstIssue(rows) == Some(issue)
    case LegacyUnits => exists i :: 0 <= i < |rows| && rows[i].source.Legacy?
    case SinaAbsoluteUnits => exists i :: 0 <= i < |rows| && rows[i].source == SinaV102
    case PriceOnlyUnits => exists i :: 0 <= i < |rows| && rows[i].source == SinaV101
    case UnknownUnits => exists i :: 0 <= i < |rows| && rows[i].source == UnknownEndpoint
    case MockHistory => exists i :: 0 <= i < |rows| && rows[i].source == Mock
    case VolumeMissing => exists i :: 0 <= i < |rows| && !(rows[i].volume.Finite? && rows[i].volume.value >= 0.0)
    case AmountMissing => exists i :: 0 <= i < |rows| && !(rows[i].amount.Finite? && rows[i].amount.value >= 0.0)
    case UnverifiedTail => false
  }

  ghost predicate InRankOrder(rs: seq<Reason>) {
    forall i, j :: 0 <= i < j < |rs| ==> Rank(rs[i]) < Rank(rs[j])
  }

  lemma {:induction false} GivenMeans(checks: seq<(bool, Reason)>, reason: Reason)
    ensures reason in Given(checks) <==> (true, reason) in checks
  {
    if checks != [] {
      GivenMeans(checks[1..], reason);
      assert checks == [checks[0]] + checks[1..];
    }
  }

  lemma {:induction false} GivenInOrder(checks: seq<(bool, Reason)>)
    requires forall i, j :: 0 <= i < j < |checks| ==> Rank(checks[i].1) < Rank(checks[j].1)
    ensures InRankOrder(Given(checks))
    ensures forall r :: r in Given(checks) ==> exists i :: 0 <= i < |checks| && checks[i].1 == r
  {
    if checks != [] {
      var rest := checks[1..];
      assert forall i :: 0 <= i < |rest| ==> rest[i] == checks[i + 1];
      GivenInOrder(rest);
      forall r | r in Given(rest)
        ensures Rank(checks[0].1) < Rank(r) && exists i :: 0 <= i < |checks| && checks[i].1 == r
      {
        var i :| 0 <= i < |rest| && rest[i].1 == r;
        assert checks[i + 1].1 == r;
      }
    }
  }

  lemma {:induction false} CheckMeans(rows: seq<Row>, reason: Reason)
    ensures (true, reason) in Checks(rows) <==> Applies(rows, reason)
  {
    var checks := Checks(rows);
    assert (true, reason) in checks <==>
             || checks[0] == (true, reason) || checks[1] == (true, reason) || checks[2] == (true, reason)
             || checks[3] == (true, reason) || checks[4] == (true, reason) || checks[5] == (true, reason)
             || checks[6] == (true, reason) || checks[7] == (true, reason);
  }

  /** `assess_history` lists exactly the reasons that apply, each once, in the order of the checks. */
  lemma {:induction false} AssessMeans(rows: seq<Row>, reason: Reason)
    ensures reason in Assess(rows) <==> Applies(rows, reason)
    ensures InRankOrder(Assess(rows))
  {
    GivenMeans(Checks(rows), reason);
    CheckMeans(rows, reason);
    GivenInOrder(Checks(rows));
  }

  /** Nothing is held against a history exactly when it is qualified. */
  lemma {:induction false} NoReasonMeansQualified(rows: seq<Row>)
    ensures Assess(rows) == [] <==> Qualified(rows)
  {
    CleanHasNoIssue(rows);
    var none := Assess(rows) == [];
    forall reason
      ensures reason in Assess(rows) <==> Applies(rows, reason)
    {
      AssessMeans(rows, reason);
    }
    if none {
      assert !Applies(rows, LegacyUnits) && !Applies(rows, SinaAbsoluteUnits) && !Applies(rows, PriceOnlyUnits);
      assert !Applies(rows, UnknownUnits) && !Applies(rows, MockHistory);
      assert !Applies(rows, VolumeMissing) && !Applies(rows, AmountMissing);
      assert forall issue :: !Applies(rows, PriceIssue(issue));
    } else {
      assert Assess(rows)[0] in Assess(rows);
      assert Applies(rows, Assess(rows)[0]);
    }
  }

  // ---------------------------------------------------------------- the stale tail

  function Insert(r: Row, rows: seq<Row>): seq<Row> {
    if rows == [] || r.date.ordinal <= rows[0].date.ordinal then [r] + rows
    else [rows[0]] + Insert(r, rows[1..])
  }

  /** The stable sort by date. */
  function SortByDate(rows: seq<Row>): seq<Row> {
    if rows == [] then [] else Insert(rows[0], SortByDate(rows[1..]))
  }

  ghost predicate ByDate(rows: seq<Row>) {
    forall i, j :: 0 <= i < j < |rows| ==> rows[i].date.ordinal <= rows[j].date.ordinal
  }

  /** The rows of one date, in order. */
  ghost function OfDate(rows: seq<Row>, day: int): seq<Row> {
    if rows == [] then []
    else (if rows[0].date.ordinal == day then [rows[0]] else []) + OfDate(rows[1..], day)
  }

  lemma {:induction false} InsertKeeps(r: Row, rows: seq<Row>)
    ensures multiset(Insert(r, rows)) == multiset{r} + multiset(rows)
  {
    if rows != [] && r.date.ordinal > rows[0].date.ordinal {
      InsertKeeps(r, rows[1..]);
      assert rows == [rows[0]] + rows[1..];
    }
  }

  lemma {:induction false} InsertSorts(r: Row, rows: seq<Row>)
    requires ByDate(rows)
    ensures ByDate(Insert(r, rows))
  {
    if rows != [] && r.date.ordinal > rows[0].date.ordinal {
      InsertSorts(r, rows[1..]);
      InsertKeeps(r, rows[1..]);
      var rest := Insert(r, rows[1..]);
      forall i | 0 <= i < |rest|
        ensures rows[0].date.ordinal <= rest[i].date.ordinal
      {
        assert rest[i] in multiset(rest);
        assert rest[i] == r || rest[i] in rows[1..];
      }
    }
  }

  lemma {:induction false} InsertIsStable(r: Row, rows: seq<Row>, day: int)
    ensures OfDate(Insert(r, rows), day) == OfDate([r] + rows, day)
  {
    if rows != [] && r.date.ordinal > rows[0].date.ordinal {
      var s, rest := rows[0], rows[1..];
      InsertIsStable(r, rest, day);
      assert rows == [s] + rest;
    }
  }

  /** Sorting orders the rows by date, keeps all of them, and keeps the order of the rows of one date. */
  lemma {:induction false} SortIsStable(rows: seq<Row>)
    ensures ByDate(SortByDate(rows))
    ensures multiset(SortByDate(rows)) == multiset(rows)
    ensures forall day :: OfDate(SortByDate(rows), day) == OfDate(rows, day)
  {
    if rows != [] {
      SortIsStable(rows[1..]);
      InsertSorts(rows[0], SortByDate(rows[1..]));
      InsertKeeps(rows[0], SortByDate(rows[1..]));
      assert rows == [rows[0]] + rows[1..];
      forall day
        ensures OfDate(SortByDate(rows), day) == OfDate(rows, day)
      {
        InsertIsStable(rows[0], SortByDate(rows[1..]), day);
      }
    }
  }

  function FirstUnverified(rows: seq<Row>): (i: nat)
    ensures i <= |rows| && (forall j :: 0 <= j < i ==> UnitsVerified(rows[j]))
    ensures i < |rows| ==> !UnitsVerified(rows[i])
  {
    if rows == [] || !UnitsVerified(rows[0]) then 0
    else
      var rest := FirstUnverified(rows[1..]);
      assert forall j :: 0 < j < rest + 1 ==> rows[j] == rows[1..][j - 1];
      rest + 1
  }

  datatype Scope = Scope(qualifiedThrough: TradeDate, tailStart: TradeDate, tailRows: nat, reasons: seq<Reason>)

  /** `trailing_unverified_history`. */
  function TrailingUnverified(rows: seq<Row>): Option<Scope> { TrailingOf(SortByDate(rows)) }

  function TrailingOf(ordered: seq<Row>): Option<Scope> {
    var first := FirstUnverified(ordered);
    if ordered == [] || first == |ordered| then None
    else
      var qualified, tail := ordered[..first], ordered[first..];
      if qualified == [] || Any(tail, UnitsVerified) then None
      else if FirstIssue(qualified).Some? || Assess(qualified) != [] then None
      else
        var reasons := Assess(tail);
        Some(Scope(qualified[first - 1].date, tail[0].date, |tail|,
                   if reasons == [] then [UnverifiedTail] else reasons))
  }

  /** The rows up to `k` are qualified and none after that is documented; both parts are nonempty. */
  ghost predicate IsSplit(ordered: seq<Row>, k: nat) {
    && 0 < k < |ordered| && Qualified(ordered[..k])
    && forall i :: k <= i < |ordered| ==> !UnitsVerified(ordered[i])
  }

  ghost predicate Splits(ordered: seq<Row>) { exists k: nat :: IsSplit(ordered, k) }

  /** A split can only be at the first undocumented row, so there is at most one. */
  lemma {:induction false} SplitIsUnique(ordered: seq<Row>, k: nat)
    requires IsSplit(ordered, k)
    ensures k == FirstUnverified(ordered)
  {
    var first := FirstUnverified(ordered);
    assert !UnitsVerified(ordered[k]);
    assert forall i :: 0 <= i < k ==> ordered[..k][i] == ordered[i];
  }

  ghost predicate Describes(scope: Scope, ordered: seq<Row>, k: nat)
    requires 0 < k < |ordered|
  {
    && scope.tailRows == |ordered| - k
    && scope.qualifiedThrough == ordered[k - 1].date && scope.tailStart == ordered[k].date
    && scope.reasons == (if Assess(ordered[k..]) == [] then [UnverifiedTail] else Assess(ordered[k..]))
  }

  lemma {:induction false} SplitIsAccepted(ordered: seq<Row>, k: nat)
    requires IsSplit(ordered, k)
    ensures FirstUnverified(ordered) == k && !Any(ordered[k..], UnitsVerified)
    ensures FirstIssue(ordered[..k]) == None && Assess(ordered[..k]) == []
  {
    SplitIsUnique(ordered, k);
    NoReasonMeansQualified(ordered[..k]);
    CleanHasNoIssue(ordered[..k]);
  }

  lemma {:induction false} SplitGivesScope(ordered: seq<Row>, k: nat)
    requires IsSplit(ordered, k)
    ensures TrailingOf(ordered).Some? && Describes(TrailingOf(ordered).value, ordered, k)
  {
    SplitIsAccepted(ordered, k);
  }

  lemma {:induction false} NoneVerified(ordered: seq<Row>, k: nat, i: nat)
    requires k <= i < |ordered| && !Any(ordered[k..], UnitsVerified)
    ensures !UnitsVerified(ordered[i])
  {
    assert ordered[k..][i - k] == ordered[i];
  }

  lemma {:induction false} ScopeGivesSplit(ordered: seq<Row>)
    requires TrailingOf(ordered).Some?
    ensures IsSplit(ordered, FirstUnverified(ordered))
  {
    var first := FirstUnverified(ordered);
    NoReasonMeansQualified(ordered[..first]);
    forall i | first <= i < |ordered|
      ensures !UnitsVerified(ordered[i])
    {
      NoneVerified(ordered, first, i);
    }
  }

  /** The stale-tail scope is returned exactly when the date-sorted rows split into a nonempty qualified prefix
      and a nonempty undocumented tail, and it describes that split. */
  lemma {:induction false} ScopeIffSplit(rows: seq<Row>)
    ensures TrailingUnverified(rows).Some? <==> Splits(SortByDate(rows))
    ensures forall k: nat :: IsSplit(SortByDate(rows), k) ==>
              TrailingUnverified(rows).Some? && Describes(TrailingUnverified(rows).value, SortByDate(rows), k)
  {
    var ordered, scope := SortByDate(rows), TrailingUnverified(rows);
    forall k: nat | IsSplit(ordered, k)
      ensures scope.Some? && Describes(scope.value, ordered, k)
    {
      SplitGivesScope(ordered, k);
    }
    if scope.Some? {
      ScopeGivesSplit(ordered);
      var first: nat := FirstUnverified(ordered);
      assert IsSplit(ordered, first);
    }
  }
}
