/** Report safety.  A report is a sequence of levels; it is safe when it
    is strictly increasing or strictly decreasing with every step between
    1 and 3.  In the damped mode a report that fails is given one more
    chance with a single level, next to the first failing step, removed. */
module Day2 {
  import opened Common

  type Report = seq<int>

  const LowerLimit: int := 1
  const UpperLimit: int := 3

  /** Two adjacent levels differ by at least 1 and at most 3. */
  predicate InLimits(a: int, b: int) {
    LowerLimit <= Abs(a - b) <= UpperLimit
  }

  /** The limits do not depend on the order of the two levels. */
  lemma InLimitsSymmetric(a: int, b: int)
    ensures InLimits(a, b) <==> InLimits(b, a)
  {
    assert Abs(a - b) == Abs(b - a);
  }

  /** Three adjacent levels move in one direction, each step in limits. */
  predicate StepValid(a: int, b: int, c: int) {
    ((a > b && b > c) || (c > b && b > a)) && InLimits(a, b) && InLimits(b, c)
  }

  /** The report with the level at `position` removed. */
  function Damp(report: Report, position: nat): (d: Report)
    requires position < |report|
    ensures |d| == |report| - 1
    ensures forall i | 0 <= i < |d| :: d[i] == if i < position then report[i] else report[i + 1]
  {
    report[..position] + report[position + 1..]
  }

  /** Removing a position takes exactly that level out of the report. */
  lemma DampRemovesOne(report: Report, position: nat)
    requires position < |report|
    ensures multiset(Damp(report, position)) + multiset{report[position]} == multiset(report)
  {
    assert report == report[..position] + [report[position]] + report[position + 1..];
  }

  /** The test the scan applies at `position`: the first step alone at
      position 1, the window of three levels ending at `position` after. */
  predicate StepOk(r: Report, position: nat)
    requires 1 <= position < |r|
  {
    if position == 1 then InLimits(r[0], r[1])
    else StepValid(r[position - 2], r[position - 1], r[position])
  }

  /** Every position passes its test. */
  predicate Safe(r: Report) {
    forall p | 1 <= p < |r| :: StepOk(r, p)
  }

  /** The first position at or after `from` that fails its test, or |r|. */
  function FirstFailureFrom(r: Report, from: nat): (p: nat)
    requires 1 <= from <= |r|
    ensures from <= p <= |r|
    ensures forall q | from <= q < p :: StepOk(r, q)
    ensures p < |r| ==> !StepOk(r, p)
    decreases |r| - from
  {
    if from == |r| || !StepOk(r, from) then from else FirstFailureFrom(r, from + 1)
  }

  /** The verdict of the safety check: reports shorter than two levels are
      safe; otherwise the first failing position decides, and in the damped
      mode the report is retried, undamped, without one of the levels of
      the failing window. */
  function ReportSafe(r: Report, dampEnabled: bool): bool
    decreases |r|
  {
    if |r| < 2 then true
    else
      var p := FirstFailureFrom(r, 1);
      if p == |r| then true
      else if p == 1 then
        dampEnabled && (ReportSafe(Damp(r, 0), false) || ReportSafe(Damp(r, 1), false))
      else
        dampEnabled && (ReportSafe(Damp(r, p - 2), false) || ReportSafe(Damp(r, p - 1), false)
                        || ReportSafe(Damp(r, p), false))
  }

  /** Scan the report position by position; at the first failing position,
      return false, or in the damped mode retry (undamped) with one level
      of the failing window removed. */
  method CheckReportSafe(report: Report, dampEnabled: bool) returns (safe: bool)
    ensures safe == ReportSafe(report, dampEnabled)
    ensures |report| < 2 ==> safe
    decreases |report|
  {
    if |report| < 2 {
      return true;
    }
    for position := 0 to |report|
      invariant forall q | 1 <= q < position :: StepOk(report, q)
    {
      if position == 0 {
        continue;
      } else if position == 1 {
        if !InLimits(report[0], report[position]) {
          assert FirstFailureFrom(report, 1) == 1;
          if !dampEnabled {
            return false;
          }
          safe := CheckReportSafe(Damp(report, 0), false);
          if !safe {
            safe := CheckReportSafe(Damp(report, 1), false);
          }
          return;
        }
      } else {
        var p := position;
        if !StepValid(report[p - 2], report[p - 1], report[p]) {
          assert !StepOk(report, p);
          assert FirstFailureFrom(report, 1) == p;
          if !dampEnabled {
            return false;
          }
          safe := CheckReportSafe(Damp(report, p - 2), false);
          if !safe {
            safe := CheckReportSafe(Damp(report, p - 1), false);
          }
          if !safe {
            safe := CheckReportSafe(Damp(report, p), false);
          }
          return;
        }
      }
    }
    assert FirstFailureFrom(report, 1) == |report|;
    return true;
  }

  /** The undamped check is exactly `Safe`. */
  lemma UndampedIsSafe(r: Report)
    ensures ReportSafe(r, false) == Safe(r)
  {
  }

  /** The damped check accepts a report exactly when it is safe, or safe
      after removing some single level: retrying only around the first
      failing position loses no report that a removal elsewhere would save. */
  lemma DampedIsOneRemoval(r: Report)
    ensures ReportSafe(r, true) <==> Safe(r) || exists i | 0 <= i < |r| :: Safe(Damp(r, i))
  {
    UndampedIsSafe(r);
    DampingOnlyAccepts(r);
    if ReportSafe(r, true) && !Safe(r) {
      DampedFindsRemoval(r);
    }
    if !Safe(r) && exists i | 0 <= i < |r| :: Safe(Damp(r, i)) {
      var i :| 0 <= i < |r| && Safe(Damp(r, i));
      RemovalRepairs(r, i);
    }
  }

  /** An unsafe report the damped check accepts is safe after one of the
      removals it tried. */
  lemma DampedFindsRemoval(r: Report)
    requires ReportSafe(r, true) && !Safe(r)
    ensures exists i | 0 <= i < |r| :: Safe(Damp(r, i))
  {
    var p := FirstFailureFrom(r, 1);
    assert p < |r|;
    DampedVerdictAt(r, p);
    if p == 1 {
      if Safe(Damp(r, 0)) {
        assert 0 < |r|;
      } else {
        assert 1 < |r| && Safe(Damp(r, 1));
      }
    } else if Safe(Damp(r, p - 2)) {
      assert p - 2 < |r|;
    } else if Safe(Damp(r, p - 1)) {
      assert p - 1 < |r|;
    } else {
      assert Safe(Damp(r, p));
    }
  }

  /** An unsafe report that one removal makes safe is accepted by the
      damped check. */
  lemma RemovalRepairs(r: Report, i: nat)
    requires i < |r| && !Safe(r) && Safe(Damp(r, i))
    ensures ReportSafe(r, true)
  {
    var p := FirstFailureFrom(r, 1);
    assert p < |r|;
    RemovalInWindow(r, i);
    RepairedAt(r, p, i);
  }

  /** A removal that makes an unsafe report safe lies in the window of its
      first failing position. */
  lemma RemovalInWindow(r: Report, i: nat)
    requires 2 <= |r| && i < |r| && !Safe(r) && Safe(Damp(r, i))
    ensures var p := FirstFailureFrom(r, 1);
      if p == 1 then i <= 1 else p - 2 <= i <= p
  {
    var p := FirstFailureFrom(r, 1);
    if p == 1 && i >= 2 {
      DampAfterKeepsStep(r, i, 1);
      assert false;
    } else if p >= 2 && i < p - 2 {
      DampBeforeShiftsStep(r, i, p);
      assert false;
    } else if p >= 2 && i > p {
      DampAfterKeepsStep(r, i, p);
      assert false;
    }
  }

  /** Removing a level after `p` leaves the test at `p` unchanged. */
  lemma DampAfterKeepsStep(r: Report, i: nat, p: nat)
    requires 1 <= p < i < |r|
    ensures StepOk(Damp(r, i), p) == StepOk(r, p)
  {
  }

  /** Removing a level before the window of `p` moves that window, and its
      test, one position left. */
  lemma DampBeforeShiftsStep(r: Report, i: nat, p: nat)
    requires i + 2 < p < |r|
    ensures StepOk(Damp(r, i), p - 1) == StepOk(r, p)
  {
  }

  /** A report safe without dampening is safe with it. */
  lemma DampingOnlyAccepts(r: Report)
    ensures ReportSafe(r, false) ==> ReportSafe(r, true)
  {
  }

  predicate Increasing(r: Report) {
    forall i | 0 <= i < |r| - 1 :: r[i] < r[i + 1]
  }

  predicate Decreasing(r: Report) {
    forall i | 0 <= i < |r| - 1 :: r[i] > r[i + 1]
  }

  predicate GentleSteps(r: Report) {
    forall i | 0 <= i < |r| - 1 :: InLimits(r[i], r[i + 1])
  }

  /** `Safe` is the puzzle's rule: strictly monotone, every step 1 to 3. */
  lemma SafeIsMonotoneAndGentle(r: Report)
    ensures Safe(r) <==> (Increasing(r) || Decreasing(r)) && GentleSteps(r)
  {
    if Safe(r) && |r| >= 2 {
      forall i | 0 <= i < |r| - 1
        ensures InLimits(r[i], r[i + 1])
      {
        assert StepOk(r, i + 1);
      }
      if r[0] < r[1] {
        SafeDirection(r, |r|, true);
      } else {
        SafeDirection(r, |r|, false);
      }
    }
    if (Increasing(r) || Decreasing(r)) && GentleSteps(r) {
      forall p | 1 <= p < |r|
        ensures StepOk(r, p)
      {
        if p >= 2 {
          assert InLimits(r[p - 2], r[p - 1]) && InLimits(r[p - 1], r[p]);
        } else {
          assert InLimits(r[0], r[1]);
        }
      }
    }
  }

  /** In a safe report the direction of the first step is kept up to `n`. */
  lemma {:induction false} SafeDirection(r: Report, n: nat, up: bool)
    requires Safe(r) && 2 <= n <= |r|
    requires up ==> r[0] < r[1]
    requires !up ==> r[0] > r[1]
    ensures forall i | 0 <= i < n - 1 :: if up then r[i] < r[i + 1] else r[i] > r[i + 1]
  {
    if n > 2 {
      SafeDirection(r, n - 1, up);
      assert StepOk(r, n - 1);
    }
  }

  // Part 1 and part 2: counting safe reports

  function CountSafe(reports: seq<Report>, dampEnabled: bool): (n: nat)
    ensures n <= |reports|
  {
    if reports == [] then 0
    else
      CountSafe(reports[..|reports| - 1], dampEnabled)
      + (if ReportSafe(reports[|reports| - 1], dampEnabled) then 1 else 0)
  }

  function Part1(reports: seq<Report>): nat {
    CountSafe(reports, false)
  }

  function Part2(reports: seq<Report>): nat {
    CountSafe(reports, true)
  }

  /** Dampening never loses a safe report: part 1 <= part 2 <= reports. */
  lemma {:induction false} Part1AtMostPart2(reports: seq<Report>)
    ensures Part1(reports) <= Part2(reports) <= |reports|
  {
    if reports != [] {
      Part1AtMostPart2(reports[..|reports| - 1]);
      DampingOnlyAccepts(reports[|reports| - 1]);
    }
  }

  // Parsing: one report per line that holds at least one token

  /** The levels of one line, or the error of its first token that is not
      a 32-bit integer. */
  function LineLevels(line: seq<Token>): Result<Report> {
    if line == [] then Ok([])
    else match LineLevels(line[..|line| - 1])
      case Err(e) => Err(e)
      case Ok(levels) =>
        match ParseI32(line[|line| - 1])
        case Err(e) => Err(e)
        case Ok(v) => Ok(levels + [v])
  }

  /** What parsing yields: the first token error in reading order, or one
      report per line that holds tokens. */
  function ParseSpec(lines: seq<seq<Token>>): Result<seq<Report>> {
    if lines == [] then Ok([])
    else match ParseSpec(lines[..|lines| - 1])
      case Err(e) => Err(e)
      case Ok(reports) =>
        match LineLevels(lines[|lines| - 1])
        case Err(e) => Err(e)
        case Ok(report) => Ok(if |report| > 0 then reports + [report] else reports)
  }

  /** Read every line token by token, pushing each level onto the current
      report and each non-empty report onto the list. */
  method Parse(lines: seq<seq<Token>>) returns (r: Result<seq<Report>>)
    ensures r == ParseSpec(lines)
  {
    var reports: seq<Report> := [];
    for i := 0 to |lines|
      invariant ParseSpec(lines[..i]) == Ok(reports)
    {
      var line := lines[i];
      assert lines[..i + 1][..i] == lines[..i];
      var report: Report := [];
      for j := 0 to |line|
        invariant LineLevels(line[..j]) == Ok(report)
      {
        assert line[..j + 1][..j] == line[..j];
        match ParseI32(line[j])
        case Err(e) =>
          LineErrorExtends(line, j + 1);
          ParseErrorExtends(lines, i + 1);
          return Err(e);
        case Ok(v) =>
          report := report + [v];
      }
      assert line[..|line|] == line;
      if |report| > 0 {
        reports := reports + [report];
      }
    }
    assert lines[..|lines|] == lines;
    return Ok(reports);
  }

  lemma {:induction false} LineErrorExtends(line: seq<Token>, n: nat)
    requires n <= |line| && LineLevels(line[..n]).Err?
    ensures LineLevels(line) == LineLevels(line[..n])
    decreases |line| - n
  {
    if n < |line| {
      assert line[..n + 1][..n] == line[..n];
      LineErrorExtends(line, n + 1);
    } else {
      assert line[..n] == line;
    }
  }

  lemma {:induction false} ParseErrorExtends(lines: seq<seq<Token>>, n: nat)
    requires n <= |lines| && ParseSpec(lines[..n]).Err?
    ensures ParseSpec(lines) == ParseSpec(lines[..n])
    decreases |lines| - n
  {
    if n < |lines| {
      assert lines[..n + 1][..n] == lines[..n];
      ParseErrorExtends(lines, n + 1);
    } else {
      assert lines[..n] == lines;
    }
  }

  /** A line is read whole exactly when every token is a 32-bit integer,
      and its levels are then the tokens' values; otherwise the error names
      its first offending token. */
  lemma {:induction false} LineLevelsMeaning(line: seq<Token>)
    ensures LineLevels(line).Ok? <==> forall j | 0 <= j < |line| :: IsI32(line[j])
    ensures LineLevels(line).Ok? ==>
              |LineLevels(line).value| == |line|
              && forall j | 0 <= j < |line| :: line[j] == Numeral(LineLevels(line).value[j])
    ensures LineLevels(line).Ok? ==>
              (forall j | 0 <= j < |line| :: line[j].Numeral?) && LineLevels(line).value == Values(line)
    ensures LineLevels(line).Err? ==>
              exists j | 0 <= j < |line| ::
                && !IsI32(line[j])
                && LineLevels(line).error == NotAnInteger(line[j])
                && forall k | 0 <= k < j :: IsI32(line[k])
  {
    if line != [] {
      var init := line[..|line| - 1];
      LineLevelsMeaning(init);
      assert forall j | 0 <= j < |init| :: init[j] == line[j];
    }
  }

  /** Parsing succeeds exactly when every token of every line is a 32-bit
      integer. */
  lemma {:induction false} ParseOkIff(lines: seq<seq<Token>>)
    ensures ParseSpec(lines).Ok? <==>
              forall i, j | 0 <= i < |lines| && 0 <= j < |lines[i]| :: IsI32(lines[i][j])
  {
    if lines != [] {
      var init := lines[..|lines| - 1];
      ParseOkIff(init);
      LineLevelsMeaning(lines[|lines| - 1]);
      assert forall i | 0 <= i < |init| :: init[i] == lines[i];
    }
  }

  /** A successful parse yields exactly one non-empty report per line that
      holds tokens, in input order, made of that line's values; lines
      without tokens yield no report. */
  lemma {:induction false} ParsedReports(lines: seq<seq<Token>>)
    requires ParseSpec(lines).Ok?
    ensures var reports := ParseSpec(lines).value;
      && |reports| == |NonBlank(lines)|
      && forall k | 0 <= k < |reports| ::
           && |reports[k]| > 0
           && |reports[k]| == |NonBlank(lines)[k]|
           && forall j | 0 <= j < |reports[k]| :: NonBlank(lines)[k][j] == Numeral(reports[k][j])
  {
    if lines != [] {
      var init := lines[..|lines| - 1];
      ParsedReports(init);
      LineLevelsMeaning(lines[|lines| - 1]);
    }
  }

  /** The damped verdict on a report whose first failing position is `p`. */
  lemma DampedVerdictAt(r: Report, p: nat)
    requires 1 <= p < |r|
    requires forall q | 1 <= q < p :: StepOk(r, q)
    requires !StepOk(r, p)
    ensures !Safe(r)
    ensures ReportSafe(r, true) <==>
              if p == 1 then Safe(Damp(r, 0)) || Safe(Damp(r, 1))
              else Safe(Damp(r, p - 2)) || Safe(Damp(r, p - 1)) || Safe(Damp(r, p))
  {
    assert FirstFailureFrom(r, 1) == p;
    UndampedIsSafe(Damp(r, if p == 1 then 0 else p - 2));
    UndampedIsSafe(Damp(r, if p == 1 then 1 else p - 1));
    UndampedIsSafe(Damp(r, p));
  }

  /** The count of safe reports is the number of `true` verdicts. */
  lemma {:induction false} CountSafeByVerdicts(reports: seq<Report>, dampEnabled: bool, verdicts: seq<bool>)
    requires |verdicts| == |reports|
    requires forall i | 0 <= i < |reports| :: ReportSafe(reports[i], dampEnabled) == verdicts[i]
    ensures CountSafe(reports, dampEnabled) == multiset(verdicts)[true]
  {
    if reports != [] {
      var n := |reports| - 1;
      CountSafeByVerdicts(reports[..n], dampEnabled, verdicts[..n]);
      assert verdicts == verdicts[..n] + [verdicts[n]];
    }
  }

  /** A report that passes every test passes in both modes. */
  lemma SafeInBothModes(r: Report)
    requires Safe(r)
    ensures ReportSafe(r, false) && ReportSafe(r, true)
  {
    UndampedIsSafe(r);
  }

  /** A report failing first at `p` that one listed removal repairs. */
  lemma RepairedAt(r: Report, p: nat, k: nat)
    requires 1 <= p < |r|
    requires forall q | 1 <= q < p :: StepOk(r, q)
    requires !StepOk(r, p)
    requires if p == 1 then k <= 1 else p - 2 <= k <= p
    requires Safe(Damp(r, k))
    ensures !ReportSafe(r, false) && ReportSafe(r, true)
  {
    DampedVerdictAt(r, p);
    UndampedIsSafe(r);
  }

  lemma Example1Report0(r: Report)
    requires |r| == 5 && r[0] == 7 && r[1] == 6 && r[2] == 4 && r[3] == 2 && r[4] == 1
    ensures ReportSafe(r, false) && ReportSafe(r, true)
  {
    SafeInBothModes(r);
  }

  lemma Example1Report1(r: Report)
    requires |r| == 5 && r[0] == 1 && r[1] == 2 && r[2] == 7 && r[3] == 8 && r[4] == 9
    ensures !ReportSafe(r, false) && !ReportSafe(r, true)
  {
    assert !StepOk(Damp(r, 0), 1);
    assert !StepOk(Damp(r, 1), 1);
    assert !StepOk(Damp(r, 2), 2);
    DampedVerdictAt(r, 2);
    UndampedIsSafe(r);
  }

  lemma Example1Report2(r: Report)
    requires |r| == 5 && r[0] == 9 && r[1] == 7 && r[2] == 6 && r[3] == 2 && r[4] == 1
    ensures !ReportSafe(r, false) && !ReportSafe(r, true)
  {
    assert !StepOk(Damp(r, 1), 2);
    assert !StepOk(Damp(r, 2), 2);
    assert !StepOk(Damp(r, 3), 3);
    DampedVerdictAt(r, 3);
    UndampedIsSafe(r);
  }

  lemma Example1Report3(r: Report)
    requires |r| == 5 && r[0] == 1 && r[1] == 3 && r[2] == 2 && r[3] == 4 && r[4] == 5
    ensures !ReportSafe(r, false) && ReportSafe(r, true)
  {
    RepairedAt(r, 2, 1);
  }

  lemma Example1Report4(r: Report)
    requires |r| == 5 && r[0] == 8 && r[1] == 6 && r[2] == 4 && r[3] == 4 && r[4] == 1
    ensures !ReportSafe(r, false) && ReportSafe(r, true)
  {
    RepairedAt(r, 3, 2);
  }

  lemma Example1Report5(r: Report)
    requires |r| == 5 && r[0] == 1 && r[1] == 3 && r[2] == 6 && r[3] == 7 && r[4] == 9
    ensures ReportSafe(r, false) && ReportSafe(r, true)
  {
    SafeInBothModes(r);
  }

  lemma Example2Report0(r: Report)
    requires |r| == 5 && r[0] == 5 && r[1] == 6 && r[2] == 4 && r[3] == 2 && r[4] == 1
    ensures !ReportSafe(r, false) && ReportSafe(r, true)
  {
    RepairedAt(r, 2, 0);
  }

  lemma Example2Report5(r: Report)
    requires |r| == 5 && r[0] == 1 && r[1] == 3 && r[2] == 6 && r[3] == 7 && r[4] == 6
    ensures !ReportSafe(r, false) && ReportSafe(r, true)
  {
    RepairedAt(r, 4, 4);
  }

  lemma Example2Report6(r: Report)
    requires |r| == 5 && r[0] == 4 && r[1] == 7 && r[2] == 5 && r[3] == 3 && r[4] == 1
    ensures !ReportSafe(r, false) && ReportSafe(r, true)
  {
    RepairedAt(r, 2, 0);
  }

  /** The two example inputs of the puzzle. */
  const Example1: seq<Report> :=
    [[7, 6, 4, 2, 1], [1, 2, 7, 8, 9], [9, 7, 6, 2, 1],
     [1, 3, 2, 4, 5], [8, 6, 4, 4, 1], [1, 3, 6, 7, 9]]

  const Example2: seq<Report> :=
    [[5, 6, 4, 2, 1], [1, 2, 7, 8, 9], [9, 7, 6, 2, 1], [1, 3, 2, 4, 5],
     [8, 6, 4, 4, 1], [1, 3, 6, 7, 6], [4, 7, 5, 3, 1]]

  /** The two parts count the `true` verdicts of the two modes. */
  lemma CountsFromVerdicts(rs: seq<Report>, undamped: seq<bool>, damped: seq<bool>)
    requires |rs| == |undamped| == |damped|
    requires forall i | 0 <= i < |rs| :: ReportSafe(rs[i], false) == undamped[i]
    requires forall i | 0 <= i < |rs| :: ReportSafe(rs[i], true) == damped[i]
    ensures Part1(rs) == multiset(undamped)[true] && Part2(rs) == multiset(damped)[true]
  {
    CountSafeByVerdicts(rs, false, undamped);
    CountSafeByVerdicts(rs, true, damped);
  }

  /** On the first example, part 1 is 2 and part 2 is 4. */
  lemma Example1Counts(rs: seq<Report>)
    requires rs == Example1
    ensures Part1(rs) == 2 && Part2(rs) == 4
  {
    var undamped := [true, false, false, false, false, true];
    var damped := [true, false, false, true, true, true];
    Example1Verdicts(rs, undamped, damped);
    Example1Tallies(undamped, damped);
    CountsFromVerdicts(rs, undamped, damped);
  }

  /** The verdict on each report of the example, in both modes. */
  lemma Example1Verdicts(rs: seq<Report>, undamped: seq<bool>, damped: seq<bool>)
    requires rs == Example1
    requires undamped == [true, false, false, false, false, true]
    requires damped == [true, false, false, true, true, true]
    ensures |rs| == |undamped| == |damped|
    ensures forall i | 0 <= i < |rs| :: ReportSafe(rs[i], false) == undamped[i]
    ensures forall i | 0 <= i < |rs| :: ReportSafe(rs[i], true) == damped[i]
  {
    forall i | 0 <= i < |rs|
      ensures ReportSafe(rs[i], false) == undamped[i] && ReportSafe(rs[i], true) == damped[i]
    {
      if i == 0 { Example1Report0(rs[0]); }
      else if i == 1 { Example1Report1(rs[1]); }
      else if i == 2 { Example1Report2(rs[2]); }
      else if i == 3 { Example1Report3(rs[3]); }
      else if i == 4 { Example1Report4(rs[4]); }
      else { Example1Report5(rs[5]); }
    }
  }

  /** How many of the example's verdicts are `true`. */
  lemma Example1Tallies(undamped: seq<bool>, damped: seq<bool>)
    requires undamped == [true, false, false, false, false, true]
    requires damped == [true, false, false, true, true, true]
    ensures multiset(undamped)[true] == 2 && multiset(damped)[true] == 4
  {
    assert multiset(undamped) == multiset{true, false, false, false, false, true};
    assert multiset(damped) == multiset{true, false, false, true, true, true};
  }

  /** On the second example, part 1 is 0 and part 2 is 5. */
  lemma Example2Counts(rs: seq<Report>)
    requires rs == Example2
    ensures Part1(rs) == 0 && Part2(rs) == 5
  {
    var undamped := [false, false, false, false, false, false, false];
    var damped := [true, false, false, true, true, true, true];
    Example2Verdicts(rs, undamped, damped);
    Example2Tallies(undamped, damped);
    CountsFromVerdicts(rs, undamped, damped);
  }

  /** The verdict on each report of the example, in both modes. */
  lemma Example2Verdicts(rs: seq<Report>, undamped: seq<bool>, damped: seq<bool>)
    requires rs == Example2
    requires undamped == [false, false, false, false, false, false, false]
    requires damped == [true, false, false, true, true, true, true]
    ensures |rs| == |undamped| == |damped|
    ensures forall i | 0 <= i < |rs| :: ReportSafe(rs[i], false) == undamped[i]
    ensures forall i | 0 <= i < |rs| :: ReportSafe(rs[i], true) == damped[i]
  {
    forall i | 0 <= i < |rs|
      ensures ReportSafe(rs[i], false) == undamped[i] && ReportSafe(rs[i], true) == damped[i]
    {
      if i == 0 { Example2Report0(rs[0]); }
      else if i == 1 { Example1Report1(rs[1]); }
      else if i == 2 { Example1Report2(rs[2]); }
      else if i == 3 { Example1Report3(rs[3]); }
      else if i == 4 { Example1Report4(rs[4]); }
      else if i == 5 { Example2Report5(rs[5]); }
      else { Example2Report6(rs[6]); }
    }
  }

  /** How many of the example's verdicts are `true`. */
  lemma Example2Tallies(undamped: seq<bool>, damped: seq<bool>)
    requires undamped == [false, false, false, false, false, false, false]
    requires damped == [true, false, false, true, true, true, true]
    ensures multiset(undamped)[true] == 0 && multiset(damped)[true] == 5
  {
    assert multiset(damped) == multiset{true, false, false, true, true, true, true};
  }
}
