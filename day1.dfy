/** List distance and similarity.  The input is two whitespace-separated
    integer columns; part 1 pairs the columns after sorting each and sums
    the distances, part 2 weighs every left value by how often it occurs
    in the right column. */
module Day1 {
  import opened Common

  /** The parsed puzzle state: both columns in input order and, for the
      right column, the number of occurrences of each value. */
  datatype Locations = Locations(list1: seq<int>, list2: seq<int>, counts: map<int, int>)

  /** What one input line contributes to the parse. */
  datatype Line = Blank | Pair(left: int, right: int) | Bad(error: ParseError)

  /** A blank line is skipped; any other line must hold exactly two tokens,
      the left one checked first, each a 32-bit integer. */
  function ClassifyLine(line: seq<Token>): (c: Line)
    ensures c.Blank? <==> |line| == 0
    ensures c.Pair? <==> |line| == 2 && IsI32(line[0]) && IsI32(line[1])
    ensures c.Pair? ==> c.left == line[0].value && c.right == line[1].value
    ensures c.Bad? && |line| != 2 ==> c.error == WrongEntryCount(|line|)
    ensures c.Bad? && |line| == 2 ==>
              c.error == NotAnInteger(if IsI32(line[0]) then line[1] else line[0])
  {
    if |line| == 0 then Blank
    else if |line| != 2 then Bad(WrongEntryCount(|line|))
    else match ParseI32(line[0])
      case Err(e) => Bad(e)
      case Ok(a) =>
        match ParseI32(line[1])
        case Err(e) => Bad(e)
        case Ok(b) => Pair(a, b)
  }

  /** The error of the first malformed line, if any. */
  function FirstError(lines: seq<seq<Token>>): Option<ParseError> {
    if lines == [] then None
    else match FirstError(lines[..|lines| - 1])
      case Some(e) => Some(e)
      case None =>
        match ClassifyLine(lines[|lines| - 1])
        case Bad(e) => Some(e)
        case _ => None
  }

  /** The left column: the first value of every two-entry line, in order. */
  function Lefts(lines: seq<seq<Token>>): seq<int> {
    if lines == [] then []
    else match ClassifyLine(lines[|lines| - 1])
      case Pair(a, _) => Lefts(lines[..|lines| - 1]) + [a]
      case _ => Lefts(lines[..|lines| - 1])
  }

  /** The right column: the second value of every two-entry line, in order. */
  function Rights(lines: seq<seq<Token>>): seq<int> {
    if lines == [] then []
    else match ClassifyLine(lines[|lines| - 1])
      case Pair(_, b) => Rights(lines[..|lines| - 1]) + [b]
      case _ => Rights(lines[..|lines| - 1])
  }

  /** The occurrence table built one value at a time, as the parser does. */
  function Tally(s: seq<int>): map<int, int> {
    if s == [] then map[]
    else
      var m := Tally(s[..|s| - 1]);
      var v := s[|s| - 1];
      m[v := (if v in m then m[v] else 0) + 1]
  }

  /** `counts` records, for each value of `s`, how often it occurs, and
      holds no other value. */
  ghost predicate IsCountsTable(counts: map<int, int>, s: seq<int>) {
    && (forall v :: v in counts <==> v in s)
    && (forall v | v in counts :: counts[v] == multiset(s)[v])
  }

  /** What parsing yields: the first line error, or both columns and the
      occurrence table of the right one. */
  function ParseSpec(lines: seq<seq<Token>>): Result<Locations> {
    match FirstError(lines)
    case Some(e) => Err(e)
    case None => Ok(Locations(Lefts(lines), Rights(lines), Tally(Rights(lines))))
  }

  /** Parse the tokenised lines, pushing onto both columns and counting the
      right-column values in place. */
  method Parse(lines: seq<seq<Token>>) returns (r: Result<Locations>)
    ensures r == ParseSpec(lines)
  {
    var list1: seq<int> := [];
    var list2: seq<int> := [];
    var counts: map<int, int> := map[];
    for i := 0 to |lines|
      invariant FirstError(lines[..i]).None?
      invariant list1 == Lefts(lines[..i]) && list2 == Rights(lines[..i])
      invariant counts == Tally(list2)
    {
      var line := lines[i];
      PrefixStep(lines, i);
      if |line| != 0 {
        if |line| != 2 {
          FirstErrorExtends(lines, i + 1);
          return Err(WrongEntryCount(|line|));
        }
        match ParseI32(line[0])
        case Err(e) =>
          FirstErrorExtends(lines, i + 1);
          return Err(e);
        case Ok(l1) =>
          list1 := list1 + [l1];
          match ParseI32(line[1])
          case Err(e) =>
            FirstErrorExtends(lines, i + 1);
            return Err(e);
          case Ok(l2) =>
            assert (list2 + [l2])[..|list2|] == list2;
            list2 := list2 + [l2];
            counts := counts[l2 := (if l2 in counts then counts[l2] else 0) + 1];
      }
    }
    assert lines[..|lines|] == lines;
    return Ok(Locations(list1, list2, counts));
  }

  /** How the parse of a prefix grows by one line. */
  lemma PrefixStep(lines: seq<seq<Token>>, i: nat)
    requires i < |lines|
    ensures var c := ClassifyLine(lines[i]);
      && FirstError(lines[..i + 1])
           == (if FirstError(lines[..i]).Some? then FirstError(lines[..i])
               else if c.Bad? then Some(c.error) else None)
      && Lefts(lines[..i + 1]) == Lefts(lines[..i]) + (if c.Pair? then [c.left] else [])
      && Rights(lines[..i + 1]) == Rights(lines[..i]) + (if c.Pair? then [c.right] else [])
  {
    assert lines[..i + 1][..i] == lines[..i];
  }

  /** An error in a prefix is the error of the whole input. */
  lemma {:induction false} FirstErrorExtends(lines: seq<seq<Token>>, n: nat)
    requires n <= |lines| && FirstError(lines[..n]).Some?
    ensures FirstError(lines) == FirstError(lines[..n])
    decreases |lines| - n
  {
    if n < |lines| {
      assert lines[..n + 1][..n] == lines[..n];
      FirstErrorExtends(lines, n + 1);
    } else {
      assert lines[..n] == lines;
    }
  }

  /** A line the parser accepts: blank, or two 32-bit integer tokens. */
  predicate WellFormed(line: seq<Token>) {
    |line| == 0 || (|line| == 2 && IsI32(line[0]) && IsI32(line[1]))
  }

  /** Parsing succeeds exactly when every line is well formed; in
      particular a non-blank line without exactly two tokens fails it. */
  lemma {:induction false} ParseOkIff(lines: seq<seq<Token>>)
    ensures ParseSpec(lines).Ok? <==> forall i | 0 <= i < |lines| :: WellFormed(lines[i])
  {
    FirstErrorNone(lines);
  }

  lemma {:induction false} FirstErrorNone(lines: seq<seq<Token>>)
    ensures FirstError(lines).None? <==> forall i | 0 <= i < |lines| :: WellFormed(lines[i])
  {
    if lines != [] {
      var init := lines[..|lines| - 1];
      FirstErrorNone(init);
      assert forall i | 0 <= i < |init| :: init[i] == lines[i];
    }
  }

  /** A failed parse reports the error of the first malformed line. */
  lemma {:induction false} ParseErrorIsFirstBadLine(lines: seq<seq<Token>>)
    requires ParseSpec(lines).Err?
    ensures exists k | 0 <= k < |lines| ::
              && !WellFormed(lines[k])
              && ParseSpec(lines).error == ClassifyLine(lines[k]).error
              && forall i | 0 <= i < k :: WellFormed(lines[i])
  {
    var k := FirstBadLine(lines);
  }

  lemma {:induction false} FirstBadLine(lines: seq<seq<Token>>) returns (k: nat)
    requires FirstError(lines).Some?
    ensures k < |lines| && !WellFormed(lines[k])
    ensures FirstError(lines).value == ClassifyLine(lines[k]).error
    ensures forall i | 0 <= i < k :: WellFormed(lines[i])
  {
    var init := lines[..|lines| - 1];
    assert forall i | 0 <= i < |init| :: init[i] == lines[i];
    if FirstError(init).Some? {
      k := FirstBadLine(init);
    } else {
      FirstErrorNone(init);
      k := |lines| - 1;
    }
  }

  /** After a successful parse both columns have one entry per non-blank
      line, taken from that line's two tokens in input order. */
  lemma {:induction false} ParseColumns(lines: seq<seq<Token>>)
    requires ParseSpec(lines).Ok?
    ensures var d := ParseSpec(lines).value;
      && |d.list1| == |d.list2| == |NonBlank(lines)|
      && forall k | 0 <= k < |d.list1| ::
           NonBlank(lines)[k] == [Numeral(d.list1[k]), Numeral(d.list2[k])]
  {
    ParseOkIff(lines);
    ColumnsOfWellFormed(lines);
  }

  lemma {:induction false} ColumnsOfWellFormed(lines: seq<seq<Token>>)
    requires forall i | 0 <= i < |lines| :: WellFormed(lines[i])
    ensures |Lefts(lines)| == |Rights(lines)| == |NonBlank(lines)|
    ensures forall k | 0 <= k < |NonBlank(lines)| ::
              NonBlank(lines)[k] == [Numeral(Lefts(lines)[k]), Numeral(Rights(lines)[k])]
  {
    if lines != [] {
      var init := lines[..|lines| - 1];
      assert forall i | 0 <= i < |init| :: init[i] == lines[i];
      ColumnsOfWellFormed(init);
    }
  }

  lemma {:induction false} NonBlankOfNonEmpty(lines: seq<seq<Token>>)
    requires forall i | 0 <= i < |lines| :: lines[i] != []
    ensures NonBlank(lines) == lines
  {
    if lines != [] {
      NonBlankOfNonEmpty(lines[..|lines| - 1]);
    }
  }

  /** The table built value by value counts each value of the sequence
      and nothing else. */
  lemma {:induction false} TallyCounts(s: seq<int>)
    ensures IsCountsTable(Tally(s), s)
  {
    if s != [] {
      var init, v := s[..|s| - 1], s[|s| - 1];
      TallyCounts(init);
      assert s == init + [v];
      assert forall w :: w in s <==> w in init || w == v;
    }
  }

  /** After a successful parse, `counts` is the occurrence table of the
      right column: values absent from it have no entry. */
  lemma ParseCounts(lines: seq<seq<Token>>)
    requires ParseSpec(lines).Ok?
    ensures IsCountsTable(ParseSpec(lines).value.counts, ParseSpec(lines).value.list2)
  {
    TallyCounts(Rights(lines));
  }

  // Part 1: sorted pairwise distance

  predicate Sorted(s: seq<int>) {
    forall i, j | 0 <= i < j < |s| :: s[i] <= s[j]
  }

  function Insert(x: int, s: seq<int>): (r: seq<int>)
    requires Sorted(s)
    ensures Sorted(r) && multiset(r) == multiset(s) + multiset{x}
  {
    if s == [] || x <= s[0] then [x] + s
    else
      var rest := Insert(x, s[1..]);
      assert s == [s[0]] + s[1..];
      AllAtLeast(s[0], s[1..], x, rest);
      [s[0]] + rest
  }

  /** A sequence holding the values of `t` and `x`, all at least `h`, has
      only values at least `h`; put after `h`, it stays sorted. */
  lemma AllAtLeast(h: int, t: seq<int>, x: int, rest: seq<int>)
    requires forall k | 0 <= k < |t| :: h <= t[k]
    requires h <= x && Sorted(rest)
    requires multiset(rest) == multiset(t) + multiset{x}
    ensures Sorted([h] + rest)
  {
    forall k | 0 <= k < |rest|
      ensures h <= rest[k]
    {
      assert rest[k] in multiset(rest);
      if rest[k] != x {
        assert rest[k] in multiset(t);
        var m :| 0 <= m < |t| && t[m] == rest[k];
      }
    }
  }

  /** The ascending rearrangement of `s` (the library sort of the source,
      described by its result). */
  function Sort(s: seq<int>): (r: seq<int>)
    ensures Sorted(r) && multiset(r) == multiset(s)
  {
    if s == [] then []
    else
      assert s == [s[0]] + s[1..];
      Insert(s[0], Sort(s[1..]))
  }

  /** There is only one ascending arrangement of a multiset of values. */
  lemma {:induction false} SortedUnique(a: seq<int>, b: seq<int>)
    requires Sorted(a) && Sorted(b) && multiset(a) == multiset(b)
    ensures a == b
  {
    assert |a| == |multiset(a)| == |b|;
    if a != [] {
      SameLeast(a, b);
      TailMultiset(a);
      TailMultiset(b);
      SortedUnique(a[1..], b[1..]);
      assert a == [a[0]] + a[1..] && b == [b[0]] + b[1..];
    }
  }

  /** Two sorted arrangements of one non-empty multiset start alike. */
  lemma SameLeast(a: seq<int>, b: seq<int>)
    requires Sorted(a) && Sorted(b) && multiset(a) == multiset(b) && a != []
    ensures b != [] && a[0] == b[0]
  {
    assert a[0] in multiset(b);
    assert b != [];
    assert b[0] in multiset(a);
    var j :| 0 <= j < |b| && b[j] == a[0];
    var k :| 0 <= k < |a| && a[k] == b[0];
    assert b[0] <= b[j] && a[0] <= a[k];
  }

  /** The tail of a sequence holds its values less the first. */
  lemma TailMultiset(a: seq<int>)
    requires a != []
    ensures multiset(a[1..]) == multiset(a) - multiset{a[0]}
  {
    assert a == [a[0]] + a[1..];
  }

  /** Sum of the distances of paired elements; pairing stops at the end of
      the shorter sequence. */
  function Distance(a: seq<int>, b: seq<int>): nat {
    if a == [] || b == [] then 0 else Abs(a[0] - b[0]) + Distance(a[1..], b[1..])
  }

  /** Total distance between the two columns once each is sorted; the
      stored columns are not changed (sorting works on copies). */
  function Part1(d: Locations): nat {
    Distance(Sort(d.list1), Sort(d.list2))
  }

  /** Part 1 depends only on the multisets of the two columns: reordering
      either column does not change it. */
  lemma Part1Permutation(d: Locations, e: Locations)
    requires multiset(d.list1) == multiset(e.list1)
    requires multiset(d.list2) == multiset(e.list2)
    ensures Part1(d) == Part1(e)
  {
    SortedUnique(Sort(d.list1), Sort(e.list1));
    SortedUnique(Sort(d.list2), Sort(e.list2));
  }

  /** Swapping the two columns does not change part 1. */
  lemma {:induction false} DistanceSymmetric(a: seq<int>, b: seq<int>)
    ensures Distance(a, b) == Distance(b, a)
  {
    if a != [] && b != [] {
      DistanceSymmetric(a[1..], b[1..]);
    }
  }

  // Part 2: similarity score

  /** Each left value times its entry in the table (0 when absent). */
  function Similarity(list1: seq<int>, counts: map<int, int>): int {
    if list1 == [] then 0
    else
      var a := list1[0];
      a * (if a in counts then counts[a] else 0) + Similarity(list1[1..], counts)
  }

  function Part2(d: Locations): int {
    Similarity(d.list1, d.counts)
  }

  /** Reference definition of the similarity score, without a table: each
      left value times its number of occurrences in the right column. */
  function SimilarityByOccurrence(list1: seq<int>, list2: seq<int>): int {
    if list1 == [] then 0
    else list1[0] * multiset(list2)[list1[0]] + SimilarityByOccurrence(list1[1..], list2)
  }

  lemma {:induction false} SimilarityMatchesOccurrence(list1: seq<int>, list2: seq<int>, counts: map<int, int>)
    requires IsCountsTable(counts, list2)
    ensures Similarity(list1, counts) == SimilarityByOccurrence(list1, list2)
  {
    if list1 != [] {
      var a := list1[0];
      assert a !in counts ==> multiset(list2)[a] == 0;
      SimilarityMatchesOccurrence(list1[1..], list2, counts);
    }
  }

  /** On a parsed input, part 2 is the sum of each left value times its
      occurrences in the right column; values absent from it add 0. */
  lemma Part2Parsed(lines: seq<seq<Token>>)
    requires ParseSpec(lines).Ok?
    ensures var d := ParseSpec(lines).value;
      Part2(d) == SimilarityByOccurrence(d.list1, d.list2)
  {
    ParseCounts(lines);
    var d := ParseSpec(lines).value;
    SimilarityMatchesOccurrence(d.list1, d.list2, d.counts);
  }

  /** The six-line example with its trailing blank line. */
  const ExampleLines: seq<seq<Token>> :=
    [[Numeral(3), Numeral(4)], [Numeral(4), Numeral(3)], [Numeral(2), Numeral(5)],
     [Numeral(1), Numeral(3)], [Numeral(3), Numeral(9)], [Numeral(3), Numeral(3)], []]

  lemma ExampleParse()
    ensures ParseSpec(ExampleLines) == Ok(Locations([3, 4, 2, 1, 3, 3], [4, 3, 5, 3, 9, 3], Tally([4, 3, 5, 3, 9, 3])))
  {
    var lines := ExampleLines;
    assert forall i | 0 <= i < |lines| :: WellFormed(lines[i]);
    FirstErrorNone(lines);
    ColumnsOfWellFormed(lines);
    assert lines[..|lines| - 1] == lines[..6];
    NonBlankOfNonEmpty(lines[..6]);
    assert NonBlank(lines) == lines[..6];
    var l1, l2 := Lefts(lines), Rights(lines);
    assert forall k | 0 <= k < 6 :: lines[k] == [Numeral(l1[k]), Numeral(l2[k])];
    assert l1 == [3, 4, 2, 1, 3, 3];
    assert l2 == [4, 3, 5, 3, 9, 3];
  }

  lemma ExamplePart1(d: Locations)
    requires d.list1 == [3, 4, 2, 1, 3, 3] && d.list2 == [4, 3, 5, 3, 9, 3]
    ensures Part1(d) == 11
  {
    ExampleSorted();
    ExampleLeftSorted();
    ExampleRightSorted();
    ExampleDistance();
    Part1BySortedCopies(d, [1, 2, 3, 3, 3, 4], [3, 3, 3, 4, 5, 9]);
  }

  lemma ExampleSorted()
    ensures Sorted([1, 2, 3, 3, 3, 4]) && Sorted([3, 3, 3, 4, 5, 9])
  {
  }

  lemma ExampleDistance()
    ensures Distance([1, 2, 3, 3, 3, 4], [3, 3, 3, 4, 5, 9]) == 11
  {
  }

  lemma ExampleLeftSorted()
    ensures multiset([3, 4, 2, 1, 3, 3]) == multiset([1, 2, 3, 3, 3, 4])
  {
  }

  lemma ExampleRightSorted()
    ensures multiset([4, 3, 5, 3, 9, 3]) == multiset([3, 3, 3, 4, 5, 9])
  {
  }

  /** Part 1 is the distance between any ascending arrangements of the
      two columns. */
  lemma Part1BySortedCopies(d: Locations, s1: seq<int>, s2: seq<int>)
    requires Sorted(s1) && multiset(s1) == multiset(d.list1)
    requires Sorted(s2) && multiset(s2) == multiset(d.list2)
    ensures Part1(d) == Distance(s1, s2)
  {
    SortedUnique(Sort(d.list1), s1);
    SortedUnique(Sort(d.list2), s2);
  }

  lemma ExamplePart2()
    ensures Part2(Locations([3, 4, 2, 1, 3, 3], [4, 3, 5, 3, 9, 3], Tally([4, 3, 5, 3, 9, 3]))) == 31
  {
    var l1, l2 := [3, 4, 2, 1, 3, 3], [4, 3, 5, 3, 9, 3];
    TallyCounts(l2);
    SimilarityMatchesOccurrence(l1, l2, Tally(l2));
    ExampleOccurrences(l2);
    ExampleSimilarity(l1, l2);
  }

  /** How often the example's left values occur in its right column. */
  lemma ExampleOccurrences(l2: seq<int>)
    requires l2 == [4, 3, 5, 3, 9, 3]
    ensures multiset(l2)[3] == 3 && multiset(l2)[4] == 1
    ensures multiset(l2)[2] == 0 && multiset(l2)[1] == 0
  {
    assert multiset(l2) == multiset{4, 3, 5, 3, 9, 3};
  }

  /** The example's similarity score, left value by left value. */
  lemma ExampleSimilarity(l1: seq<int>, l2: seq<int>)
    requires l1 == [3, 4, 2, 1, 3, 3]
    requires multiset(l2)[3] == 3 && multiset(l2)[4] == 1
    requires multiset(l2)[2] == 0 && multiset(l2)[1] == 0
    ensures SimilarityByOccurrence(l1, l2) == 31
  {
    assert SimilarityByOccurrence(l1[5..], l2) == 9;
    assert SimilarityByOccurrence(l1[4..], l2) == 18;
    assert SimilarityByOccurrence(l1[3..], l2) == 18;
    assert SimilarityByOccurrence(l1[2..], l2) == 18;
    assert SimilarityByOccurrence(l1[1..], l2) == 22;
  }

  /** On the example, part 1 is 11 and part 2 is 31. */
  lemma Example()
    ensures ParseSpec(ExampleLines).Ok?
    ensures Part1(ParseSpec(ExampleLines).value) == 11
    ensures Part2(ParseSpec(ExampleLines).value) == 31
  {
    ExampleParse();
    ExamplePart1(ParseSpec(ExampleLines).value);
    ExamplePart2();
  }
}
