/** Corrupted memory.  The program text is scanned for `mul(A,B)` with A
    and B of one to three decimal digits, `do()` and `don't()`; each match
    becomes an operation.  Part 1 adds up every product; part 2 folds a
    two-state machine over the operations, adding products only while
    enabled. */
module Day3 {
  import opened Common

  datatype Operation = Mul(a: int, b: int) | Do | Dont

  // Decimal numerals

  predicate IsDigit(c: char) {
    '0' <= c <= '9'
  }

  predicate AllDigits(s: string) {
    forall k | 0 <= k < |s| :: IsDigit(s[k])
  }

  /** The value of a decimal digit; other characters count as 0. */
  function DigitValue(c: char): (d: nat)
    ensures d <= 9
  {
    if IsDigit(c) then c as int - '0' as int else 0
  }

  /** The value of a string of decimal digits, most significant first. */
  function DecimalValue(ds: string): (n: nat)
    ensures n < Pow10(|ds|)
  {
    if ds == [] then 0
    else DecimalValue(ds[..|ds| - 1]) * 10 + DigitValue(ds[|ds| - 1])
  }

  function Pow10(k: nat): (p: nat)
    ensures p >= 1
  {
    if k == 0 then 1 else 10 * Pow10(k - 1)
  }

  /** The shortest decimal numeral of `n`. */
  function Digits(n: nat): (ds: string)
    ensures 1 <= |ds| && AllDigits(ds)
    ensures DecimalValue(ds) == n
    ensures n < 10 ==> |ds| == 1
    ensures n < 100 ==> |ds| <= 2
    ensures n < 1000 ==> |ds| <= 3
  {
    var last := (n % 10 + '0' as int) as char;
    if n < 10 then
      assert [last][..0] == [];
      [last]
    else
      var ds := Digits(n / 10) + [last];
      assert ds[..|ds| - 1] == Digits(n / 10);
      ds
  }

  /** The number of consecutive digits of `t` from index `i` on. */
  function DigitRun(t: string, i: nat): (n: nat)
    requires i <= |t|
    ensures i + n <= |t|
    decreases |t| - i
  {
    if i < |t| && IsDigit(t[i]) then 1 + DigitRun(t, i + 1) else 0
  }

  lemma {:induction false} DigitRunIs(t: string, i: nat, n: nat)
    requires i + n <= |t|
    requires AllDigits(t[i..i + n])
    requires i + n < |t| ==> !IsDigit(t[i + n])
    ensures DigitRun(t, i) == n
    decreases n
  {
    if n > 0 {
      assert IsDigit(t[i..i + n][0]);
      assert t[i + 1..i + n] == t[i..i + n][1..];
      DigitRunIs(t, i + 1, n - 1);
    }
  }

  // Recognising one matched text

  predicate StartsWith(t: string, prefix: string) {
    |prefix| <= |t| && t[..|prefix|] == prefix
  }

  /** The operands of a text of the exact form `mul(A,B)` with A and B of
      one to three digits; None for any other text. */
  function MulOperands(t: string): (r: Option<(nat, nat)>)
    ensures r.Some? ==> r.value.0 <= 999 && r.value.1 <= 999
  {
    if !StartsWith(t, "mul(") then None
    else
      var n1 := DigitRun(t, 4);
      if !(1 <= n1 <= 3 && 4 + n1 < |t| && t[4 + n1] == ',') then None
      else
        var n2 := DigitRun(t, 5 + n1);
        if !(1 <= n2 <= 3 && 6 + n1 + n2 == |t| && t[5 + n1 + n2] == ')') then None
        else
          assert Pow10(3) == 1000;
          Some((DecimalValue(t[4..4 + n1]), DecimalValue(t[5 + n1..5 + n1 + n2])))
  }

  /** `t` is `mul(`, n1 digits, a comma, n2 digits and `)`, with one to
      three digits on each side. */
  predicate MulShapedAt(t: string, n1: nat, n2: nat) {
    && 1 <= n1 <= 3 && 1 <= n2 <= 3 && |t| == 6 + n1 + n2
    && t[..4] == "mul(" && AllDigits(t[4..4 + n1]) && t[4 + n1] == ','
    && AllDigits(t[5 + n1..5 + n1 + n2]) && t[5 + n1 + n2] == ')'
  }

  /** The digits counted by `DigitRun` are digits, and the run stops at a
      character that is not one. */
  lemma {:induction false} DigitRunAllDigits(t: string, i: nat)
    requires i <= |t|
    ensures AllDigits(t[i..i + DigitRun(t, i)])
    ensures i + DigitRun(t, i) < |t| ==> !IsDigit(t[i + DigitRun(t, i)])
    decreases |t| - i
  {
    if i < |t| && IsDigit(t[i]) {
      DigitRunAllDigits(t, i + 1);
      var run, rest := t[i..i + DigitRun(t, i)], t[i + 1..i + 1 + DigitRun(t, i + 1)];
      forall k | 0 <= k < |run|
        ensures IsDigit(run[k])
      {
        if k > 0 {
          assert run[k] == rest[k - 1];
        }
      }
    }
  }

  lemma MulShapedOperands(t: string, n1: nat, n2: nat)
    requires MulShapedAt(t, n1, n2)
    ensures MulOperands(t) == Some((DecimalValue(t[4..4 + n1]), DecimalValue(t[5 + n1..5 + n1 + n2])))
  {
    assert StartsWith(t, "mul(");
    DigitRunIs(t, 4, n1);
    DigitRunIs(t, 5 + n1, n2);
  }

  /** `MulOperands` accepts exactly the texts of the form `mul(A,B)` with
      one to three digits in A and in B, and then yields their values. */
  lemma MulOperandsMeaning(t: string)
    ensures MulOperands(t).Some? <==> exists n1: nat, n2: nat :: MulShapedAt(t, n1, n2)
    ensures forall n1: nat, n2: nat | MulShapedAt(t, n1, n2) ::
              MulOperands(t) == Some((DecimalValue(t[4..4 + n1]), DecimalValue(t[5 + n1..5 + n1 + n2])))
  {
    forall n1: nat, n2: nat | MulShapedAt(t, n1, n2)
      ensures MulOperands(t) == Some((DecimalValue(t[4..4 + n1]), DecimalValue(t[5 + n1..5 + n1 + n2])))
    {
      MulShapedOperands(t, n1, n2);
    }
    if MulOperands(t).Some? {
      var n1 := DigitRun(t, 4);
      DigitRunAllDigits(t, 4);
      var n2 := DigitRun(t, 5 + n1);
      DigitRunAllDigits(t, 5 + n1);
      assert MulShapedAt(t, n1, n2);
    }
  }

  /** A text the pattern can match. */
  predicate IsMatchText(t: string) {
    MulOperands(t).Some? || t == "do()" || t == "don't()"
  }

  /** A text the parser accepts: one starting with `mul`, or one of the two
      switches. */
  predicate Recognised(t: string) {
    StartsWith(t, "mul") || t == "do()" || t == "don't()"
  }

  /** What one matched text contributes: an operation, nothing (a `mul`
      text whose operands cannot be captured), or an error. */
  function TextOperation(t: string): (r: Result<Option<Operation>>)
    ensures r.Ok? <==> Recognised(t)
    ensures r.Err? ==> r.error == UnexpectedMatch(t)
    ensures IsMatchText(t) ==> r.Ok? && r.value.Some?
    ensures r.Ok? && r.value.Some? && r.value.value.Mul? ==>
              0 <= r.value.value.a <= 999 && 0 <= r.value.value.b <= 999
  {
    if StartsWith(t, "mul") then
      match MulOperands(t)
      case Some((a, b)) => Ok(Some(Mul(a, b)))
      case None =>
        assert t[0] == 'm';
        Ok(None)
    else if t == "do()" then Ok(Some(Do))
    else if t == "don't()" then Ok(Some(Dont))
    else Err(UnexpectedMatch(t))
  }

  /** The operations of the matched texts in order, or the error of the
      first text the parser does not recognise. */
  function ParseSpec(texts: seq<string>): Result<seq<Operation>> {
    if texts == [] then Ok([])
    else match ParseSpec(texts[..|texts| - 1])
      case Err(e) => Err(e)
      case Ok(ops) =>
        match TextOperation(texts[|texts| - 1])
        case Err(e) => Err(e)
        case Ok(None) => Ok(ops)
        case Ok(Some(op)) => Ok(ops + [op])
  }

  /** Walk the matched texts, pushing one operation per recognised text. */
  method Parse(texts: seq<string>) returns (r: Result<seq<Operation>>)
    ensures r == ParseSpec(texts)
  {
    var operations: seq<Operation> := [];
    for i := 0 to |texts|
      invariant ParseSpec(texts[..i]) == Ok(operations)
    {
      var t := texts[i];
      assert texts[..i + 1][..i] == texts[..i];
      if StartsWith(t, "mul") {
        var captures := MulOperands(t);
        if captures.Some? {
          operations := operations + [Mul(captures.value.0, captures.value.1)];
        }
      } else if t == "do()" {
        operations := operations + [Do];
      } else if t == "don't()" {
        operations := operations + [Dont];
      } else {
        ParseErrorExtends(texts, i + 1);
        return Err(UnexpectedMatch(t));
      }
    }
    assert texts[..|texts|] == texts;
    return Ok(operations);
  }

  lemma {:induction false} ParseErrorExtends(texts: seq<string>, n: nat)
    requires n <= |texts| && ParseSpec(texts[..n]).Err?
    ensures ParseSpec(texts) == ParseSpec(texts[..n])
    decreases |texts| - n
  {
    if n < |texts| {
      assert texts[..n + 1][..n] == texts[..n];
      ParseErrorExtends(texts, n + 1);
    } else {
      assert texts[..n] == texts;
    }
  }

  /** Parsing succeeds exactly when every text is recognised; otherwise
      the error names the first text that is not. */
  lemma {:induction false} ParseOkIff(texts: seq<string>)
    ensures ParseSpec(texts).Ok? <==> forall k | 0 <= k < |texts| :: Recognised(texts[k])
    ensures ParseSpec(texts).Err? ==>
              exists k | 0 <= k < |texts| ::
                && !Recognised(texts[k])
                && ParseSpec(texts).error == UnexpectedMatch(texts[k])
                && forall j | 0 <= j < k :: Recognised(texts[j])
  {
    if texts != [] {
      var init := texts[..|texts| - 1];
      ParseOkIff(init);
      assert forall k | 0 <= k < |init| :: init[k] == texts[k];
    }
  }

  /** Every multiplication the parser produces has operands in 0..999. */
  lemma {:induction false} ParsedOperandsBounded(texts: seq<string>)
    requires ParseSpec(texts).Ok?
    ensures forall k | 0 <= k < |ParseSpec(texts).value| ::
              ParseSpec(texts).value[k].Mul? ==>
                0 <= ParseSpec(texts).value[k].a <= 999 && 0 <= ParseSpec(texts).value[k].b <= 999
  {
    if texts != [] {
      ParsedOperandsBounded(texts[..|texts| - 1]);
    }
  }

  /** When every text is one the pattern matches, parsing yields one
      operation per text, in the same order. */
  lemma {:induction false} ParseMatchTexts(texts: seq<string>)
    requires forall k | 0 <= k < |texts| :: IsMatchText(texts[k])
    ensures ParseSpec(texts).Ok?
    ensures |ParseSpec(texts).value| == |texts|
    ensures forall k | 0 <= k < |texts| :: TextOperation(texts[k]) == Ok(Some(ParseSpec(texts).value[k]))
  {
    if texts != [] {
      var init := texts[..|texts| - 1];
      assert forall k | 0 <= k < |init| :: init[k] == texts[k];
      ParseMatchTexts(init);
    }
  }

  // Writing operations back as text

  predicate Printable(op: Operation) {
    op.Mul? ==> 0 <= op.a <= 999 && 0 <= op.b <= 999
  }

  /** The canonical text of an operation. */
  function Render(op: Operation): string
    requires Printable(op)
  {
    match op
    case Mul(a, b) => "mul(" + Digits(a) + "," + Digits(b) + ")"
    case Do => "do()"
    case Dont => "don't()"
  }

  function RenderAll(ops: seq<Operation>): (texts: seq<string>)
    requires forall k | 0 <= k < |ops| :: Printable(ops[k])
    ensures |texts| == |ops|
    ensures forall k | 0 <= k < |ops| :: texts[k] == Render(ops[k])
  {
    if ops == [] then [] else RenderAll(ops[..|ops| - 1]) + [Render(ops[|ops| - 1])]
  }

  /** The canonical text of a multiplication is read back to its operands. */
  lemma MulRoundTrip(a: nat, b: nat)
    requires a <= 999 && b <= 999
    ensures MulOperands(Render(Mul(a, b))) == Some((a, b))
  {
    var da, db := Digits(a), Digits(b);
    var t := Render(Mul(a, b));
    var n1, n2 := |da|, |db|;
    assert t == "mul(" + da + "," + db + ")";
    assert |t| == 6 + n1 + n2;
    assert t[..4] == "mul(";
    assert t[4..4 + n1] == da;
    assert t[4 + n1] == ',';
    DigitRunIs(t, 4, n1);
    assert t[5 + n1..5 + n1 + n2] == db;
    assert t[5 + n1 + n2] == ')';
    DigitRunIs(t, 5 + n1, n2);
  }

  /** The canonical text of a multiplication is read back to it. */
  lemma RenderedMul(a: nat, b: nat)
    requires a <= 999 && b <= 999
    ensures TextOperation(Render(Mul(a, b))) == Ok(Some(Mul(a, b)))
  {
    var t := Render(Mul(a, b));
    MulRoundTrip(a, b);
    assert t[..3] == "mul";
  }

  /** The canonical text of an operation is read back to it. */
  lemma RenderedOperation(op: Operation)
    requires Printable(op)
    ensures TextOperation(Render(op)) == Ok(Some(op))
  {
    match op
    case Mul(a, b) =>
      RenderedMul(a, b);
    case Do =>
      assert "do()"[..3][0] != "mul"[0];
    case Dont =>
      assert "don't()"[..3][0] != "mul"[0];
  }

  /** Every operation with operands in 0..999 survives rendering and
      parsing unchanged. */
  lemma {:induction false} ParseRenderRoundTrip(ops: seq<Operation>)
    requires forall k | 0 <= k < |ops| :: Printable(ops[k])
    ensures ParseSpec(RenderAll(ops)) == Ok(ops)
  {
    if ops != [] {
      var init := ops[..|ops| - 1];
      var last := ops[|ops| - 1];
      assert ops == init + [last];
      ParseRenderRoundTrip(init);
      RenderedOperation(last);
      RenderAllSnoc(init, last);
      ParseSnoc(RenderAll(init), Render(last), last);
    }
  }

  lemma RenderAllSnoc(ops: seq<Operation>, op: Operation)
    requires forall k | 0 <= k < |ops| :: Printable(ops[k])
    requires Printable(op)
    ensures RenderAll(ops + [op]) == RenderAll(ops) + [Render(op)]
  {
    assert (ops + [op])[..|ops|] == ops;
  }

  /** A text that gives an operation appends that operation to the parse. */
  lemma ParseSnoc(texts: seq<string>, t: string, op: Operation)
    requires ParseSpec(texts).Ok? && TextOperation(t) == Ok(Some(op))
    ensures ParseSpec(texts + [t]) == Ok(ParseSpec(texts).value + [op])
  {
    assert (texts + [t])[..|texts|] == texts;
  }

  // A reference scanner for the pattern

  /** The length of the match starting at index `i`, or 0: the shortest
      length from `len` up to 12 (the length of `mul(999,999)`) whose
      text from `i` passes `accept`. */
  function MatchLength(s: string, i: nat, len: nat, accept: string -> bool): (n: nat)
    requires i <= |s|
    ensures n > 0 ==> i + n <= |s|
    decreases 13 - len
  {
    if len > 12 || i + len > |s| then 0
    else if len > 0 && accept(s[i..i + len]) then len
    else MatchLength(s, i, len + 1, accept)
  }

  lemma {:induction false} MatchLengthMatches(s: string, i: nat, len: nat, accept: string -> bool)
    requires i <= |s|
    ensures var n := MatchLength(s, i, len, accept); n > 0 ==> accept(s[i..i + n])
    decreases 13 - len
  {
    if len <= 12 && i + len <= |s| && !(len > 0 && accept(s[i..i + len])) {
      MatchLengthMatches(s, i, len + 1, accept);
    }
  }

  /** The texts of `s` from index `i` on that pass `accept`, leftmost
      first, never overlapping. */
  function ScanWith(s: string, i: nat, accept: string -> bool): (texts: seq<string>)
    requires i <= |s|
    decreases |s| - i
  {
    if i == |s| then []
    else
      var n := MatchLength(s, i, 1, accept);
      if n > 0 then [s[i..i + n]] + ScanWith(s, i + n, accept) else ScanWith(s, i + 1, accept)
  }

  lemma {:induction false} ScanWithAccepts(s: string, i: nat, accept: string -> bool)
    requires i <= |s|
    ensures forall k | 0 <= k < |ScanWith(s, i, accept)| :: accept(ScanWith(s, i, accept)[k])
    decreases |s| - i
  {
    if i < |s| {
      var n := MatchLength(s, i, 1, accept);
      MatchLengthMatches(s, i, 1, accept);
      if n > 0 {
        ScanWithAccepts(s, i + n, accept);
      } else {
        ScanWithAccepts(s, i + 1, accept);
      }
    }
  }

  /** The matched texts of `s`: the scanner with the pattern as its test. */
  function Scan(s: string): seq<string> {
    ScanWith(s, 0, IsMatchText)
  }

  /** Everything the scanner yields is a match text. */
  lemma ScanYieldsMatchTexts(s: string)
    ensures forall k | 0 <= k < |Scan(s)| :: IsMatchText(Scan(s)[k])
  {
    ScanWithAccepts(s, 0, IsMatchText);
  }

  /** Parsing never fails on what the scanner finds, and keeps one
      operation per match. */
  lemma ParseScanned(s: string)
    ensures ParseSpec(Scan(s)).Ok?
    ensures |ParseSpec(Scan(s)).value| == |Scan(s)|
  {
    ScanYieldsMatchTexts(s);
    ParseMatchTexts(Scan(s));
  }

  // Part 1: every product

  function Product(op: Operation): int {
    if op.Mul? then op.a * op.b else 0
  }

  function Part1(ops: seq<Operation>): int {
    if ops == [] then 0 else Part1(ops[..|ops| - 1]) + Product(ops[|ops| - 1])
  }

  // Part 2: the enable/disable machine

  datatype Machine = Machine(sum: int, enabled: bool)

  /** One operation's effect on the running sum and the switch. */
  function Step(m: Machine, op: Operation): Machine {
    match op
    case Mul(a, b) => if m.enabled then Machine(m.sum + a * b, m.enabled) else m
    case Do => Machine(m.sum, true)
    case Dont => Machine(m.sum, false)
  }

  /** The operations folded left to right over a machine. */
  function Run(ops: seq<Operation>, m: Machine): Machine
    decreases |ops|
  {
    if ops == [] then m else Run(ops[1..], Step(m, ops[0]))
  }

  /** Part 2 starts enabled with an empty sum. */
  function Part2(ops: seq<Operation>): int {
    Run(ops, Machine(0, true)).sum
  }

  lemma {:induction false} RunAppend(ops: seq<Operation>, op: Operation, m: Machine)
    ensures Run(ops + [op], m) == Step(Run(ops, m), op)
    decreases |ops|
  {
    if ops != [] {
      assert (ops + [op])[1..] == ops[1..] + [op];
      RunAppend(ops[1..], op, Step(m, ops[0]));
    }
  }

  /** Whether multiplications are counted after `ops`: the last switch
      decides, and with no switch the machine is on. */
  predicate EnabledAfter(ops: seq<Operation>) {
    if ops == [] then true
    else match ops[|ops| - 1]
      case Do => true
      case Dont => false
      case Mul(_, _) => EnabledAfter(ops[..|ops| - 1])
  }

  /** The products of exactly the multiplications that follow an enabling
      switch, or no switch at all. */
  function EnabledProducts(ops: seq<Operation>): int {
    if ops == [] then 0
    else
      var init := ops[..|ops| - 1];
      EnabledProducts(init) + if EnabledAfter(init) then Product(ops[|ops| - 1]) else 0
  }

  /** The machine's state after a run: the sum of the enabled products and
      the switch as the last switch left it. */
  lemma {:induction false} RunMeaning(ops: seq<Operation>)
    ensures Run(ops, Machine(0, true)) == Machine(EnabledProducts(ops), EnabledAfter(ops))
  {
    if ops != [] {
      var init := ops[..|ops| - 1];
      RunMeaning(init);
      assert init + [ops[|ops| - 1]] == ops;
      RunAppend(init, ops[|ops| - 1], Machine(0, true));
    }
  }

  lemma Part2IsEnabledProducts(ops: seq<Operation>)
    ensures Part2(ops) == EnabledProducts(ops)
  {
    RunMeaning(ops);
  }

  /** Without a `don't()` nothing is ever switched off, so both parts
      agree. */
  lemma {:induction false} NoDontAgrees(ops: seq<Operation>)
    requires forall k | 0 <= k < |ops| :: ops[k] != Dont
    ensures Part2(ops) == Part1(ops)
    ensures EnabledAfter(ops)
  {
    RunMeaning(ops);
    if ops != [] {
      var init := ops[..|ops| - 1];
      assert forall k | 0 <= k < |init| :: init[k] == ops[k];
      NoDontAgrees(init);
      RunMeaning(init);
    }
  }

  /** With non-negative products, switching off can only lose products. */
  lemma {:induction false} EnabledAtMostAll(ops: seq<Operation>)
    requires forall k | 0 <= k < |ops| :: Product(ops[k]) >= 0
    ensures 0 <= EnabledProducts(ops) <= Part1(ops)
  {
    if ops != [] {
      var init := ops[..|ops| - 1];
      assert forall k | 0 <= k < |init| :: init[k] == ops[k];
      EnabledAtMostAll(init);
    }
  }

  /** On parsed operations part 2 lies between 0 and part 1. */
  lemma Part2AtMostPart1(texts: seq<string>)
    requires ParseSpec(texts).Ok?
    ensures 0 <= Part2(ParseSpec(texts).value) <= Part1(ParseSpec(texts).value)
  {
    var ops := ParseSpec(texts).value;
    ParsedOperandsBounded(texts);
    assert forall k | 0 <= k < |ops| :: Product(ops[k]) >= 0;
    EnabledAtMostAll(ops);
    Part2IsEnabledProducts(ops);
  }

  /** A `don't()` silences every multiplication up to the next `do()`. */
  lemma {:induction false} DontSilences(ops: seq<Operation>, rest: seq<Operation>)
    requires forall k | 0 <= k < |rest| :: rest[k] != Do
    ensures Part2(ops + [Dont] + rest) == Part2(ops)
    ensures !EnabledAfter(ops + [Dont] + rest)
    decreases |rest|
  {
    var all := ops + [Dont] + rest;
    RunMeaning(all);
    if rest == [] {
      assert all[..|all| - 1] == ops;
      RunMeaning(ops);
    } else {
      var init := rest[..|rest| - 1];
      assert all[..|all| - 1] == ops + [Dont] + init;
      assert forall k | 0 <= k < |init| :: init[k] == rest[k];
      DontSilences(ops, init);
      RunMeaning(ops + [Dont] + init);
    }
  }

  // The two worked examples

  const ExampleTexts: seq<string> := ["mul(2,4)", "mul(5,5)", "mul(11,8)", "mul(8,5)"]
  const SwitchedTexts: seq<string> :=
    ["mul(2,4)", "don't()", "mul(5,5)", "mul(11,8)", "do()", "mul(8,5)"]

  lemma SmallDigits()
    ensures Digits(2) == "2" && Digits(4) == "4" && Digits(5) == "5" && Digits(8) == "8"
    ensures Digits(11) == "11"
  {
    assert Digits(1) == "1";
  }

  lemma RenderedExamples()
    ensures Render(Mul(2, 4)) == "mul(2,4)" && Render(Mul(5, 5)) == "mul(5,5)"
    ensures Render(Mul(11, 8)) == "mul(11,8)" && Render(Mul(8, 5)) == "mul(8,5)"
  {
    SmallDigits();
  }

  lemma ExampleRendering(ops: seq<Operation>, texts: seq<string>)
    requires ops == [Mul(2, 4), Mul(5, 5), Mul(11, 8), Mul(8, 5)]
    requires |texts| == |ops| && forall k | 0 <= k < |ops| :: Printable(ops[k]) && texts[k] == Render(ops[k])
    ensures texts == ExampleTexts
  {
    RenderedExamples();
    assert texts[0] == Render(ops[0]) && texts[1] == Render(ops[1]);
    assert texts[2] == Render(ops[2]) && texts[3] == Render(ops[3]);
  }

  lemma SwitchedRendering(ops: seq<Operation>, texts: seq<string>)
    requires ops == [Mul(2, 4), Dont, Mul(5, 5), Mul(11, 8), Do, Mul(8, 5)]
    requires |texts| == |ops| && forall k | 0 <= k < |ops| :: Printable(ops[k]) && texts[k] == Render(ops[k])
    ensures texts == SwitchedTexts
  {
    RenderedExamples();
    assert texts[0] == Render(ops[0]) && texts[1] == Render(ops[1]) && texts[2] == Render(ops[2]);
    assert texts[3] == Render(ops[3]) && texts[4] == Render(ops[4]) && texts[5] == Render(ops[5]);
  }

  lemma ExampleSum(ops: seq<Operation>)
    requires ops == [Mul(2, 4), Mul(5, 5), Mul(11, 8), Mul(8, 5)]
    ensures Part1(ops) == 161
  {
    assert ops[..1][..0] == [];
    assert Part1(ops[..1]) == 8;
    assert ops[..2][..1] == ops[..1];
    assert Part1(ops[..2]) == 33;
    assert ops[..3][..2] == ops[..2];
    assert Part1(ops[..3]) == 121;
    assert ops[..|ops| - 1] == ops[..3];
  }

  lemma SwitchedSum(ops: seq<Operation>)
    requires ops == [Mul(2, 4), Dont, Mul(5, 5), Mul(11, 8), Do, Mul(8, 5)]
    ensures Part2(ops) == 48
  {
    Part2IsEnabledProducts(ops);
    assert ops[..1][..0] == [];
    assert EnabledAfter(ops[..1]) && EnabledProducts(ops[..1]) == 8;
    assert ops[..2][..1] == ops[..1];
    assert !EnabledAfter(ops[..2]) && EnabledProducts(ops[..2]) == 8;
    assert ops[..3][..2] == ops[..2];
    assert !EnabledAfter(ops[..3]) && EnabledProducts(ops[..3]) == 8;
    assert ops[..4][..3] == ops[..3];
    assert !EnabledAfter(ops[..4]) && EnabledProducts(ops[..4]) == 8;
    assert ops[..5][..4] == ops[..4];
    assert EnabledAfter(ops[..5]) && EnabledProducts(ops[..5]) == 8;
    assert ops[..|ops| - 1] == ops[..5];
  }

  /** The matches of the first example program parse to four
      multiplications whose products add up to 161. */
  lemma ExamplePart1()
    ensures ParseSpec(ExampleTexts) == Ok([Mul(2, 4), Mul(5, 5), Mul(11, 8), Mul(8, 5)])
    ensures Part1([Mul(2, 4), Mul(5, 5), Mul(11, 8), Mul(8, 5)]) == 161
  {
    var ops := [Mul(2, 4), Mul(5, 5), Mul(11, 8), Mul(8, 5)];
    assert forall k | 0 <= k < |ops| :: Printable(ops[k]);
    ExampleRendering(ops, RenderAll(ops));
    ParseRenderRoundTrip(ops);
    ExampleSum(ops);
  }

  /** The matches of the second example program parse to operations whose
      enabled products add up to 48. */
  lemma ExamplePart2()
    ensures ParseSpec(SwitchedTexts) ==
              Ok([Mul(2, 4), Dont, Mul(5, 5), Mul(11, 8), Do, Mul(8, 5)])
    ensures Part2([Mul(2, 4), Dont, Mul(5, 5), Mul(11, 8), Do, Mul(8, 5)]) == 48
  {
    var ops := [Mul(2, 4), Dont, Mul(5, 5), Mul(11, 8), Do, Mul(8, 5)];
    assert forall k | 0 <= k < |ops| :: Printable(ops[k]);
    SwitchedRendering(ops, RenderAll(ops));
    ParseRenderRoundTrip(ops);
    SwitchedSum(ops);
  }
}
