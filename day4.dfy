/** Word search.  The puzzle is a rectangular grid of letters.  Part 1
    counts every reading of XMAS from an `X` cell along one of the eight
    horizontal, vertical and diagonal directions; part 2 counts the `A`
    cells at the centre of two crossing diagonal readings of MAS. */
module Day4 {
  import opened Common

  // The grid and the word readings on it

  predicate InGrid(g: array2<char>, x: int, y: int) {
    0 <= x < g.Length0 && 0 <= y < g.Length1
  }

  /** The word XMAS reads from (x, y) in steps of (dx, dy), every cell on
      the way inside the grid. */
  predicate ReadsXmas(g: array2<char>, x: int, y: int, dx: int, dy: int)
    reads g
  {
    && InGrid(g, x, y) && InGrid(g, x + dx, y + dy)
    && InGrid(g, x + 2 * dx, y + 2 * dy) && InGrid(g, x + 3 * dx, y + 3 * dy)
    && g[x, y] == 'X' && g[x + dx, y + dy] == 'M'
    && g[x + 2 * dx, y + 2 * dy] == 'A' && g[x + 3 * dx, y + 3 * dy] == 'S'
  }

  /** The eight directions, in the order the search tries them. */
  const Directions: seq<(int, int)> :=
    [(1, 0), (-1, 0), (0, 1), (0, -1), (1, 1), (-1, 1), (1, -1), (-1, -1)]

  function Bit(b: bool): nat {
    if b then 1 else 0
  }

  /** How many of `dirs` read XMAS from (x, y). */
  function CountReadings(g: array2<char>, x: int, y: int, dirs: seq<(int, int)>): (n: nat)
    reads g
    ensures n <= |dirs|
    ensures (!InGrid(g, x, y) || g[x, y] != 'X') ==> n == 0
  {
    if dirs == [] then 0
    else
      var d := dirs[|dirs| - 1];
      CountReadings(g, x, y, dirs[..|dirs| - 1]) + Bit(ReadsXmas(g, x, y, d.0, d.1))
  }

  /** The readings of XMAS that start at (x, y). */
  function XmasAt(g: array2<char>, x: int, y: int): nat
    reads g
  {
    CountReadings(g, x, y, Directions)
  }

  /** The count at a cell, direction by direction. */
  lemma XmasAtDirections(g: array2<char>, x: int, y: int)
    ensures XmasAt(g, x, y) ==
              Bit(ReadsXmas(g, x, y, 1, 0)) + Bit(ReadsXmas(g, x, y, -1, 0))
              + Bit(ReadsXmas(g, x, y, 0, 1)) + Bit(ReadsXmas(g, x, y, 0, -1))
              + Bit(ReadsXmas(g, x, y, 1, 1)) + Bit(ReadsXmas(g, x, y, -1, 1))
              + Bit(ReadsXmas(g, x, y, 1, -1)) + Bit(ReadsXmas(g, x, y, -1, -1))
  {
    var ds := Directions;
    assert ds[..1][..0] == [];
    assert CountReadings(g, x, y, ds[..1]) == Bit(ReadsXmas(g, x, y, 1, 0));
    assert ds[..2][..1] == ds[..1];
    assert CountReadings(g, x, y, ds[..2]) == CountReadings(g, x, y, ds[..1]) + Bit(ReadsXmas(g, x, y, -1, 0));
    assert ds[..3][..2] == ds[..2];
    assert CountReadings(g, x, y, ds[..3]) == CountReadings(g, x, y, ds[..2]) + Bit(ReadsXmas(g, x, y, 0, 1));
    assert ds[..4][..3] == ds[..3];
    assert CountReadings(g, x, y, ds[..4]) == CountReadings(g, x, y, ds[..3]) + Bit(ReadsXmas(g, x, y, 0, -1));
    assert ds[..5][..4] == ds[..4];
    assert CountReadings(g, x, y, ds[..5]) == CountReadings(g, x, y, ds[..4]) + Bit(ReadsXmas(g, x, y, 1, 1));
    assert ds[..6][..5] == ds[..5];
    assert CountReadings(g, x, y, ds[..6]) == CountReadings(g, x, y, ds[..5]) + Bit(ReadsXmas(g, x, y, -1, 1));
    assert ds[..7][..6] == ds[..6];
    assert CountReadings(g, x, y, ds[..7]) == CountReadings(g, x, y, ds[..6]) + Bit(ReadsXmas(g, x, y, 1, -1));
    assert ds[..7] == ds[..|ds| - 1];
  }

  /** Count the readings of XMAS from (x, y), one guarded test per
      direction.  Each guard keeps the reads after it inside the grid. */
  method CheckXmas(g: array2<char>, x: nat, y: nat) returns (count: nat)
    requires InGrid(g, x, y)
    requires g[x, y] == 'X' ==> g.Length0 >= 3 && g.Length1 >= 3
    ensures count == XmasAt(g, x, y)
    ensures count <= 8
    ensures g[x, y] != 'X' ==> count == 0
  {
    XmasAtDirections(g, x, y);
    count := 0;
    if g[x, y] != 'X' {
      return 0;
    }
    var xSize, ySize := g.Length0, g.Length1;
    // East
    if x < xSize - 3 && g[x + 1, y] == 'M' && g[x + 2, y] == 'A' && g[x + 3, y] == 'S' {
      count := count + 1;
    }
    assert count == Bit(ReadsXmas(g, x, y, 1, 0));
    // West
    if x >= 3 && g[x - 1, y] == 'M' && g[x - 2, y] == 'A' && g[x - 3, y] == 'S' {
      count := count + 1;
    }
    assert count == Bit(ReadsXmas(g, x, y, 1, 0)) + Bit(ReadsXmas(g, x, y, -1, 0));
    // South
    if y < ySize - 3 && g[x, y + 1] == 'M' && g[x, y + 2] == 'A' && g[x, y + 3] == 'S' {
      count := count + 1;
    }
    // North
    if y >= 3 && g[x, y - 1] == 'M' && g[x, y - 2] == 'A' && g[x, y - 3] == 'S' {
      count := count + 1;
    }
    assert count == Bit(ReadsXmas(g, x, y, 1, 0)) + Bit(ReadsXmas(g, x, y, -1, 0))
                    + Bit(ReadsXmas(g, x, y, 0, 1)) + Bit(ReadsXmas(g, x, y, 0, -1));
    // South-east
    if y < ySize - 3 && x < xSize - 3
       && g[x + 1, y + 1] == 'M' && g[x + 2, y + 2] == 'A' && g[x + 3, y + 3] == 'S'
    {
      count := count + 1;
    }
    // South-west
    if y < ySize - 3 && x >= 3
       && g[x - 1, y + 1] == 'M' && g[x - 2, y + 2] == 'A' && g[x - 3, y + 3] == 'S'
    {
      count := count + 1;
    }
    // North-east
    if y >= 3 && x < xSize - 3
       && g[x + 1, y - 1] == 'M' && g[x + 2, y - 2] == 'A' && g[x + 3, y - 3] == 'S'
    {
      count := count + 1;
    }
    // North-west
    if y >= 3 && x >= 3
       && g[x - 1, y - 1] == 'M' && g[x - 2, y - 2] == 'A' && g[x - 3, y - 3] == 'S'
    {
      count := count + 1;
    }
  }

  // Part 1: the readings from every cell

  /** The readings starting in the first `m` cells of line `x`. */
  function LineXmas(g: array2<char>, x: nat, m: nat): nat
    reads g
    requires x < g.Length0 && m <= g.Length1
  {
    if m == 0 then 0 else LineXmas(g, x, m - 1) + XmasAt(g, x, m - 1)
  }

  /** The readings starting in the first `n` lines. */
  function GridXmas(g: array2<char>, n: nat): nat
    reads g
    requires n <= g.Length0
  {
    if n == 0 then 0 else GridXmas(g, n - 1) + LineXmas(g, n - 1, g.Length1)
  }

  /** A grid holding an `X` is at least three cells long in each
      dimension; the search's guards subtract 3 from both. */
  predicate SearchableXmas(g: array2<char>)
    reads g
  {
    forall x, y | 0 <= x < g.Length0 && 0 <= y < g.Length1 :: g[x, y] == 'X' ==> g.Length0 >= 3 && g.Length1 >= 3
  }

  /** Add up the readings of every cell, line by line. */
  method Part1(g: array2<char>) returns (result: nat)
    requires SearchableXmas(g)
    ensures result == GridXmas(g, g.Length0)
  {
    result := 0;
    for x := 0 to g.Length0
      invariant result == GridXmas(g, x)
    {
      for y := 0 to g.Length1
        invariant result == GridXmas(g, x) + LineXmas(g, x, y)
      {
        var c := CheckXmas(g, x, y);
        result := result + c;
      }
    }
  }

  /** The number of `X` cells among the first `m` of line `x`. */
  function LineXs(g: array2<char>, x: nat, m: nat): nat
    reads g
    requires x < g.Length0 && m <= g.Length1
  {
    if m == 0 then 0 else LineXs(g, x, m - 1) + Bit(g[x, m - 1] == 'X')
  }

  function GridXs(g: array2<char>, n: nat): nat
    reads g
    requires n <= g.Length0
  {
    if n == 0 then 0 else GridXs(g, n - 1) + LineXs(g, n - 1, g.Length1)
  }

  lemma {:induction false} LineXmasBound(g: array2<char>, x: nat, m: nat)
    requires x < g.Length0 && m <= g.Length1
    ensures LineXmas(g, x, m) <= 8 * LineXs(g, x, m)
  {
    if m > 0 {
      LineXmasBound(g, x, m - 1);
      XmasAtDirections(g, x, m - 1);
    }
  }

  /** Every reading starts at an `X` and each `X` starts at most eight,
      so part 1 never exceeds eight times the number of `X` cells. */
  lemma {:induction false} GridXmasBound(g: array2<char>, n: nat)
    requires n <= g.Length0
    ensures GridXmas(g, n) <= 8 * GridXs(g, n)
  {
    if n > 0 {
      GridXmasBound(g, n - 1);
      LineXmasBound(g, n - 1, g.Length1);
    }
  }

  // Part 2: crossed MAS

  /** The two ends of a diagonal through an `A` read MAS one way or the
      other. */
  predicate MasEnds(a: char, b: char) {
    (a == 'M' && b == 'S') || (a == 'S' && b == 'M')
  }

  /** (x, y) is an `A` at the crossing of two diagonal readings of MAS. */
  predicate CrossAt(g: array2<char>, x: int, y: int)
    reads g
  {
    && InGrid(g, x - 1, y - 1) && InGrid(g, x + 1, y + 1)
    && g[x, y] == 'A'
    && MasEnds(g[x - 1, y - 1], g[x + 1, y + 1])
    && MasEnds(g[x - 1, y + 1], g[x + 1, y - 1])
  }

  /** The centre is an `A` and the four corners form one of the four
      arrangements of two crossing MAS readings. */
  function CheckXMas(g: array2<char>, x: nat, y: nat): (r: bool)
    reads g
    requires 1 <= x < g.Length0 - 1 && 1 <= y < g.Length1 - 1
    ensures r <==> CrossAt(g, x, y)
  {
    g[x, y] == 'A'
    && ((g[x - 1, y - 1] == 'M' && g[x - 1, y + 1] == 'M' && g[x + 1, y - 1] == 'S' && g[x + 1, y + 1] == 'S')
        || (g[x - 1, y - 1] == 'S' && g[x - 1, y + 1] == 'M' && g[x + 1, y - 1] == 'S' && g[x + 1, y + 1] == 'M')
        || (g[x - 1, y - 1] == 'S' && g[x - 1, y + 1] == 'S' && g[x + 1, y - 1] == 'M' && g[x + 1, y + 1] == 'M')
        || (g[x - 1, y - 1] == 'M' && g[x - 1, y + 1] == 'S' && g[x + 1, y - 1] == 'M' && g[x + 1, y + 1] == 'S'))
  }

  /** The crossings among cells 1 .. m-1 of line `x`. */
  function LineCrosses(g: array2<char>, x: nat, m: nat): nat
    reads g
    requires x < g.Length0 && m <= g.Length1
  {
    if m <= 1 then 0 else LineCrosses(g, x, m - 1) + Bit(CrossAt(g, x, m - 1))
  }

  /** The crossings on lines 1 .. n-1, each searched up to its last cell
      but one. */
  function GridCrosses(g: array2<char>, n: nat): nat
    reads g
    requires n <= g.Length0 && g.Length1 >= 1
  {
    if n <= 1 then 0 else GridCrosses(g, n - 1) + LineCrosses(g, n - 1, g.Length1 - 1)
  }

  /** Count the crossings at the interior cells, line by line. */
  method Part2(g: array2<char>) returns (result: nat)
    requires g.Length0 >= 1
    requires g.Length0 >= 3 ==> g.Length1 >= 1
    ensures g.Length0 < 3 ==> result == 0
    ensures g.Length0 >= 3 ==> result == GridCrosses(g, g.Length0 - 1)
  {
    result := 0;
    var x := 1;
    while x < g.Length0 - 1
      invariant 1 <= x
      invariant g.Length0 < 3 ==> result == 0
      invariant g.Length0 >= 3 ==> x <= g.Length0 - 1 && result == GridCrosses(g, x)
    {
      var y := 1;
      while y < g.Length1 - 1
        invariant 1 <= y <= g.Length1
        invariant g.Length1 >= 2 ==> y <= g.Length1 - 1
        invariant result == GridCrosses(g, x) + LineCrosses(g, x, y)
      {
        if CheckXMas(g, x, y) {
          result := result + 1;
        }
        y := y + 1;
      }
      x := x + 1;
    }
  }

  /** A crossing needs a neighbour on every side, so the interior cells the
      search visits are the only places one can be: no crossing is missed
      on the border. */
  lemma NoCrossOnBorder(g: array2<char>, x: int, y: int)
    requires InGrid(g, x, y)
    requires x == 0 || y == 0 || x == g.Length0 - 1 || y == g.Length1 - 1
    ensures !CrossAt(g, x, y)
  {
  }

  lemma {:induction false} LineCrossesAreAs(g: array2<char>, x: nat, m: nat)
    requires x < g.Length0 && m <= g.Length1
    ensures LineCrosses(g, x, m) <= LineAs(g, x, m)
  {
    if m > 1 {
      LineCrossesAreAs(g, x, m - 1);
    }
  }

  /** The number of `A` cells among cells 1 .. m-1 of line `x`. */
  function LineAs(g: array2<char>, x: nat, m: nat): nat
    reads g
    requires x < g.Length0 && m <= g.Length1
  {
    if m <= 1 then 0 else LineAs(g, x, m - 1) + Bit(g[x, m - 1] == 'A')
  }

  function GridAs(g: array2<char>, n: nat): nat
    reads g
    requires n <= g.Length0 && g.Length1 >= 1
  {
    if n <= 1 then 0 else GridAs(g, n - 1) + LineAs(g, n - 1, g.Length1 - 1)
  }

  /** Every crossing is centred on an `A` of the interior. */
  lemma {:induction false} GridCrossesAreAs(g: array2<char>, n: nat)
    requires n <= g.Length0 && g.Length1 >= 1
    ensures GridCrosses(g, n) <= GridAs(g, n)
  {
    if n > 1 {
      GridCrossesAreAs(g, n - 1);
      LineCrossesAreAs(g, n - 1, g.Length1 - 1);
    }
  }

  // Reading the puzzle

  /** The lines that are not empty. */
  function NonEmpty(lines: seq<string>): (ls: seq<string>)
    ensures forall k | 0 <= k < |ls| :: |ls[k]| > 0
  {
    if lines == [] then []
    else if lines[|lines| - 1] == [] then NonEmpty(lines[..|lines| - 1])
    else NonEmpty(lines[..|lines| - 1]) + [lines[|lines| - 1]]
  }

  /** Lines none of which is empty are kept as they are. */
  lemma {:induction false} NonEmptyOfFull(ls: seq<string>)
    requires forall k | 0 <= k < |ls| :: |ls[k]| > 0
    ensures NonEmpty(ls) == ls
  {
    if ls != [] {
      NonEmptyOfFull(ls[..|ls| - 1]);
    }
  }

  /** The characters of all lines, line after line. */
  function Concat(ls: seq<string>): (cs: string) {
    if ls == [] then [] else Concat(ls[..|ls| - 1]) + ls[|ls| - 1]
  }

  /** How many bytes the UTF-8 encoding of `c` takes. */
  function Utf8Size(c: char): nat {
    if c as int < 0x80 then 1
    else if c as int < 0x800 then 2
    else if c as int < 0x1_0000 then 3
    else 4
  }

  /** The length of `l` in bytes once encoded as UTF-8, which is what a
      Rust string's `len` counts. */
  function Utf8Length(l: string): (n: nat)
    ensures |l| <= n <= 4 * |l|
  {
    if l == [] then 0 else Utf8Length(l[..|l| - 1]) + Utf8Size(l[|l| - 1])
  }

  /** Every character of `l` is a 7-bit ASCII character. */
  predicate Ascii(l: string) {
    forall k | 0 <= k < |l| :: l[k] as int < 0x80
  }

  /** A line is as many bytes long as it has characters exactly when it is
      ASCII. */
  lemma {:induction false} Utf8LengthAscii(l: string)
    ensures Utf8Length(l) == |l| <==> Ascii(l)
  {
    if l != [] {
      var init := l[..|l| - 1];
      Utf8LengthAscii(init);
      assert Ascii(l) <==> Ascii(init) && l[|l| - 1] as int < 0x80 by {
        if Ascii(init) && l[|l| - 1] as int < 0x80 {
          forall k | 0 <= k < |l|
            ensures l[k] as int < 0x80
          {
            if k < |l| - 1 {
              assert l[k] == init[k];
            }
          }
        }
      }
    }
  }

  /** The length in bytes of the last non-empty line, or 0 when there is
      none. */
  function Width(lines: seq<string>): nat {
    var ls := NonEmpty(lines);
    if ls == [] then 0 else Utf8Length(ls[|ls| - 1])
  }

  /** Walk the lines, skipping empty ones, recording the last line's
      length in bytes, counting lines and collecting their characters. */
  method Collect(lines: seq<string>) returns (width: nat, height: nat, data: string)
    ensures width == Width(lines)
    ensures height == |NonEmpty(lines)|
    ensures data == Concat(NonEmpty(lines))
  {
    width, height, data := 0, 0, [];
    for i := 0 to |lines|
      invariant width == Width(lines[..i])
      invariant height == |NonEmpty(lines[..i])|
      invariant data == Concat(NonEmpty(lines[..i]))
    {
      assert lines[..i + 1][..i] == lines[..i];
      var l := lines[i];
      if l != [] {
        assert NonEmpty(lines[..i + 1]) == NonEmpty(lines[..i]) + [l];
        width := Utf8Length(l);
        height := height + 1;
        data := data + l;
      }
    }
    assert lines[..|lines|] == lines;
  }

  /** Where cell (i, j) of a grid with `columns` cells per line sits when
      the grid is laid out line after line. */
  function Layout(i: nat, j: nat, columns: nat): nat {
    i * columns + j
  }

  /** Every cell of a `rows` by `columns` grid has its own place among the
      first rows * columns. */
  lemma LayoutInRange(rows: nat, columns: nat)
    ensures forall i, j | 0 <= i < rows && 0 <= j < columns :: Layout(i, j, columns) < rows * columns
  {
    forall i, j | 0 <= i < rows && 0 <= j < columns
      ensures Layout(i, j, columns) < rows * columns
    {
      assert i * columns + j < (i + 1) * columns;
      assert (i + 1) * columns <= rows * columns;
    }
  }

  /** Lay `data` out as a grid of `rows` lines of `columns` cells, line
      after line; the grid must take every character exactly. */
  method FromShape(rows: nat, columns: nat, data: string) returns (r: Result<array2<char>>)
    ensures r.Err? <==> |data| != rows * columns
    ensures r.Err? ==> r.error == ShapeMismatch(|data|, rows, columns)
    ensures r.Ok? ==> fresh(r.value)
    ensures r.Ok? ==> r.value.Length0 == rows && r.value.Length1 == columns
    ensures r.Ok? ==> forall i, j | 0 <= i < rows && 0 <= j < columns ::
                        Layout(i, j, columns) < |data| && r.value[i, j] == data[Layout(i, j, columns)]
  {
    if |data| != rows * columns {
      return Err(ShapeMismatch(|data|, rows, columns));
    }
    LayoutInRange(rows, columns);
    var g := new char[rows, columns]((i, j) requires 0 <= i < rows && 0 <= j < columns => data[Layout(i, j, columns)]);
    return Ok(g);
  }

  /** Reading as the program does: the grid is shaped with the last line's
      length as its first dimension and the number of lines as its
      second. */
  method ParseAsWritten(lines: seq<string>) returns (r: Result<array2<char>>)
    ensures r.Err? <==> |Concat(NonEmpty(lines))| != Width(lines) * |NonEmpty(lines)|
    ensures r.Ok? ==> fresh(r.value)
    ensures r.Ok? ==> r.value.Length0 == Width(lines) && r.value.Length1 == |NonEmpty(lines)|
    ensures r.Ok? ==> forall i, j | 0 <= i < r.value.Length0 && 0 <= j < r.value.Length1 ::
                        Layout(i, j, |NonEmpty(lines)|) < |Concat(NonEmpty(lines))|
                        && r.value[i, j] == Concat(NonEmpty(lines))[Layout(i, j, |NonEmpty(lines)|)]
  {
    var width, height, data := Collect(lines);
    r := FromShape(width, height, data);
  }

  /** Reading with the grid shaped one line per row: the number of lines
      first, the line length second. */
  method Parse(lines: seq<string>) returns (r: Result<array2<char>>)
    ensures r.Err? <==> |Concat(NonEmpty(lines))| != |NonEmpty(lines)| * Width(lines)
    ensures r.Err? ==> r.error == ShapeMismatch(|Concat(NonEmpty(lines))|, |NonEmpty(lines)|, Width(lines))
    ensures r.Ok? ==> fresh(r.value)
    ensures r.Ok? ==> r.value.Length0 == |NonEmpty(lines)| && r.value.Length1 == Width(lines)
    ensures r.Ok? ==> forall i, j | 0 <= i < r.value.Length0 && 0 <= j < r.value.Length1 ::
                        Layout(i, j, Width(lines)) < |Concat(NonEmpty(lines))|
                        && r.value[i, j] == Concat(NonEmpty(lines))[Layout(i, j, Width(lines))]
  {
    var width, height, data := Collect(lines);
    r := FromShape(height, width, data);
  }

  /** All lines have the same length. */
  predicate Rectangular(ls: seq<string>, width: nat) {
    forall k | 0 <= k < |ls| :: |ls[k]| == width
  }

  /** Lines of one length, laid end to end, put line i's character j at
      i * width + j. */
  lemma {:induction false} ConcatCell(ls: seq<string>, width: nat, i: nat, j: nat)
    requires Rectangular(ls, width)
    requires i < |ls| && j < width
    ensures |Concat(ls)| == |ls| * width
    ensures Layout(i, j, width) < |Concat(ls)| && Concat(ls)[Layout(i, j, width)] == ls[i][j]
  {
    var init := ls[..|ls| - 1];
    assert Rectangular(init, width);
    ConcatLength(init, width);
    if i < |ls| - 1 {
      ConcatCell(init, width, i, j);
    } else {
      assert i * width + j == |Concat(init)| + j;
    }
  }

  lemma {:induction false} ConcatLength(ls: seq<string>, width: nat)
    requires Rectangular(ls, width)
    ensures |Concat(ls)| == |ls| * width
  {
    if ls != [] {
      var init := ls[..|ls| - 1];
      assert Rectangular(init, width);
      ConcatLength(init, width);
      assert |ls| * width == |init| * width + width;
    }
  }

  /** When every non-empty line has as many characters as the last has
      bytes (for ASCII lines: all lines of one length), reading succeeds
      and the grid holds line i's character j at (i, j). */
  lemma ParsedCells(lines: seq<string>)
    requires Rectangular(NonEmpty(lines), Width(lines))
    ensures |Concat(NonEmpty(lines))| == |NonEmpty(lines)| * Width(lines)
    ensures forall i, j | 0 <= i < |NonEmpty(lines)| && 0 <= j < Width(lines) ::
              Layout(i, j, Width(lines)) < |Concat(NonEmpty(lines))|
              && Concat(NonEmpty(lines))[Layout(i, j, Width(lines))] == NonEmpty(lines)[i][j]
  {
    var ls, w := NonEmpty(lines), Width(lines);
    ConcatLength(ls, w);
    forall i, j | 0 <= i < |ls| && 0 <= j < w
      ensures Layout(i, j, w) < |Concat(ls)| && Concat(ls)[Layout(i, j, w)] == ls[i][j]
    {
      ConcatCell(ls, w, i, j);
    }
  }

  /** With the program's shape, a square puzzle still lands cell for
      cell: line i's character j is at (i, j). */
  lemma SquareParsedAsWritten(lines: seq<string>)
    requires Rectangular(NonEmpty(lines), Width(lines)) && Width(lines) == |NonEmpty(lines)|
    ensures forall i, j | 0 <= i < |NonEmpty(lines)| && 0 <= j < Width(lines) ::
              Layout(i, j, |NonEmpty(lines)|) < |Concat(NonEmpty(lines))|
              && Concat(NonEmpty(lines))[Layout(i, j, |NonEmpty(lines)|)] == NonEmpty(lines)[i][j]
  {
    ParsedCells(lines);
  }

  /** With the program's shape, three lines "XMAS" "...." "...." are read
      into four rows of three: the second row starts with the `S` that
      ends the first line, not with the second line's `.`. */
  lemma NonSquareParsedAsWritten()
    ensures var lines := ["XMAS", "....", "...."];
      && NonEmpty(lines) == lines && Width(lines) == 4
      && |Concat(lines)| == Width(lines) * |NonEmpty(lines)|
      && Concat(lines)[Layout(1, 0, |NonEmpty(lines)|)] == 'S' && lines[1][0] == '.'
  {
    var lines := ["XMAS", "....", "...."];
    Utf8LengthAscii(lines[2]);
    assert lines[..2][..1] == ["XMAS"] && lines[..1][..0] == [];
    assert lines[..2] == ["XMAS", "...."];
    assert NonEmpty(lines[..1]) == ["XMAS"];
    assert NonEmpty(lines[..2]) == ["XMAS", "...."];
    assert Concat(lines[..2][..1]) == "XMAS";
  }

  /** The width is counted in bytes and the cells in characters: the lines
      "abc" and "é" (two bytes in UTF-8) pass the shape check as two by
      two although they are three and one characters long. */
  lemma NonAsciiShapeAccepted()
    ensures var lines := ["abc", "\U{e9}"];
      && NonEmpty(lines) == lines && Width(lines) == 2
      && |Concat(lines)| == Width(lines) * |NonEmpty(lines)|
      && |lines[0]| != |lines[1]|
  {
    var lines := ["abc", "\U{e9}"];
    assert lines[..1] == ["abc"] && lines[..1][..0] == [];
    assert NonEmpty(lines[..1]) == ["abc"];
    assert Utf8Length("\U{e9}"[..0]) == 0;
    assert Concat(lines[..1]) == "abc";
  }

  // The worked example: a ten by ten puzzle

  const ExampleLines: seq<string> := [
    "MMMSXXMASM", "MSAMXMSMSA", "AMXSXMAAMM", "MSAMASMSMX", "XMASAMXAMM",
    "XXAMMXXAMA", "SMSMSASXSS", "SAXAMASAAA", "MAMMMXMMMM", "MXMXAXMASX", ""]

  /** The example's ten lines, without the empty line that ends it. */
  const ExampleRows: seq<string> := ExampleLines[..10]

  /** The grid holds the example, line i's character j at (i, j). */
  predicate IsExample(g: array2<char>)
    reads g
  {
    && g.Length0 == 10 && g.Length1 == 10
    && forall i, j | 0 <= i < 10 && 0 <= j < 10 :: g[i, j] == ExampleRows[i][j]
  }
  lemma ExampleXmasLine0(g: array2<char>)
    requires IsExample(g)
    ensures LineXmas(g, 0, 10) == 2
  {
    XmasAtDirections(g, 0, 4);
    XmasAtDirections(g, 0, 5);
    forall y | 0 <= y < 10 && y != 4 && y != 5
      ensures XmasAt(g, 0, y) == 0
    {
      assert g[0, y] != 'X';
    }
    assert LineXmas(g, 0, 1) == 0;
    assert LineXmas(g, 0, 2) == 0;
    assert LineXmas(g, 0, 3) == 0;
    assert LineXmas(g, 0, 4) == 0;
    assert LineXmas(g, 0, 5) == 1;
    assert LineXmas(g, 0, 6) == 2;
    assert LineXmas(g, 0, 7) == 2;
    assert LineXmas(g, 0, 8) == 2;
    assert LineXmas(g, 0, 9) == 2;
    assert LineXmas(g, 0, 10) == 2;
  }

  lemma ExampleXmasLine1(g: array2<char>)
    requires IsExample(g)
    ensures LineXmas(g, 1, 10) == 1
  {
    XmasAtDirections(g, 1, 4);
    forall y | 0 <= y < 10 && y != 4
      ensures XmasAt(g, 1, y) == 0
    {
      assert g[1, y] != 'X';
    }
    assert LineXmas(g, 1, 1) == 0;
    assert LineXmas(g, 1, 2) == 0;
    assert LineXmas(g, 1, 3) == 0;
    assert LineXmas(g, 1, 4) == 0;
    assert LineXmas(g, 1, 5) == 1;
    assert LineXmas(g, 1, 6) == 1;
    assert LineXmas(g, 1, 7) == 1;
    assert LineXmas(g, 1, 8) == 1;
    assert LineXmas(g, 1, 9) == 1;
    assert LineXmas(g, 1, 10) == 1;
  }

  lemma ExampleXmasLine2(g: array2<char>)
    requires IsExample(g)
    ensures LineXmas(g, 2, 10) == 0
  {
    XmasAtDirections(g, 2, 2);
    XmasAtDirections(g, 2, 4);
    forall y | 0 <= y < 10 && y != 2 && y != 4
      ensures XmasAt(g, 2, y) == 0
    {
      assert g[2, y] != 'X';
    }
    assert LineXmas(g, 2, 1) == 0;
    assert LineXmas(g, 2, 2) == 0;
    assert LineXmas(g, 2, 3) == 0;
    assert LineXmas(g, 2, 4) == 0;
    assert LineXmas(g, 2, 5) == 0;
    assert LineXmas(g, 2, 6) == 0;
    assert LineXmas(g, 2, 7) == 0;
    assert LineXmas(g, 2, 8) == 0;
    assert LineXmas(g, 2, 9) == 0;
    assert LineXmas(g, 2, 10) == 0;
  }

  lemma ExampleXmasLine3(g: array2<char>)
    requires IsExample(g)
    ensures LineXmas(g, 3, 10) == 2
  {
    XmasAtDirections(g, 3, 9);
    forall y | 0 <= y < 10 && y != 9
      ensures XmasAt(g, 3, y) == 0
    {
      assert g[3, y] != 'X';
    }
    assert LineXmas(g, 3, 1) == 0;
    assert LineXmas(g, 3, 2) == 0;
    assert LineXmas(g, 3, 3) == 0;
    assert LineXmas(g, 3, 4) == 0;
    assert LineXmas(g, 3, 5) == 0;
    assert LineXmas(g, 3, 6) == 0;
    assert LineXmas(g, 3, 7) == 0;
    assert LineXmas(g, 3, 8) == 0;
    assert LineXmas(g, 3, 9) == 0;
    assert LineXmas(g, 3, 10) == 2;
  }

  lemma ExampleXmasLine4(g: array2<char>)
    requires IsExample(g)
    ensures LineXmas(g, 4, 10) == 3
  {
    XmasAtDirections(g, 4, 0);
    XmasAtDirections(g, 4, 6);
    forall y | 0 <= y < 10 && y != 0 && y != 6
      ensures XmasAt(g, 4, y) == 0
    {
      assert g[4, y] != 'X';
    }
    assert LineXmas(g, 4, 1) == 1;
    assert LineXmas(g, 4, 2) == 1;
    assert LineXmas(g, 4, 3) == 1;
    assert LineXmas(g, 4, 4) == 1;
    assert LineXmas(g, 4, 5) == 1;
    assert LineXmas(g, 4, 6) == 1;
    assert LineXmas(g, 4, 7) == 3;
    assert LineXmas(g, 4, 8) == 3;
    assert LineXmas(g, 4, 9) == 3;
    assert LineXmas(g, 4, 10) == 3;
  }

  lemma ExampleXmasLine5(g: array2<char>)
    requires IsExample(g)
    ensures LineXmas(g, 5, 10) == 2
  {
    XmasAtDirections(g, 5, 0);
    XmasAtDirections(g, 5, 1);
    XmasAtDirections(g, 5, 5);
    XmasAtDirections(g, 5, 6);
    forall y | 0 <= y < 10 && y != 0 && y != 1 && y != 5 && y != 6
      ensures XmasAt(g, 5, y) == 0
    {
      assert g[5, y] != 'X';
    }
    assert LineXmas(g, 5, 1) == 1;
    assert LineXmas(g, 5, 2) == 1;
    assert LineXmas(g, 5, 3) == 1;
    assert LineXmas(g, 5, 4) == 1;
    assert LineXmas(g, 5, 5) == 1;
    assert LineXmas(g, 5, 6) == 1;
    assert LineXmas(g, 5, 7) == 2;
    assert LineXmas(g, 5, 8) == 2;
    assert LineXmas(g, 5, 9) == 2;
    assert LineXmas(g, 5, 10) == 2;
  }

  lemma ExampleXmasLine6(g: array2<char>)
    requires IsExample(g)
    ensures LineXmas(g, 6, 10) == 0
  {
    XmasAtDirections(g, 6, 7);
    forall y | 0 <= y < 10 && y != 7
      ensures XmasAt(g, 6, y) == 0
    {
      assert g[6, y] != 'X';
    }
    assert LineXmas(g, 6, 1) == 0;
    assert LineXmas(g, 6, 2) == 0;
    assert LineXmas(g, 6, 3) == 0;
    assert LineXmas(g, 6, 4) == 0;
    assert LineXmas(g, 6, 5) == 0;
    assert LineXmas(g, 6, 6) == 0;
    assert LineXmas(g, 6, 7) == 0;
    assert LineXmas(g, 6, 8) == 0;
    assert LineXmas(g, 6, 9) == 0;
    assert LineXmas(g, 6, 10) == 0;
  }

  lemma ExampleXmasLine7(g: array2<char>)
    requires IsExample(g)
    ensures LineXmas(g, 7, 10) == 0
  {
    XmasAtDirections(g, 7, 2);
    forall y | 0 <= y < 10 && y != 2
      ensures XmasAt(g, 7, y) == 0
    {
      assert g[7, y] != 'X';
    }
    assert LineXmas(g, 7, 1) == 0;
    assert LineXmas(g, 7, 2) == 0;
    assert LineXmas(g, 7, 3) == 0;
    assert LineXmas(g, 7, 4) == 0;
    assert LineXmas(g, 7, 5) == 0;
    assert LineXmas(g, 7, 6) == 0;
    assert LineXmas(g, 7, 7) == 0;
    assert LineXmas(g, 7, 8) == 0;
    assert LineXmas(g, 7, 9) == 0;
    assert LineXmas(g, 7, 10) == 0;
  }

  lemma ExampleXmasLine8(g: array2<char>)
    requires IsExample(g)
    ensures LineXmas(g, 8, 10) == 0
  {
    XmasAtDirections(g, 8, 5);
    forall y | 0 <= y < 10 && y != 5
      ensures XmasAt(g, 8, y) == 0
    {
      assert g[8, y] != 'X';
    }
    assert LineXmas(g, 8, 1) == 0;
    assert LineXmas(g, 8, 2) == 0;
    assert LineXmas(g, 8, 3) == 0;
    assert LineXmas(g, 8, 4) == 0;
    assert LineXmas(g, 8, 5) == 0;
    assert LineXmas(g, 8, 6) == 0;
    assert LineXmas(g, 8, 7) == 0;
    assert LineXmas(g, 8, 8) == 0;
    assert LineXmas(g, 8, 9) == 0;
    assert LineXmas(g, 8, 10) == 0;
  }

  lemma ExampleXmasLine9(g: array2<char>)
    requires IsExample(g)
    ensures LineXmas(g, 9, 10) == 8
  {
    XmasAtDirections(g, 9, 1);
    XmasAtDirections(g, 9, 3);
    XmasAtDirections(g, 9, 5);
    XmasAtDirections(g, 9, 9);
    forall y | 0 <= y < 10 && y != 1 && y != 3 && y != 5 && y != 9
      ensures XmasAt(g, 9, y) == 0
    {
      assert g[9, y] != 'X';
    }
    assert LineXmas(g, 9, 1) == 0;
    assert LineXmas(g, 9, 2) == 1;
    assert LineXmas(g, 9, 3) == 1;
    assert LineXmas(g, 9, 4) == 3;
    assert LineXmas(g, 9, 5) == 3;
    assert LineXmas(g, 9, 6) == 6;
    assert LineXmas(g, 9, 7) == 6;
    assert LineXmas(g, 9, 8) == 6;
    assert LineXmas(g, 9, 9) == 6;
    assert LineXmas(g, 9, 10) == 8;
  }

  /** The example holds 18 readings of XMAS. */
  lemma ExampleXmas(g: array2<char>)
    requires IsExample(g)
    ensures GridXmas(g, 10) == 18
  {
    ExampleXmasLine0(g);
    assert GridXmas(g, 1) == 2;
    ExampleXmasLine1(g);
    assert GridXmas(g, 2) == 3;
    ExampleXmasLine2(g);
    assert GridXmas(g, 3) == 3;
    ExampleXmasLine3(g);
    assert GridXmas(g, 4) == 5;
    ExampleXmasLine4(g);
    assert GridXmas(g, 5) == 8;
    ExampleXmasLine5(g);
    assert GridXmas(g, 6) == 10;
    ExampleXmasLine6(g);
    assert GridXmas(g, 7) == 10;
    ExampleXmasLine7(g);
    assert GridXmas(g, 8) == 10;
    ExampleXmasLine8(g);
    assert GridXmas(g, 9) == 10;
    ExampleXmasLine9(g);
    assert GridXmas(g, 10) == 18;
  }

  lemma ExampleCrossLine1(g: array2<char>)
    requires IsExample(g)
    ensures LineCrosses(g, 1, 9) == 1
  {
    forall y | 1 <= y < 9
      ensures Bit(CrossAt(g, 1, y)) == [0, 0, 1, 0, 0, 0, 0, 0, 0, 0][y]
    {
    }
    assert LineCrosses(g, 1, 2) == 0;
    assert LineCrosses(g, 1, 3) == 1;
    assert LineCrosses(g, 1, 4) == 1;
    assert LineCrosses(g, 1, 5) == 1;
    assert LineCrosses(g, 1, 6) == 1;
    assert LineCrosses(g, 1, 7) == 1;
    assert LineCrosses(g, 1, 8) == 1;
    assert LineCrosses(g, 1, 9) == 1;
  }

  lemma ExampleCrossLine2(g: array2<char>)
    requires IsExample(g)
    ensures LineCrosses(g, 2, 9) == 2
  {
    forall y | 1 <= y < 9
      ensures Bit(CrossAt(g, 2, y)) == [0, 0, 0, 0, 0, 0, 1, 1, 0, 0][y]
    {
    }
    assert LineCrosses(g, 2, 2) == 0;
    assert LineCrosses(g, 2, 3) == 0;
    assert LineCrosses(g, 2, 4) == 0;
    assert LineCrosses(g, 2, 5) == 0;
    assert LineCrosses(g, 2, 6) == 0;
    assert LineCrosses(g, 2, 7) == 1;
    assert LineCrosses(g, 2, 8) == 2;
    assert LineCrosses(g, 2, 9) == 2;
  }

  lemma ExampleCrossLine3(g: array2<char>)
    requires IsExample(g)
    ensures LineCrosses(g, 3, 9) == 2
  {
    forall y | 1 <= y < 9
      ensures Bit(CrossAt(g, 3, y)) == [0, 0, 1, 0, 1, 0, 0, 0, 0, 0][y]
    {
    }
    assert LineCrosses(g, 3, 2) == 0;
    assert LineCrosses(g, 3, 3) == 1;
    assert LineCrosses(g, 3, 4) == 1;
    assert LineCrosses(g, 3, 5) == 2;
    assert LineCrosses(g, 3, 6) == 2;
    assert LineCrosses(g, 3, 7) == 2;
    assert LineCrosses(g, 3, 8) == 2;
    assert LineCrosses(g, 3, 9) == 2;
  }

  lemma ExampleCrossLine4(g: array2<char>)
    requires IsExample(g)
    ensures LineCrosses(g, 4, 9) == 0
  {
    forall y | 1 <= y < 9
      ensures Bit(CrossAt(g, 4, y)) == [0, 0, 0, 0, 0, 0, 0, 0, 0, 0][y]
    {
    }
    assert LineCrosses(g, 4, 2) == 0;
    assert LineCrosses(g, 4, 3) == 0;
    assert LineCrosses(g, 4, 4) == 0;
    assert LineCrosses(g, 4, 5) == 0;
    assert LineCrosses(g, 4, 6) == 0;
    assert LineCrosses(g, 4, 7) == 0;
    assert LineCrosses(g, 4, 8) == 0;
    assert LineCrosses(g, 4, 9) == 0;
  }

  lemma ExampleCrossLine5(g: array2<char>)
    requires IsExample(g)
    ensures LineCrosses(g, 5, 9) == 0
  {
    forall y | 1 <= y < 9
      ensures Bit(CrossAt(g, 5, y)) == [0, 0, 0, 0, 0, 0, 0, 0, 0, 0][y]
    {
    }
    assert LineCrosses(g, 5, 2) == 0;
    assert LineCrosses(g, 5, 3) == 0;
    assert LineCrosses(g, 5, 4) == 0;
    assert LineCrosses(g, 5, 5) == 0;
    assert LineCrosses(g, 5, 6) == 0;
    assert LineCrosses(g, 5, 7) == 0;
    assert LineCrosses(g, 5, 8) == 0;
    assert LineCrosses(g, 5, 9) == 0;
  }

  lemma ExampleCrossLine6(g: array2<char>)
    requires IsExample(g)
    ensures LineCrosses(g, 6, 9) == 0
  {
    forall y | 1 <= y < 9
      ensures Bit(CrossAt(g, 6, y)) == [0, 0, 0, 0, 0, 0, 0, 0, 0, 0][y]
    {
    }
    assert LineCrosses(g, 6, 2) == 0;
    assert LineCrosses(g, 6, 3) == 0;
    assert LineCrosses(g, 6, 4) == 0;
    assert LineCrosses(g, 6, 5) == 0;
    assert LineCrosses(g, 6, 6) == 0;
    assert LineCrosses(g, 6, 7) == 0;
    assert LineCrosses(g, 6, 8) == 0;
    assert LineCrosses(g, 6, 9) == 0;
  }

  lemma ExampleCrossLine7(g: array2<char>)
    requires IsExample(g)
    ensures LineCrosses(g, 7, 9) == 4
  {
    forall y | 1 <= y < 9
      ensures Bit(CrossAt(g, 7, y)) == [0, 1, 0, 1, 0, 1, 0, 1, 0, 0][y]
    {
    }
    assert LineCrosses(g, 7, 2) == 1;
    assert LineCrosses(g, 7, 3) == 1;
    assert LineCrosses(g, 7, 4) == 2;
    assert LineCrosses(g, 7, 5) == 2;
    assert LineCrosses(g, 7, 6) == 3;
    assert LineCrosses(g, 7, 7) == 3;
    assert LineCrosses(g, 7, 8) == 4;
    assert LineCrosses(g, 7, 9) == 4;
  }

  lemma ExampleCrossLine8(g: array2<char>)
    requires IsExample(g)
    ensures LineCrosses(g, 8, 9) == 0
  {
    forall y | 1 <= y < 9
      ensures Bit(CrossAt(g, 8, y)) == [0, 0, 0, 0, 0, 0, 0, 0, 0, 0][y]
    {
    }
    assert LineCrosses(g, 8, 2) == 0;
    assert LineCrosses(g, 8, 3) == 0;
    assert LineCrosses(g, 8, 4) == 0;
    assert LineCrosses(g, 8, 5) == 0;
    assert LineCrosses(g, 8, 6) == 0;
    assert LineCrosses(g, 8, 7) == 0;
    assert LineCrosses(g, 8, 8) == 0;
    assert LineCrosses(g, 8, 9) == 0;
  }

  /** The example holds 9 crossed readings of MAS. */
  lemma ExampleCrosses(g: array2<char>)
    requires IsExample(g)
    ensures GridCrosses(g, 9) == 9
  {
    ExampleCrossLine1(g);
    assert GridCrosses(g, 2) == 1;
    ExampleCrossLine2(g);
    assert GridCrosses(g, 3) == 3;
    ExampleCrossLine3(g);
    assert GridCrosses(g, 4) == 5;
    ExampleCrossLine4(g);
    assert GridCrosses(g, 5) == 5;
    ExampleCrossLine5(g);
    assert GridCrosses(g, 6) == 5;
    ExampleCrossLine6(g);
    assert GridCrosses(g, 7) == 5;
    ExampleCrossLine7(g);
    assert GridCrosses(g, 8) == 9;
    ExampleCrossLine8(g);
    assert GridCrosses(g, 9) == 9;
  }

  /** The example ends with an empty line; without it, its ten lines form
      a ten by ten rectangle. */
  lemma ExampleShape()
    ensures NonEmpty(ExampleLines) == ExampleRows
    ensures Width(ExampleLines) == 10
    ensures Rectangular(ExampleRows, 10)
  {
    assert Rectangular(ExampleRows, 10);
    assert Ascii(ExampleRows[9]);
    Utf8LengthAscii(ExampleRows[9]);
    NonEmptyOfFull(ExampleRows);
    assert ExampleLines[..|ExampleLines| - 1] == ExampleRows;
  }

  /** Reading the example as the program does and searching it finds 18
      readings of XMAS and 9 crossed readings of MAS: the example is
      square, so the program's shape lands every cell in place. */
  method Example() returns (part1: nat, part2: nat)
    ensures part1 == 18 && part2 == 9
  {
    ExampleShape();
    ParsedCells(ExampleLines);
    SquareParsedAsWritten(ExampleLines);
    var r := ParseAsWritten(ExampleLines);
    var g := r.value;
    assert IsExample(g);
    part1 := Part1(g);
    ExampleXmas(g);
    part2 := Part2(g);
    ExampleCrosses(g);
  }
}
