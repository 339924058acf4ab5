/** Shared vocabulary of the four puzzle solvers: optional values, the
    parse result, the tokens a line splits into, and the 32-bit integer
    parse every numeric solver applies to its tokens. */
module Common {

  datatype Option<T> = None | Some(value: T)

  /** Why a puzzle input was rejected. */
  datatype ParseError =
    | WrongEntryCount(count: nat)
    | NotAnInteger(token: Token)
    | UnexpectedMatch(text: string)
    | ShapeMismatch(cells: nat, rows: nat, columns: nat)

  datatype Result<T> = Ok(value: T) | Err(error: ParseError)

  /** One whitespace-separated token of an input line.  A `Numeral` is an
      optional sign followed by decimal digits, carrying its mathematical
      value; anything else is a `Word`. */
  datatype Token = Numeral(value: int) | Word(text: string)

  const I32Min: int := -0x8000_0000
  const I32Max: int := 0x7FFF_FFFF

  /** The token is accepted by a parse into a signed 32-bit integer. */
  predicate IsI32(t: Token) {
    t.Numeral? && I32Min <= t.value <= I32Max
  }

  /** Parse a token as a signed 32-bit integer: numerals outside the
      32-bit range are rejected like words. */
  function ParseI32(t: Token): (r: Result<int>)
    ensures r.Ok? <==> IsI32(t)
    ensures r.Ok? ==> r.value == t.value
    ensures r.Err? ==> r.error == NotAnInteger(t)
  {
    if IsI32(t) then Ok(t.value) else Err(NotAnInteger(t))
  }

  /** The lines that hold at least one token, in order. */
  function NonBlank(lines: seq<seq<Token>>): seq<seq<Token>> {
    if lines == [] then []
    else if lines[|lines| - 1] == [] then NonBlank(lines[..|lines| - 1])
    else NonBlank(lines[..|lines| - 1]) + [lines[|lines| - 1]]
  }

  /** The values of a line's tokens, in order. */
  function Values(line: seq<Token>): (vs: seq<int>)
    requires forall j | 0 <= j < |line| :: line[j].Numeral?
    ensures |vs| == |line|
    ensures forall j | 0 <= j < |vs| :: vs[j] == line[j].value
  {
    if line == [] then [] else Values(line[..|line| - 1]) + [line[|line| - 1].value]
  }

  function Abs(x: int): (r: nat)
    ensures r == x || r == -x
  {
    if x < 0 then -x else x
  }
}
