/**
 * Squares, algebraic notation and the colour-mirrored move directions.
 * A square is an integer pair (file x, rank y); the vertical coordinate of a
 * piece always rounds to 0 and is left out.
 */
module Geometry {
  import opened Wrappers

  datatype Color = Black | White

  function Opponent(c: Color): Color {
    if c == Black then White else Black
  }

  datatype Loc = Loc(x: int, y: int)

  function Add(a: Loc, b: Loc): Loc {
    Loc(a.x + b.x, a.y + b.y)
  }

  function Sub(a: Loc, b: Loc): Loc {
    Loc(a.x - b.x, a.y - b.y)
  }

  /** is_in_bounds: the 8x8 board. */
  predicate InBounds(l: Loc) {
    0 <= l.x <= 7 && 0 <= l.y <= 7
  }

  // ---------------------------------------------------------------------
  // Algebraic notation
  // ---------------------------------------------------------------------

  /** str.isalpha / str.isdigit restricted to ASCII. */
  predicate IsLetter(c: char) {
    'A' <= c <= 'Z' || 'a' <= c <= 'z'
  }

  predicate IsDigit(c: char) {
    '0' <= c <= '9'
  }

  function Upper(c: char): (u: char)
    ensures IsLetter(c) ==> 'A' <= u <= 'Z'
    ensures 'A' <= c <= 'Z' ==> u == c
  {
    if 'a' <= c <= 'z' then (c as int - 32) as char else c
  }

  /** The ValueError raised for a malformed token. */
  datatype NotationError = InvalidAlgebraic(token: string)

  /**
   * algebraic_to_loc: one letter then one digit, either case, no bounds check.
   */
  function AlgebraicToLoc(s: string): (r: Result<Loc, NotationError>)
    ensures r.Success? <==> |s| == 2 && IsLetter(s[0]) && IsDigit(s[1])
    ensures r.Success? ==> r.value.x == Upper(s[0]) as int - 'A' as int
    ensures r.Success? ==> -1 <= r.value.y <= 8
  {
    if |s| != 2 || !IsLetter(s[0]) || !IsDigit(s[1]) then
      Failure(InvalidAlgebraic(s))
    else
      Success(Loc(Upper(s[0]) as int - 65, (s[1] as int - '0' as int) - 1))
  }

  /** loc_to_algebraic: file letter from 'A', rank digit from '1'. */
  function LocToAlgebraic(l: Loc): (s: string)
    requires InBounds(l)
    ensures |s| == 2 && 'A' <= s[0] <= 'H' && '1' <= s[1] <= '8'
    ensures AlgebraicToLoc(s) == Success(l)
  {
    [(l.x + 65) as char, (l.y + 49) as char]
  }

  /** A well-formed token that lands on the board is re-encoded as its upper-case form. */
  lemma AlgebraicCanonical(s: string)
    requires AlgebraicToLoc(s).Success? && InBounds(AlgebraicToLoc(s).value)
    ensures LocToAlgebraic(AlgebraicToLoc(s).value) == [Upper(s[0]), s[1]]
  {
  }

  /** Lower case is accepted, and nothing is bound-checked. */
  lemma AlgebraicExamples()
    ensures AlgebraicToLoc("e2") == Success(Loc(4, 1))
    ensures AlgebraicToLoc("Z9") == Success(Loc(25, 8)) && !InBounds(Loc(25, 8))
    ensures AlgebraicToLoc("A0") == Success(Loc(0, -1))
    ensures AlgebraicToLoc("4e").Failure? && AlgebraicToLoc("E").Failure?
  {
  }

  // ---------------------------------------------------------------------
  // Move names and directions
  // ---------------------------------------------------------------------

  /** Piece.move_names, in the source's order; NoMove is 'NONE'. */
  datatype Action =
    | BackwardLeft | Backward | BackwardRight
    | Left | NoMove | Right
    | ForwardLeft | Forward | ForwardRight

  const MoveNames: seq<Action> :=
    [BackwardLeft, Backward, BackwardRight, Left, NoMove, Right, ForwardLeft, Forward, ForwardRight]

  /** move_names.index(action). */
  function IndexOf(a: Action): (i: nat)
    ensures i < 9 && MoveNames[i] == a
    ensures forall j :: 0 <= j < 9 && MoveNames[j] == a ==> j == i
  {
    match a
    case BackwardLeft => 0
    case Backward => 1
    case BackwardRight => 2
    case Left => 3
    case NoMove => 4
    case Right => 5
    case ForwardLeft => 6
    case Forward => 7
    case ForwardRight => 8
  }

  /** move_names_straight: the names at odd indices. */
  predicate IsStraight(a: Action) {
    IndexOf(a) % 2 != 0
  }

  lemma StraightNames(a: Action)
    ensures IsStraight(a) <==> a in {Backward, Left, Right, Forward}
  {
  }

  /** The step of action_to_delta: +1 for Black, -1 for White. */
  function StepFor(c: Color): int {
    if c == Black then 1 else -1
  }

  /** v * StepFor(c), written without a product so the solver stays linear. */
  function Scale(c: Color, v: int): (r: int)
    ensures r == v * StepFor(c)
  {
    if c == Black then v else -v
  }

  /**
   * action_to_delta: divmod(index, 3) gives (row, column) of the name grid,
   * each shifted to -1..1 and multiplied by the colour's step.
   */
  function ActionToDelta(c: Color, a: Action): (d: Loc)
    ensures -1 <= d.x <= 1 && -1 <= d.y <= 1
    ensures d == Loc(0, 0) <==> a == NoMove
    ensures IsStraight(a) <==> (d.x == 0) != (d.y == 0)
  {
    var i := IndexOf(a);
    Loc(Scale(c, i % 3 - 1), Scale(c, i / 3 - 1))
  }

  /** FORWARD heads for the opponent's home rank; White's deltas are Black's negated. */
  lemma ForwardIsTowardOpponent(a: Action)
    ensures ActionToDelta(Black, Forward) == Loc(0, 1)
    ensures ActionToDelta(White, Forward) == Loc(0, -1)
    ensures ActionToDelta(Black, Right) == Loc(1, 0)
    ensures ActionToDelta(White, a) == Sub(Loc(0, 0), ActionToDelta(Black, a))
  {
  }

  /**
   * delta_to_action: the delta is (source - destination); each component is
   * floor-divided by -1 (Black) or +1 (White), which is exact, so it is a
   * multiplication by -StepFor(c), and shifted by 1. The index into move_names
   * follows Python: -9..-1 wrap around, anything else raises IndexError, here None.
   */
  function DeltaToAction(c: Color, d: Loc): (r: Option<Action>)
    ensures r.Some? <==> -9 <= (Scale(c, -d.y) + 1) * 3 + (Scale(c, -d.x) + 1) < 9
  {
    var i := (Scale(c, -d.y) + 1) * 3 + (Scale(c, -d.x) + 1);
    if -9 <= i < 9 then Some(MoveNames[if i < 0 then i + 9 else i]) else None
  }

  /** A single step in direction a is decoded back to a, for all nine names. */
  lemma DeltaToActionInverts(c: Color, a: Action)
    ensures DeltaToAction(c, Sub(Loc(0, 0), ActionToDelta(c, a))) == Some(a)
  {
    var i: int := IndexOf(a);
    var d := Sub(Loc(0, 0), ActionToDelta(c, a));
    assert Scale(c, -d.x) == i % 3 - 1 && Scale(c, -d.y) == i / 3 - 1;
    assert (Scale(c, -d.y) + 1) * 3 + (Scale(c, -d.x) + 1) == i;
  }

  /** Conversely, every one-square delta (or none) names the direction that steps across it. */
  lemma UnitDeltaDecodes(c: Color, d: Loc)
    requires -1 <= d.x <= 1 && -1 <= d.y <= 1
    ensures DeltaToAction(c, d).Some?
    ensures ActionToDelta(c, DeltaToAction(c, d).value) == Sub(Loc(0, 0), d)
  {
  }

  /** Non-adjacent deltas are not rejected: they wrap to an unrelated name, or raise. */
  lemma DeltaToActionWraps()
    ensures DeltaToAction(Black, Loc(-2, 0)) == Some(ForwardLeft)
    ensures ActionToDelta(Black, ForwardLeft) == Loc(-1, 1)
    ensures DeltaToAction(Black, Loc(0, -3)) == None
  {
  }
}
