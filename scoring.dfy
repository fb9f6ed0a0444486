/**
 * Board.sum_up and the start-colour rule of Board.start: the side with the
 * lower pip sum moves first; equal sums are settled by comparing home-rank
 * values pairwise, the side with the lower value moving first.
 */
module Scoring {
  import opened Wrappers
  import opened Geometry
  import opened Die
  import opened Rules
  import opened Turn

  // ---------------------------------------------------------------------
  // sum_up
  // ---------------------------------------------------------------------

  /** What a piece adds to its side's sum: its value if it is a die on the board. */
  function Contribution(p: Piece, c: Color): int {
    if p.color == c && IsDie(p.kind) && InBounds(p.loc) then p.value else 0
  }

  /** The pip sum of side c: the values of its Dice and Queens on the board. */
  function ColorSum(ps: seq<Piece>, c: Color): int {
    if |ps| == 0 then 0 else ColorSum(ps[..|ps| - 1], c) + Contribution(ps[|ps| - 1], c)
  }

  /** Replacing one piece changes the sum by the difference of their contributions. */
  lemma {:induction false} ColorSumUpdate(ps: seq<Piece>, i: nat, q: Piece, c: Color)
    requires i < |ps|
    ensures ColorSum(ps[i := q], c) == ColorSum(ps, c) - Contribution(ps[i], c) + Contribution(q, c)
  {
    var n := |ps| - 1;
    if i == n {
      assert ps[i := q][..n] == ps[..n];
    } else {
      assert ps[i := q][..n] == ps[..n][i := q];
      ColorSumUpdate(ps[..n], i, q, c);
    }
  }

  /** Every piece on the board of side c with a value in 1..6 keeps the sum between 0 and 6 per piece. */
  lemma {:induction false} ColorSumBounds(ps: seq<Piece>, c: Color)
    requires forall j :: 0 <= j < |ps| ==> WellFormedPiece(ps[j])
    ensures 0 <= ColorSum(ps, c) <= 6 * |ps|
  {
    if |ps| > 0 {
      var n := |ps| - 1;
      assert forall j :: 0 <= j < n ==> ps[..n][j] == ps[j];
      ColorSumBounds(ps[..n], c);
      assert WellFormedPiece(ps[n]);
      assert IsDie(ps[n].kind) ==> 1 <= Value(ps[n].orient) <= 6;
    }
  }

  /**
   * sum_up: (Black's sum, White's sum), swapped when flip is asked for and the
   * active piece is White. active is the colour of the active piece, if any.
   */
  function Sums(ps: seq<Piece>, flip: bool, active: Option<Color>): (r: (int, int))
    ensures flip && active == Some(White) ==> r == (ColorSum(ps, White), ColorSum(ps, Black))
    ensures !(flip && active == Some(White)) ==> r == (ColorSum(ps, Black), ColorSum(ps, White))
  {
    var sums := (ColorSum(ps, Black), ColorSum(ps, White));
    if !flip || active.None? || active.value == Black then sums else (sums.1, sums.0)
  }

  /** With flip the first sum is always the active side's own. */
  lemma SumsPutActiveFirst(ps: seq<Piece>, c: Color)
    ensures Sums(ps, true, Some(c)) == (ColorSum(ps, c), ColorSum(ps, Opponent(c)))
  {
  }

  /** Moving one piece of the other side and sending one piece off the board lowers a side's sum by what the latter added. */
  lemma SumAfterTake(ps: seq<Piece>, ps2: seq<Piece>, id: nat, t: nat, c: Color)
    requires |ps2| == |ps| && id < |ps| && t < |ps| && t != id
    requires forall j :: 0 <= j < |ps| && j != id && j != t ==> ps2[j] == ps[j]
    requires ps[id].color != c && ps2[id].color != c
    requires ps2[t] == ps[t].(loc := ps2[t].loc) && !InBounds(ps2[t].loc)
    ensures ColorSum(ps2, c) == ColorSum(ps, c) - Contribution(ps[t], c)
  {
    var mid := ps[t := ps2[t]];
    assert ps2 == mid[id := ps2[id]];
    ColorSumUpdate(ps, t, ps2[t], c);
    ColorSumUpdate(mid, id, ps2[id], c);
  }

  /**
   * A legal step that takes a piece lowers the taken side's sum by the taken
   * piece's value if it was a die, and leaves it alone if it was a King.
   */
  lemma StepLowersTakenSideSum(g: Game, id: nat, a: Action, doFlip: bool)
    requires ValidGame(g) && id < |g.pieces|
    requires PollAction(g, id, g.pieces[id].loc, a)
    requires Taken(g, id, a).Some?
    ensures var t := Taken(g, id, a).value; var q := g.pieces[t];
      ColorSum(Step(g, id, a, doFlip).game.pieces, q.color)
        == ColorSum(g.pieces, q.color) - (if IsDie(q.kind) then q.value else 0)
  {
    var t := Taken(g, id, a).value;
    var q, p := g.pieces[t], g.pieces[id];
    PollActionSound(g, id, p.loc, a);
    LegalStepTakesEnemyNonRook(g, id, a);
    StepOthers(g, id, a, doFlip);
    StepMoverWellFormed(g, id, a, doFlip);
    var ps2 := Step(g, id, a, doFlip).game.pieces;
    assert StartStep(g, id, a).pieces[t] == q;
    assert q.loc == Dest(g, id, p.loc, a);
    SumAfterTake(g.pieces, ps2, id, t, q.color);
  }

  // ---------------------------------------------------------------------
  // The tie-break on equal sums
  // ---------------------------------------------------------------------

  /** The home rank: 0 for Black, 7 for White. */
  function HomeRank(c: Color): int {
    if c == Black then 0 else 7
  }

  /**
   * The slot of the values list that the file f (0..6) of side c fills:
   * White's file is mirrored to 7 - f, then 4 is subtracted, wrapping below 0.
   */
  function HomeIndex(c: Color, f: int): (k: int)
    requires 0 <= f < 7
    ensures 0 <= k < 7
  {
    var mirrored := if c == White then 7 - f else f;
    var shifted := mirrored - 4;
    if shifted < 0 then 7 + shifted else shifted
  }

  /** The file whose value lands in slot k. */
  function HomeFile(c: Color, k: int): (f: int)
    requires 0 <= k < 7
    ensures 0 <= f < 7 && HomeIndex(c, f) == k
  {
    if c == Black then (k + 4) % 7 else (10 - k) % 7
  }

  /** Every slot is filled by exactly one file, so the loop never overwrites a slot. */
  lemma HomeIndexBijective(c: Color, f: int)
    requires 0 <= f < 7
    ensures HomeFile(c, HomeIndex(c, f)) == f
  {
  }

  /** Slot 0 holds Black's file 4 and White's file 3; slot 3 pairs file 0 with file 0; file 7 is never read. */
  lemma HomeSlots()
    ensures HomeFile(Black, 0) == 4 && HomeFile(White, 0) == 3
    ensures HomeFile(Black, 3) == 0 && HomeFile(White, 3) == 0
    ensures forall k :: 0 <= k < 7 ==> HomeFile(Black, k) != 7 && HomeFile(White, k) != 7
  {
  }

  /** The value read for a square: the first piece there, or 1 for an empty square. */
  function ValueAt(ps: seq<Piece>, l: Loc): (v: int)
    ensures FindAt(ps, l, -1).None? ==> v == 1
    ensures FindAt(ps, l, -1).Some? ==> v == ps[FindAt(ps, l, -1).value].value
  {
    match FindAt(ps, l, -1)
    case None => 1
    case Some(j) => ps[j].value
  }

  /** The values list of side c, slot by slot. */
  function HomeValues(ps: seq<Piece>, c: Color): (vs: seq<int>)
    ensures |vs| == 7
    ensures forall k :: 0 <= k < 7 ==> vs[k] == ValueAt(ps, Loc(HomeFile(c, k), HomeRank(c)))
  {
    seq(7, k requires 0 <= k < 7 => ValueAt(ps, Loc(HomeFile(c, k), HomeRank(c))))
  }

  /**
   * The pairwise comparison from slot k on: at the first slot where the values
   * differ, White starts iff Black's value is larger; Black starts on a full tie.
   */
  function TieBreak(bs: seq<int>, ws: seq<int>, k: nat): Color
    requires |bs| == |ws| && k <= |bs|
    decreases |bs| - k
  {
    if k == |bs| then Black
    else if bs[k] != ws[k] then (if bs[k] > ws[k] then White else Black)
    else TieBreak(bs, ws, k + 1)
  }

  /** White starts exactly when, at the first differing slot, Black's value is the larger. */
  lemma {:induction false} TieBreakFirstDifference(bs: seq<int>, ws: seq<int>, k: nat)
    requires |bs| == |ws| && k <= |bs|
    ensures TieBreak(bs, ws, k) == White <==>
      exists i :: k <= i < |bs| && bs[i] > ws[i] && forall m :: k <= m < i ==> bs[m] == ws[m]
    decreases |bs| - k
  {
    if k < |bs| {
      TieBreakFirstDifference(bs, ws, k + 1);
      if bs[k] == ws[k] {
        if TieBreak(bs, ws, k) == White {
          var i :| k + 1 <= i < |bs| && bs[i] > ws[i] && forall m :: k + 1 <= m < i ==> bs[m] == ws[m];
          assert forall m :: k <= m < i ==> bs[m] == ws[m];
        }
      } else {
        if bs[k] > ws[k] {
          assert k <= k < |bs| && bs[k] > ws[k];
        }
      }
    }
  }

  /** Identical values lists give Black the first move. */
  lemma {:induction false} TieBreakEqualIsBlack(vs: seq<int>, k: nat)
    requires k <= |vs|
    ensures TieBreak(vs, vs, k) == Black
    decreases |vs| - k
  {
    if k < |vs| {
      TieBreakEqualIsBlack(vs, k + 1);
    }
  }

  // ---------------------------------------------------------------------
  // The start colour
  // ---------------------------------------------------------------------

  /**
   * Board.start with the home-rank lookup reading the squares: unequal sums
   * give the first move to the lower sum; equal sums go to the tie-break.
   */
  function StartColor(ps: seq<Piece>): Color {
    var b, w := ColorSum(ps, Black), ColorSum(ps, White);
    if b != w then (if b > w then White else Black)
    else TieBreak(HomeValues(ps, Black), HomeValues(ps, White), 0)
  }

  /** The side with the lower sum moves first. */
  lemma LowerSumMovesFirst(ps: seq<Piece>)
    requires ColorSum(ps, Black) != ColorSum(ps, White)
    ensures StartColor(ps) == (if ColorSum(ps, Black) < ColorSum(ps, White) then Black else White)
  {
  }

  /** On equal sums the side with the lower value at the first differing slot moves first. */
  lemma EqualSumsTieBreak(ps: seq<Piece>)
    requires ColorSum(ps, Black) == ColorSum(ps, White)
    ensures var bs, ws := HomeValues(ps, Black), HomeValues(ps, White);
      StartColor(ps) == White <==>
        exists i :: 0 <= i < 7 && bs[i] > ws[i] && forall m :: 0 <= m < i ==> bs[m] == ws[m]
  {
    TieBreakFirstDifference(HomeValues(ps, Black), HomeValues(ps, White), 0);
  }

  // ---------------------------------------------------------------------
  // The lookup as written
  // ---------------------------------------------------------------------

  /** A location as a Python tuple: a piece's location has three components. */
  function PieceKey(l: Loc): seq<int> {
    [l.x, l.y, 0]
  }

  /** intersect_board by tuple equality, first match. */
  function FindKey(ps: seq<Piece>, key: seq<int>): (r: Option<nat>)
    ensures r.Some? ==> r.value < |ps| && PieceKey(ps[r.value].loc) == key
    ensures r.None? ==> forall j :: 0 <= j < |ps| ==> PieceKey(ps[j].loc) != key
  {
    if |ps| == 0 then None
    else
      match FindKey(ps[..|ps| - 1], key)
      case Some(j) => Some(j)
      case None => if PieceKey(ps[|ps| - 1].loc) == key then Some(|ps| - 1) else None
  }

  /** The home-rank lookup as written passes the two-component tuple (file, rank). */
  function HomeValuesAsWritten(ps: seq<Piece>, c: Color): (vs: seq<int>)
    ensures |vs| == 7
  {
    seq(7, k requires 0 <= k < 7 =>
      match FindKey(ps, [HomeFile(c, k), HomeRank(c)])
      case None => 1
      case Some(j) => ps[j].value)
  }

  function StartColorAsWritten(ps: seq<Piece>): Color {
    var b, w := ColorSum(ps, Black), ColorSum(ps, White);
    if b != w then (if b > w then White else Black)
    else TieBreak(HomeValuesAsWritten(ps, Black), HomeValuesAsWritten(ps, White), 0)
  }

  /**
   * As written, a two-component key never equals a three-component location,
   * every slot stays 1, and Black moves first whenever the sums are equal.
   */
  lemma TieBreakAsWrittenIgnoresBoard(ps: seq<Piece>)
    ensures forall c: Color :: HomeValuesAsWritten(ps, c) == [1, 1, 1, 1, 1, 1, 1]
    ensures ColorSum(ps, Black) == ColorSum(ps, White) ==> StartColorAsWritten(ps) == Black
  {
    forall c: Color ensures HomeValuesAsWritten(ps, c) == [1, 1, 1, 1, 1, 1, 1] {
      forall k | 0 <= k < 7 ensures HomeValuesAsWritten(ps, c)[k] == 1 {
        assert FindKey(ps, [HomeFile(c, k), HomeRank(c)]).None?;
      }
    }
    TieBreakEqualIsBlack([1, 1, 1, 1, 1, 1, 1], 0);
  }

  /** The three-component key finds what the square lookup finds. */
  lemma FindKeyAgrees(ps: seq<Piece>, l: Loc)
    ensures FindKey(ps, PieceKey(l)).Some? <==> FindAt(ps, l, -1).Some?
  {
    if FindAt(ps, l, -1).Some? {
      assert PieceKey(ps[FindAt(ps, l, -1).value].loc) == PieceKey(l);
    }
    if FindKey(ps, PieceKey(l)).Some? {
      assert ps[FindKey(ps, PieceKey(l)).value].loc == l;
    }
  }

  /** A Dice or Queen at rest on l, showing v, for the example below. */
  function ExamplePiece(k: Kind, c: Color, l: Loc, v: int): Piece
    requires 1 <= v <= 6
  {
    Piece(k, c, l, Showing(v), v, v, v, false, [l])
  }

  lemma ExamplePieceWellFormed(k: Kind, c: Color, l: Loc, v: int)
    requires IsDie(k) && 1 <= v <= 6
    ensures WellFormedPiece(ExamplePiece(k, c, l, v))
  {
  }

  /**
   * Equal sums of 7, Black's Queen showing 6 against White's 5: the slots first
   * compare the Queens, so Black's larger value should give White the move,
   * but as written Black moves first.
   */
  lemma TieBreakCounterexample()
    ensures var ps := [ExamplePiece(Queen, Black, Loc(4, 0), 6), ExamplePiece(Dice, Black, Loc(5, 0), 1),
                       ExamplePiece(Queen, White, Loc(3, 7), 5), ExamplePiece(Dice, White, Loc(2, 7), 2)];
      && (forall i :: 0 <= i < |ps| ==> WellFormedPiece(ps[i]))
      && ColorSum(ps, Black) == 7 && ColorSum(ps, White) == 7
      && StartColor(ps) == White
      && StartColorAsWritten(ps) == Black
  {
    var ps := [ExamplePiece(Queen, Black, Loc(4, 0), 6), ExamplePiece(Dice, Black, Loc(5, 0), 1),
               ExamplePiece(Queen, White, Loc(3, 7), 5), ExamplePiece(Dice, White, Loc(2, 7), 2)];
    forall i | 0 <= i < |ps| ensures WellFormedPiece(ps[i]) {
      ExamplePieceWellFormed(ps[i].kind, ps[i].color, ps[i].loc, ps[i].value);
    }
    assert ps[..3] == ps[..3][..3] && ps[..3][..2] == ps[..2] && ps[..2][..1] == ps[..1] && ps[..1][..0] == [];
    assert ColorSum(ps[..1][..0], Black) == 0 && ColorSum(ps[..1][..0], White) == 0;
    assert ColorSum(ps[..1], Black) == 6 && ColorSum(ps[..1], White) == 0;
    assert ColorSum(ps[..2], Black) == 7 && ColorSum(ps[..2], White) == 0;
    assert ColorSum(ps[..3], Black) == 7 && ColorSum(ps[..3], White) == 5;
    assert HomeValues(ps, Black)[0] == 6 by { assert FindAt(ps, Loc(4, 0), -1) == Some(0); }
    assert HomeValues(ps, White)[0] == 5 by { assert FindAt(ps, Loc(3, 7), -1) == Some(2); }
    TieBreakAsWrittenIgnoresBoard(ps);
  }
}
