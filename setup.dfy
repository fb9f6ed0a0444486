/**
 * Board.setup, get_use_queen / set_use_queen and the placement that
 * Board.reset derives from the setup text: Black reads the lines from rank 0
 * upwards, White from rank 7 downwards with each line reversed.
 */
module Setup {
  import opened Geometry
  import opened Die
  import opened Rules

  /** Board.setup as shipped: one line of eight pieces, one line with two Rooks. */
  const DefaultSetup: string := "DDDKQDDD\n   RR   \n"

  // ---------------------------------------------------------------------
  // The Queen switch
  // ---------------------------------------------------------------------

  /** get_use_queen: the fifth character is 'Q'. */
  predicate UseQueen(setup: string)
    requires |setup| > 4
  {
    setup[4] == 'Q'
  }

  /** set_use_queen: the fifth character becomes 'Q' or 'D'; nothing else changes. */
  function SetUseQueen(setup: string, value: bool): (s: string)
    requires |setup| > 4
    ensures |s| == |setup|
    ensures forall i :: 0 <= i < |s| && i != 4 ==> s[i] == setup[i]
  {
    setup[..4] + [if value then 'Q' else 'D'] + setup[5..]
  }

  /** Setting the switch reads back what was set, and setting it again to the same value changes nothing. */
  lemma UseQueenRoundTrip(setup: string, value: bool)
    requires |setup| > 4
    ensures UseQueen(SetUseQueen(setup, value)) == value
    ensures SetUseQueen(SetUseQueen(setup, value), value) == SetUseQueen(setup, value)
  {
  }

  /** The shipped setup uses the Queen; switching it off restores a Dice in its place. */
  lemma DefaultUsesQueen()
    ensures UseQueen(DefaultSetup)
    ensures SetUseQueen(DefaultSetup, false) == "DDDKDDDD\n   RR   \n"
    ensures SetUseQueen(SetUseQueen(DefaultSetup, false), true) == DefaultSetup
  {
  }

  // ---------------------------------------------------------------------
  // Lines
  // ---------------------------------------------------------------------

  /** The position of the first newline, or |s| if there is none. */
  function NewlineAt(s: string): (n: nat)
    ensures n <= |s| && '\n' !in s[..n]
    ensures n < |s| ==> s[n] == '\n'
  {
    if |s| == 0 || s[0] == '\n' then 0 else 1 + NewlineAt(s[1..])
  }

  /** str.splitlines for text whose only line break is '\n'; a final newline ends the last line. */
  function SplitLines(s: string): (ls: seq<string>)
    ensures forall i :: 0 <= i < |ls| ==> '\n' !in ls[i]
    decreases |s|
  {
    if |s| == 0 then []
    else
      var n := NewlineAt(s);
      if n == |s| then [s] else [s[..n]] + SplitLines(s[n + 1..])
  }

  /** Each line followed by a newline. */
  function JoinLines(ls: seq<string>): string {
    if |ls| == 0 then "" else ls[0] + "\n" + JoinLines(ls[1..])
  }

  lemma NewlineAtJoin(l: string, rest: string)
    requires '\n' !in l
    ensures NewlineAt(l + "\n" + rest) == |l|
  {
    if |l| > 0 {
      assert (l + "\n" + rest)[1..] == l[1..] + "\n" + rest;
      NewlineAtJoin(l[1..], rest);
    }
  }

  /** Splitting undoes joining lines that hold no newline. */
  lemma {:induction false} SplitJoin(ls: seq<string>)
    requires forall i :: 0 <= i < |ls| ==> '\n' !in ls[i]
    ensures SplitLines(JoinLines(ls)) == ls
  {
    if |ls| > 0 {
      var s := JoinLines(ls);
      NewlineAtJoin(ls[0], JoinLines(ls[1..]));
      assert s[..|ls[0]|] == ls[0];
      assert s[|ls[0]| + 1..] == JoinLines(ls[1..]);
      SplitJoin(ls[1..]);
    }
  }

  lemma DefaultLines()
    ensures SplitLines(DefaultSetup) == ["DDDKQDDD", "   RR   "]
  {
    SplitJoin(["DDDKQDDD", "   RR   "]);
    assert JoinLines(["DDDKQDDD", "   RR   "]) == DefaultSetup;
  }

  // ---------------------------------------------------------------------
  // Placement
  // ---------------------------------------------------------------------

  /** A piece to be created: its kind, colour and square. */
  datatype Spot = Spot(kind: Kind, color: Color, loc: Loc)

  /** Board.piece_names: the letters that stand for pieces. */
  predicate IsPieceLetter(ch: char) {
    ch == 'K' || ch == 'Q' || ch == 'R' || ch == 'D'
  }

  function KindOf(ch: char): Kind
    requires IsPieceLetter(ch)
  {
    if ch == 'K' then King else if ch == 'Q' then Queen else if ch == 'R' then Rook else Dice
  }

  /** The rank of line r: 7 * color + (+1 for Black, -1 for White) * r. */
  function RankOf(c: Color, r: int): int {
    if c == Black then r else 7 - r
  }

  function Reverse(s: string): (t: string)
    ensures |t| == |s|
    ensures forall i :: 0 <= i < |s| ==> t[i] == s[|s| - 1 - i]
  {
    if |s| == 0 then "" else Reverse(s[1..]) + [s[0]]
  }

  /** A line as side c reads it: reversed for White. */
  function Oriented(line: string, c: Color): (t: string)
    ensures |t| == |line|
  {
    if c == White then Reverse(line) else line
  }

  /** The pieces of one line, file by file from file f on. */
  function PlaceRank(row: string, c: Color, y: int, f: nat): seq<Spot>
    requires f <= |row|
    decreases |row| - f
  {
    if f == |row| then []
    else
      (if IsPieceLetter(row[f]) then [Spot(KindOf(row[f]), c, Loc(f, y))] else [])
        + PlaceRank(row, c, y, f + 1)
  }

  /** The pieces of side c, line by line from line r on. */
  function PlaceLines(ls: seq<string>, c: Color, r: nat): seq<Spot>
    requires r <= |ls|
    decreases |ls| - r
  {
    if r == |ls| then [] else PlaceRank(Oriented(ls[r], c), c, RankOf(c, r), 0) + PlaceLines(ls, c, r + 1)
  }

  /** The placement of Board.reset: all of Black's pieces, then all of White's. */
  function Placement(setup: string): seq<Spot> {
    var ls := SplitLines(setup);
    PlaceLines(ls, Black, 0) + PlaceLines(ls, White, 0)
  }

  /** The square (x, y) of a line's letters gets a piece exactly when its letter names one. */
  lemma {:induction false} PlaceRankSpots(row: string, c: Color, y: int, f: nat, s: Spot)
    requires f <= |row|
    ensures s in PlaceRank(row, c, y, f) <==>
      && s.color == c && s.loc.y == y && f <= s.loc.x < |row|
      && IsPieceLetter(row[s.loc.x]) && KindOf(row[s.loc.x]) == s.kind
    decreases |row| - f
  {
    if f < |row| {
      PlaceRankSpots(row, c, y, f + 1, s);
    }
  }

  /** Line r, as side c reads it, has the letter of s.kind at file s.loc.x and puts it on rank s.loc.y. */
  predicate LineHas(ls: seq<string>, c: Color, r: int, s: Spot)
    requires 0 <= r < |ls|
  {
    && s.color == c && s.loc.y == RankOf(c, r) && 0 <= s.loc.x < |ls[r]|
    && IsPieceLetter(Oriented(ls[r], c)[s.loc.x]) && KindOf(Oriented(ls[r], c)[s.loc.x]) == s.kind
  }

  lemma {:induction false} PlaceLinesSpots(ls: seq<string>, c: Color, r0: nat, s: Spot)
    requires r0 <= |ls|
    ensures s in PlaceLines(ls, c, r0) <==> exists r :: r0 <= r < |ls| && LineHas(ls, c, r, s)
    decreases |ls| - r0
  {
    if r0 < |ls| {
      PlaceRankSpots(Oriented(ls[r0], c), c, RankOf(c, r0), 0, s);
      assert s in PlaceRank(Oriented(ls[r0], c), c, RankOf(c, r0), 0) <==> LineHas(ls, c, r0, s);
      PlaceLinesSpots(ls, c, r0 + 1, s);
      if exists r :: r0 <= r < |ls| && LineHas(ls, c, r, s) {
        var r :| r0 <= r < |ls| && LineHas(ls, c, r, s);
        assert r == r0 || (r0 + 1 <= r < |ls| && LineHas(ls, c, r, s));
      }
    }
  }

  /** Side c's lines only place pieces of colour c. */
  lemma PlaceLinesColor(ls: seq<string>, c: Color, s: Spot)
    requires s in PlaceLines(ls, c, 0)
    ensures s.color == c && exists r :: 0 <= r < |ls| && LineHas(ls, c, r, s)
  {
    PlaceLinesSpots(ls, c, 0, s);
  }

  /** On an eight-character line White's letter at file x is Black's letter at file 7 - x. */
  lemma MirrorLineHas(ls: seq<string>, r: nat, k: Kind, x: int, y: int)
    requires r < |ls| && |ls[r]| == 8
    ensures LineHas(ls, White, r, Spot(k, White, Loc(x, y))) <==> LineHas(ls, Black, r, Spot(k, Black, Loc(7 - x, 7 - y)))
  {
    if 0 <= x < 8 {
      assert Oriented(ls[r], White)[x] == Oriented(ls[r], Black)[7 - x];
    }
  }

  /** A spot that side c's line r puts down is placed. */
  lemma LinePlaced(setup: string, c: Color, r: nat, s: Spot)
    requires r < |SplitLines(setup)| && LineHas(SplitLines(setup), c, r, s)
    ensures s in Placement(setup)
  {
    var ls := SplitLines(setup);
    PlaceLinesSpots(ls, c, 0, s);
    assert s in PlaceLines(ls, c, 0);
    assert Placement(setup) == PlaceLines(ls, Black, 0) + PlaceLines(ls, White, 0);
  }

  /** A placed spot of colour c comes from one of side c's lines. */
  lemma PlacedLine(setup: string, s: Spot) returns (r: nat)
    requires s in Placement(setup)
    ensures r < |SplitLines(setup)| && LineHas(SplitLines(setup), s.color, r, s)
  {
    var ls := SplitLines(setup);
    assert Placement(setup) == PlaceLines(ls, Black, 0) + PlaceLines(ls, White, 0);
    var c := if s in PlaceLines(ls, Black, 0) then Black else White;
    PlaceLinesColor(ls, c, s);
    r :| 0 <= r < |ls| && LineHas(ls, c, r, s);
  }

  /**
   * The two sides are point mirrors of each other when every line is eight
   * characters long: White has a piece of kind k on (x, y) exactly when Black
   * has one on (7 - x, 7 - y).
   */
  lemma PlacementMirrored(setup: string, k: Kind, x: int, y: int)
    requires forall i :: 0 <= i < |SplitLines(setup)| ==> |SplitLines(setup)[i]| == 8
    ensures Spot(k, White, Loc(x, y)) in Placement(setup) <==> Spot(k, Black, Loc(7 - x, 7 - y)) in Placement(setup)
  {
    var ls := SplitLines(setup);
    var w, b := Spot(k, White, Loc(x, y)), Spot(k, Black, Loc(7 - x, 7 - y));
    if w in Placement(setup) {
      var r := PlacedLine(setup, w);
      MirrorLineHas(ls, r, k, x, y);
      LinePlaced(setup, Black, r, b);
    }
    if b in Placement(setup) {
      var r := PlacedLine(setup, b);
      MirrorLineHas(ls, r, k, x, y);
      LinePlaced(setup, White, r, w);
    }
  }

  /** The pieces of the shipped setup, in placement order: Black's, then White's. */
  const DefaultSpots: seq<Spot> := BlackSpots + WhiteSpots

  const BlackSpots: seq<Spot> := [
    Spot(Dice, Black, Loc(0, 0)), Spot(Dice, Black, Loc(1, 0)), Spot(Dice, Black, Loc(2, 0)),
    Spot(King, Black, Loc(3, 0)), Spot(Queen, Black, Loc(4, 0)), Spot(Dice, Black, Loc(5, 0)),
    Spot(Dice, Black, Loc(6, 0)), Spot(Dice, Black, Loc(7, 0)),
    Spot(Rook, Black, Loc(3, 1)), Spot(Rook, Black, Loc(4, 1))]

  const WhiteSpots: seq<Spot> := [
    Spot(Dice, White, Loc(0, 7)), Spot(Dice, White, Loc(1, 7)), Spot(Dice, White, Loc(2, 7)),
    Spot(Queen, White, Loc(3, 7)), Spot(King, White, Loc(4, 7)), Spot(Dice, White, Loc(5, 7)),
    Spot(Dice, White, Loc(6, 7)), Spot(Dice, White, Loc(7, 7)),
    Spot(Rook, White, Loc(3, 6)), Spot(Rook, White, Loc(4, 6))]

  lemma DefaultBlackSide()
    ensures PlaceLines(["DDDKQDDD", "   RR   "], Black, 0) == BlackSpots
  {
  }

  lemma ReverseDefaultLines()
    ensures Reverse("DDDKQDDD") == "DDDQKDDD"
    ensures Reverse("   RR   ") == "   RR   "
  {
    ReverseIs("DDDKQDDD", "DDDQKDDD");
    ReverseIs("   RR   ", "   RR   ");
  }

  /** t is the reverse of s when it holds s's characters back to front. */
  lemma ReverseIs(s: string, t: string)
    requires |t| == |s| && forall i :: 0 <= i < |s| ==> t[i] == s[|s| - 1 - i]
    ensures Reverse(s) == t
  {
  }

  lemma DefaultWhiteRanks()
    ensures PlaceRank("DDDQKDDD", White, 7, 0) ==
      [Spot(Dice, White, Loc(0, 7)), Spot(Dice, White, Loc(1, 7)), Spot(Dice, White, Loc(2, 7)),
       Spot(Queen, White, Loc(3, 7)), Spot(King, White, Loc(4, 7)), Spot(Dice, White, Loc(5, 7)),
       Spot(Dice, White, Loc(6, 7)), Spot(Dice, White, Loc(7, 7))]
    ensures PlaceRank("   RR   ", White, 6, 0) == [Spot(Rook, White, Loc(3, 6)), Spot(Rook, White, Loc(4, 6))]
  {
  }

  lemma DefaultWhiteSide()
    ensures PlaceLines(["DDDKQDDD", "   RR   "], White, 0) == WhiteSpots
  {
    var ls := ["DDDKQDDD", "   RR   "];
    ReverseDefaultLines();
    DefaultWhiteRanks();
    var r0, r1 := PlaceRank("DDDQKDDD", White, 7, 0), PlaceRank("   RR   ", White, 6, 0);
    assert PlaceLines(ls, White, 2) == [];
    assert PlaceLines(ls, White, 1) == r1;
    assert PlaceLines(ls, White, 0) == r0 + r1;
  }

  /** The twenty squares of the shipped setup, in placement order. */
  const DefaultSquares: seq<Loc> := [
    Loc(0, 0), Loc(1, 0), Loc(2, 0), Loc(3, 0), Loc(4, 0), Loc(5, 0), Loc(6, 0), Loc(7, 0), Loc(3, 1), Loc(4, 1),
    Loc(0, 7), Loc(1, 7), Loc(2, 7), Loc(3, 7), Loc(4, 7), Loc(5, 7), Loc(6, 7), Loc(7, 7), Loc(3, 6), Loc(4, 6)]

  lemma DefaultSquaresDistinct()
    ensures forall i, j :: 0 <= i < j < |DefaultSquares| ==> DefaultSquares[i] != DefaultSquares[j]
  {
    forall i, j | 0 <= i < j < |DefaultSquares| ensures DefaultSquares[i] != DefaultSquares[j] {
      var a, b := DefaultSquares[i], DefaultSquares[j];
      assert i < 10 ==> a.y <= 1;
      assert i >= 10 ==> a.y >= 6;
      assert j < 10 ==> b.y <= 1;
      assert j >= 10 ==> b.y >= 6;
    }
  }

  lemma PlacementOfLines(setup: string, ls: seq<string>, b: seq<Spot>, w: seq<Spot>)
    requires SplitLines(setup) == ls
    requires PlaceLines(ls, Black, 0) == b && PlaceLines(ls, White, 0) == w
    ensures Placement(setup) == b + w
  {
  }

  /**
   * The shipped setup: twenty pieces on distinct squares of the board, Black's
   * King on D1 and Queen on E1, White's Queen on D8 and King on E8, the Rooks
   * in front of them.
   */
  lemma DefaultSpotsFacts()
    ensures var ps := DefaultSpots;
      && |ps| == 20
      && ps[3] == Spot(King, Black, Loc(3, 0)) && ps[4] == Spot(Queen, Black, Loc(4, 0))
      && ps[8] == Spot(Rook, Black, Loc(3, 1)) && ps[9] == Spot(Rook, Black, Loc(4, 1))
      && ps[13] == Spot(Queen, White, Loc(3, 7)) && ps[14] == Spot(King, White, Loc(4, 7))
      && ps[18] == Spot(Rook, White, Loc(3, 6)) && ps[19] == Spot(Rook, White, Loc(4, 6))
      && (forall i :: 0 <= i < 20 ==> InBounds(ps[i].loc))
      && (forall i, j :: 0 <= i < j < 20 ==> ps[i].loc != ps[j].loc)
  {
    assert forall i :: 0 <= i < 20 ==> DefaultSpots[i].loc == DefaultSquares[i] && InBounds(DefaultSquares[i]);
    DefaultSquaresDistinct();
  }

  /** Board.reset on the shipped setup places exactly these pieces. */
  lemma DefaultPlacement()
    ensures Placement(DefaultSetup) == DefaultSpots
  {
    DefaultLines();
    DefaultBlackSide();
    DefaultWhiteSide();
    PlacementOfLines(DefaultSetup, ["DDDKQDDD", "   RR   "], BlackSpots, WhiteSpots);
  }
}
