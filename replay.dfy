/**
 * Board.go: an instruction chain replayed as one move operator call per leg,
 * on the piece found on the chain's first square.
 */
module Replay {
  import opened Wrappers
  import opened Geometry
  import opened Die
  import opened Rules
  import opened Turn
  import opened Chain

  /** What go leaves: the game, the last winner a move reported, and whether an exception stopped it. */
  datatype Run = Run(game: Game, winner: Option<Color>, raised: bool)

  /**
   * RDC_OT_move_piece.execute on the selected piece: CANCELLED, changing
   * nothing, unless poll_action passes from the piece's own square.
   */
  function Execute(g: Game, id: nat, a: Action, doFlip: bool): (r: Outcome)
    requires id < |g.pieces| && (g.prev.Some? ==> g.prev.value < |g.pieces|)
    ensures |r.game.pieces| == |g.pieces| && (r.game.prev.Some? ==> r.game.prev.value < |g.pieces|)
    ensures !PollAction(g, id, g.pieces[id].loc, a) ==> r == Outcome(g, None)
  {
    if PollAction(g, id, g.pieces[id].loc, a) then
      PollActionSound(g, id, g.pieces[id].loc, a);
      Step(g, id, a, doFlip)
    else Outcome(g, None)
  }

  /**
   * The legs of go from token i on: decode the token (ValueError), name the
   * delta from the previous token (IndexError, and NONE, which the operator's
   * action list does not hold), then call the operator. A refused call does
   * not stop the loop.
   */
  function GoLegs(g: Game, obj: nat, ts: seq<string>, i: nat, doFlip: bool, winner: Option<Color>): (r: Run)
    requires obj < |g.pieces| && (g.prev.Some? ==> g.prev.value < |g.pieces|)
    requires 1 <= i <= |ts|
    ensures |r.game.pieces| == |g.pieces|
    decreases |ts| - i
  {
    if i == |ts| then Run(g, winner, false)
    else if AlgebraicToLoc(ts[i]).Failure? then Run(g, winner, true)
    else
      match DeltaToAction(g.pieces[obj].color, Sub(SquareOf(ts[i - 1]), SquareOf(ts[i])))
      case None => Run(g, winner, true)
      case Some(a) =>
        if a == NoMove then Run(g, winner, true)
        else
          var r := Execute(g, obj, a, doFlip);
          GoLegs(r.game, obj, ts, i + 1, doFlip, if r.winner.Some? then r.winner else winner)
  }

  /**
   * Board.go on any text: nothing happens for an empty text; a first token
   * that does not decode raises ValueError, and one with no piece on its
   * square raises when the missing object is selected.
   */
  function Go(g: Game, text: string, doFlip: bool): (r: Run)
    requires g.prev.Some? ==> g.prev.value < |g.pieces|
    ensures |r.game.pieces| == |g.pieces|
    ensures |Clean(text)| == 0 ==> r == Run(g, None, false)
    ensures var ts := Tokens(Clean(text));
      |ts| > 0 && (AlgebraicToLoc(ts[0]).Failure? || ChainPiece(g, ts).None?) ==> r == Run(g, None, true)
  {
    var ts := Tokens(Clean(text));
    if |ts| == 0 then Run(g, None, false)
    else if AlgebraicToLoc(ts[0]).Failure? then Run(g, None, true)
    else
      match ChainPiece(g, ts)
      case None => Run(g, None, true)
      case Some(obj) => GoLegs(g, obj, ts, 1, doFlip, None)
  }

  /** Once the first token finds a piece, go is the leg loop for that piece. */
  lemma GoFromPiece(g: Game, text: string, doFlip: bool)
    requires g.prev.Some? ==> g.prev.value < |g.pieces|
    requires var ts := Tokens(Clean(text)); |ts| > 0 && AlgebraicToLoc(ts[0]).Success? && ChainPiece(g, ts).Some?
    ensures var ts := Tokens(Clean(text)); Go(g, text, doFlip) == GoLegs(g, ChainPiece(g, ts).value, ts, 1, doFlip, None)
  {
  }

  /**
   * A text of odd length always raises: go stops at an earlier token, or it
   * reaches the last, one-character token, which does not decode.
   */
  lemma OddTextRaises(g: Game, text: string, doFlip: bool)
    requires g.prev.Some? ==> g.prev.value < |g.pieces|
    requires |Clean(text)| % 2 == 1
    ensures Go(g, text, doFlip).raised
  {
    var ts := Tokens(Clean(text));
    assert AlgebraicToLoc(ts[|ts| - 1]).Failure?;
    if AlgebraicToLoc(ts[0]).Success? && ChainPiece(g, ts).Some? {
      GoFromPiece(g, text, doFlip);
      LastTokenRaises(g, ChainPiece(g, ts).value, ts, 1, doFlip, None);
    }
  }

  /** When the last token does not decode, the leg loop raises, whatever the legs before it do. */
  lemma {:induction false} LastTokenRaises(g: Game, obj: nat, ts: seq<string>, i: nat, doFlip: bool, winner: Option<Color>)
    requires obj < |g.pieces| && (g.prev.Some? ==> g.prev.value < |g.pieces|)
    requires 1 <= i < |ts| && AlgebraicToLoc(ts[|ts| - 1]).Failure?
    ensures GoLegs(g, obj, ts, i, doFlip, winner).raised
    decreases |ts| - i
  {
    if AlgebraicToLoc(ts[i]).Success? {
      var d := DeltaToAction(g.pieces[obj].color, Sub(SquareOf(ts[i - 1]), SquareOf(ts[i])));
      if d.Some? && d.value != NoMove {
        var r := Execute(g, obj, d.value, doFlip);
        LastTokenRaises(r.game, obj, ts, i + 1, doFlip, if r.winner.Some? then r.winner else winner);
        GoLegsNext(g, obj, ts, i, doFlip, winner, d.value);
      }
    }
  }

  /** The operator keeps a valid game valid, whether it moves or cancels. */
  lemma ExecutePreservesValid(g: Game, id: nat, a: Action, doFlip: bool)
    requires ValidGame(g) && id < |g.pieces|
    ensures ValidGame(Execute(g, id, a, doFlip).game)
  {
    if PollAction(g, id, g.pieces[id].loc, a) {
      PollActionSound(g, id, g.pieces[id].loc, a);
      StepPreservesValid(g, id, a, doFlip);
    }
  }

  /** A leg that decodes to an operator action runs the operator and goes on with the next token. */
  lemma GoLegsNext(g: Game, obj: nat, ts: seq<string>, i: nat, doFlip: bool, winner: Option<Color>, a: Action)
    requires obj < |g.pieces| && (g.prev.Some? ==> g.prev.value < |g.pieces|)
    requires 1 <= i < |ts| && AlgebraicToLoc(ts[i]).Success?
    requires DeltaToAction(g.pieces[obj].color, Sub(SquareOf(ts[i - 1]), SquareOf(ts[i]))) == Some(a) && a != NoMove
    ensures var r := Execute(g, obj, a, doFlip);
      GoLegs(g, obj, ts, i, doFlip, winner) == GoLegs(r.game, obj, ts, i + 1, doFlip, if r.winner.Some? then r.winner else winner)
  {
  }

  // ---------------------------------------------------------------------
  // What an accepted chain guarantees
  // ---------------------------------------------------------------------

  /** The squares a chain names. */
  function Squares(ts: seq<string>): (ls: seq<Loc>)
    ensures |ls| == |ts| && forall i :: 0 <= i < |ts| ==> ls[i] == SquareOf(ts[i])
  {
    if |ts| == 0 then [] else [SquareOf(ts[0])] + Squares(ts[1..])
  }

  /** What the corrected poll_instr establishes about the tokens ts and the piece obj. */
  predicate Accepts(g: Game, ts: seq<string>, obj: nat) {
    && |ts| >= 2 && obj < |g.pieces| && (g.prev.Some? ==> g.prev.value < |g.pieces|)
    && (forall i :: 0 <= i < |ts| ==> InBounds(SquareOf(ts[i])))
    && (forall i, j :: 0 <= i < |ts| && 0 <= j < |ts| && i != j ==> SquareOf(ts[i]) != SquareOf(ts[j]))
    && g.pieces[obj].loc == SquareOf(ts[0]) && g.pieces[obj].value == |ts| - 1
    && LegsOkFrom(g, ts, obj, 1, true)
  }

  lemma AcceptedChain(g: Game, text: string)
    requires ValidGame(g) && ChainOk(g, text, true)
    ensures var ts := Tokens(Clean(text));
      AlgebraicToLoc(ts[0]).Success? && Accepts(g, ts, ChainPiece(g, ts).value)
  {
    PollAcceptsExactly(g, text, true);
    AcceptedSquaresDistinct(g, text);
    var ts := Tokens(Clean(text));
    assert WellFormedPiece(g.pieces[ChainPiece(g, ts).value]);
  }

  /** Leg k of an accepted chain: its token decodes, and its action is a real step that lands on the token and passes poll_action in g. */
  lemma LegFacts(g: Game, ts: seq<string>, obj: nat, k: nat)
    requires Accepts(g, ts, obj) && 1 <= k < |ts|
    ensures var c, from, to := g.pieces[obj].color, SquareOf(ts[k - 1]), SquareOf(ts[k]);
      var a := DeltaToAction(c, Sub(from, to));
      && AlgebraicToLoc(ts[k]).Success?
      && a.Some? && a.value != NoMove
      && Add(from, ActionToDelta(c, a.value)) == to
      && PollAction(g, obj, from, a.value)
  {
    var c, from, to := g.pieces[obj].color, SquareOf(ts[k - 1]), SquareOf(ts[k]);
    assert LegOkAt(g, ts, obj, k, true);
    LegLands(c, from, to);
  }

  /** A step between two different neighbouring squares is named by a real move that lands there. */
  lemma LegLands(c: Color, from: Loc, to: Loc)
    requires Adjacent(from, to) && from != to
    ensures var a := DeltaToAction(c, Sub(from, to));
      a.Some? && a.value != NoMove && Add(from, ActionToDelta(c, a.value)) == to
  {
    UnitDeltaDecodes(c, Sub(from, to));
  }

  /**
   * The state of go after k legs of a multi-leg Dice chain: the die stands on
   * square k, has counted down k, has keyed the first k+1 squares, is the
   * previous piece once it has moved, and nothing else has changed.
   */
  predicate Midway(g: Game, s: Game, obj: nat, ts: seq<string>, k: nat)
    requires obj < |g.pieces|
  {
    && k < |ts| && |s.pieces| == |g.pieces|
    && s.prev == (if k == 0 then g.prev else Some(obj))
    && (forall j :: 0 <= j < |g.pieces| && j != obj ==> s.pieces[j] == g.pieces[j])
    && var p, q := g.pieces[obj], s.pieces[obj];
    && q.kind == p.kind && q.color == p.color && q.loc == SquareOf(ts[k])
    && q.start == p.start && q.counter == p.start - k
    && q.path == Squares(ts)[..k + 1]
  }

  /** A die at rest whose chain was accepted. */
  predicate AtRest(p: Piece) {
    p.counter == p.start == p.value && p.path == [p.loc]
  }

  /** The next leg passes poll_action in the state go has reached, as it did in the state poll_instr saw. */
  lemma LegPollsAgain(g: Game, s: Game, obj: nat, ts: seq<string>, k: nat)
    requires ValidGame(g) && Accepts(g, ts, obj) && |ts| > 2
    requires g.pieces[obj].kind == Dice && AtRest(g.pieces[obj])
    requires Midway(g, s, obj, ts, k) && k + 1 < |ts|
    requires s.prev.Some? ==> s.prev.value < |s.pieces|
    ensures var d := DeltaToAction(g.pieces[obj].color, Sub(SquareOf(ts[k]), SquareOf(ts[k + 1])));
      && d.Some?
      && PollAction(s, obj, s.pieces[obj].loc, d.value)
      && Occupant(s, obj, s.pieces[obj].loc, d.value) == None
      && Dest(s, obj, s.pieces[obj].loc, d.value) == SquareOf(ts[k + 1])
  {
    LegFacts(g, ts, obj, k + 1);
    var from, to := SquareOf(ts[k]), SquareOf(ts[k + 1]);
    var a := DeltaToAction(g.pieces[obj].color, Sub(from, to)).value;
    DiceRule(g, obj, from, a);
    FindAtUnchanged(g.pieces, s.pieces, to, obj);
    assert Occupant(s, obj, from, a) == None;
    assert Gate(s, obj);
    NotYetKeyed(g, s, obj, ts, k);
    DiceRule(s, obj, from, a);
  }

  /** Midway, the die has not yet keyed the square of the next token: the chain names distinct squares. */
  lemma NotYetKeyed(g: Game, s: Game, obj: nat, ts: seq<string>, k: nat)
    requires Accepts(g, ts, obj) && Midway(g, s, obj, ts, k) && k + 1 < |ts|
    ensures SquareOf(ts[k + 1]) !in s.pieces[obj].path
  {
    var to := SquareOf(ts[k + 1]);
    forall i | 0 <= i < k + 1
      ensures Squares(ts)[i] != to
    {
      assert Squares(ts)[i] == SquareOf(ts[i]);
    }
  }

  /** The action go takes from a Midway state: a straight move onto the next square, which is empty. */
  lemma MidwayAction(g: Game, s: Game, obj: nat, ts: seq<string>, k: nat) returns (a: Action)
    requires DieReplay(g, s, obj, ts, k)
    ensures MidwayMove(g, s, obj, ts, k, a)
  {
    LegFacts(g, ts, obj, k + 1);
    LegPollsAgain(g, s, obj, ts, k);
    a := DeltaToAction(g.pieces[obj].color, Sub(SquareOf(ts[k]), SquareOf(ts[k + 1]))).value;
    PollActionSound(s, obj, s.pieces[obj].loc, a);
  }

  /** Action a is the one go takes for leg k + 1: a straight move, allowed from s, onto the next square, which is empty. */
  predicate MidwayMove(g: Game, s: Game, obj: nat, ts: seq<string>, k: nat, a: Action)
    requires DieReplay(g, s, obj, ts, k)
  {
    && DeltaToAction(g.pieces[obj].color, Sub(SquareOf(ts[k]), SquareOf(ts[k + 1]))) == Some(a)
    && AlgebraicToLoc(ts[k + 1]).Success? && a != NoMove
    && PollAction(s, obj, s.pieces[obj].loc, a) && InMoveSet(s.pieces[obj].kind, a) && IsStraight(a)
    && Dest(s, obj, s.pieces[obj].loc, a) == SquareOf(ts[k + 1])
    && Occupant(s, obj, s.pieces[obj].loc, a) == None
  }

  /** A passing step onto an empty square keeps the game valid, reports no winner and changes only the mover. */
  lemma QuietStep(s: Game, obj: nat, a: Action, doFlip: bool)
    requires ValidGame(s) && obj < |s.pieces|
    requires PollAction(s, obj, s.pieces[obj].loc, a) && Occupant(s, obj, s.pieces[obj].loc, a) == None
    ensures InMoveSet(s.pieces[obj].kind, a)
    ensures var r := Step(s, obj, a, doFlip);
      && |r.game.pieces| == |s.pieces| && ValidGame(r.game) && r.winner == None && r.game.prev == Some(obj)
      && forall j :: 0 <= j < |s.pieces| && j != obj ==> r.game.pieces[j] == s.pieces[j]
  {
    PollActionSound(s, obj, s.pieces[obj].loc, a);
    assert Taken(s, obj, a) == None;
    StepOthers(s, obj, a, doFlip);
    StepPrevAndWinner(s, obj, a, doFlip);
    StepPreservesValid(s, obj, a, doFlip);
  }

  /** A step from a Midway state that is not the last leaves the die Midway one leg further. */
  lemma MidwayNext(g: Game, s: Game, obj: nat, ts: seq<string>, k: nat, a: Action, doFlip: bool)
    requires obj < |g.pieces| && Midway(g, s, obj, ts, k) && k + 2 < |ts|
    requires g.pieces[obj].kind == Dice && g.pieces[obj].start == |ts| - 1
    requires IsStraight(a) && Dest(s, obj, s.pieces[obj].loc, a) == SquareOf(ts[k + 1])
    requires var r := Step(s, obj, a, doFlip);
      && r.game.prev == Some(obj) && |r.game.pieces| == |s.pieces|
      && forall j :: 0 <= j < |s.pieces| && j != obj ==> r.game.pieces[j] == s.pieces[j]
    ensures Midway(g, Step(s, obj, a, doFlip).game, obj, ts, k + 1)
  {
    StepDieMidway(s, obj, a, doFlip);
    SquaresPrefix(ts, k);
  }

  lemma SquaresPrefix(ts: seq<string>, k: nat)
    requires k + 1 < |ts|
    ensures Squares(ts)[..k + 1] + [SquareOf(ts[k + 1])] == Squares(ts)[..k + 2]
  {
    var sq := Squares(ts);
    assert sq[k + 1] == SquareOf(ts[k + 1]);
    assert sq[..k + 2] == sq[..k + 1] + [sq[k + 1]];
  }

  /**
   * How go ends a Dice chain begun in g: nothing raised, the winner unchanged,
   * the die on the last square with its activation over, and every other
   * piece as it was.
   */
  predicate DieChainDone(g: Game, r: Run, obj: nat, ts: seq<string>, w: Option<Color>)
    requires obj < |g.pieces| && |r.game.pieces| == |g.pieces| && |ts| > 0
  {
    && !r.raised && r.winner == w
    && r.game.pieces[obj].loc == SquareOf(ts[|ts| - 1])
    && r.game.pieces[obj].counter == r.game.pieces[obj].start
    && forall j :: 0 <= j < |g.pieces| && j != obj ==> r.game.pieces[j] == g.pieces[j]
  }

  /** go has replayed the legs of an accepted multi-leg Dice chain up to token k, and leg k + 1 is next. */
  predicate DieReplay(g: Game, s: Game, obj: nat, ts: seq<string>, k: nat) {
    && ValidGame(g) && Accepts(g, ts, obj) && |ts| > 2
    && g.pieces[obj].kind == Dice && AtRest(g.pieces[obj])
    && ValidGame(s) && Midway(g, s, obj, ts, k) && k + 1 < |ts|
  }

  /** By induction on the legs left: go carries a multi-leg Dice chain through to its last square. */
  lemma {:induction false} GoDieLegs(g: Game, s: Game, obj: nat, ts: seq<string>, k: nat, doFlip: bool, w: Option<Color>)
    requires DieReplay(g, s, obj, ts, k)
    ensures DieChainDone(g, GoLegs(s, obj, ts, k + 1, doFlip, w), obj, ts, w)
    decreases |ts| - k
  {
    var s2 := GoDieStep(g, s, obj, ts, k, doFlip, w);
    if k + 2 < |ts| {
      GoDieLegs(g, s2, obj, ts, k + 1, doFlip, w);
    }
    GoDieCarry(g, s, s2, obj, ts, k, doFlip, w);
  }

  /** The outcome of go from s is that from s2, once the leg between them is made. */
  lemma GoDieCarry(g: Game, s: Game, s2: Game, obj: nat, ts: seq<string>, k: nat, doFlip: bool, w: Option<Color>)
    requires obj < |g.pieces| && |s.pieces| == |g.pieces| && |s2.pieces| == |g.pieces| && k + 1 < |ts|
    requires (s.prev.Some? ==> s.prev.value < |s.pieces|) && (s2.prev.Some? ==> s2.prev.value < |s2.pieces|)
    requires GoLegs(s, obj, ts, k + 1, doFlip, w) == GoLegs(s2, obj, ts, k + 2, doFlip, w)
    requires DieChainDone(g, GoLegs(s2, obj, ts, k + 2, doFlip, w), obj, ts, w)
    ensures DieChainDone(g, GoLegs(s, obj, ts, k + 1, doFlip, w), obj, ts, w)
  {
  }

  /** One leg of go from a Midway state, as the operator call it makes. */
  lemma GoDieStep(g: Game, s: Game, obj: nat, ts: seq<string>, k: nat, doFlip: bool, w: Option<Color>) returns (s2: Game)
    requires DieReplay(g, s, obj, ts, k)
    ensures |s2.pieces| == |g.pieces| && ValidGame(s2)
    ensures GoLegs(s, obj, ts, k + 1, doFlip, w) == GoLegs(s2, obj, ts, k + 2, doFlip, w)
    ensures k + 2 < |ts| ==> DieReplay(g, s2, obj, ts, k + 1)
    ensures k + 2 == |ts| ==> DieChainDone(g, GoLegs(s2, obj, ts, k + 2, doFlip, w), obj, ts, w)
  {
    var a := MidwayAction(g, s, obj, ts, k);
    s2 := Step(s, obj, a, doFlip).game;
    LegQuiet(g, s, obj, ts, k, doFlip, a);
    LegCarried(g, s, obj, ts, k, doFlip, w, a);
    if k + 2 < |ts| {
      LegMidway(g, s, obj, ts, k, doFlip, a);
    } else {
      LegLast(g, s, obj, ts, k, doFlip, w, a);
    }
  }

  /** The move of a leg keeps the game valid, takes nothing and makes the die the previous piece. */
  lemma LegQuiet(g: Game, s: Game, obj: nat, ts: seq<string>, k: nat, doFlip: bool, a: Action)
    requires DieReplay(g, s, obj, ts, k) && MidwayMove(g, s, obj, ts, k, a)
    ensures var r := Step(s, obj, a, doFlip);
      && |r.game.pieces| == |s.pieces| == |g.pieces| && ValidGame(r.game) && r.winner == None
      && r.game.prev == Some(obj)
      && forall j :: 0 <= j < |s.pieces| && j != obj ==> r.game.pieces[j] == s.pieces[j]
  {
    QuietStep(s, obj, a, doFlip);
  }

  /** go from s at leg k + 1 is go from the moved state at leg k + 2. */
  lemma LegCarried(g: Game, s: Game, obj: nat, ts: seq<string>, k: nat, doFlip: bool, w: Option<Color>, a: Action)
    requires DieReplay(g, s, obj, ts, k) && MidwayMove(g, s, obj, ts, k, a)
    ensures GoLegs(s, obj, ts, k + 1, doFlip, w) == GoLegs(Step(s, obj, a, doFlip).game, obj, ts, k + 2, doFlip, w)
  {
    QuietStep(s, obj, a, doFlip);
    GoLegsQuiet(s, obj, ts, k + 1, doFlip, w, a);
  }

  /** A leg before the last leaves the replay one leg further on. */
  lemma LegMidway(g: Game, s: Game, obj: nat, ts: seq<string>, k: nat, doFlip: bool, a: Action)
    requires DieReplay(g, s, obj, ts, k) && MidwayMove(g, s, obj, ts, k, a) && k + 2 < |ts|
    ensures DieReplay(g, Step(s, obj, a, doFlip).game, obj, ts, k + 1)
  {
    QuietStep(s, obj, a, doFlip);
    MidwayNext(g, s, obj, ts, k, a, doFlip);
    DieReplayNext(g, s, Step(s, obj, a, doFlip).game, obj, ts, k);
  }

  /** After the last leg the chain is done. */
  lemma LegLast(g: Game, s: Game, obj: nat, ts: seq<string>, k: nat, doFlip: bool, w: Option<Color>, a: Action)
    requires DieReplay(g, s, obj, ts, k) && MidwayMove(g, s, obj, ts, k, a) && k + 2 == |ts|
    ensures |Step(s, obj, a, doFlip).game.pieces| == |g.pieces|
    ensures DieChainDone(g, GoLegs(Step(s, obj, a, doFlip).game, obj, ts, k + 2, doFlip, w), obj, ts, w)
  {
    QuietStep(s, obj, a, doFlip);
    StepDieLast(s, obj, a, doFlip);
    GoLegsDone(Step(s, obj, a, doFlip).game, obj, ts, doFlip, w);
  }

  /** A valid state Midway one leg further continues the replay. */
  lemma DieReplayNext(g: Game, s: Game, s2: Game, obj: nat, ts: seq<string>, k: nat)
    requires DieReplay(g, s, obj, ts, k) && k + 2 < |ts|
    requires ValidGame(s2) && Midway(g, s2, obj, ts, k + 1)
    ensures DieReplay(g, s2, obj, ts, k + 1)
  {
  }

  /** The last leg: go makes the move and the chain is done. */
  lemma GoDieLast(g: Game, s: Game, obj: nat, ts: seq<string>, k: nat, doFlip: bool, w: Option<Color>, a: Action)
    requires DieReplay(g, s, obj, ts, k) && MidwayMove(g, s, obj, ts, k, a) && k + 2 == |ts|
    ensures var s2 := Step(s, obj, a, doFlip).game;
      && |s2.pieces| == |g.pieces| && ValidGame(s2)
      && GoLegs(s, obj, ts, k + 1, doFlip, w) == GoLegs(s2, obj, ts, k + 2, doFlip, w)
      && DieChainDone(g, GoLegs(s2, obj, ts, k + 2, doFlip, w), obj, ts, w)
  {
    QuietStep(s, obj, a, doFlip);
    GoLegsQuiet(s, obj, ts, k + 1, doFlip, w, a);
    StepDieLast(s, obj, a, doFlip);
    GoLegsDone(Step(s, obj, a, doFlip).game, obj, ts, doFlip, w);
  }

  /** A leg whose operator call passes and takes no King runs the step and goes on with the same winner. */
  lemma GoLegsQuiet(g: Game, obj: nat, ts: seq<string>, i: nat, doFlip: bool, w: Option<Color>, a: Action)
    requires obj < |g.pieces| && (g.prev.Some? ==> g.prev.value < |g.pieces|)
    requires 1 <= i < |ts| && AlgebraicToLoc(ts[i]).Success?
    requires DeltaToAction(g.pieces[obj].color, Sub(SquareOf(ts[i - 1]), SquareOf(ts[i]))) == Some(a) && a != NoMove
    requires PollAction(g, obj, g.pieces[obj].loc, a) && InMoveSet(g.pieces[obj].kind, a)
    requires Step(g, obj, a, doFlip).winner == None
    ensures GoLegs(g, obj, ts, i, doFlip, w) == GoLegs(Step(g, obj, a, doFlip).game, obj, ts, i + 1, doFlip, w)
  {
    GoLegsNext(g, obj, ts, i, doFlip, w, a);
  }

  /** After the last token go stops without raising and keeps the winner it had. */
  lemma GoLegsDone(g: Game, obj: nat, ts: seq<string>, doFlip: bool, w: Option<Color>)
    requires obj < |g.pieces| && (g.prev.Some? ==> g.prev.value < |g.pieces|) && 1 <= |ts|
    ensures GoLegs(g, obj, ts, |ts|, doFlip, w) == Run(g, w, false)
  {
  }

  /** A single-leg chain: go makes the one move poll_instr approved, and the piece finishes on the second square. */
  lemma GoOneLeg(g: Game, obj: nat, ts: seq<string>, doFlip: bool)
    requires ValidGame(g) && Accepts(g, ts, obj) && |ts| == 2
    requires AtRest(g.pieces[obj])
    ensures var r := GoLegs(g, obj, ts, 1, doFlip, None);
      && !r.raised
      && r.game.pieces[obj].loc == SquareOf(ts[1])
      && r.game.pieces[obj].counter == r.game.pieces[obj].start
  {
    LegFacts(g, ts, obj, 1);
    var a := DeltaToAction(g.pieces[obj].color, Sub(SquareOf(ts[0]), SquareOf(ts[1]))).value;
    PollActionSound(g, obj, g.pieces[obj].loc, a);
    StepFinishes(g, obj, a, doFlip);
    if IsDie(g.pieces[obj].kind) {
      StepDieLast(g, obj, a, doFlip);
    } else {
      StepKingOrRook(g, obj, a, doFlip);
    }
  }

  /**
   * What poll_instr (corrected) promises go: for a piece at rest, every leg
   * of an accepted chain is carried out, none raises, and the piece ends its
   * activation on the last square. For a Dice chain of several legs nothing
   * else on the board changes.
   */
  lemma GoReplaysChain(g: Game, text: string, doFlip: bool)
    requires ValidGame(g) && ChainOk(g, text, true)
    requires var ts := Tokens(Clean(text)); var p := g.pieces[ChainPiece(g, ts).value];
      AtRest(p) && (|ts| > 2 ==> p.kind == Dice)
    ensures var ts, r := Tokens(Clean(text)), Go(g, text, doFlip);
      var obj := ChainPiece(g, ts).value;
      && !r.raised
      && r.game.pieces[obj].loc == SquareOf(ts[|ts| - 1])
      && r.game.pieces[obj].counter == r.game.pieces[obj].start
      && (|ts| > 2 ==> forall j :: 0 <= j < |g.pieces| && j != obj ==> r.game.pieces[j] == g.pieces[j])
  {
    AcceptedChain(g, text);
    var ts := Tokens(Clean(text));
    GoFromPiece(g, text, doFlip);
    ChainReplayed(g, ts, ChainPiece(g, ts).value, doFlip);
  }

  /** An accepted chain, replayed from a piece at rest, leaves the piece at rest on its last square. */
  lemma ChainReplayed(g: Game, ts: seq<string>, obj: nat, doFlip: bool)
    requires ValidGame(g) && Accepts(g, ts, obj) && AtRest(g.pieces[obj])
    requires |ts| > 2 ==> g.pieces[obj].kind == Dice
    ensures var r := GoLegs(g, obj, ts, 1, doFlip, None);
      && !r.raised
      && r.game.pieces[obj].loc == SquareOf(ts[|ts| - 1])
      && r.game.pieces[obj].counter == r.game.pieces[obj].start
      && (|ts| > 2 ==> forall j :: 0 <= j < |g.pieces| && j != obj ==> r.game.pieces[j] == g.pieces[j])
  {
    if |ts| == 2 {
      GoOneLeg(g, obj, ts, doFlip);
    } else {
      DieReplayStart(g, obj, ts);
      GoDieLegs(g, g, obj, ts, 0, doFlip, None);
    }
  }

  /** Before its first leg, the replay of an accepted multi-leg Dice chain is at token 0. */
  lemma DieReplayStart(g: Game, obj: nat, ts: seq<string>)
    requires ValidGame(g) && Accepts(g, ts, obj) && |ts| > 2
    requires g.pieces[obj].kind == Dice && AtRest(g.pieces[obj])
    ensures DieReplay(g, g, obj, ts, 0)
  {
    assert Squares(ts)[..1] == [SquareOf(ts[0])];
  }

}
