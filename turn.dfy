/**
 * One step of a piece as the engine performs it: move_start (translate, and
 * for a die roll and count down) followed by move_end (record the previous
 * piece, share, capture, flip, reset), and the capture that sends a piece to
 * its colour's holding row.
 */
module Turn {
  import opened Wrappers
  import opened Geometry
  import opened Die
  import opened Rules

  /** The game after a step, and the colour reported as winner when a King was taken. */
  datatype Outcome = Outcome(game: Game, winner: Option<Color>)

  // ---------------------------------------------------------------------
  // Holding rows (intersect_out)
  // ---------------------------------------------------------------------

  /** Captured White pieces go to rank 9, captured Black pieces to rank -2. */
  function HoldingRow(c: Color): (row: int)
    ensures row == 9 || row == -2
  {
    if c == White then 9 else -2
  }

  /** Some piece other than the one numbered id stands on (x, row). */
  predicate Held(ps: seq<Piece>, id: nat, row: int, x: int) {
    exists j :: 0 <= j < |ps| && j != id && ps[j].loc == Loc(x, row)
  }

  /** The other pieces on the row at file x or beyond: the measure of the search. */
  function OthersFrom(ps: seq<Piece>, id: nat, row: int, x: int): set<nat> {
    set j: nat | j < |ps| && j != id && ps[j].loc.y == row && ps[j].loc.x >= x
  }

  lemma OthersShrink(ps: seq<Piece>, id: nat, row: int, x: int)
    requires Held(ps, id, row, x)
    ensures |OthersFrom(ps, id, row, x + 1)| < |OthersFrom(ps, id, row, x)|
  {
    var j :| 0 <= j < |ps| && j != id && ps[j].loc == Loc(x, row);
    var a, b := OthersFrom(ps, id, row, x + 1), OthersFrom(ps, id, row, x);
    assert a <= b;
    assert j in b - a;
    assert b == a + (b - a);
  }

  /**
   * intersect_out: starting from file x, the first file of the row that no
   * other piece holds.
   */
  function HoldingX(ps: seq<Piece>, id: nat, row: int, x: nat): (r: nat)
    ensures x <= r && !Held(ps, id, row, r)
    ensures forall y :: x <= y < r ==> Held(ps, id, row, y)
    decreases |OthersFrom(ps, id, row, x)|
  {
    if Held(ps, id, row, x) then
      OthersShrink(ps, id, row, x);
      HoldingX(ps, id, row, x + 1)
    else
      x
  }

  /** The search only looks at where the other pieces stand. */
  lemma {:induction false} HoldingXSameLocs(ps: seq<Piece>, qs: seq<Piece>, id: nat, row: int, x: nat)
    requires |ps| == |qs|
    requires forall j :: 0 <= j < |ps| && j != id ==> ps[j].loc == qs[j].loc
    ensures HoldingX(ps, id, row, x) == HoldingX(qs, id, row, x)
    decreases |OthersFrom(ps, id, row, x)|
  {
    assert Held(ps, id, row, x) == Held(qs, id, row, x) by {
      if Held(ps, id, row, x) {
        var j :| 0 <= j < |ps| && j != id && ps[j].loc == Loc(x, row);
        assert qs[j].loc == Loc(x, row);
      }
      if Held(qs, id, row, x) {
        var j :| 0 <= j < |qs| && j != id && qs[j].loc == Loc(x, row);
        assert ps[j].loc == Loc(x, row);
      }
    }
    if Held(ps, id, row, x) {
      OthersShrink(ps, id, row, x);
      HoldingXSameLocs(ps, qs, id, row, x + 1);
    }
  }

  // ---------------------------------------------------------------------
  // Capture and the end of the game (Piece.capture, Board.end)
  // ---------------------------------------------------------------------

  /** A captured piece: everything kept, moved to its holding row at the first free file. */
  function SentOut(ps: seq<Piece>, c: nat): Piece
    requires c < |ps|
  {
    var row := HoldingRow(ps[c].color);
    ps[c].(loc := Loc(HoldingX(ps, c, row, 0), row))
  }

  /**
   * Piece.capture: the first other piece on the mover's square is sent to its
   * holding row at the first free file; taking a King reports the mover's
   * colour as winner and makes the King the previous piece.
   */
  function Capture(g: Game, id: nat): (r: Outcome)
    requires id < |g.pieces|
    ensures |r.game.pieces| == |g.pieces| && r.game.pieces[id] == g.pieces[id]
    ensures var t := FindAt(g.pieces, g.pieces[id].loc, id);
      && (forall j :: 0 <= j < |g.pieces| && t != Some(j) ==> r.game.pieces[j] == g.pieces[j])
      && (t.Some? ==> r.game.pieces[t.value] == SentOut(g.pieces, t.value))
      && (t.Some? && g.pieces[t.value].kind == King ==>
            r.game.prev == t && r.winner == Some(g.pieces[id].color))
      && (!(t.Some? && g.pieces[t.value].kind == King) ==> r.game.prev == g.prev && r.winner == None)
  {
    match FindAt(g.pieces, g.pieces[id].loc, id)
    case None => Outcome(g, None)
    case Some(c) =>
      var ps := g.pieces[c := SentOut(g.pieces, c)];
      if g.pieces[c].kind == King then Outcome(Game(ps, Some(c)), Some(g.pieces[id].color))
      else Outcome(Game(ps, g.prev), None)
  }

  // ---------------------------------------------------------------------
  // move_start and move_end
  // ---------------------------------------------------------------------

  /** The die after a quarter roll onto the square to, keyed there and counted down. */
  function Rolled(p: Piece, a: Action, to: Loc): Piece
    requires IsStraight(a)
  {
    var o := Roll(p.orient, p.color, a);
    p.(loc := to, orient := o, value := Value(o), counter := p.counter - 1, path := p.path + [to])
  }

  /**
   * Piece.move_start and Dice.move_start: translate by the action's delta; a
   * die also rolls a quarter turn, reads its new value, counts down by one and
   * keys the new square.
   */
  function StartStep(g: Game, id: nat, a: Action): (r: Game)
    requires id < |g.pieces| && InMoveSet(g.pieces[id].kind, a)
    ensures |r.pieces| == |g.pieces| && r.prev == g.prev
  {
    var p := g.pieces[id];
    var to := Add(p.loc, ActionToDelta(p.color, a));
    g.(pieces := g.pieces[id := if IsDie(p.kind) then Rolled(p, a, to) else p.(loc := to)])
  }

  /** The first lines of Queen.move_end and Dice.move_end: share an occupied square, become the previous piece. */
  function MarkMover(g: Game, id: nat): (r: Game)
    requires id < |g.pieces|
    ensures |r.pieces| == |g.pieces| && r.prev == Some(id)
  {
    var p := g.pieces[id];
    var shared := p.shared || (p.kind == Queen && FindAt(g.pieces, p.loc, id).Some?);
    Game(g.pieces[id := p.(shared := shared)], Some(id))
  }

  /**
   * Dice.flip followed by Dice.reset (and Queen.reset): the opposite face comes
   * up when flipping is on and the value equals the start; the value is read
   * again and becomes start and counter; the path restarts here.
   */
  function ResetDie(p: Piece, doFlip: bool): Piece {
    var o := if doFlip && p.start == p.value then Flip(p.orient) else p.orient;
    var v := Value(o);
    p.(orient := o, value := v, start := v, counter := v, path := [p.loc],
       shared := if p.kind == Queen then false else p.shared)
  }

  /**
   * Piece.move_end, Dice.move_end and Queen.move_end: a King or Rook captures
   * at once; a die captures only when its counter reaches 0, then flips and
   * resets.
   */
  function EndStep(g: Game, id: nat, doFlip: bool): (r: Outcome)
    requires id < |g.pieces|
    ensures |r.game.pieces| == |g.pieces|
    ensures r.game.prev.Some? && r.game.prev.value < |g.pieces|
  {
    var g1 := MarkMover(g, id);
    if !IsDie(g1.pieces[id].kind) then Capture(g1, id)
    else if g1.pieces[id].counter != 0 then Outcome(g1, None)
    else
      var c := Capture(g1, id);
      Outcome(c.game.(pieces := c.game.pieces[id := ResetDie(c.game.pieces[id], doFlip)]), c.winner)
  }

  /** Piece.move: one step of the piece numbered id. */
  function Step(g: Game, id: nat, a: Action, doFlip: bool): (r: Outcome)
    requires id < |g.pieces| && InMoveSet(g.pieces[id].kind, a)
    ensures |r.game.pieces| == |g.pieces|
    ensures r.game.prev.Some? && r.game.prev.value < |g.pieces|
  {
    EndStep(StartStep(g, id, a), id, doFlip)
  }

  // ---------------------------------------------------------------------
  // What a step does
  // ---------------------------------------------------------------------

  /** The piece a step takes, if any: a die takes only on the step that ends its activation. */
  function Taken(g: Game, id: nat, a: Action): Option<nat>
    requires id < |g.pieces|
  {
    var p := g.pieces[id];
    if IsDie(p.kind) && p.counter != 1 then None else Occupant(g, id, p.loc, a)
  }

  /** The game just before the capture of a step: moved, marked and made the previous piece. */
  function Marked(g: Game, id: nat, a: Action): Game
    requires id < |g.pieces| && InMoveSet(g.pieces[id].kind, a)
  {
    MarkMover(StartStep(g, id, a), id)
  }

  lemma MarkedFacts(g: Game, id: nat, a: Action)
    requires id < |g.pieces| && InMoveSet(g.pieces[id].kind, a)
    ensures var m, p := Marked(g, id, a), g.pieces[id];
      var to := Dest(g, id, p.loc, a);
      && |m.pieces| == |g.pieces| && m.prev == Some(id)
      && (forall j :: 0 <= j < |g.pieces| && j != id ==> m.pieces[j] == g.pieces[j])
      && m.pieces[id] == (if IsDie(p.kind) then Rolled(p, a, to) else p.(loc := to))
                           .(shared := p.shared || (p.kind == Queen && Occupant(g, id, p.loc, a).Some?))
      && FindAt(m.pieces, to, id) == Occupant(g, id, p.loc, a)
      && (forall j :: 0 <= j < |g.pieces| ==> m.pieces[j].loc == StartStep(g, id, a).pieces[j].loc)
  {
    var s := StartStep(g, id, a);
    var to := Dest(g, id, g.pieces[id].loc, a);
    FindAtUnchanged(g.pieces, s.pieces, to, id);
    FindAtUnchanged(s.pieces, Marked(g, id, a).pieces, to, id);
  }

  /** A step is the capture on the marked game, for a die only on its last step, where the reset follows. */
  lemma StepCases(g: Game, id: nat, a: Action, doFlip: bool)
    requires id < |g.pieces| && InMoveSet(g.pieces[id].kind, a)
    ensures var m, p := Marked(g, id, a), g.pieces[id];
      var c := Capture(m, id);
      && m.pieces[id].kind == p.kind
      && (!IsDie(p.kind) ==> Step(g, id, a, doFlip) == c)
      && (IsDie(p.kind) && p.counter != 1 ==> Step(g, id, a, doFlip) == Outcome(m, None))
      && (IsDie(p.kind) && p.counter == 1 ==>
            Step(g, id, a, doFlip) == Outcome(c.game.(pieces := c.game.pieces[id := ResetDie(c.game.pieces[id], doFlip)]), c.winner))
  {
  }

  /** Capture inside a step sees the taken piece of the step. */
  lemma StepCapture(g: Game, id: nat, a: Action, doFlip: bool)
    requires id < |g.pieces| && InMoveSet(g.pieces[id].kind, a)
    requires !IsDie(g.pieces[id].kind) || g.pieces[id].counter == 1
    ensures var m := Marked(g, id, a);
      && FindAt(m.pieces, m.pieces[id].loc, id) == Taken(g, id, a)
      && (Taken(g, id, a).Some? ==>
            SentOut(m.pieces, Taken(g, id, a).value) == SentOut(StartStep(g, id, a).pieces, Taken(g, id, a).value))
  {
    MarkedFacts(g, id, a);
    var t := Taken(g, id, a);
    if t.Some? {
      var row := HoldingRow(g.pieces[t.value].color);
      HoldingXSameLocs(Marked(g, id, a).pieces, StartStep(g, id, a).pieces, t.value, row, 0);
    }
  }

  /**
   * Every other piece is left alone, except the piece taken, which keeps all
   * it has but moves to the first free file of its holding row.
   */
  lemma StepOthers(g: Game, id: nat, a: Action, doFlip: bool)
    requires id < |g.pieces| && InMoveSet(g.pieces[id].kind, a)
    ensures var r, t := Step(g, id, a, doFlip), Taken(g, id, a);
      && |r.game.pieces| == |g.pieces|
      && (forall j :: 0 <= j < |g.pieces| && j != id && t != Some(j) ==> r.game.pieces[j] == g.pieces[j])
      && (t.Some? ==> t.value != id && r.game.pieces[t.value] == SentOut(StartStep(g, id, a).pieces, t.value))
  {
    MarkedFacts(g, id, a);
    StepCases(g, id, a, doFlip);
    var p := g.pieces[id];
    if !IsDie(p.kind) || p.counter == 1 {
      StepCapture(g, id, a, doFlip);
    }
  }

  /** The mover becomes the previous piece, unless it took a King, which becomes it and ends the game. */
  lemma StepPrevAndWinner(g: Game, id: nat, a: Action, doFlip: bool)
    requires id < |g.pieces| && InMoveSet(g.pieces[id].kind, a)
    ensures var r, t := Step(g, id, a, doFlip), Taken(g, id, a);
      var kingTaken := t.Some? && g.pieces[t.value].kind == King;
      && r.game.prev == (if kingTaken then t else Some(id))
      && r.winner == (if kingTaken then Some(g.pieces[id].color) else None)
  {
    MarkedFacts(g, id, a);
    StepCases(g, id, a, doFlip);
    var p := g.pieces[id];
    if !IsDie(p.kind) || p.counter == 1 {
      StepCapture(g, id, a, doFlip);
    }
  }

  /** A King or Rook only moves. */
  lemma StepKingOrRook(g: Game, id: nat, a: Action, doFlip: bool)
    requires ValidGame(g) && id < |g.pieces| && InMoveSet(g.pieces[id].kind, a)
    requires !IsDie(g.pieces[id].kind)
    ensures Step(g, id, a, doFlip).game.pieces[id] == g.pieces[id].(loc := Dest(g, id, g.pieces[id].loc, a))
  {
    MarkedFacts(g, id, a);
  }

  /**
   * A die with steps left rolls, counts down by exactly one and keys the new
   * square; a Queen becomes shared when the square is occupied.
   */
  lemma StepDieMidway(g: Game, id: nat, a: Action, doFlip: bool)
    requires id < |g.pieces| && InMoveSet(g.pieces[id].kind, a)
    requires IsDie(g.pieces[id].kind) && g.pieces[id].counter != 1
    ensures var p, to := g.pieces[id], Dest(g, id, g.pieces[id].loc, a);
      Step(g, id, a, doFlip).game.pieces[id] ==
        Rolled(p, a, to).(shared := p.shared || (p.kind == Queen && Occupant(g, id, p.loc, a).Some?))
  {
    MarkedFacts(g, id, a);
  }

  /** The flip and reset at the end of an activation, for a well-formed die. */
  lemma ResetDieFacts(p: Piece, doFlip: bool)
    requires ValidOrientation(p.orient) && p.value == Value(p.orient)
    ensures var q := ResetDie(p, doFlip);
      && ValidOrientation(q.orient)
      && q.value == (if doFlip && p.start == p.value then 7 - p.value else p.value)
      && q.start == q.value && q.counter == q.value
      && q.loc == p.loc && q.path == [p.loc]
      && q.kind == p.kind && q.color == p.color
      && q.shared == (p.kind != Queen && p.shared)
  {
    FlipValue(p.orient);
  }

  /**
   * On its last step a die rolls, then shows the opposite face if flipping is
   * on and the rolled value equals its start, and resets: start and counter
   * take the value, the path restarts at the square reached, and a Queen is no
   * longer shared.
   */
  lemma StepDieLast(g: Game, id: nat, a: Action, doFlip: bool)
    requires ValidGame(g) && id < |g.pieces| && InMoveSet(g.pieces[id].kind, a)
    requires IsDie(g.pieces[id].kind) && g.pieces[id].counter == 1
    ensures var p, to := g.pieces[id], Dest(g, id, g.pieces[id].loc, a);
      var rolled := Value(Roll(p.orient, p.color, a));
      var q := Step(g, id, a, doFlip).game.pieces[id];
      && ValidOrientation(q.orient)
      && q.loc == to
      && q.value == (if doFlip && p.start == rolled then 7 - rolled else rolled)
      && q.start == q.value && q.counter == q.value
      && q.path == [to]
      && !q.shared
      && q.kind == p.kind && q.color == p.color
  {
    var p := g.pieces[id];
    MarkedFacts(g, id, a);
    RollValid(p.orient, p.color, a);
    var m := Marked(g, id, a);
    assert Step(g, id, a, doFlip).game.pieces[id] == ResetDie(m.pieces[id], doFlip);
    ResetDieFacts(m.pieces[id], doFlip);
  }

  // ---------------------------------------------------------------------
  // Invariants and consequences
  // ---------------------------------------------------------------------

  /** The mover is still well formed after its step, and keeps its kind and colour. */
  lemma StepMoverWellFormed(g: Game, id: nat, a: Action, doFlip: bool)
    requires ValidGame(g) && id < |g.pieces| && InMoveSet(g.pieces[id].kind, a)
    ensures var q, p := Step(g, id, a, doFlip).game.pieces[id], g.pieces[id];
      WellFormedPiece(q) && q.kind == p.kind && q.color == p.color
  {
    var p, to := g.pieces[id], Dest(g, id, g.pieces[id].loc, a);
    assert WellFormedPiece(p);
    if !IsDie(p.kind) {
      StepKingOrRook(g, id, a, doFlip);
    } else if p.counter != 1 {
      StepDieMidway(g, id, a, doFlip);
      RollValid(p.orient, p.color, a);
      var q := Rolled(p, a, to).(shared := p.shared || (p.kind == Queen && Occupant(g, id, p.loc, a).Some?));
      assert WellFormedPiece(q);
    } else {
      StepDieLast(g, id, a, doFlip);
    }
  }

  /** A game whose pieces are those of a valid game, but for a well-formed mover and a relocated taken piece, is valid. */
  lemma ValidAfterChange(g: Game, g2: Game, id: nat, t: Option<nat>)
    requires ValidGame(g) && id < |g.pieces| && |g2.pieces| == |g.pieces|
    requires g2.prev.Some? ==> g2.prev.value < |g2.pieces|
    requires forall j :: 0 <= j < |g.pieces| && j != id && t != Some(j) ==> g2.pieces[j] == g.pieces[j]
    requires WellFormedPiece(g2.pieces[id])
    requires t.Some? ==> t.value < |g.pieces| && g2.pieces[t.value] == g.pieces[t.value].(loc := g2.pieces[t.value].loc)
    ensures ValidGame(g2)
  {
    forall j | 0 <= j < |g2.pieces|
      ensures WellFormedPiece(g2.pieces[j])
    {
      assert WellFormedPiece(g.pieces[j]);
    }
  }

  /** A step keeps every piece well formed and the previous piece a real piece. */
  lemma StepPreservesValid(g: Game, id: nat, a: Action, doFlip: bool)
    requires ValidGame(g) && id < |g.pieces| && InMoveSet(g.pieces[id].kind, a)
    ensures ValidGame(Step(g, id, a, doFlip).game)
  {
    var r, t := Step(g, id, a, doFlip).game, Taken(g, id, a);
    StepOthers(g, id, a, doFlip);
    StepMoverWellFormed(g, id, a, doFlip);
    if t.Some? {
      assert StartStep(g, id, a).pieces[t.value] == g.pieces[t.value];
    }
    ValidAfterChange(g, r, id, t);
  }

  /**
   * Whatever a legal step takes is an enemy and never a Rook: pieces only ever
   * take the other side's King, Dice and Queens.
   */
  lemma LegalStepTakesEnemyNonRook(g: Game, id: nat, a: Action)
    requires ValidGame(g) && id < |g.pieces|
    requires PollAction(g, id, g.pieces[id].loc, a)
    ensures var t := Taken(g, id, a);
      t.Some? ==> g.pieces[t.value].color != g.pieces[id].color && g.pieces[t.value].kind != Rook
  {
    PollActionSound(g, id, g.pieces[id].loc, a);
  }

  /** No piece changes kind or colour, and there are as many pieces as before. */
  lemma StepKeepsIdentity(g: Game, id: nat, a: Action, doFlip: bool)
    requires ValidGame(g) && id < |g.pieces| && InMoveSet(g.pieces[id].kind, a)
    ensures var g2 := Step(g, id, a, doFlip).game;
      && |g2.pieces| == |g.pieces|
      && forall j :: 0 <= j < |g.pieces| ==>
           g2.pieces[j].kind == g.pieces[j].kind && g2.pieces[j].color == g.pieces[j].color
  {
    var g2, t := Step(g, id, a, doFlip).game, Taken(g, id, a);
    StepOthers(g, id, a, doFlip);
    StepMoverWellFormed(g, id, a, doFlip);
    if t.Some? {
      assert StartStep(g, id, a).pieces[t.value] == g.pieces[t.value];
    }
    forall j | 0 <= j < |g.pieces|
      ensures g2.pieces[j].kind == g.pieces[j].kind && g2.pieces[j].color == g.pieces[j].color
    {
    }
  }

  /** The mover has finished its activation after the step exactly when it was a King, Rook or a die on its last step. */
  lemma StepFinishes(g: Game, id: nat, a: Action, doFlip: bool)
    requires ValidGame(g) && id < |g.pieces| && InMoveSet(g.pieces[id].kind, a)
    ensures var q, p := Step(g, id, a, doFlip).game.pieces[id], g.pieces[id];
      (q.counter == q.start) <==> (!IsDie(p.kind) || p.counter == 1)
  {
    var p := g.pieces[id];
    if !IsDie(p.kind) {
      StepKingOrRook(g, id, a, doFlip);
    } else if p.counter != 1 {
      StepDieMidway(g, id, a, doFlip);
    } else {
      StepDieLast(g, id, a, doFlip);
    }
  }

  /** The step's effect on the gate's inputs: the previous piece, the colours and whether the mover finished. */
  lemma StepGateInputs(g: Game, id: nat, a: Action, doFlip: bool)
    requires ValidGame(g) && id < |g.pieces| && InMoveSet(g.pieces[id].kind, a)
    requires var t := Taken(g, id, a); !(t.Some? && g.pieces[t.value].kind == King)
    ensures var g2, p := Step(g, id, a, doFlip).game, g.pieces[id];
      && g2.prev == Some(id) && |g2.pieces| == |g.pieces|
      && (forall j :: 0 <= j < |g.pieces| ==> g2.pieces[j].color == g.pieces[j].color)
      && ((g2.pieces[id].counter == g2.pieces[id].start) <==> (!IsDie(p.kind) || p.counter == 1))
  {
    StepPrevAndWinner(g, id, a, doFlip);
    StepKeepsIdentity(g, id, a, doFlip);
    StepFinishes(g, id, a, doFlip);
  }

  /**
   * After a step that did not take a King the gate hands over: a finished
   * piece lets exactly the other side's pieces act, a die with steps left lets
   * only itself act.
   */
  lemma GateAfterStep(g: Game, id: nat, a: Action, doFlip: bool, j: nat)
    requires ValidGame(g) && id < |g.pieces| && InMoveSet(g.pieces[id].kind, a) && j < |g.pieces|
    requires var t := Taken(g, id, a); !(t.Some? && g.pieces[t.value].kind == King)
    ensures var g2, p := Step(g, id, a, doFlip).game, g.pieces[id];
      var finished := !IsDie(p.kind) || p.counter == 1;
      && (finished ==> (Gate(g2, j) <==> j != id && g.pieces[j].color != p.color))
      && (!finished ==> (Gate(g2, j) <==> j == id))
  {
    StepGateInputs(g, id, a, doFlip);
    GateHandsOver(Step(g, id, a, doFlip).game, id, j);
  }

  /**
   * Taking a King: the mover's colour wins, the King is the previous piece and
   * the gate refuses every piece of the King's side, while the winner's side
   * may still act.
   */
  lemma KingTakenEndsLosersTurns(g: Game, id: nat, a: Action, doFlip: bool, j: nat)
    requires ValidGame(g) && id < |g.pieces| && j < |g.pieces|
    requires PollAction(g, id, g.pieces[id].loc, a)
    requires var t := Taken(g, id, a); t.Some? && g.pieces[t.value].kind == King
    ensures var r, loser := Step(g, id, a, doFlip), g.pieces[Taken(g, id, a).value].color;
      && r.winner == Some(g.pieces[id].color)
      && loser != g.pieces[id].color
      && (Gate(r.game, j) <==> g.pieces[j].color != loser)
  {
    var t := Taken(g, id, a).value;
    PollActionSound(g, id, g.pieces[id].loc, a);
    StepPrevAndWinner(g, id, a, doFlip);
    StepKeepsIdentity(g, id, a, doFlip);
  }

  /** A piece in a holding row is off the board by two ranks and can never step again. */
  lemma HeldPieceCannotMove(g: Game, id: nat, a: Action)
    requires id < |g.pieces| && (g.prev.Some? ==> g.prev.value < |g.pieces|)
    requires g.pieces[id].loc.y == HoldingRow(g.pieces[id].color)
    ensures !PollAction(g, id, g.pieces[id].loc, a)
  {
  }

  /** So the piece a step takes can never move again. */
  lemma TakenPieceIsOut(g: Game, id: nat, a: Action, doFlip: bool, b: Action)
    requires ValidGame(g) && id < |g.pieces| && InMoveSet(g.pieces[id].kind, a)
    requires Taken(g, id, a).Some?
    ensures var g2, t := Step(g, id, a, doFlip).game, Taken(g, id, a).value;
      && ValidGame(g2)
      && !InBounds(g2.pieces[t].loc)
      && !PollAction(g2, t, g2.pieces[t].loc, b)
  {
    StepOthers(g, id, a, doFlip);
    StepPreservesValid(g, id, a, doFlip);
    var g2, t := Step(g, id, a, doFlip).game, Taken(g, id, a).value;
    HeldPieceCannotMove(g2, t, b);
  }
}
