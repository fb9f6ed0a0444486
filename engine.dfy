/**
 * The board as the add-on keeps it between operator calls: the pieces,
 * rdc_game_prev_active, the do_flip setting and the setup text, updated in
 * place. Each method is proved to leave the state (or return the value) that
 * the function of the same step in the other modules specifies, so every
 * property proved there holds of the methods.
 */
module Engine {
  import opened Wrappers
  import opened Geometry
  import opened Die
  import opened Rules
  import opened Turn
  import opened Scoring
  import opened Setup
  import opened Chain
  import opened Replay

  /**
   * Piece.init for a King or Rook (value, start and counter 1) and Dice.init
   * and Queen.init for a die (the value of the face showing, counting from
   * here, start_loc here, not shared), for a piece placed on spot s with
   * rotation o.
   */
  function InitPiece(s: Spot, o: Orientation): (p: Piece)
    requires ValidOrientation(o)
    ensures p.kind == s.kind && p.color == s.color && p.loc == s.loc
    ensures WellFormedPiece(p) && AtRest(p) && !p.shared
    ensures IsDie(p.kind) ==> p.value == Value(o)
  {
    if IsDie(s.kind) then
      var v := Value(o);
      Piece(s.kind, s.color, s.loc, o, v, v, v, false, [s.loc])
    else
      Piece(s.kind, s.color, s.loc, o, 1, 1, 1, false, [s.loc])
  }

  /** The first piece of side c: objects[0] of the colour's collection. */
  function FirstOf(ps: seq<Piece>, c: Color): (r: Option<nat>)
    ensures r.Some? ==> r.value < |ps| && ps[r.value].color == c
    ensures r.Some? ==> forall j :: 0 <= j < r.value ==> ps[j].color != c
    ensures r.None? ==> forall j :: 0 <= j < |ps| ==> ps[j].color != c
  {
    if |ps| == 0 then None
    else if ps[0].color == c then Some(0)
    else
      match FirstOf(ps[1..], c)
      case None => None
      case Some(j) => Some(j + 1)
  }

  /**
   * What Board.start leaves: the previous piece is a finished piece of the
   * side that does not start, so the gate lets exactly the starting side move.
   */
  lemma StartGivesTheMove(ps: seq<Piece>, c: Color, id: nat)
    requires id < |ps| && FirstOf(ps, Opponent(c)).Some?
    requires var q := ps[FirstOf(ps, Opponent(c)).value]; q.counter == q.start
    ensures Gate(Game(ps, FirstOf(ps, Opponent(c))), id) <==> ps[id].color == c
  {
    var q := FirstOf(ps, Opponent(c)).value;
    assert ps[q].color == Opponent(c) != c;
  }

  /**
   * The pairwise scan of poll_instr over the tokens, comparing them up to the
   * case of the letter (the corrected comparison).
   */
  method TokensDistinct(ts: seq<string>) returns (b: bool)
    ensures b == Distinct(ts, true)
  {
    var i := 0;
    while i < |ts|
      invariant 0 <= i <= |ts|
      invariant forall m, n :: 0 <= m < i && 0 <= n < |ts| && m != n ==> UpperToken(ts[m]) != UpperToken(ts[n])
    {
      var j := 0;
      while j < |ts|
        invariant 0 <= j <= |ts|
        invariant forall n :: 0 <= n < j && n != i ==> UpperToken(ts[i]) != UpperToken(ts[n])
      {
        if i != j && UpperToken(ts[j]) == UpperToken(ts[i]) {
          return false;
        }
        j := j + 1;
      }
      i := i + 1;
    }
    return true;
  }

  class Board {
    var pieces: seq<Piece>
    var prev: Option<nat>
    var doFlip: bool
    var setup: string

    /** The game the rule functions take. */
    function State(): Game
      reads this
    {
      Game(pieces, prev)
    }

    /** rdc_game_prev_active is empty or names a piece of the board. */
    predicate Linked()
      reads this
    {
      prev.Some? ==> prev.value < |pieces|
    }

    /** An empty board with the shipped setup text. */
    constructor(doFlip: bool)
      ensures pieces == [] && prev == None && this.doFlip == doFlip && setup == DefaultSetup
    {
      pieces := [];
      prev := None;
      this.doFlip := doFlip;
      setup := DefaultSetup;
    }

    /**
     * Board.reset followed by Board.init: one piece for each letter of the
     * setup text on the square Placement gives it, initialised with the
     * rotation orients names for it, and no previous piece.
     */
    method Reset(orients: seq<Orientation>)
      modifies this
      requires |orients| == |Placement(setup)|
      requires forall i :: 0 <= i < |orients| ==> ValidOrientation(orients[i])
      ensures doFlip == old(doFlip) && setup == old(setup)
      ensures |pieces| == |Placement(setup)|
      ensures forall i :: 0 <= i < |pieces| ==> pieces[i] == InitPiece(Placement(setup)[i], orients[i])
      ensures prev == None && ValidGame(State())
    {
      var spots := Placement(setup);
      var ps: seq<Piece> := [];
      var i := 0;
      while i < |spots|
        invariant 0 <= i <= |spots| && |ps| == i
        invariant forall j :: 0 <= j < i ==> ps[j] == InitPiece(spots[j], orients[j])
      {
        ps := ps + [InitPiece(spots[i], orients[i])];
        i := i + 1;
      }
      pieces := ps;
      prev := None;
    }

    /** Board.intersect_board: the first piece on square l other than the piece skip, by a scan. */
    method IntersectBoard(l: Loc, skip: int) returns (r: Option<nat>)
      ensures r == FindAt(pieces, l, skip)
    {
      var i := 0;
      while i < |pieces|
        invariant 0 <= i <= |pieces|
        invariant FindFrom(pieces, l, skip, i) == FindAt(pieces, l, skip)
      {
        if i != skip && pieces[i].loc == l {
          return Some(i);
        }
        i := i + 1;
      }
      return None;
    }

    /** The inner scan of intersect_out: whether a piece other than id stands on (x, row). */
    method HeldAt(id: nat, row: int, x: int) returns (b: bool)
      ensures b == Held(pieces, id, row, x)
    {
      var j := 0;
      while j < |pieces|
        invariant 0 <= j <= |pieces|
        invariant forall k :: 0 <= k < j && k != id ==> pieces[k].loc != Loc(x, row)
      {
        if j != id && pieces[j].loc == Loc(x, row) {
          return true;
        }
        j := j + 1;
      }
      return false;
    }

    /**
     * Board.intersect_out: the piece id, already put on its holding row,
     * moves along the row to the first file from 0 on that no other piece
     * holds.
     */
    method IntersectOut(id: nat)
      modifies this
      requires id < |pieces| && pieces[id].loc.y == HoldingRow(pieces[id].color)
      ensures var row := old(pieces[id].loc.y);
        pieces == old(pieces[id := pieces[id].(loc := Loc(HoldingX(pieces, id, row, 0), row))])
      ensures prev == old(prev) && doFlip == old(doFlip) && setup == old(setup)
    {
      var row := pieces[id].loc.y;
      var x: nat := 0;
      var held := HeldAt(id, row, x);
      while held
        invariant pieces == old(pieces) && prev == old(prev) && doFlip == old(doFlip) && setup == old(setup)
        invariant held == Held(pieces, id, row, x)
        invariant HoldingX(pieces, id, row, x) == HoldingX(pieces, id, row, 0)
        decreases |OthersFrom(pieces, id, row, x)|
      {
        OthersShrink(pieces, id, row, x);
        x := x + 1;
        held := HeldAt(id, row, x);
      }
      pieces := pieces[id := pieces[id].(loc := Loc(x, row))];
    }

    /**
     * Piece.capture followed by Board.end: the first other piece on the
     * square of id goes to file 0 of its holding row and then to the first
     * free file; a King taken makes the mover's colour the winner and becomes
     * the previous piece.
     */
    method Capture(id: nat) returns (winner: Option<Color>)
      modifies this
      requires Linked() && id < |pieces|
      ensures Outcome(State(), winner) == Turn.Capture(old(State()), id)
      ensures doFlip == old(doFlip) && setup == old(setup)
    {
      winner := None;
      var collider := IntersectBoard(pieces[id].loc, id);
      if collider.Some? {
        var c := collider.value;
        ghost var ps := pieces;
        var row := HoldingRow(pieces[c].color);
        pieces := pieces[c := pieces[c].(loc := Loc(0, row))];
        IntersectOut(c);
        HoldingXSameLocs(ps[c := ps[c].(loc := Loc(0, row))], ps, c, row, 0);
        assert pieces == ps[c := SentOut(ps, c)];
        if pieces[c].kind == King {
          prev := Some(c);
          winner := Some(pieces[id].color);
        }
      }
    }

    /**
     * Piece.move_start and Dice.move_start: translate the piece id by the
     * action's delta; a die also rolls a quarter turn, reads its new value,
     * counts down by one and keys the new square.
     */
    method MoveStart(id: nat, a: Action)
      modifies this
      requires id < |pieces| && InMoveSet(pieces[id].kind, a)
      ensures State() == StartStep(old(State()), id, a)
      ensures doFlip == old(doFlip) && setup == old(setup)
    {
      var p := pieces[id];
      var to := Add(p.loc, ActionToDelta(p.color, a));
      if IsDie(p.kind) {
        var o := Roll(p.orient, p.color, a);
        p := p.(loc := to, orient := o, value := Value(o), counter := p.counter - 1, path := p.path + [to]);
      } else {
        p := p.(loc := to);
      }
      pieces := pieces[id := p];
    }

    /**
     * Queen.move_end, Dice.move_end and Piece.move_end: a Queen that landed on
     * a piece shares its square; the mover becomes the previous piece; a King
     * or Rook captures at once, a die only on its last step, and then flips
     * (when do_flip is on) and resets.
     */
    method MoveEnd(id: nat) returns (winner: Option<Color>)
      modifies this
      requires Linked() && id < |pieces|
      ensures Outcome(State(), winner) == EndStep(old(State()), id, doFlip)
      ensures doFlip == old(doFlip) && setup == old(setup)
    {
      ghost var g0 := State();
      var p := pieces[id];
      assert pieces[id := p] == pieces;
      if p.kind == Queen {
        var collider := IntersectBoard(p.loc, id);
        if collider.Some? {
          pieces := pieces[id := p.(shared := true)];
        }
      }
      prev := Some(id);
      assert State() == MarkMover(g0, id);
      winner := None;
      if !IsDie(p.kind) {
        winner := Capture(id);
      } else if pieces[id].counter == 0 {
        winner := Capture(id);
        pieces := pieces[id := ResetDie(pieces[id], doFlip)];
      }
    }

    /** Piece.move: move_start, then move_end. */
    method Move(id: nat, a: Action) returns (winner: Option<Color>)
      modifies this
      requires Linked() && id < |pieces| && InMoveSet(pieces[id].kind, a)
      ensures Outcome(State(), winner) == Step(old(State()), id, a, doFlip)
      ensures doFlip == old(doFlip) && setup == old(setup)
    {
      MoveStart(id, a);
      winner := MoveEnd(id);
    }

    /**
     * RDC_OT_move_piece.execute on the selected piece id: CANCELLED, changing
     * nothing, unless poll_action passes from the piece's own square; then
     * the move.
     */
    method Execute(id: nat, a: Action) returns (finished: bool, winner: Option<Color>)
      modifies this
      requires Linked() && id < |pieces|
      ensures finished == PollAction(old(State()), id, old(pieces[id].loc), a)
      ensures Outcome(State(), winner) == Replay.Execute(old(State()), id, a, doFlip)
      ensures Linked() && |pieces| == old(|pieces|)
      ensures doFlip == old(doFlip) && setup == old(setup)
    {
      finished := PollAction(State(), id, pieces[id].loc, a);
      winner := None;
      if finished {
        PollActionSound(State(), id, pieces[id].loc, a);
        winner := Move(id, a);
      }
    }

    /**
     * Board.sum_up: the values of the Dice and Queens on the board, per side;
     * the pair is swapped when flip is asked for and the active piece is White.
     */
    method SumUp(flip: bool, active: Option<Color>) returns (r: (int, int))
      ensures r == Sums(pieces, flip, active)
    {
      var b, w := 0, 0;
      var i := 0;
      while i < |pieces|
        invariant 0 <= i <= |pieces|
        invariant b == ColorSum(pieces[..i], Black) && w == ColorSum(pieces[..i], White)
      {
        assert pieces[..i + 1][..i] == pieces[..i];
        var p := pieces[i];
        if InBounds(p.loc) && IsDie(p.kind) {
          if p.color == Black {
            b := b + p.value;
          } else {
            w := w + p.value;
          }
        }
        i := i + 1;
      }
      assert pieces[..i] == pieces;
      if !flip || active.None? || active.value == Black {
        r := (b, w);
      } else {
        r := (w, b);
      }
    }

    /**
     * The values list of Board.start for side c: 1 in every slot, then for
     * each file 0..6 of the home rank that holds a piece, that piece's value
     * in the file's slot.
     */
    method HomeValuesOf(c: Color) returns (vs: seq<int>)
      ensures vs == HomeValues(pieces, c)
    {
      vs := [1, 1, 1, 1, 1, 1, 1];
      var file := 0;
      while file < 7
        invariant 0 <= file <= 7 && |vs| == 7
        invariant forall f :: 0 <= f < file ==> vs[HomeIndex(c, f)] == ValueAt(pieces, Loc(f, HomeRank(c)))
        invariant forall k :: 0 <= k < 7 && HomeFile(c, k) >= file ==> vs[k] == 1
      {
        var obj := IntersectBoard(Loc(file, HomeRank(c)), -1);
        var slot := HomeIndex(c, file);
        HomeIndexBijective(c, file);
        forall f | 0 <= f < 7
          ensures HomeIndex(c, f) == slot ==> f == file
        {
          HomeIndexBijective(c, f);
        }
        if obj.Some? {
          vs := vs[slot := pieces[obj.value].value];
        }
        file := file + 1;
      }
      forall k | 0 <= k < 7
        ensures vs[k] == HomeValues(pieces, c)[k]
      {
        assert HomeIndex(c, HomeFile(c, k)) == k;
      }
    }

    /**
     * Board.start, with the home-rank lookup reading the squares: the side
     * with the lower sum moves first, equal sums go to the pairwise
     * tie-break. rdc_game_prev_active becomes the first piece of the side
     * that does not start; when that side has no piece the lookup raises and
     * the previous piece is left alone.
     */
    method Start() returns (c: Color, raised: bool)
      modifies this
      ensures c == StartColor(old(pieces))
      ensures pieces == old(pieces) && doFlip == old(doFlip) && setup == old(setup)
      ensures raised <==> FirstOf(pieces, Opponent(c)).None?
      ensures prev == if raised then old(prev) else FirstOf(pieces, Opponent(c))
    {
      var sums := SumUp(false, None);
      if sums.0 != sums.1 {
        c := if sums.0 > sums.1 then White else Black;
      } else {
        var bs := HomeValuesOf(Black);
        var ws := HomeValuesOf(White);
        var k := 0;
        while k < 7 && bs[k] == ws[k]
          invariant 0 <= k <= 7
          invariant TieBreak(bs, ws, k) == TieBreak(bs, ws, 0)
        {
          k := k + 1;
        }
        c := if k < 7 && bs[k] > ws[k] then White else Black;
      }
      var first := FirstOf(pieces, Opponent(c));
      raised := first.None?;
      if !raised {
        prev := first;
      }
    }

    /**
     * poll_instr, corrected: clean and cut the text, refuse repeated squares,
     * find the piece on the first square and check its value, then check
     * every leg from the square before it.
     */
    method PollInstr(text: string) returns (v: Verdict)
      requires Linked()
      ensures v == Chain.PollInstr(State(), text)
    {
      var c := Clean(text);
      if |c| == 0 || |c| % 2 != 0 {
        return Rejected;
      }
      var ts := Tokens(c);
      var distinct := TokensDistinct(ts);
      if !distinct {
        return Rejected;
      }
      var first := SquareOf(ts[0]);
      if !InBounds(first) {
        return Rejected;
      }
      var found := IntersectBoard(first, -1);
      if found.None? {
        return Rejected;
      }
      var obj := found.value;
      if pieces[obj].value != |ts| - 1 {
        return Rejected;
      }
      v := CheckLegs(ts, obj);
    }

    /** The loop of poll_instr over the legs after the first token, each checked from the square before it. */
    method CheckLegs(ts: seq<string>, obj: nat) returns (v: Verdict)
      requires Linked() && obj < |pieces| && |ts| >= 1
      ensures v == Legs(State(), ts, obj, SquareOf(ts[0]), 1, true)
    {
      var from := SquareOf(ts[0]);
      var i := 1;
      while i < |ts|
        invariant 1 <= i <= |ts|
        invariant Legs(State(), ts, obj, from, i, true) == Legs(State(), ts, obj, SquareOf(ts[0]), 1, true)
      {
        var leg := LegVerdict(State(), obj, from, ts[i], true);
        if leg != Accepted {
          return leg;
        }
        from := SquareOf(ts[i]);
        i := i + 1;
      }
      return Accepted;
    }

    /**
     * Board.go: select the piece on the chain's first square, then call the
     * move operator once per leg; a refused leg does not stop the loop, a
     * token that does not decode or a delta without an operator action raises.
     */
    method Go(text: string) returns (winner: Option<Color>, raised: bool)
      modifies this
      requires Linked()
      ensures Run(State(), winner, raised) == Replay.Go(old(State()), text, doFlip)
      ensures doFlip == old(doFlip) && setup == old(setup)
    {
      var ts := Tokens(Clean(text));
      if |ts| == 0 {
        return None, false;
      }
      if AlgebraicToLoc(ts[0]).Failure? {
        return None, true;
      }
      var found := IntersectBoard(SquareOf(ts[0]), -1);
      if found.None? {
        return None, true;
      }
      winner, raised := GoLegsFrom(ts, found.value);
    }

    /** The loop of go over the legs after the first token, for the selected piece obj. */
    method GoLegsFrom(ts: seq<string>, obj: nat) returns (winner: Option<Color>, raised: bool)
      modifies this
      requires Linked() && obj < |pieces| && |ts| >= 1
      ensures Run(State(), winner, raised) == GoLegs(old(State()), obj, ts, 1, doFlip, None)
      ensures doFlip == old(doFlip) && setup == old(setup)
    {
      ghost var target := GoLegs(State(), obj, ts, 1, doFlip, None);
      winner, raised := None, false;
      var i := 1;
      while i < |ts|
        invariant GoingFrom(obj, ts, i, winner, target)
        invariant doFlip == old(doFlip) && setup == old(setup)
        invariant !raised
      {
        winner, raised := GoLeg(ts, obj, i, winner, target);
        if raised {
          return;
        }
        i := i + 1;
      }
      GoLegsDone(State(), obj, ts, doFlip, winner);
    }

    /** Midway through go: legs i.. of ts remain, and replaying them from here ends in target. */
    ghost predicate GoingFrom(obj: nat, ts: seq<string>, i: nat, winner: Option<Color>, target: Run)
      reads this
    {
      1 <= i <= |ts| && Linked() && obj < |pieces| && GoLegs(State(), obj, ts, i, doFlip, winner) == target
    }

    /**
     * One leg of go: decode the token, name the delta from the previous
     * square and call the move operator; raised when the token does not
     * decode or the delta has no operator action.
     */
    method GoLeg(ts: seq<string>, obj: nat, i: nat, winner: Option<Color>, ghost target: Run) returns (w: Option<Color>, raised: bool)
      modifies this
      requires GoingFrom(obj, ts, i, winner, target) && i < |ts|
      ensures doFlip == old(doFlip) && setup == old(setup)
      ensures raised ==> Run(State(), w, true) == target
      ensures !raised ==> GoingFrom(obj, ts, i + 1, w, target)
    {
      w := winner;
      if AlgebraicToLoc(ts[i]).Failure? {
        return w, true;
      }
      var d := DeltaToAction(pieces[obj].color, Sub(SquareOf(ts[i - 1]), SquareOf(ts[i])));
      if d.None? || d.value == NoMove {
        return w, true;
      }
      GoLegsNext(State(), obj, ts, i, doFlip, winner, d.value);
      var finished, moved := Execute(obj, d.value);
      if moved.Some? {
        w := moved;
      }
      raised := false;
    }

    /** set_use_queen: the fifth character of the setup text becomes 'Q' or 'D'. */
    method SetUseQueen(value: bool)
      modifies this
      requires |setup| > 4
      ensures setup == Setup.SetUseQueen(old(setup), value) && UseQueen(setup) == value
      ensures pieces == old(pieces) && prev == old(prev) && doFlip == old(doFlip)
    {
      UseQueenRoundTrip(setup, value);
      setup := setup[..4] + [if value then 'Q' else 'D'] + setup[5..];
    }
  }
}
