/**
 * Pieces, the turn gate and the per-kind legality checks (the poll_action
 * methods of Piece, King, Rook, Dice and Queen). All checks only read the game.
 */
module Rules {
  import opened Wrappers
  import opened Geometry
  import opened Die

  datatype Kind = King | Rook | Dice | Queen

  /** Dice and Queen are cubes that roll; King and Rook are not. */
  predicate IsDie(k: Kind) {
    k == Dice || k == Queen
  }

  /**
   * A piece and its custom properties. `path` holds the squares keyed since
   * start_loc, start_loc first: the history is_on_path scans.
   */
  datatype Piece = Piece(
    kind: Kind,
    color: Color,
    loc: Loc,
    orient: Orientation,
    value: int,
    start: int,
    counter: int,
    shared: bool,
    path: seq<Loc>)

  /** All pieces (on the board and captured) and rdc_game_prev_active, by index. */
  datatype Game = Game(pieces: seq<Piece>, prev: Option<nat>)

  /**
   * What the engine keeps true of a piece between operations: a King or Rook
   * keeps value == start == counter == 1; a die shows the value of its up face
   * and has 1 <= counter <= start, counting down within an activation.
   */
  predicate WellFormedPiece(p: Piece) {
    if IsDie(p.kind) then
      && ValidOrientation(p.orient)
      && p.value == Value(p.orient)
      && 1 <= p.counter <= p.start <= 6
      && |p.path| >= 1
      && (p.kind == Dice ==> !p.shared)
    else
      p.value == 1 && p.start == 1 && p.counter == 1 && !p.shared
  }

  predicate ValidGame(g: Game) {
    && (forall i :: 0 <= i < |g.pieces| ==> WellFormedPiece(g.pieces[i]))
    && (g.prev.Some? ==> g.prev.value < |g.pieces|)
  }

  // ---------------------------------------------------------------------
  // Looking up pieces by square
  // ---------------------------------------------------------------------

  function FindFrom(ps: seq<Piece>, l: Loc, skip: int, from: nat): (r: Option<nat>)
    requires from <= |ps|
    ensures r.Some? ==> from <= r.value < |ps| && r.value != skip && ps[r.value].loc == l
    ensures r.Some? ==> forall j :: from <= j < r.value && j != skip ==> ps[j].loc != l
    ensures r.None? ==> forall j :: from <= j < |ps| && j != skip ==> ps[j].loc != l
    decreases |ps| - from
  {
    if from == |ps| then None
    else if from != skip && ps[from].loc == l then Some(from)
    else FindFrom(ps, l, skip, from + 1)
  }

  /**
   * intersect_board: the first piece standing on l, other than the piece
   * numbered skip (use -1 to skip none).
   */
  function FindAt(ps: seq<Piece>, l: Loc, skip: int): (r: Option<nat>)
    ensures r.Some? ==> r.value < |ps| && r.value != skip && ps[r.value].loc == l
    ensures r.Some? ==> forall j :: 0 <= j < r.value && j != skip ==> ps[j].loc != l
    ensures r.None? ==> forall j :: 0 <= j < |ps| && j != skip ==> ps[j].loc != l
  {
    FindFrom(ps, l, skip, 0)
  }

  /** The lookup only depends on the pieces it may return. */
  lemma FindAtUnchanged(ps: seq<Piece>, qs: seq<Piece>, l: Loc, skip: nat)
    requires |ps| == |qs| && skip < |ps|
    requires forall j :: 0 <= j < |ps| && j != skip ==> ps[j] == qs[j]
    ensures FindAt(ps, l, skip) == FindAt(qs, l, skip)
  {
    var a, b := FindAt(ps, l, skip), FindAt(qs, l, skip);
    if a.Some? && b.Some? {
      assert !(a.value < b.value) && !(b.value < a.value);
    }
  }

  // ---------------------------------------------------------------------
  // The turn gate and the kind-independent part of poll_action
  // ---------------------------------------------------------------------

  /**
   * The gate of Piece.poll_action. With a previous piece, refuse when "this is
   * the previous piece" equals "the previous piece has finished", and refuse a
   * different piece of the previous piece's colour.
   */
  function Gate(g: Game, id: nat): (ok: bool)
    requires id < |g.pieces|
    requires g.prev.Some? ==> g.prev.value < |g.pieces|
    ensures g.prev.None? ==> ok
    ensures g.prev.Some? ==>
      var q := g.pieces[g.prev.value];
      (ok <==>
        || (g.prev.value == id && q.counter != q.start)
        || (g.prev.value != id && q.counter == q.start && q.color != g.pieces[id].color))
  {
    match g.prev
    case None => true
    case Some(q) =>
      if (q == id) == (g.pieces[q].counter == g.pieces[q].start) then false
      else if q != id && g.pieces[q].color == g.pieces[id].color then false
      else true
  }

  /** A King or Rook never gets a second move in a row. */
  lemma SingleStepKindsCannotRepeat(g: Game, id: nat)
    requires ValidGame(g) && id < |g.pieces|
    requires !IsDie(g.pieces[id].kind) && g.prev == Some(id)
    ensures !Gate(g, id)
  {
  }

  /**
   * The gate with the previous piece q: once q has finished, exactly the other
   * side's pieces may act; while q has steps left, only q may.
   */
  lemma GateHandsOver(g: Game, q: nat, j: nat)
    requires q < |g.pieces| && j < |g.pieces| && g.prev == Some(q)
    ensures g.pieces[q].counter == g.pieces[q].start ==>
      (Gate(g, j) <==> j != q && g.pieces[j].color != g.pieces[q].color)
    ensures g.pieces[q].counter != g.pieces[q].start ==> (Gate(g, j) <==> j == q)
  {
  }

  /** Piece.move_set: King has all nine names, the others the four straight ones. */
  predicate InMoveSet(k: Kind, a: Action) {
    k == King || IsStraight(a)
  }

  /**
   * Piece.poll_action: the destination square when the gate passes, the name
   * is in the move set and the square is on the board; from stands for
   * obj_loc, the square the step starts from.
   */
  function Target(g: Game, id: nat, from: Loc, a: Action): (r: Option<Loc>)
    requires id < |g.pieces|
    requires g.prev.Some? ==> g.prev.value < |g.pieces|
    ensures r.Some? <==> Gate(g, id) && InMoveSet(g.pieces[id].kind, a)
                          && InBounds(Add(from, ActionToDelta(g.pieces[id].color, a)))
    ensures r.Some? ==> r.value == Add(from, ActionToDelta(g.pieces[id].color, a))
  {
    if !Gate(g, id) then None
    else if !InMoveSet(g.pieces[id].kind, a) then None
    else
      var to := Add(from, ActionToDelta(g.pieces[id].color, a));
      if InBounds(to) then Some(to) else None
  }

  /** is_on_path: true unless l was keyed since start_loc (start_loc included). */
  predicate IsOnPath(p: Piece, l: Loc) {
    l !in p.path
  }

  // ---------------------------------------------------------------------
  // The kind-specific checks
  // ---------------------------------------------------------------------

  /** King.poll_action, Rook.poll_action, Dice.poll_action and Queen.poll_action. */
  predicate PollAction(g: Game, id: nat, from: Loc, a: Action)
    requires id < |g.pieces|
    requires g.prev.Some? ==> g.prev.value < |g.pieces|
  {
    match Target(g, id, from, a)
    case None => false
    case Some(to) =>
      var p := g.pieces[id];
      var hit := FindAt(g.pieces, to, id);
      match p.kind
      case King =>
        if hit.None? then true
        else if g.pieces[hit.value].color == p.color then false
        else g.pieces[hit.value].kind != Rook
      case Rook =>
        hit.None?
      case Dice =>
        if hit.None? then IsOnPath(p, to)
        else if g.pieces[hit.value].color == p.color then false
        else p.counter == 1 && g.pieces[hit.value].kind != Rook
      case Queen =>
        if hit.None? then IsOnPath(p, to)
        else if p.shared && p.counter > 1 then false
        else if g.pieces[hit.value].color == p.color then p.counter > 1
        else g.pieces[hit.value].kind != Rook
  }

  /** The square a step lands on and the piece found there, for the lemmas below. */
  function Dest(g: Game, id: nat, from: Loc, a: Action): Loc
    requires id < |g.pieces|
  {
    Add(from, ActionToDelta(g.pieces[id].color, a))
  }

  function Occupant(g: Game, id: nat, from: Loc, a: Action): Option<nat>
    requires id < |g.pieces|
  {
    FindAt(g.pieces, Dest(g, id, from, a), id)
  }

  /**
   * Every accepted step passes the gate, stays on the board and follows the
   * piece's move set; the square is empty or holds a piece that is not an
   * allied King, Rook or Dice and never an enemy Rook. Only a Queen may step
   * onto an ally, and only while it has more steps to go and has not shared yet.
   */
  lemma PollActionSound(g: Game, id: nat, from: Loc, a: Action)
    requires id < |g.pieces| && (g.prev.Some? ==> g.prev.value < |g.pieces|)
    requires PollAction(g, id, from, a)
    ensures Gate(g, id) && InMoveSet(g.pieces[id].kind, a) && InBounds(Dest(g, id, from, a))
    ensures var hit := Occupant(g, id, from, a);
      && (hit.Some? ==> g.pieces[hit.value].color != g.pieces[id].color ==> g.pieces[hit.value].kind != Rook)
      && (hit.Some? && g.pieces[hit.value].color == g.pieces[id].color ==>
            g.pieces[id].kind == Queen && g.pieces[id].counter > 1 && !g.pieces[id].shared)
      && (hit.None? && IsDie(g.pieces[id].kind) ==> IsOnPath(g.pieces[id], Dest(g, id, from, a)))
  {
  }

  /** King: an empty square or an enemy that is not a Rook; every name, NONE included. */
  lemma KingRule(g: Game, id: nat, from: Loc, a: Action)
    requires id < |g.pieces| && (g.prev.Some? ==> g.prev.value < |g.pieces|)
    requires g.pieces[id].kind == King
    ensures var hit := Occupant(g, id, from, a);
      PollAction(g, id, from, a) <==>
        && Gate(g, id) && InBounds(Dest(g, id, from, a))
        && (hit.None? || (g.pieces[hit.value].color != g.pieces[id].color && g.pieces[hit.value].kind != Rook))
  {
  }

  /** Rook: straight, to an empty square only. */
  lemma RookRule(g: Game, id: nat, from: Loc, a: Action)
    requires id < |g.pieces| && (g.prev.Some? ==> g.prev.value < |g.pieces|)
    requires g.pieces[id].kind == Rook
    ensures PollAction(g, id, from, a) <==>
      Gate(g, id) && IsStraight(a) && InBounds(Dest(g, id, from, a)) && Occupant(g, id, from, a).None?
  {
  }

  /**
   * Dice: straight, to an empty square it has not visited in this activation,
   * or onto an enemy other than a Rook on its last step only.
   */
  lemma DiceRule(g: Game, id: nat, from: Loc, a: Action)
    requires id < |g.pieces| && (g.prev.Some? ==> g.prev.value < |g.pieces|)
    requires g.pieces[id].kind == Dice
    ensures var p, hit := g.pieces[id], Occupant(g, id, from, a);
      PollAction(g, id, from, a) <==>
        && Gate(g, id) && IsStraight(a) && InBounds(Dest(g, id, from, a))
        && (hit.None? ==> IsOnPath(p, Dest(g, id, from, a)))
        && (hit.Some? ==> g.pieces[hit.value].color != p.color && p.counter == 1 && g.pieces[hit.value].kind != Rook)
  {
  }

  /**
   * Queen: like Dice on empty squares; onto an ally only with steps left and
   * not yet shared; onto an enemy other than a Rook on any step, unless it
   * has shared and has steps left.
   */
  lemma QueenRule(g: Game, id: nat, from: Loc, a: Action)
    requires id < |g.pieces| && (g.prev.Some? ==> g.prev.value < |g.pieces|)
    requires g.pieces[id].kind == Queen
    ensures var p, hit := g.pieces[id], Occupant(g, id, from, a);
      PollAction(g, id, from, a) <==>
        && Gate(g, id) && IsStraight(a) && InBounds(Dest(g, id, from, a))
        && (hit.None? ==> IsOnPath(p, Dest(g, id, from, a)))
        && (hit.Some? && g.pieces[hit.value].color == p.color ==> p.counter > 1 && !p.shared)
        && (hit.Some? && g.pieces[hit.value].color != p.color ==>
              g.pieces[hit.value].kind != Rook && !(p.shared && p.counter > 1))
  {
  }
}
