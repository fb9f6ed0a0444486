/**
 * Board.poll_instr, which validates an instruction chain such as "D1D2D3"
 * (the piece on the first square, then one square per step), and Board.go,
 * which replays an accepted chain as a sequence of moves.
 */
module Chain {
  import opened Wrappers
  import opened Geometry
  import opened Die
  import opened Rules
  import opened Turn

  // ---------------------------------------------------------------------
  // Cleaning and cutting the text
  // ---------------------------------------------------------------------

  /** str.isspace on the characters below 128: space, tab to carriage return, and 28..31. */
  predicate IsWhitespace(ch: char) {
    ch == ' ' || 9 <= ch as int <= 13 || 28 <= ch as int <= 31
  }

  function StripStart(s: string): (t: string)
    ensures |t| <= |s| && t == s[|s| - |t|..]
    ensures |t| > 0 ==> !IsWhitespace(t[0])
    ensures forall i :: 0 <= i < |s| - |t| ==> IsWhitespace(s[i])
  {
    if |s| > 0 && IsWhitespace(s[0]) then StripStart(s[1..]) else s
  }

  function StripEnd(s: string): (t: string)
    ensures |t| <= |s| && t == s[..|t|]
    ensures |t| > 0 ==> !IsWhitespace(t[|t| - 1])
    ensures forall i :: |t| <= i < |s| ==> IsWhitespace(s[i])
  {
    if |s| > 0 && IsWhitespace(s[|s| - 1]) then StripEnd(s[..|s| - 1]) else s
  }

  /** str.strip(). */
  function Strip(s: string): string {
    StripEnd(StripStart(s))
  }

  /** str.replace(' ', ''): the same text without its spaces. */
  function RemoveSpaces(s: string): (t: string)
    ensures |t| <= |s|
    ensures forall ch :: ch in t <==> ch in s && ch != ' '
  {
    if |s| == 0 then ""
    else (if s[0] == ' ' then "" else [s[0]]) + RemoveSpaces(s[1..])
  }

  /** The text poll_instr and go work on. */
  function Clean(text: string): string {
    RemoveSpaces(Strip(text))
  }

  /**
   * [c[i:i + 2] for i in range(0, len(c), 2)]: the two-character tokens of
   * the text, and a last one-character token when its length is odd.
   */
  function Tokens(c: string): (ts: seq<string>)
    ensures |c| % 2 == 0 ==> |ts| == |c| / 2 && forall i :: 0 <= i < |ts| ==> |ts[i]| == 2
    ensures |c| % 2 == 1 ==> |ts| == |c| / 2 + 1 && ts[|ts| - 1] == [c[|c| - 1]]
  {
    if |c| == 0 then []
    else if |c| == 1 then [c]
    else [c[..2]] + Tokens(c[2..])
  }

  /** Token i is the text's characters 2i and 2i+1. */
  lemma {:induction false} TokenAt(c: string, i: nat)
    requires |c| % 2 == 0 && i < |c| / 2
    ensures Tokens(c)[i] == c[2 * i..2 * i + 2]
  {
    if i > 0 {
      TokenAt(c[2..], i - 1);
      assert c[2..][2 * (i - 1)..2 * (i - 1) + 2] == c[2 * i..2 * i + 2];
    }
  }

  /** Cleaning keeps no surrounding whitespace and no space at all. */
  lemma CleanFacts(text: string)
    ensures ' ' !in Clean(text)
    ensures |Clean(text)| > 0 ==> !IsWhitespace(Clean(text)[0]) && !IsWhitespace(Clean(text)[|Clean(text)| - 1])
  {
    var s := Strip(text);
    if |Clean(text)| > 0 {
      assert |s| > 0;
      StripEnds(text);
      RemoveSpacesEnds(s);
    }
  }

  /** A stripped text that is not empty starts and ends with a non-whitespace character. */
  lemma StripEnds(text: string)
    requires |Strip(text)| > 0
    ensures !IsWhitespace(Strip(text)[0]) && !IsWhitespace(Strip(text)[|Strip(text)| - 1])
  {
    var a := StripStart(text);
    var b := StripEnd(a);
    assert b[0] == a[0];
  }

  /** Removing spaces from a text that starts and ends with a non-whitespace keeps those ends. */
  lemma {:induction false} RemoveSpacesEnds(s: string)
    requires |s| > 0 && !IsWhitespace(s[0]) && !IsWhitespace(s[|s| - 1])
    ensures |RemoveSpaces(s)| > 0 && RemoveSpaces(s)[0] == s[0] && RemoveSpaces(s)[|RemoveSpaces(s)| - 1] == s[|s| - 1]
  {
    if |s| > 1 {
      RemoveSpacesLast(s[1..]);
    }
  }

  lemma {:induction false} RemoveSpacesLast(s: string)
    requires |s| > 0 && s[|s| - 1] != ' '
    ensures |RemoveSpaces(s)| > 0 && RemoveSpaces(s)[|RemoveSpaces(s)| - 1] == s[|s| - 1]
  {
    if |s| > 1 {
      RemoveSpacesLast(s[1..]);
    }
  }

  // ---------------------------------------------------------------------
  // Squares and legs
  // ---------------------------------------------------------------------

  /** The square a token names; a token that does not decode names a square off the board. */
  function SquareOf(t: string): (l: Loc)
    ensures InBounds(l) ==> AlgebraicToLoc(t) == Success(l)
    ensures AlgebraicToLoc(t).Success? ==> l == AlgebraicToLoc(t).value
  {
    match AlgebraicToLoc(t)
    case Success(l) => l
    case Failure(_) => Loc(-1, -1)
  }

  /** The token with its letter in upper case. */
  function UpperToken(t: string): (u: string)
    ensures |u| == |t|
    ensures forall i :: 0 <= i < |t| ==> u[i] == Upper(t[i])
  {
    if |t| == 0 then [] else [Upper(t[0])] + UpperToken(t[1..])
  }

  /** Two tokens that decode name the same square exactly when they agree up to the case of the letter. */
  lemma SameSquare(t: string, u: string)
    requires AlgebraicToLoc(t).Success? && AlgebraicToLoc(u).Success?
    ensures SquareOf(t) == SquareOf(u) <==> UpperToken(t) == UpperToken(u)
  {
    if UpperToken(t) == UpperToken(u) {
      assert Upper(t[0]) == UpperToken(u)[0];
      assert Upper(t[1]) == Upper(u[1]);
    }
  }

  /** The two squares are neighbours (or the same). */
  predicate Adjacent(a: Loc, b: Loc) {
    -1 <= a.x - b.x <= 1 && -1 <= a.y - b.y <= 1
  }

  /**
   * One leg of a chain from square from to square to for the piece obj, as
   * poll_instr checks it: the name delta_to_action gives to from - to must
   * exist and pass poll_action from from. The corrected check also asks the
   * squares to be neighbours.
   */
  predicate LegOk(g: Game, obj: nat, from: Loc, to: Loc, strict: bool)
    requires obj < |g.pieces| && (g.prev.Some? ==> g.prev.value < |g.pieces|)
  {
    && (!strict || Adjacent(from, to))
    && DeltaToAction(g.pieces[obj].color, Sub(from, to)).Some?
    && PollAction(g, obj, from, DeltaToAction(g.pieces[obj].color, Sub(from, to)).value)
  }

  // ---------------------------------------------------------------------
  // poll_instr
  // ---------------------------------------------------------------------

  /** The outcome of poll_instr: True, False, or the IndexError of delta_to_action. */
  datatype Verdict = Accepted | Rejected | Raises

  /** The tokens differ pairwise, compared as written or, corrected, up to case. */
  predicate Distinct(ts: seq<string>, strict: bool) {
    forall i, j :: 0 <= i < |ts| && 0 <= j < |ts| && i != j ==>
      if strict then UpperToken(ts[i]) != UpperToken(ts[j]) else ts[i] != ts[j]
  }

  /** One leg from square from to token t: Accepted when poll_instr goes on to the next token. */
  function LegVerdict(g: Game, obj: nat, from: Loc, t: string, strict: bool): (v: Verdict)
    requires obj < |g.pieces| && (g.prev.Some? ==> g.prev.value < |g.pieces|)
    ensures v == Accepted <==> InBounds(SquareOf(t)) && LegOk(g, obj, from, SquareOf(t), strict)
  {
    var to := SquareOf(t);
    if !InBounds(to) then Rejected
    else if strict && !Adjacent(from, to) then Rejected
    else
      match DeltaToAction(g.pieces[obj].color, Sub(from, to))
      case None => Raises
      case Some(a) => if PollAction(g, obj, from, a) then Accepted else Rejected
  }

  /** The legs from token i on, the previous square being from. */
  function Legs(g: Game, ts: seq<string>, obj: nat, from: Loc, i: nat, strict: bool): (v: Verdict)
    requires obj < |g.pieces| && (g.prev.Some? ==> g.prev.value < |g.pieces|)
    requires 1 <= i <= |ts|
    decreases |ts| - i
  {
    if i == |ts| then Accepted
    else
      var v := LegVerdict(g, obj, from, ts[i], strict);
      if v != Accepted then v else Legs(g, ts, obj, SquareOf(ts[i]), i + 1, strict)
  }

  /** The common body of poll_instr as written and corrected. */
  function Poll(g: Game, text: string, strict: bool): Verdict
    requires g.prev.Some? ==> g.prev.value < |g.pieces|
  {
    var c := Clean(text);
    if |c| == 0 || |c| % 2 != 0 then Rejected
    else
      var ts := Tokens(c);
      if !Distinct(ts, strict) then Rejected
      else
        var first := SquareOf(ts[0]);
        if !InBounds(first) then Rejected
        else
          match FindAt(g.pieces, first, -1)
          case None => Rejected
          case Some(obj) =>
            if g.pieces[obj].value != |ts| - 1 then Rejected
            else Legs(g, ts, obj, first, 1, strict)
  }

  /** poll_instr as written: tokens compared case-sensitively, any delta accepted that names a move. */
  function PollInstrAsWritten(g: Game, text: string): Verdict
    requires g.prev.Some? ==> g.prev.value < |g.pieces|
  {
    Poll(g, text, false)
  }

  /** poll_instr corrected: tokens compared up to case, and every leg one square long. */
  function PollInstr(g: Game, text: string): Verdict
    requires g.prev.Some? ==> g.prev.value < |g.pieces|
  {
    Poll(g, text, true)
  }

  // ---------------------------------------------------------------------
  // What an accepted chain satisfies
  // ---------------------------------------------------------------------

  /** The piece on the first square of a chain, if there is one. */
  function ChainPiece(g: Game, ts: seq<string>): Option<nat>
    requires |ts| > 0
  {
    FindAt(g.pieces, SquareOf(ts[0]), -1)
  }

  /**
   * The declarative reading of poll_instr: a non-empty even text of distinct
   * tokens, all naming squares on the board; a piece on the first square
   * whose value is the number of legs; every leg passing LegOk.
   */
  predicate ChainOk(g: Game, text: string, strict: bool)
    requires g.prev.Some? ==> g.prev.value < |g.pieces|
  {
    var c := Clean(text);
    && |c| > 0 && |c| % 2 == 0
    && var ts := Tokens(c);
    && Distinct(ts, strict)
    && (forall i :: 0 <= i < |ts| ==> InBounds(SquareOf(ts[i])))
    && ChainPiece(g, ts).Some?
    && var obj := ChainPiece(g, ts).value;
    && g.pieces[obj].value == |ts| - 1
    && LegsOkFrom(g, ts, obj, 1, strict)
  }

  /** Leg k, from token k - 1 to token k, lands on the board and passes LegOk. */
  predicate LegOkAt(g: Game, ts: seq<string>, obj: nat, k: nat, strict: bool)
    requires obj < |g.pieces| && (g.prev.Some? ==> g.prev.value < |g.pieces|)
    requires 1 <= k < |ts|
  {
    InBounds(SquareOf(ts[k])) && LegOk(g, obj, SquareOf(ts[k - 1]), SquareOf(ts[k]), strict)
  }

  /** Every leg from token i on lands on the board and passes LegOk. */
  predicate LegsOkFrom(g: Game, ts: seq<string>, obj: nat, i: nat, strict: bool)
    requires obj < |g.pieces| && (g.prev.Some? ==> g.prev.value < |g.pieces|)
    requires 1 <= i
  {
    forall k :: i <= k < |ts| ==> LegOkAt(g, ts, obj, k, strict)
  }

  /** The leg loop from token i accepts exactly when every leg from token i on is fine. */
  predicate LegsIff(g: Game, ts: seq<string>, obj: nat, i: nat, strict: bool)
    requires obj < |g.pieces| && (g.prev.Some? ==> g.prev.value < |g.pieces|)
    requires 1 <= i <= |ts|
  {
    Legs(g, ts, obj, SquareOf(ts[i - 1]), i, strict) == Accepted <==> LegsOkFrom(g, ts, obj, i, strict)
  }

  lemma {:induction false} LegsAccepted(g: Game, ts: seq<string>, obj: nat, i: nat, strict: bool)
    requires obj < |g.pieces| && (g.prev.Some? ==> g.prev.value < |g.pieces|)
    requires 1 <= i <= |ts|
    ensures LegsIff(g, ts, obj, i, strict)
    decreases |ts| - i
  {
    if i < |ts| {
      LegsAccepted(g, ts, obj, i + 1, strict);
      LegsAcceptedStep(g, ts, obj, i, strict);
    } else {
      LegsEnd(g, ts, obj, strict);
    }
  }

  /** LegsAccepted at token i from LegsAccepted at token i + 1. */
  lemma LegsAcceptedStep(g: Game, ts: seq<string>, obj: nat, i: nat, strict: bool)
    requires obj < |g.pieces| && (g.prev.Some? ==> g.prev.value < |g.pieces|)
    requires 1 <= i < |ts|
    requires LegsIff(g, ts, obj, i + 1, strict)
    ensures LegsIff(g, ts, obj, i, strict)
  {
    LegsStep(g, ts, obj, i, strict);
    LegsOkFromStep(g, ts, obj, i, strict);
  }

  /** Past the last token there is no leg left to check. */
  lemma LegsEnd(g: Game, ts: seq<string>, obj: nat, strict: bool)
    requires obj < |g.pieces| && (g.prev.Some? ==> g.prev.value < |g.pieces|)
    requires 1 <= |ts|
    ensures LegsIff(g, ts, obj, |ts|, strict)
  {
  }

  /** The first leg from token i and the legs after it. */
  lemma LegsStep(g: Game, ts: seq<string>, obj: nat, i: nat, strict: bool)
    requires obj < |g.pieces| && (g.prev.Some? ==> g.prev.value < |g.pieces|)
    requires 1 <= i < |ts|
    ensures Legs(g, ts, obj, SquareOf(ts[i - 1]), i, strict) == Accepted <==>
      InBounds(SquareOf(ts[i])) && LegOk(g, obj, SquareOf(ts[i - 1]), SquareOf(ts[i]), strict) &&
      Legs(g, ts, obj, SquareOf(ts[i]), i + 1, strict) == Accepted
  {
  }

  lemma LegsOkFromStep(g: Game, ts: seq<string>, obj: nat, i: nat, strict: bool)
    requires obj < |g.pieces| && (g.prev.Some? ==> g.prev.value < |g.pieces|)
    requires 1 <= i < |ts|
    ensures LegsOkFrom(g, ts, obj, i, strict) <==>
      InBounds(SquareOf(ts[i])) && LegOk(g, obj, SquareOf(ts[i - 1]), SquareOf(ts[i]), strict) &&
      LegsOkFrom(g, ts, obj, i + 1, strict)
  {
    if InBounds(SquareOf(ts[i])) && LegOk(g, obj, SquareOf(ts[i - 1]), SquareOf(ts[i]), strict) &&
       LegsOkFrom(g, ts, obj, i + 1, strict) {
      forall k | i <= k < |ts|
        ensures LegOkAt(g, ts, obj, k, strict)
      {
      }
    }
    assert LegsOkFrom(g, ts, obj, i, strict) ==> LegOkAt(g, ts, obj, i, strict);
  }

  /** poll_instr returns True exactly when the chain satisfies ChainOk, as written and corrected. */
  lemma PollAcceptsExactly(g: Game, text: string, strict: bool)
    requires g.prev.Some? ==> g.prev.value < |g.pieces|
    ensures Poll(g, text, strict) == Accepted <==> ChainOk(g, text, strict)
  {
    var c := Clean(text);
    if |c| > 0 && |c| % 2 == 0 {
      var ts := Tokens(c);
      if Distinct(ts, strict) && InBounds(SquareOf(ts[0])) && ChainPiece(g, ts).Some? {
        LegsAccepted(g, ts, ChainPiece(g, ts).value, 1, strict);
        LegsInBounds(g, ts, ChainPiece(g, ts).value, strict);
      }
    }
  }

  /** When the first token and every leg land on the board, so does every token. */
  lemma LegsInBounds(g: Game, ts: seq<string>, obj: nat, strict: bool)
    requires obj < |g.pieces| && (g.prev.Some? ==> g.prev.value < |g.pieces|)
    requires |ts| > 0 && InBounds(SquareOf(ts[0]))
    ensures LegsOkFrom(g, ts, obj, 1, strict) ==> forall i :: 0 <= i < |ts| ==> InBounds(SquareOf(ts[i]))
  {
    if LegsOkFrom(g, ts, obj, 1, strict) {
      forall i | 1 <= i < |ts|
        ensures InBounds(SquareOf(ts[i]))
      {
        assert LegOkAt(g, ts, obj, i, strict);
      }
    }
  }

  /** A chain with a single token names no step for the piece's value; poll_instr accepts it only for value 0, which no piece has. */
  lemma ChainNeedsALeg(g: Game, text: string, strict: bool)
    requires ValidGame(g)
    requires |Clean(text)| == 2
    ensures Poll(g, text, strict) == Rejected
  {
    var ts := Tokens(Clean(text));
    if InBounds(SquareOf(ts[0])) && ChainPiece(g, ts).Some? {
      assert WellFormedPiece(g.pieces[ChainPiece(g, ts).value]);
    }
  }

  /** The corrected check never raises: a neighbour's delta always names a move. */
  lemma PollInstrNeverRaises(g: Game, text: string)
    requires g.prev.Some? ==> g.prev.value < |g.pieces|
    ensures PollInstr(g, text) != Raises
  {
    var c := Clean(text);
    if |c| > 0 && |c| % 2 == 0 {
      var ts := Tokens(c);
      if Distinct(ts, true) && InBounds(SquareOf(ts[0])) && ChainPiece(g, ts).Some? {
        LegsNeverRaise(g, ts, ChainPiece(g, ts).value, SquareOf(ts[0]), 1);
      }
    }
  }

  lemma {:induction false} LegsNeverRaise(g: Game, ts: seq<string>, obj: nat, from: Loc, i: nat)
    requires obj < |g.pieces| && (g.prev.Some? ==> g.prev.value < |g.pieces|)
    requires 1 <= i <= |ts|
    ensures Legs(g, ts, obj, from, i, true) != Raises
    decreases |ts| - i
  {
    if i < |ts| {
      LegsNeverRaise(g, ts, obj, SquareOf(ts[i]), i + 1);
      LegsNeverRaiseStep(g, ts, obj, from, i);
    }
  }

  /** LegsNeverRaise at token i from LegsNeverRaise at token i + 1. */
  lemma LegsNeverRaiseStep(g: Game, ts: seq<string>, obj: nat, from: Loc, i: nat)
    requires obj < |g.pieces| && (g.prev.Some? ==> g.prev.value < |g.pieces|)
    requires 1 <= i < |ts|
    requires Legs(g, ts, obj, SquareOf(ts[i]), i + 1, true) != Raises
    ensures Legs(g, ts, obj, from, i, true) != Raises
  {
    LegNeverRaises(g, obj, from, ts[i]);
  }

  /** The corrected leg check rejects a non-unit leg before naming its delta, so it never raises. */
  lemma LegNeverRaises(g: Game, obj: nat, from: Loc, t: string)
    requires obj < |g.pieces| && (g.prev.Some? ==> g.prev.value < |g.pieces|)
    ensures LegVerdict(g, obj, from, t, true) != Raises
  {
    var to := SquareOf(t);
    if InBounds(to) && Adjacent(from, to) {
      UnitDeltaDecodes(g.pieces[obj].color, Sub(from, to));
    }
  }

  /** Each leg of a chain the corrected check accepts names the move that lands on the leg's second square. */
  lemma AcceptedLegsLandOnTokens(g: Game, text: string, k: nat)
    requires g.prev.Some? ==> g.prev.value < |g.pieces|
    requires PollInstr(g, text) == Accepted
    requires 1 <= k < |Tokens(Clean(text))|
    ensures var ts := Tokens(Clean(text));
      var obj := ChainPiece(g, ts).value;
      var a := DeltaToAction(g.pieces[obj].color, Sub(SquareOf(ts[k - 1]), SquareOf(ts[k])));
      a.Some? && Add(SquareOf(ts[k - 1]), ActionToDelta(g.pieces[obj].color, a.value)) == SquareOf(ts[k])
  {
    AcceptedLeg(g, text, true, k);
    var ts := Tokens(Clean(text));
    var obj := ChainPiece(g, ts).value;
    StepLands(g.pieces[obj].color, SquareOf(ts[k - 1]), SquareOf(ts[k]));
  }

  /** A step to a neighbouring square is named by the move that lands there. */
  lemma StepLands(c: Color, from: Loc, to: Loc)
    requires Adjacent(from, to)
    ensures var a := DeltaToAction(c, Sub(from, to));
      a.Some? && Add(from, ActionToDelta(c, a.value)) == to
  {
    UnitDeltaDecodes(c, Sub(from, to));
  }

  /** Leg k of a chain the check accepts lands on the board and passes LegOk. */
  lemma AcceptedLeg(g: Game, text: string, strict: bool, k: nat)
    requires g.prev.Some? ==> g.prev.value < |g.pieces|
    requires Poll(g, text, strict) == Accepted
    requires 1 <= k < |Tokens(Clean(text))|
    ensures var ts := Tokens(Clean(text));
      ChainPiece(g, ts).Some? && LegOkAt(g, ts, ChainPiece(g, ts).value, k, strict)
  {
    PollAcceptsExactly(g, text, strict);
  }

  /** A chain the corrected check accepts never names a square twice. */
  lemma AcceptedSquaresDistinct(g: Game, text: string)
    requires g.prev.Some? ==> g.prev.value < |g.pieces|
    requires PollInstr(g, text) == Accepted
    ensures var ts := Tokens(Clean(text));
      forall i, j :: 0 <= i < |ts| && 0 <= j < |ts| && i != j ==> SquareOf(ts[i]) != SquareOf(ts[j])
  {
    PollAcceptsExactly(g, text, true);
    var ts := Tokens(Clean(text));
    forall i, j | 0 <= i < |ts| && 0 <= j < |ts| && i != j
      ensures SquareOf(ts[i]) != SquareOf(ts[j])
    {
      SameSquare(ts[i], ts[j]);
    }
  }

  /** The correction only narrows poll_instr: every chain it accepts is accepted as written too. */
  lemma CorrectedNarrowsAsWritten(g: Game, text: string)
    requires g.prev.Some? ==> g.prev.value < |g.pieces|
    requires PollInstr(g, text) == Accepted
    ensures PollInstrAsWritten(g, text) == Accepted
  {
    PollAcceptsExactly(g, text, true);
    PollAcceptsExactly(g, text, false);
    var ts := Tokens(Clean(text));
    assert Distinct(ts, false) by {
      forall i, j | 0 <= i < |ts| && 0 <= j < |ts| && i != j
        ensures ts[i] != ts[j]
      {
        assert UpperToken(ts[i]) != UpperToken(ts[j]);
      }
    }
    var obj := ChainPiece(g, ts).value;
    assert LegsOkFrom(g, ts, obj, 1, false) by {
      forall k | 1 <= k < |ts|
        ensures LegOkAt(g, ts, obj, k, false)
      {
        assert LegOkAt(g, ts, obj, k, true);
      }
    }
  }

  // ---------------------------------------------------------------------
  // The chain defects as written
  // ---------------------------------------------------------------------

  /** Texts with no whitespace. */
  predicate Plain(s: string) {
    forall i :: 0 <= i < |s| ==> !IsWhitespace(s[i])
  }

  /** A text without whitespace is its own cleaned form. */
  lemma {:induction false} CleanPlain(s: string)
    requires Plain(s)
    ensures Clean(s) == s
  {
    assert StripStart(s) == s;
    assert StripEnd(s) == s;
    RemoveSpacesPlain(s);
  }

  lemma {:induction false} RemoveSpacesPlain(s: string)
    requires forall i :: 0 <= i < |s| ==> s[i] != ' '
    ensures RemoveSpaces(s) == s
  {
    if |s| > 0 {
      RemoveSpacesPlain(s[1..]);
    }
  }

  /** Tokens written one after the other. */
  function Concat(ts: seq<string>): string {
    if |ts| == 0 then "" else ts[0] + Concat(ts[1..])
  }

  /** Cutting a text into tokens loses nothing: written together again, the tokens are the text. */
  lemma {:induction false} TokensConcat(c: string)
    ensures Concat(Tokens(c)) == c
  {
    if |c| > 1 {
      TokensConcat(c[2..]);
      assert Tokens(c)[1..] == Tokens(c[2..]);
      assert c == c[..2] + c[2..];
    }
  }

  /** Two-character tokens without whitespace, written together, are cleaned to themselves and cut apart again. */
  lemma {:induction false} PlainTokens(ts: seq<string>)
    requires forall i :: 0 <= i < |ts| ==> |ts[i]| == 2 && Plain(ts[i])
    ensures |Concat(ts)| == 2 * |ts| && |Concat(ts)| % 2 == 0 && Plain(Concat(ts))
    ensures Tokens(Concat(ts)) == ts
  {
    if |ts| > 0 {
      PlainTokens(ts[1..]);
      var c := Concat(ts);
      assert c == ts[0] + Concat(ts[1..]);
      assert |c| % 2 == 0 by {
        var n := |Concat(ts[1..])|;
        assert |c| == n + 2 && n % 2 == 0;
      }
      assert c[..2] == ts[0] && c[2..] == Concat(ts[1..]);
      assert Plain(c) by {
        forall i | 0 <= i < |c|
          ensures !IsWhitespace(c[i])
        {
          if i >= 2 {
            assert c[i] == Concat(ts[1..])[i - 2];
          }
        }
      }
      assert ts == [ts[0]] + ts[1..];
    }
  }

  /** For plain tokens whose first names a piece of the right value, poll_instr is the chain's legs. */
  lemma ChainStart(g: Game, ts: seq<string>, strict: bool, obj: nat)
    requires g.prev.Some? ==> g.prev.value < |g.pieces|
    requires |ts| > 0 && forall i :: 0 <= i < |ts| ==> |ts[i]| == 2 && Plain(ts[i])
    requires Distinct(ts, strict) && InBounds(SquareOf(ts[0]))
    requires FindAt(g.pieces, SquareOf(ts[0]), -1) == Some(obj) && g.pieces[obj].value == |ts| - 1
    ensures Poll(g, Concat(ts), strict) == Legs(g, ts, obj, SquareOf(ts[0]), 1, strict)
  {
    ConcatCleans(ts);
    PollOnTokens(g, Concat(ts), ts, strict);
  }

  /** Plain tokens i and j that repeat (as written, or up to case when corrected) are rejected. */
  lemma ChainRepeats(g: Game, ts: seq<string>, strict: bool, i: nat, j: nat)
    requires g.prev.Some? ==> g.prev.value < |g.pieces|
    requires forall k :: 0 <= k < |ts| ==> |ts[k]| == 2 && Plain(ts[k])
    requires i < j < |ts| && if strict then UpperToken(ts[i]) == UpperToken(ts[j]) else ts[i] == ts[j]
    ensures Poll(g, Concat(ts), strict) == Rejected
  {
    assert !Distinct(ts, strict);
    ConcatCleans(ts);
    PollOnTokens(g, Concat(ts), ts, strict);
  }

  /** Plain two-character tokens written together survive cleaning and are cut apart again. */
  lemma ConcatCleans(ts: seq<string>)
    requires |ts| > 0 && forall i :: 0 <= i < |ts| ==> |ts[i]| == 2 && Plain(ts[i])
    ensures |Clean(Concat(ts))| > 0 && |Clean(Concat(ts))| % 2 == 0 && Tokens(Clean(Concat(ts))) == ts
  {
    PlainTokens(ts);
    CleanPlain(Concat(ts));
  }

  /** poll_instr on a text whose cleaned form cuts into the tokens ts. */
  lemma PollOnTokens(g: Game, text: string, ts: seq<string>, strict: bool)
    requires g.prev.Some? ==> g.prev.value < |g.pieces|
    requires |Clean(text)| > 0 && |Clean(text)| % 2 == 0 && Tokens(Clean(text)) == ts
    ensures !Distinct(ts, strict) ==> Poll(g, text, strict) == Rejected
    ensures (Distinct(ts, strict) && InBounds(SquareOf(ts[0])) && ChainPiece(g, ts).Some? &&
             g.pieces[ChainPiece(g, ts).value].value == |ts| - 1) ==>
      Poll(g, text, strict) == Legs(g, ts, ChainPiece(g, ts).value, SquareOf(ts[0]), 1, strict)
  {
  }

  /** A leg is accepted once its square is on the board, its delta names a and a passes poll_action. */
  lemma LegVerdictAccepts(g: Game, obj: nat, from: Loc, t: string, strict: bool, a: Action)
    requires obj < |g.pieces| && (g.prev.Some? ==> g.prev.value < |g.pieces|)
    requires InBounds(SquareOf(t)) && (strict ==> Adjacent(from, SquareOf(t)))
    requires DeltaToAction(g.pieces[obj].color, Sub(from, SquareOf(t))) == Some(a) && PollAction(g, obj, from, a)
    ensures LegVerdict(g, obj, from, t, strict) == Accepted
  {
  }

  /** Two Kings: Black's on D1 (index 0), White's on E8 (index 1), White having just moved. */
  function TwoKings(): Game {
    Game([Piece(King, Black, Loc(3, 0), Upright(), 1, 1, 1, false, [Loc(3, 0)]),
          Piece(King, White, Loc(4, 7), Upright(), 1, 1, 1, false, [Loc(4, 7)])], Some(1))
  }

  /**
   * As written, "D1F1" is accepted for Black's King although F1 is two files
   * away: the delta (-2, 0) wraps to FORWARD_LEFT, whose step from D1 lands on
   * C2. The corrected check rejects it.
   */
  lemma NonAdjacentLegAccepted()
    ensures PollInstrAsWritten(TwoKings(), "D1F1") == Accepted
    ensures DeltaToAction(Black, Sub(SquareOf("D1"), SquareOf("F1"))) == Some(ForwardLeft)
    ensures Add(SquareOf("D1"), ActionToDelta(Black, ForwardLeft)) == Loc(2, 1) != SquareOf("F1")
    ensures PollInstr(TwoKings(), "D1F1") == Rejected
  {
    assert "D1F1" == Concat(["D1", "F1"]);
    NonAdjacentLeg(TwoKings(), ["D1", "F1"]);
  }

  /** NonAdjacentLegAccepted with its constants passed in, so that they are not unfolded eagerly. */
  lemma NonAdjacentLeg(g: Game, ts: seq<string>)
    requires g == TwoKings() && ts == ["D1", "F1"]
    ensures PollInstrAsWritten(g, Concat(ts)) == Accepted
    ensures DeltaToAction(Black, Sub(SquareOf(ts[0]), SquareOf(ts[1]))) == Some(ForwardLeft)
    ensures Add(SquareOf(ts[0]), ActionToDelta(Black, ForwardLeft)) == Loc(2, 1) != SquareOf(ts[1])
    ensures PollInstr(g, Concat(ts)) == Rejected
  {
    KingChainStarts(g, ts);
    DeltaToActionWraps();
    KingLeg(g, ts[1]);
    assert Legs(g, ts, 0, Loc(3, 0), 1, false) == Accepted;
    assert Legs(g, ts, 0, Loc(3, 0), 1, true) == Rejected;
  }

  lemma KingChainStarts(g: Game, ts: seq<string>)
    requires g == TwoKings() && ts == ["D1", "F1"]
    ensures SquareOf(ts[0]) == Loc(3, 0) && SquareOf(ts[1]) == Loc(5, 0)
    ensures Poll(g, Concat(ts), false) == Legs(g, ts, 0, Loc(3, 0), 1, false)
    ensures Poll(g, Concat(ts), true) == Legs(g, ts, 0, Loc(3, 0), 1, true)
  {
    assert SquareOf(ts[0]) == Loc(3, 0) && SquareOf(ts[1]) == Loc(5, 0);
    assert Distinct(ts, false) && Distinct(ts, true) by {
      assert UpperToken(ts[0])[0] != UpperToken(ts[1])[0];
    }
    assert FindAt(g.pieces, Loc(3, 0), -1) == Some(0);
    ChainStart(g, ts, false, 0);
    ChainStart(g, ts, true, 0);
  }

  /** The leg D1-F1 of Black's King in TwoKings, as written and corrected. */
  lemma KingLeg(g: Game, u: string)
    requires g == TwoKings() && u == "F1"
    ensures LegVerdict(g, 0, Loc(3, 0), u, false) == Accepted
    ensures LegVerdict(g, 0, Loc(3, 0), u, true) == Rejected
  {
    assert SquareOf(u) == Loc(5, 0);
    DeltaToActionWraps();
    assert Add(Loc(3, 0), Loc(-1, 1)) == Loc(2, 1);
    GateHandsOver(g, 1, 0);
    KingRule(g, 0, Loc(3, 0), ForwardLeft);
    assert FindAt(g.pieces, Loc(2, 1), 0) == None;
  }

  /** A lone Black Dice showing 3 on D1 (index 0) after White's King has moved. */
  function LoneDie(): Game {
    Game([Piece(Dice, Black, Loc(3, 0), Showing(3), 3, 3, 3, false, [Loc(3, 0)]),
          Piece(King, White, Loc(4, 7), Upright(), 1, 1, 1, false, [Loc(4, 7)])], Some(1))
  }

  /**
   * As written, "D1D2E2d2" passes the distinctness check although d2 and D2
   * are the same square, so the chain returns to a square it has already
   * named. The corrected check rejects it.
   */
  lemma RepeatedSquareAccepted()
    ensures ValidGame(LoneDie())
    ensures PollInstrAsWritten(LoneDie(), "D1D2E2d2") == Accepted
    ensures SquareOf("D2") == SquareOf("d2")
    ensures PollInstr(LoneDie(), "D1D2E2d2") == Rejected
  {
    assert "D1D2E2d2" == Concat(["D1", "D2", "E2", "d2"]);
    RepeatedSquare(LoneDie(), ["D1", "D2", "E2", "d2"]);
    LoneDieValid(LoneDie());
  }

  /** LoneDie is a state of the game: its die shows its value and the King is at rest. */
  lemma LoneDieValid(g: Game)
    requires g == LoneDie()
    ensures ValidGame(g)
  {
    assert WellFormedPiece(g.pieces[0]) && WellFormedPiece(g.pieces[1]);
  }

  /** RepeatedSquareAccepted with its constants passed in. */
  lemma RepeatedSquare(g: Game, ts: seq<string>)
    requires g == LoneDie() && ts == ["D1", "D2", "E2", "d2"]
    ensures PollInstrAsWritten(g, Concat(ts)) == Accepted
    ensures SquareOf(ts[1]) == SquareOf(ts[3])
    ensures PollInstr(g, Concat(ts)) == Rejected
  {
    RepeatedTokens(ts);
    assert FindAt(g.pieces, Loc(3, 0), -1) == Some(0);
    ChainStart(g, ts, false, 0);
    ChainRepeats(g, ts, true, 1, 3);
    LoneDieIsLike();
    DieLegs(g, ts);
  }

  /** The tokens of "D1D2E2d2": plain, distinct as written, the second and fourth the same square. */
  lemma RepeatedTokens(ts: seq<string>)
    requires ts == ["D1", "D2", "E2", "d2"]
    ensures forall i :: 0 <= i < |ts| ==> |ts[i]| == 2 && Plain(ts[i])
    ensures SquareOf(ts[0]) == Loc(3, 0) && SquareOf(ts[1]) == Loc(3, 1) && SquareOf(ts[3]) == Loc(3, 1)
    ensures Distinct(ts, false) && UpperToken(ts[1]) == UpperToken(ts[3])
  {
    assert SquareOf(ts[0]) == Loc(3, 0) && SquareOf(ts[1]) == Loc(3, 1) && SquareOf(ts[3]) == Loc(3, 1);
    assert UpperToken(ts[1]) == UpperToken(ts[3]);
  }

  /** What the legs of "D1D2E2d2" need of LoneDie, kept apart from its constants. */
  predicate LoneDieLike(g: Game) {
    && |g.pieces| == 2 && g.prev == Some(1)
    && g.pieces[0].kind == Dice && g.pieces[0].color == Black && g.pieces[0].path == [Loc(3, 0)]
    && g.pieces[1].loc == Loc(4, 7) && Gate(g, 0)
  }

  lemma LoneDieIsLike()
    ensures LoneDieLike(LoneDie())
  {
    GateHandsOver(LoneDie(), 1, 0);
  }

  /** The three legs of "D1D2E2d2" for the die in LoneDie, as written. */
  lemma DieLegs(g: Game, ts: seq<string>)
    requires LoneDieLike(g) && ts == ["D1", "D2", "E2", "d2"]
    ensures Legs(g, ts, 0, Loc(3, 0), 1, false) == Accepted
  {
    DieLegVerdicts(g, ts);
    assert Legs(g, ts, 0, Loc(4, 1), 3, false) == Accepted;
    assert Legs(g, ts, 0, Loc(3, 1), 2, false) == Accepted;
  }

  lemma DieLegVerdicts(g: Game, ts: seq<string>)
    requires LoneDieLike(g) && ts == ["D1", "D2", "E2", "d2"]
    ensures SquareOf(ts[1]) == Loc(3, 1) && SquareOf(ts[2]) == Loc(4, 1) && SquareOf(ts[3]) == Loc(3, 1)
    ensures LegVerdict(g, 0, Loc(3, 0), ts[1], false) == Accepted
    ensures LegVerdict(g, 0, Loc(3, 1), ts[2], false) == Accepted
    ensures LegVerdict(g, 0, Loc(4, 1), ts[3], false) == Accepted
  {
    assert SquareOf(ts[1]) == Loc(3, 1) && SquareOf(ts[2]) == Loc(4, 1) && SquareOf(ts[3]) == Loc(3, 1);
    BlackSteps();
    LegAlone(g, Loc(3, 0), ts[1], Forward);
    LegAlone(g, Loc(3, 1), ts[2], Right);
    LegAlone(g, Loc(4, 1), ts[3], Left);
  }

  /** The three straight steps of the chain, for Black. */
  lemma BlackSteps()
    ensures ActionToDelta(Black, Forward) == Loc(0, 1) && DeltaToAction(Black, Loc(0, -1)) == Some(Forward)
    ensures ActionToDelta(Black, Right) == Loc(1, 0) && DeltaToAction(Black, Loc(-1, 0)) == Some(Right)
    ensures ActionToDelta(Black, Left) == Loc(-1, 0) && DeltaToAction(Black, Loc(1, 0)) == Some(Left)
  {
    assert IndexOf(Forward) == 7 && IndexOf(Right) == 5 && IndexOf(Left) == 3;
  }

  /** In LoneDie, Black's die may step between two empty squares other than D1. */
  lemma LegAlone(g: Game, from: Loc, t: string, a: Action)
    requires LoneDieLike(g)
    requires var to := SquareOf(t); InBounds(to) && to != Loc(3, 0) && to != Loc(4, 7)
    requires IsStraight(a) && Add(from, ActionToDelta(Black, a)) == SquareOf(t)
    requires DeltaToAction(Black, Sub(from, SquareOf(t))) == Some(a)
    ensures LegVerdict(g, 0, from, t, false) == Accepted
  {
    EmptyLeg(g, from, a);
    LegVerdictAccepts(g, 0, from, t, false, a);
  }

  lemma EmptyLeg(g: Game, from: Loc, a: Action)
    requires LoneDieLike(g) && IsStraight(a)
    requires var to := Dest(g, 0, from, a); InBounds(to) && to != Loc(3, 0) && to != Loc(4, 7)
    ensures PollAction(g, 0, from, a)
  {
    DiceRule(g, 0, from, a);
    assert FindAt(g.pieces, Dest(g, 0, from, a), 0) == None;
  }
}
