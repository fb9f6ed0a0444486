# Dice chess rules engine in Dafny

This project models the rules and turn engine of the dice chess Blender add-on (`main.py`). Each side fields a King, two Rooks and eight dice, one of which may be a Queen. A die moves as many straight steps as the pips it shows when it is picked up, and it rolls over by a quarter turn on every step. A King or a Rook moves one step. Taking the enemy King ends the game.

The model covers:

- the board geometry and algebraic notation;
- the colour-mirrored move names;
- the die-face table and the cube's rolls and flips;
- the turn gate and the four per-kind legality checks;
- the move bookkeeping (`counter`, `start`, `value`, `shared`, the squares visited since `start_loc`);
- captures and the holding rows;
- the initial placement from `Board.setup`;
- the pip sums and the start-colour rule;
- the instruction-chain check `poll_instr` and its replay `go`.

Blender objects become a `seq<Piece>` indexed by piece number. The scene's `rdc_game_prev_active` becomes `prev: Option<nat>`.

Modules:

- `Wrappers`: Option and Result.
- `Geometry`: squares, notation and move names (`main.py:143-210`, `362-366`, `473-484`).
- `Die`: the face table and the 24 cube orientations, as signed local axes facing up, north and east.
- `Rules`: pieces, the gate and `poll_action`.
- `Turn`: `move_start`, `move_end`, `capture`, `intersect_out` and `end`, as functions on a game value.
- `Scoring`: `sum_up` and `start`.
- `Setup`: `Board.setup`, `get_use_queen` and `set_use_queen`, and the placement done by `reset`.
- `Chain`: `poll_instr`.
- `Replay`: `go` and the move operator.
- `Engine`: a `Board` class. It holds the pieces, `prev`, the `do_flip` setting and the setup string in fields. Its methods update those fields with the source's loops, and each method is proved equal to the functions above.

Behaviour of the code that the model keeps, though it may surprise:

- The side with the **lower** pip sum moves first. On a full tie of the home-rank comparison, Black moves first.
- The tie-break reads files 0-6 of each home rank into slots `(f-4) mod 7` (Black) and `(3-f) mod 7` (White). File 7 is never read.
- `algebraic_to_loc` accepts a letter of either case followed by a digit, and does no bounds check. The model decodes ASCII letters and digits only (see "## Left out").
- `delta_to_action` does not reject deltas of more than one step. Python's negative indexing makes some of them wrap onto another name, and others raise `IndexError`.
- `value_to_rotation` is not the inverse of `rotation_to_value`: it exchanges 2 and 6.
- A Queen may step onto an enemy on any step, but the enemy is taken only when the counter reaches 0. Before that the two pieces share the square.
- `poll_instr` checks each leg against the piece's real `counter`, `shared` flag and visited squares. Only the starting square of each leg is taken from the chain.
- `go` keeps going after the operator refuses a leg.
- The flip makes `value` become `7 - value`.

## Model

| member | source | states |
|---|---|---|
| Geometry.AlgebraicToLoc | main.py:205-210 | succeeds iff the token is exactly a letter then a digit; the file is the upper-cased letter's offset from 'A'; the rank is the digit minus one (-1..8), with no bounds check |
| Geometry.LocToAlgebraic | main.py:196-202 | every on-board square prints as a letter A-H and a digit 1-8, and `algebraic_to_loc` reads it back to the same square |
| Geometry.AlgebraicCanonical | main.py:196-210 | a token that decodes prints back as its upper-cased form |
| Geometry.AlgebraicExamples | main.py:205-210 | lowercase is accepted; "Z9" decodes to an off-board square; "A0" gives rank -1; "4e" and "E" are refused |
| Geometry.IndexOf | main.py:362-366 | the position of a name in `move_names` is the unique index holding it |
| Geometry.StraightNames | main.py:366 | the straight names (odd indices) are exactly BACKWARD, LEFT, RIGHT and FORWARD |
| Geometry.ActionToDelta | main.py:473-476 | every name gives a unit-or-zero delta; the zero delta belongs to NONE only; a straight name moves along exactly one axis |
| Geometry.ForwardIsTowardOpponent | main.py:473-476 | FORWARD is +y for Black and -y for White; RIGHT is +x for Black; White's deltas are Black's negated |
| Geometry.DeltaToAction | main.py:478-481 | a name is found exactly when the computed index lies in -9..8; negative indices wrap as Python's do |
| Geometry.DeltaToActionInverts | main.py:473-481 | applied to (source - destination) of any of the nine names, `delta_to_action` returns that name |
| Geometry.UnitDeltaDecodes | main.py:473-481 | every delta with both components in -1..1 decodes to a name whose step undoes it |
| Geometry.DeltaToActionWraps | main.py:478-481 | for Black the two-square delta (-2,0) wraps to FORWARD_LEFT, whose own step is (-1,1); (0,-3) raises |
| Die.ValueMatrix | main.py:531-532 | the face table is (6,4,2,0,5,3,1) |
| Die.RotationToValue | main.py:594-601 | the face value of every signed up-axis lies in 1..6 |
| Die.FaceValuesBijective | main.py:594-601 | the six signed axes map one-to-one onto 1..6 |
| Die.OppositeFacesSumToSeven | main.py:531-532 | opposite axes give values that sum to 7 |
| Die.ValueToRotationRoundTrip | main.py:603-610 | `rotation_to_value(value_to_rotation(v))` is v for 1, 3, 4 and 5, and exchanges 2 and 6 |
| Die.RotatedTable | main.py:564-574 | each quarter turn about global X or Y moves the up, north and east axes as a right-handed rotation does |
| Die.RotatedValid | main.py:564-574 | a quarter turn keeps the orientation a proper rotation |
| Die.RotatedUndo | main.py:564-574 | turning back by the opposite quarter turn restores the orientation |
| Die.TipOver | main.py:564-574 | tipping toward a side brings that side's face to the bottom and the opposite face to the top |
| Die.RollIsTip | main.py:564-574 | the roll for a straight name is the tip about the horizontal axis across the direction of travel, sign mirrored by colour |
| Die.RollFollowsTravel | main.py:564-574 | after a step the face that was on the trailing side is up, so the die rolls over in the direction it travels |
| Die.RollValid | main.py:564-574 | a roll keeps the orientation a proper rotation |
| Die.FlipValue | main.py:586-592 | the 180-degree flip keeps the orientation proper and turns the value into 7 - value |
| Rules.FindAt | main.py:128-141 | `intersect_board` finds the first other piece on the square, and finds none only when no other piece stands there |
| Rules.FindAtUnchanged | main.py:128-141 | the search depends only on where the pieces stand |
| Rules.Gate | main.py:401-407 | with no previous piece everyone may act; otherwise a piece may act iff it is the previous piece and that piece is unfinished, or it is of the other colour and the previous piece is finished |
| Rules.GateHandsOver | main.py:401-407 | once the previous piece has finished, exactly the other side's pieces may act; while it has steps left, only it may |
| Rules.SingleStepKindsCannotRepeat | main.py:401-407 | a King or Rook (counter == start == 1) never acts twice in a row |
| Rules.Target | main.py:395-416 | the base `poll_action` gives a square iff the gate passes, the name is in the move set and the destination is on the board; the square is the source plus the colour-mirrored delta |
| Rules.PollActionSound | main.py:452-644 | an accepted step passes the gate, follows the move set and stays on the board; it never enters an enemy Rook's square; only an unshared Queen with steps left enters an ally's square; a die entering an empty square has not visited it since `start_loc` |
| Rules.KingRule | main.py:498-513 | a King may go to any in-bounds square, via any of the nine names, that is empty or holds an enemy other than a Rook |
| Rules.RookRule | main.py:516-524 | a Rook moves straight to empty squares only |
| Rules.DiceRule | main.py:527-562 | a die moves straight to an empty square it has not visited, or onto an enemy non-Rook on its last step only; never onto an ally |
| Rules.QueenRule | main.py:620-644 | a Queen moves like a die on empty squares; onto an ally only with steps left and not yet shared; onto an enemy non-Rook unless it has shared and has steps left |
| Turn.HoldingRow | main.py:491-492 | the holding row is 9 for White and -2 for Black |
| Turn.HoldingX | main.py:149-163 | the file `intersect_out` settles on is the first free file at or after the start, and every file before it is held |
| Turn.HoldingXSameLocs | main.py:149-163 | the relocation depends only on where the other pieces stand |
| Turn.Capture | main.py:486-495 | the first other piece on the mover's square goes to its holding row at the first free file; nothing else changes; taking a King makes the King the previous piece and reports the mover's colour as winner |
| Turn.StartStep | main.py:422-443 | `move_start` keeps the number of pieces and the previous piece |
| Turn.EndStep | main.py:445-450 | `move_end` keeps the number of pieces and always sets a previous piece |
| Turn.Step | main.py:418-420 | a move keeps the number of pieces and always leaves a valid previous piece |
| Turn.MarkedFacts | main.py:422-450 | after the step and before the capture, only the mover has changed: it has moved or rolled, and a Queen landing on an occupied square is marked shared |
| Turn.StepCapture | main.py:486-495 | the piece taken is the first other piece on the destination, and it is sent out as from the state just after `move_start` |
| Turn.StepOthers | main.py:418-450 | a move changes only the mover and the taken piece, and the taken piece goes to its holding row |
| Turn.StepPrevAndWinner | main.py:245-250 | after a move the previous piece is the mover, or the taken King; the winner is reported only when a King was taken |
| Turn.StepKingOrRook | main.py:418-450 | a King or Rook moves to the destination and changes nothing else of its own |
| Turn.StepDieMidway | main.py:564-584 | a die with steps left rolls onto the destination, counts down by one and marks the square; a Queen landing on an occupied square sets `shared` |
| Turn.ResetDieFacts | main.py:544-548 | `reset` sets start = counter = value, flipped to 7 - value when flipping is on and the value equals start; the visited squares restart at the current square; a Queen's `shared` is cleared |
| Turn.StepDieLast | main.py:564-592 | a die's last step rolls it, captures, and starts a new activation on the destination with the (possibly flipped) rolled value |
| Turn.StepPreservesValid | main.py:418-450 | a move keeps every piece well formed: a die shows the value of its orientation, has 1 <= counter <= start <= 6 and a non-empty visited list, and only a Queen may be shared; a King or Rook keeps value = start = counter = 1 |
| Turn.LegalStepTakesEnemyNonRook | main.py:486-495 | a legal move only ever takes an enemy piece that is not a Rook, so no Rook is ever captured |
| Turn.StepKeepsIdentity | main.py:418-450 | moves never change a piece's kind or colour |
| Turn.StepFinishes | main.py:564-584 | after a move the mover is finished iff it is a King or Rook, or a die that was on its last step |
| Turn.GateAfterStep | main.py:401-407 | after a move that takes no King, the next mover is the same piece while it has steps left; otherwise it is any piece of the other colour |
| Turn.KingTakenEndsLosersTurns | main.py:245-250 | after a King is taken the mover's side is reported as winner and the gate refuses every piece of the loser's colour |
| Turn.HeldPieceCannotMove | main.py:395-416 | a piece on a holding row can make no move |
| Turn.TakenPieceIsOut | main.py:486-495 | a taken piece ends off the board and can make no move |
| Scoring.Sums | main.py:183-193 | the pair holds each colour's on-board dice and Queen values; it is swapped iff flipping is asked for and the active piece is White |
| Scoring.SumsPutActiveFirst | main.py:183-193 | with flipping on, the active colour's sum comes first |
| Scoring.ColorSumBounds | main.py:183-193 | a colour's sum lies between 0 and 6 per piece |
| Scoring.ColorSumUpdate | main.py:183-193 | replacing one piece changes the sum by exactly the difference of their contributions |
| Scoring.StepLowersTakenSideSum | main.py:183-193 | taking a die lowers its side's sum by its value; taking a King leaves the sum alone |
| Scoring.HomeFile | main.py:225-227 | every tie-break slot 0..6 comes from exactly one file 0..6 |
| Scoring.HomeIndexBijective | main.py:225-227 | the file-to-slot map is undone by the slot-to-file map |
| Scoring.HomeSlots | main.py:221-228 | slot 0 compares Black file 4 with White file 3; slot 3 compares the two files 0; file 7 is never read |
| Scoring.HomeValues | main.py:218-230 | the values list holds, per slot, the value of the piece on that home-rank square, or 1 for an empty square (corrected; see Findings main.py:222) |
| Scoring.TieBreakFirstDifference | main.py:231-236 | the tie-break gives White the move iff Black's value is larger at the first differing slot |
| Scoring.TieBreakEqualIsBlack | main.py:235-236 | identical values lists give Black the move |
| Scoring.LowerSumMovesFirst | main.py:213-216 | with unequal sums, the side with the lower sum moves first |
| Scoring.EqualSumsTieBreak | main.py:217-236 | with equal sums, White moves first iff Black's value is larger at the first differing home slot |
| Scoring.FindKeyAgrees | main.py:137-140 | looking a square up by its three-component key agrees with the square search |
| Scoring.TieBreakAsWrittenIgnoresBoard | main.py:222 | as written, the home lookup passes 2-tuples and never finds a piece, so every slot reads 1 and equal sums always give Black the move |
| Scoring.TieBreakCounterexample | main.py:213-236 | a board of well-formed pieces with equal sums where the intended rule gives White the move but the code gives it to Black |
| Setup.SetUseQueen | main.py:657-658 | `set_use_queen` changes only character 4 of the setup |
| Setup.UseQueenRoundTrip | main.py:654-658 | `get_use_queen` reads back what `set_use_queen` wrote, and setting twice is setting once |
| Setup.DefaultUsesQueen | main.py:654-658 | the default setup has a Queen; switching it off and on again restores it |
| Setup.SplitJoin | main.py:109 | splitting joined lines on newlines gives the lines back |
| Setup.DefaultLines | main.py:109 | the default setup splits into "DDDKQDDD" and "   RR   " |
| Setup.Reverse | main.py:110 | White reads each rank reversed |
| Setup.PlaceRankSpots | main.py:109-118 | a rank places exactly one piece for each piece letter, on that letter's file |
| Setup.PlaceLinesSpots | main.py:108-118 | Black's rank r is board rank r; White's is 7 - r, its letters read right to left |
| Setup.PlacementMirrored | main.py:108-118 | every White piece stands on the point reflection of a Black piece of the same kind, and the other way round |
| Setup.DefaultSquaresDistinct | main.py:108-118 | the default placement puts no two pieces on one square |
| Setup.DefaultPlacement | main.py:102-125 | the default setup places Black's dice, King, Queen and Rooks on ranks 0-1 and the mirrored White army on ranks 6-7 |
| Setup.DefaultSpotsFacts | main.py:102-125 | the default placement has 20 pieces; each King, Queen and Rook stands on its d- or e-file square; every piece is on the board and no two share a square |
| Chain.StripStart | main.py:264 | `strip()` drops exactly the leading whitespace |
| Chain.StripEnd | main.py:264 | `strip()` drops exactly the trailing whitespace |
| Chain.RemoveSpaces | main.py:264 | `replace(' ', '')` keeps exactly the characters other than a space |
| Chain.CleanFacts | main.py:264 | the cleaned text has no space and neither starts nor ends with whitespace |
| Chain.Tokens | main.py:267 | an even-length text splits into |text|/2 tokens of two characters; an odd-length one ends with a one-character token holding its last character |
| Chain.TokensConcat | main.py:267 | the tokens written together again give back the text, so slicing loses and adds nothing |
| Chain.TokenAt | main.py:267 | token i is characters 2i and 2i+1 |
| Chain.SquareOf | main.py:277 | a token's square is the square `algebraic_to_loc` decodes it to |
| Chain.SameSquare | main.py:268-271 | two tokens name the same square iff they are equal once upper-cased |
| Chain.LegVerdict | main.py:276-297 | a leg is accepted iff its square is on the board and `poll_action` passes from the previous token's square under the name `delta_to_action` gives |
| Chain.LegsAccepted | main.py:275-297 | the leg loop accepts iff every remaining leg is accepted |
| Chain.PollAcceptsExactly | main.py:262-298 | `poll_instr` accepts iff the text is non-empty and even; the tokens are distinct; every token decodes and is on the board; the first holds a piece whose value is the token count - 1; and every later leg passes `poll_action` |
| Chain.ChainNeedsALeg | main.py:286-287 | a one-token chain is refused, since no piece has value 0 |
| Chain.PollInstrNeverRaises | main.py:262-298 | the corrected `poll_instr` never raises on any text: decode errors become refusals, and a leg is named only after it is found to be a single step |
| Chain.AcceptedLegsLandOnTokens | main.py:291-294 | each leg of an accepted chain names the move that lands exactly on the leg's second square |
| Chain.AcceptedSquaresDistinct | main.py:268-271 | an accepted chain never names one square twice |
| Chain.CorrectedNarrowsAsWritten | main.py:262-298 | every chain the corrected check accepts is accepted as written too |
| Chain.ChainStart | main.py:273-289 | for a chain whose first token finds a piece of the right value, the verdict is that of its legs |
| Chain.ChainRepeats | main.py:268-271 | a chain repeating a token is refused |
| Chain.NonAdjacentLegAccepted | main.py:291-294 | as written, "D1F1" is accepted for a Black King on D1 because the two-square delta wraps to FORWARD_LEFT, whose step lands on C2; the corrected check refuses it |
| Chain.RepeatedSquareAccepted | main.py:268-271 | as written, "D1D2E2d2" is accepted for a Black die of value 3 on D1, in a valid game, though it revisits D2; the corrected check refuses it |
| Replay.Execute | main.py:352-358 | the move operator changes nothing unless `poll_action` passes from the piece's own square |
| Replay.ExecutePreservesValid | main.py:352-358 | the operator keeps a valid game valid |
| Replay.GoLegs | main.py:307-319 | the leg loop of `go` keeps the number of pieces |
| Replay.GoLegsNext | main.py:315-319 | a leg whose delta names a real move runs the operator and goes on with the next token |
| Replay.Squares | main.py:304-308 | the squares a chain names, token by token |
| Replay.AcceptedChain | main.py:262-298 | an accepted chain's tokens decode, lie on the board, are distinct, start on the piece, and each leg passes `poll_action` |
| Replay.LegPollsAgain | main.py:315-319 | during replay, each leg of an accepted chain passes `poll_action` again from the piece's new square |
| Replay.Go | main.py:301-312 | an empty text leaves the game alone without raising; a first token that does not decode, or whose square holds no piece, raises and changes nothing |
| Replay.OddTextRaises | main.py:301-309 | on a text of odd length `go` always raises, at an earlier leg or at the final one-character token |
| Replay.LastTokenRaises | main.py:307-312 | when the last token does not decode, the leg loop raises from any leg, whatever the earlier legs do |
| Replay.GoReplaysChain | main.py:301-319 | replaying an accepted chain for a piece at rest never raises, carries the piece to the last square and ends its activation; a Dice chain of several legs changes no other piece |
| Engine.InitPiece | main.py:385-393 | a new piece has the kind, colour and square of its placement; it is well formed, at rest and not shared; a die shows the value of its orientation |
| Engine.FirstOf | main.py:239-241 | `objects[0]` of a colour is the first piece of that colour, and none is found only when the colour has no piece |
| Engine.StartGivesTheMove | main.py:239-241 | making a finished piece of the other colour the previous piece lets exactly the starting colour act |
| Engine.TokensDistinct | main.py:268-271 | the nested loop answers whether the tokens, upper-cased, are pairwise distinct (corrected; see Findings main.py:268-271) |
| Engine.Board.constructor | main.py:76-87 | a new board has no pieces, no previous piece and the default setup |
| Engine.Board.Reset | main.py:90-125 | reset places one initialised piece per placement spot, clears the previous piece and leaves a valid game |
| Engine.Board.IntersectBoard | main.py:128-141 | the scan returns the first other piece on the square |
| Engine.Board.HeldAt | main.py:152-159 | the inner scan tells whether another piece holds the file on the holding row |
| Engine.Board.IntersectOut | main.py:149-163 | the loop moves the piece to the first free file of its holding row and changes nothing else |
| Engine.Board.Capture | main.py:486-495 | the method's new state and winner are those of `Turn.Capture` |
| Engine.Board.MoveStart | main.py:422-443 | the method's new state is that of `Turn.StartStep` |
| Engine.Board.MoveEnd | main.py:445-450 | the method's new state and winner are those of `Turn.EndStep` |
| Engine.Board.Move | main.py:418-420 | the method's new state and winner are those of `Turn.Step` |
| Engine.Board.Execute | main.py:352-358 | the method reports whether `poll_action` passed, and its new state is that of `Replay.Execute` |
| Engine.Board.SumUp | main.py:183-193 | the accumulating loop returns `Scoring.Sums` |
| Engine.Board.HomeValuesOf | main.py:219-230 | the loop over files 0-6 builds `Scoring.HomeValues`, with empty squares counting as 1 (corrected; see Findings main.py:222) |
| Engine.Board.Start | main.py:213-242 | the method returns `Scoring.StartColor` and makes the first piece of the other colour the previous piece; it raises, changing nothing, when that colour has no piece |
| Engine.Board.PollInstr | main.py:262-298 | the method's verdict is that of the corrected `Chain.PollInstr` |
| Engine.Board.CheckLegs | main.py:275-297 | the leg loop returns the verdict of `Chain.Legs` with strict legs, which refuse a non-adjacent leg (corrected; see Findings main.py:291-294) |
| Engine.Board.Go | main.py:301-319 | the method's final state, last winner and raise are those of `Replay.Go` |
| Engine.Board.GoLegsFrom | main.py:307-319 | the leg loop leaves what `Replay.GoLegs` gives |
| Engine.Board.GoLeg | main.py:315-319 | one leg raises or runs the operator exactly as `Replay.GoLegs` does for that token |
| Engine.Board.SetUseQueen | main.py:657-658 | the setup becomes `Setup.SetUseQueen` of the old one and reads back the value written |

## Left out

- Blender glue is not modelled: the scene, undo and redo, the view operator, keyframe insertion, `frame_set`, selection handling and report messages. The visited-squares list `path` stands in for `is_on_path`'s F-curve scan.
- Float locations and Euler rotations, and `round()`, are not modelled. Squares are integer pairs; orientations are the 24 proper cube rotations. The z coordinate is dropped.
- `randomize` (main.py:252-259, 612-617) is not modelled because it uses a seeded random generator. The orientations are a parameter of `Engine.Board.Reset`. Overwriting `rotation_euler.z` does not change the face that is up.
- Looking pieces up by name prefix and collection membership (`get_fuzzy`, `get_type`, `get_color`) is not modelled. Kind and colour are fields of the piece.
- The export-string bookkeeping in `move_start` (main.py:429-443) is not modelled. It only fills a display field.
- `Chain.Strip` only treats ASCII whitespace as whitespace. Python's `strip()` also removes other Unicode whitespace.
- Geometry.AlgebraicToLoc: only ASCII letters and digits decode. Python's `isalpha` and `isdigit` accept any Unicode letter or digit: the source reads "A\u0661" (an Arabic-Indic one) as A1, where the model fails it. A letter whose upper case is two characters, such as 'ß', makes `ord` raise `TypeError`, which `poll_instr` does not catch; the model rejects that token instead.
- `Replay.GoReplaysChain` does not cover multi-leg Queen chains, whose legs may pass onto allies and set `shared` during the replay.
- Die.RollIsTip: the sign of each quarter turn is the one that makes the die roll over in its direction of travel. The source's own sign convention for `rotate` is a Blender call and is not part of this model.
- `go` with an action of NONE raises in the operator, because the operator's enum lacks it. The model treats that as raised.
- Replay.Go: only the last winner reported is kept.
- Engine.Board.SetUseQueen requires the setup to have more than four characters. Python's slicing would quietly append to a shorter string, which no setup in the source is.
- Engine.Board.Start: models the corrected tie-break of Findings main.py:222. The as-written behaviour is `Scoring.StartColorAsWritten`.
- Engine.Board.PollInstr: models the corrected `poll_instr` of Findings main.py:268-271 and main.py:291-294. The as-written behaviour is `Chain.PollInstrAsWritten`.
- Scoring.HomeValues: reads the piece on each home square, as the corrected tie-break of Findings main.py:222 does. The source never finds one and fills every slot with 1; that is `Scoring.HomeValuesAsWritten`.
- Engine.Board.HomeValuesOf: builds the corrected `Scoring.HomeValues` of Findings main.py:222, so its lookup finds pieces that the source's 2-tuple never finds.
- Engine.TokensDistinct: compares upper-cased tokens, the corrected repeated-square test of Findings main.py:268-271. The source compares raw tokens, as `Chain.Distinct` without strict does.
- Engine.Board.CheckLegs: returns `Chain.Legs` with strict legs, the corrected check of Findings main.py:291-294, and so refuses the non-adjacent legs the source accepts. The as-written leg check is `Chain.Legs` without strict legs, used by `Chain.PollInstrAsWritten`.
- Registration, panels, settings, key maps, clipboard and mesh building are outside the rules engine and are not modelled.

## Findings

| source | as written | input that shows it | evidently intended | confidence | as-written member | corrected member |
|---|---|---|---|---|---|---|
| main.py:222 | the home lookup passes a 2-tuple location, which never equals a piece's 3-tuple location, so every slot reads 1 | equal sums of 7; Black Queen 6 on E1 and die 1 on F1; White Queen 5 on D8 and die 2 on C8 | the tie-break reads the pieces on the home ranks, so White moves first here | not executed | Scoring.TieBreakCounterexample | Scoring.EqualSumsTieBreak |
| main.py:291-294 | a leg of two or more squares is accepted when its wrapped move name passes `poll_action`, though that move lands elsewhere | "D1F1" with a Black King on D1 and the White King on E8, which moved last: the delta (-2,0) wraps to FORWARD_LEFT, which lands on C2 | every leg is a single step that lands on the next token | not executed | Chain.NonAdjacentLegAccepted | Chain.AcceptedLegsLandOnTokens |
| main.py:268-271 | the repeated-square test compares raw tokens, so "D2" and "d2" count as different squares | "D1D2E2d2" with a lone Black die of value 3 on D1 | a chain never names one square twice | not executed | Chain.RepeatedSquareAccepted | Chain.AcceptedSquaresDistinct |
