/**
 * The cube of a Dice or Queen piece: which face is up, the pip value it shows,
 * and how the cube turns when it rolls or flips.
 *
 * A cube orientation is kept as the three signed local axes of the cube that
 * currently face world up (+Z), north (+Y) and east (+X); the 24 right-handed
 * such triples are the 24 cube rotations.
 */
module Die {
  import opened Geometry

  datatype Axis = X | Y | Z

  /** A signed unit axis: +X, -X, +Y, -Y, +Z or -Z. */
  datatype Dir = Dir(axis: Axis, positive: bool)

  function Neg(d: Dir): Dir {
    Dir(d.axis, !d.positive)
  }

  /** The component of the unit vector d along axis a. */
  function Comp(d: Dir, a: Axis): int {
    if d.axis != a then 0 else if d.positive then 1 else -1
  }

  // ---------------------------------------------------------------------
  // Face values
  // ---------------------------------------------------------------------

  const Chirality: bool := true

  /**
   * Dice.value_matrix, built from the source's formula over n = 6, 5, ..., 0
   * (reversed because of the chirality); slot 3 is never read.
   */
  function ValueMatrix(): (m: seq<int>)
    ensures m == [6, 4, 2, 0, 5, 3, 1]
  {
    seq(7, i requires 0 <= i < 7 =>
      var n := if Chirality then 6 - i else i;
      (n - (if n >= 3 then 3 else 0)) * 2 + (if n < 3 then 1 else 0))
  }

  /** sum(comp * (index + 1) + 1), that is x + 2y + 3z + 3. */
  function FaceIndex(d: Dir): (i: int)
    ensures 0 <= i < 7 && i != 3
  {
    (Comp(d, X) * 1 + 1) + (Comp(d, Y) * 2 + 1) + (Comp(d, Z) * 3 + 1)
  }

  /** rotation_to_value: the value of the local axis that faces world up. */
  function RotationToValue(up: Dir): (v: int)
    ensures 1 <= v <= 6
  {
    ValueMatrix()[FaceIndex(up)]
  }

  /** The six unit vectors show six different values, and each of 1..6 is shown. */
  lemma FaceValuesBijective(a: Dir, b: Dir, v: int)
    ensures RotationToValue(a) == RotationToValue(b) ==> a == b
    ensures 1 <= v <= 6 ==> exists d :: RotationToValue(d) == v
  {
    if 1 <= v <= 6 {
      var d :=
        if v == 1 then Dir(Z, true) else if v == 2 then Dir(X, false)
        else if v == 3 then Dir(Y, true) else if v == 4 then Dir(Y, false)
        else if v == 5 then Dir(X, true) else Dir(Z, false);
      assert RotationToValue(d) == v;
    }
  }

  /** Opposite faces add up to seven. */
  lemma OppositeFacesSumToSeven(d: Dir)
    ensures RotationToValue(d) + RotationToValue(Neg(d)) == 7
  {
  }

  /** list.index: the first position of v. */
  function FirstIndex(s: seq<int>, v: int): (i: nat)
    requires v in s
    ensures i < |s| && s[i] == v && v !in s[..i]
  {
    if s[0] == v then 0
    else
      assert s == [s[0]] + s[1..];
      1 + FirstIndex(s[1..], v)
  }

  /**
   * value_to_rotation, reduced to the up vector it sets: skip slot 3, then
   * divmod(index, 3) gives the sign (-1 + 2 * quotient) and the axis (remainder).
   */
  function ValueToRotation(v: int): (up: Dir)
    requires 1 <= v <= 6
  {
    var index := FirstIndex(ValueMatrix(), v);
    var index := if index > 3 then index - 1 else index;
    var r := index % 3;
    Dir(if r == 0 then X else if r == 1 then Y else Z, index / 3 == 1)
  }

  /**
   * value_to_rotation is not the inverse of rotation_to_value: reading the
   * face back fixes 1, 3, 4 and 5 but exchanges 2 and 6.
   */
  lemma ValueToRotationRoundTrip(v: int)
    requires 1 <= v <= 6
    ensures RotationToValue(ValueToRotation(v)) == if v == 2 then 6 else if v == 6 then 2 else v
  {
    var m := ValueMatrix();
    if v == 6 { FirstIndexAt(m, v, 0); }
    else if v == 4 { FirstIndexAt(m, v, 1); }
    else if v == 2 { FirstIndexAt(m, v, 2); }
    else if v == 5 { FirstIndexAt(m, v, 4); }
    else if v == 3 { FirstIndexAt(m, v, 5); }
    else { FirstIndexAt(m, v, 6); }
  }

  /** The first position of v is the i where it occurs with no earlier occurrence. */
  lemma {:induction false} FirstIndexAt(s: seq<int>, v: int, i: nat)
    requires i < |s| && s[i] == v && forall j :: 0 <= j < i ==> s[j] != v
    ensures FirstIndex(s, v) == i
  {
    if i > 0 {
      FirstIndexAt(s[1..], v, i - 1);
    }
  }

  // ---------------------------------------------------------------------
  // Orientation and turning
  // ---------------------------------------------------------------------

  datatype Orientation = Orientation(up: Dir, north: Dir, east: Dir)

  function Next(a: Axis): Axis {
    match a
    case X => Y
    case Y => Z
    case Z => X
  }

  /** The cross product of two unit vectors on different axes. */
  function Cross(a: Dir, b: Dir): (r: Dir)
    requires a.axis != b.axis
    ensures r.axis != a.axis && r.axis != b.axis
  {
    var third := if a.axis != X && b.axis != X then X else if a.axis != Y && b.axis != Y then Y else Z;
    Dir(third, (b.axis == Next(a.axis)) == (a.positive == b.positive))
  }

  /** One of the 24 rotations of a cube: three distinct axes, right-handed. */
  predicate ValidOrientation(o: Orientation) {
    && o.up.axis != o.north.axis
    && o.north.axis != o.east.axis
    && o.east.axis != o.up.axis
    && Cross(o.east, o.north) == o.up
  }

  /** The pip value the cube shows. */
  function Value(o: Orientation): (v: int)
    ensures 1 <= v <= 6
  {
    RotationToValue(o.up)
  }

  /** The cube as it stands after a reset with no rotation: +Z up, +Y north, +X east. */
  function Upright(): Orientation {
    Orientation(Dir(Z, true), Dir(Y, true), Dir(X, true))
  }

  /** A proper orientation with local axis d facing up. */
  function Standing(d: Dir): (o: Orientation)
    ensures ValidOrientation(o) && o.up == d
  {
    match d.axis
    case Z => if d.positive then Upright() else Orientation(d, Dir(Y, true), Dir(X, false))
    case X => Orientation(d, Dir(Y, true), Dir(Z, !d.positive))
    case Y => Orientation(d, Dir(Z, true), Dir(X, !d.positive))
  }

  /** A proper orientation whose up face shows v. */
  function Showing(v: int): (o: Orientation)
    requires 1 <= v <= 6
    ensures ValidOrientation(o) && Value(o) == v
  {
    Standing(if v == 1 then Dir(Z, true) else if v == 2 then Dir(X, false)
             else if v == 3 then Dir(Y, true) else if v == 4 then Dir(Y, false)
             else if v == 5 then Dir(X, true) else Dir(Z, false))
  }

  /** The local axis of the cube that faces the world direction w. */
  function Facing(o: Orientation, w: Dir): Dir {
    var f := match w.axis case Z => o.up case Y => o.north case X => o.east;
    if w.positive then f else Neg(f)
  }

  /** A right-handed quarter turn of the world about axis a (X: Y to Z, Z to -Y). */
  function Turn(a: Axis, w: Dir): Dir {
    if w.axis == a then w
    else if w.axis == Next(a) then Dir(Next(Next(a)), w.positive)
    else Dir(Next(a), !w.positive)
  }

  /**
   * The cube after the world is turned by a quarter turn about axis a. The
   * host's rotate operator turns the object clockwise (seen from the positive
   * axis) for a positive value, so the local axis now facing w is the one that
   * faced the counter-clockwise turn of w before.
   */
  function Rotated(o: Orientation, a: Axis, positiveValue: bool): Orientation {
    Orientation(Facing(o, Back(a, positiveValue, Dir(Z, true))),
                Facing(o, Back(a, positiveValue, Dir(Y, true))),
                Facing(o, Back(a, positiveValue, Dir(X, true))))
  }

  /** The world direction that the turn about a carries onto w. */
  function Back(a: Axis, positiveValue: bool, w: Dir): Dir {
    if positiveValue then Turn(a, w) else Turn(a, Turn(a, Turn(a, w)))
  }

  /** Dice.rot_names. */
  const RotNames: seq<Action> := [Backward, Forward, Right, Left]

  /**
   * Dice.move_start's roll: divmod(rot_names.index(action), 2) picks the
   * global axis (X, Y) and the sign of the 90 degrees, mirrored for White.
   */
  function Roll(o: Orientation, c: Color, a: Action): Orientation
    requires IsStraight(a)
  {
    var index := if a == Backward then 0 else if a == Forward then 1 else if a == Right then 2 else 3;
    assert RotNames[index] == a;
    var axis := if index / 2 == 0 then X else Y;
    var sign := -1 + (index % 2) * 2;
    Rotated(o, axis, Scale(c, sign) > 0)
  }

  /** The world direction of a one-square straight step. */
  function StepDir(d: Loc): Dir
    requires (d.x == 0) != (d.y == 0)
  {
    if d.x != 0 then Dir(X, d.x > 0) else Dir(Y, d.y > 0)
  }

  /** Dice.flip: half a turn about the global X axis. */
  function Flip(o: Orientation): Orientation {
    Rotated(Rotated(o, X, true), X, true)
  }

  /** The four quarter turns the engine uses, written out. */
  lemma RotatedTable(o: Orientation, a: Axis, positiveValue: bool)
    requires a != Z
    ensures a == X && positiveValue ==> Rotated(o, a, positiveValue) == Orientation(Neg(o.north), o.up, o.east)
    ensures a == X && !positiveValue ==> Rotated(o, a, positiveValue) == Orientation(o.north, Neg(o.up), o.east)
    ensures a == Y && positiveValue ==> Rotated(o, a, positiveValue) == Orientation(o.east, o.north, Neg(o.up))
    ensures a == Y && !positiveValue ==> Rotated(o, a, positiveValue) == Orientation(Neg(o.east), o.north, o.up)
  {
    var up, north, east := Dir(Z, true), Dir(Y, true), Dir(X, true);
    if a == X {
      if positiveValue {
        assert Back(a, positiveValue, up) == Dir(Y, false) && Back(a, positiveValue, north) == up;
      } else {
        assert Back(a, positiveValue, up) == north && Back(a, positiveValue, north) == Dir(Z, false);
      }
      assert Back(a, positiveValue, east) == east;
    } else {
      if positiveValue {
        assert Back(a, positiveValue, up) == east && Back(a, positiveValue, east) == Dir(Z, false);
      } else {
        assert Back(a, positiveValue, up) == Dir(X, false) && Back(a, positiveValue, east) == up;
      }
      assert Back(a, positiveValue, north) == north;
    }
  }

  lemma RotatedValid(o: Orientation, a: Axis, positiveValue: bool)
    requires a != Z
    requires ValidOrientation(o)
    ensures ValidOrientation(Rotated(o, a, positiveValue))
  {
    RotatedTable(o, a, positiveValue);
    match o.up.axis
    case X =>
    case Y =>
    case Z =>
  }

  /** A flip turns the opposite face up: the value becomes 7 - value. */
  lemma FlipValue(o: Orientation)
    requires ValidOrientation(o)
    ensures ValidOrientation(Flip(o))
    ensures Value(Flip(o)) == 7 - Value(o)
  {
    RotatedValid(o, X, true);
    OppositeFacesSumToSeven(o.up);
  }

  /** The quarter turn of the host operator that tips the cube towards the horizontal direction w. */
  function TipAxis(w: Dir): Axis {
    if w.axis == Y then X else Y
  }

  function TipPositive(w: Dir): bool {
    if w.axis == Y then w.positive else !w.positive
  }

  lemma TipOver(o: Orientation, w: Dir)
    requires w.axis != Z
    ensures Facing(Rotated(o, TipAxis(w), TipPositive(w)), w) == o.up
    ensures Rotated(o, TipAxis(w), TipPositive(w)).up == Facing(o, Neg(w))
  {
    RotatedTable(o, TipAxis(w), TipPositive(w));
  }

  /** The source's axis and sign select the tip towards the direction the piece steps. */
  lemma RollIsTip(o: Orientation, c: Color, a: Action)
    requires IsStraight(a)
    ensures StepDir(ActionToDelta(c, a)).axis != Z
    ensures var w := StepDir(ActionToDelta(c, a)); Roll(o, c, a) == Rotated(o, TipAxis(w), TipPositive(w))
  {
    var index := if a == Backward then 0 else if a == Forward then 1 else if a == Right then 2 else 3;
    var axis, positive := if index / 2 == 0 then X else Y, Scale(c, -1 + (index % 2) * 2) > 0;
    var w := StepDir(ActionToDelta(c, a));
    assert axis == TipAxis(w) && positive == TipPositive(w) by {
      if c == Black {
        assert a == Backward || a == Forward || a == Right || a == Left;
      } else {
        assert a == Backward || a == Forward || a == Right || a == Left;
      }
    }
  }

  /**
   * Every roll tips the cube over the edge it travels towards: the face that
   * was on top now faces the direction of travel and the face that looked
   * away from the step comes up, so that face's value is the new value.
   */
  lemma RollFollowsTravel(o: Orientation, c: Color, a: Action)
    requires IsStraight(a)
    ensures var w := StepDir(ActionToDelta(c, a));
      && Facing(Roll(o, c, a), w) == o.up
      && Roll(o, c, a).up == Facing(o, Neg(w))
      && Value(Roll(o, c, a)) == RotationToValue(Facing(o, Neg(w)))
  {
    RollIsTip(o, c, a);
    TipOver(o, StepDir(ActionToDelta(c, a)));
  }

  lemma RollValid(o: Orientation, c: Color, a: Action)
    requires IsStraight(a) && ValidOrientation(o)
    ensures ValidOrientation(Roll(o, c, a))
  {
    var index := if a == Backward then 0 else if a == Forward then 1 else if a == Right then 2 else 3;
    RotatedValid(o, if index / 2 == 0 then X else Y, Scale(c, -1 + (index % 2) * 2) > 0);
  }

  /** Turning one way and then the other restores the cube. */
  lemma RotatedUndo(o: Orientation, a: Axis, positiveValue: bool)
    requires a != Z
    ensures Rotated(Rotated(o, a, positiveValue), a, !positiveValue) == o
  {
    RotatedTable(o, a, positiveValue);
    RotatedTable(Rotated(o, a, positiveValue), a, !positiveValue);
  }
}
