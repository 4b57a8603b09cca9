/**
 * Keyboard input shared by the ship and the player: the arrow-key direction and the
 * number keys that pick the time scale.
 */
module Input {
  import opened Wrappers
  import opened Vectors
  import opened Time

  /** The keys the game reads; `Key(d)` is the digit row, `Numpad(d)` the keypad. */
  datatype KeyCode =
    | Key(digit: nat)
    | Numpad(digit: nat)
    | Up | Down | Left | Right
    | Space | AltLeft | AltRight | Escape

  function Unit(pressed: bool): real { if pressed then 1.0 else 0.0 }

  /** Two opposite keys cancel exactly when both or neither are pressed. */
  lemma UnitCancel(a: bool, b: bool)
    ensures Unit(a) - Unit(b) == 0.0 <==> (a <==> b)
  {
  }

  /** The arrow keys summed up before normalising: each opposite pair cancels. */
  function RawInputDir(pressed: set<KeyCode>): Vec2
  {
    Vec2(Unit(Right in pressed) - Unit(Left in pressed), Unit(Up in pressed) - Unit(Down in pressed))
  }

  /**
   * `get_input_dir`: the arrow keys as a direction. It is zero exactly when both
   * opposite pairs cancel, and otherwise a unit vector along the keys' sum, so a
   * diagonal is no faster than a straight line.
   */
  function InputDir(sqrt: real -> real, pressed: set<KeyCode>): (d: Vec2)
    requires IsSqrt(sqrt)
    ensures d == Zero <==> ((Up in pressed <==> Down in pressed) && (Left in pressed <==> Right in pressed))
    ensures d != Zero ==> d.LengthSquared() == 1.0
    ensures d != Zero ==> d.Cross(RawInputDir(pressed)) == 0.0 && 0.0 < d.Dot(RawInputDir(pressed))
  {
    var raw := RawInputDir(pressed);
    UnitCancel(Right in pressed, Left in pressed);
    UnitCancel(Up in pressed, Down in pressed);
    NormalizeOrZero(sqrt, raw)
  }

  /** `NUMBER_CODES`: the digit keys 1, 2, …, 9, 0 with their keypad twins. */
  const NumberCodes: seq<(KeyCode, KeyCode)> := [
    (Key(1), Numpad(1)),
    (Key(2), Numpad(2)),
    (Key(3), Numpad(3)),
    (Key(4), Numpad(4)),
    (Key(5), Numpad(5)),
    (Key(6), Numpad(6)),
    (Key(7), Numpad(7)),
    (Key(8), Numpad(8)),
    (Key(9), Numpad(9)),
    (Key(0), Numpad(0))]

  /** Either key of the `i`-th number was pressed this frame. */
  predicate NumberJustPressed(justPressed: set<KeyCode>, i: nat)
    requires i < |NumberCodes|
  {
    NumberCodes[i].0 in justPressed || NumberCodes[i].1 in justPressed
  }

  /**
   * `get_min_number_pressed`: the smallest number (1 to 9, and 0 counting as 10) whose
   * key was just pressed, or nothing when no number key was.
   */
  method GetMinNumberPressed(justPressed: set<KeyCode>) returns (r: Option<nat>)
    ensures r.None? <==> forall i :: 0 <= i < |NumberCodes| ==> !NumberJustPressed(justPressed, i)
    ensures r.Some? ==> && 1 <= r.value <= |NumberCodes|
                        && NumberJustPressed(justPressed, r.value - 1)
                        && forall i :: 0 <= i < r.value - 1 ==> !NumberJustPressed(justPressed, i)
  {
    var i := 0;
    while i < |NumberCodes|
      invariant 0 <= i <= |NumberCodes|
      invariant forall j :: 0 <= j < i ==> !NumberJustPressed(justPressed, j)
    {
      var (key, numpad) := NumberCodes[i];
      if key in justPressed || numpad in justPressed {
        assert NumberJustPressed(justPressed, i);
        return Some(i + 1);
      }
      i := i + 1;
    }
    return None;
  }

  /** `2^e` for an integer exponent, `powi` over the reals. */
  function Pow2(e: int): (r: real)
    ensures 0.0 < r
    decreases if e < 0 then -e else e
  {
    if e == 0 then 1.0
    else if e > 0 then 2.0 * Pow2(e - 1)
    else Pow2(e + 1) / 2.0
  }

  /**
   * `set_time_scale`: pressing number `n` sets the scale to `2^(n - 5)`, so the keys
   * 1 … 9, 0 select 1/16 … 32 and 5 restores real time; without a number key the scale
   * is kept. Every scale reachable this way is one of the labelled fractions and is
   * shown by its label.
   */
  method SetTimeScale(justPressed: set<KeyCode>, scale: TimeScale, format: real -> string)
    returns (scale': TimeScale)
    ensures (forall i :: 0 <= i < |NumberCodes| ==> !NumberJustPressed(justPressed, i)) ==> scale' == scale
    ensures (exists i :: 0 <= i < |NumberCodes| && NumberJustPressed(justPressed, i)) ==>
      exists k :: && 0 <= k < |NumberCodes| && NumberJustPressed(justPressed, k)
                  && (forall i :: 0 <= i < k ==> !NumberJustPressed(justPressed, i))
                  && scale'.factor == Pow2(k - 4) == Fractions[k].0
                  && FloatAsFraction(scale'.factor, format) == Fractions[k].1
  {
    var number := GetMinNumberPressed(justPressed);
    match number
    case None =>
      scale' := scale;
    case Some(n) =>
      var k := n - 1;
      scale' := TimeScale(Pow2(n - 5));
      LadderIsFractions(k);
      FractionsLabelThemselves(format, k);
  }

  /** The `k`-th number key's scale is the `k`-th labelled fraction. */
  lemma LadderIsFractions(k: nat)
    requires k < |Fractions|
    ensures Pow2(k - 4) == Fractions[k].0
  {
    assert Pow2(-4) == 1.0 / 16.0 by {
      assert Pow2(-1) == 0.5;
      assert Pow2(-2) == 0.25;
      assert Pow2(-3) == 0.125;
    }
    assert Pow2(5) == 32.0 by {
      assert Pow2(1) == 2.0;
      assert Pow2(2) == 4.0;
      assert Pow2(3) == 8.0;
      assert Pow2(4) == 16.0;
    }
  }
}
