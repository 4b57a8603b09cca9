/**
 * The global time scale: how simulated time relates to wall-clock time, how the fixed
 * physics period shrinks as the scale grows, and how the scale is shown to the player.
 */
module Time {
  import opened Wrappers

  /** `TimeScale`: simulated seconds per real second. */
  datatype TimeScale = TimeScale(factor: real)

  /** `TimeScale::default()`: real time. */
  const DefaultTimeScale := TimeScale(1.0)

  /** The fixed update rate the game is tuned for, in seconds per step. */
  const BasePeriod: real := 1.0 / 60.0

  /**
   * `TimeScale::delta`: the simulated time that passes in a step of `step` seconds
   * (the frame time or the fixed period). The f64 to f32 narrowing is not modelled.
   */
  function Delta(scale: TimeScale, step: real): (d: real)
    ensures step == BasePeriod && scale == DefaultTimeScale ==> d == BasePeriod
    ensures 0.0 <= scale.factor && 0.0 <= step ==> 0.0 <= d
  {
    scale.factor * step
  }

  function Max(a: real, b: real): real { if a < b then b else a }

  /**
   * The fixed period `change_fixed_time_step` installs: 1/60 s divided by the time scale,
   * but never longer than 1/60 s. Speeding time up runs the physics more often rather
   * than in bigger steps.
   */
  function FixedPeriod(scale: TimeScale): (p: real)
    ensures 0.0 < p <= BasePeriod
    ensures scale.factor <= 1.0 ==> p == BasePeriod
  {
    BasePeriod / Max(scale.factor, 1.0)
  }

  /**
   * The simulated time each fixed step covers: exactly 1/60 s for every scale of at
   * least 1, and `scale / 60` s below that, so a physics step never covers more than
   * 1/60 s of simulated time.
   */
  lemma {:induction false} FixedStepDelta(scale: TimeScale)
    requires 0.0 <= scale.factor
    ensures 1.0 <= scale.factor ==> Delta(scale, FixedPeriod(scale)) == BasePeriod
    ensures scale.factor < 1.0 ==> Delta(scale, FixedPeriod(scale)) == scale.factor * BasePeriod
    ensures Delta(scale, FixedPeriod(scale)) <= BasePeriod
  {
    if 1.0 <= scale.factor {
      calc {
        Delta(scale, FixedPeriod(scale));
        scale.factor * (BasePeriod / scale.factor);
        BasePeriod;
      }
    } else {
      assert FixedPeriod(scale) == BasePeriod;
    }
  }

  /**
   * `change_fixed_time_step`: when the scale changed this frame the period is
   * recomputed, otherwise it is kept.
   */
  function ChangeFixedTimeStep(changed: bool, scale: TimeScale, period: real): (p: real)
    ensures changed ==> p == FixedPeriod(scale)
    ensures !changed ==> p == period
  {
    if changed then FixedPeriod(scale) else period
  }

  /** Recomputing the period is idempotent: a second change with the same scale is a no-op. */
  lemma ChangeFixedTimeStepIdempotent(changed: bool, scale: TimeScale, period: real)
    ensures var p := ChangeFixedTimeStep(changed, scale, period);
      ChangeFixedTimeStep(changed, scale, p) == p
  {
  }

  /** `FRACTIONS`: the labels of the time scales the number keys select. */
  const Fractions: seq<(real, string)> := [
    (1.0 / 16.0, "1/16"),
    (1.0 / 8.0, "1/8"),
    (1.0 / 4.0, "1/4"),
    (1.0 / 2.0, "1/2"),
    (1.0, "1"),
    (2.0, "2"),
    (4.0, "4"),
    (8.0, "8"),
    (16.0, "16"),
    (32.0, "32")]

  function Abs(x: real): real { if x < 0.0 then -x else x }

  /** `number` is within the 0.01 tolerance of `f`. */
  predicate Near(number: real, f: real)
  {
    Abs(number - f) < 0.01
  }

  /** The `find` over a fraction table: the label of the first entry near `number`. */
  function FindFraction(table: seq<(real, string)>, number: real): (r: Option<string>)
    ensures r.None? <==> forall i :: 0 <= i < |table| ==> !Near(number, table[i].0)
    ensures r.Some? ==> exists i :: (0 <= i < |table| && Near(number, table[i].0)
      && r.value == table[i].1 && forall j :: 0 <= j < i ==> !Near(number, table[j].0))
  {
    if |table| == 0 then None
    else if Near(number, table[0].0) then
      Some(table[0].1)
    else
      var r := FindFraction(table[1..], number);
      assert forall i :: 1 <= i < |table| ==> table[1..][i - 1] == table[i];
      if r.Some? then
        var i :| 0 <= i < |table[1..]| && Near(number, table[1..][i].0)
          && r.value == table[1..][i].1 && forall j :: 0 <= j < i ==> !Near(number, table[1..][j].0);
        assert forall j :: 0 <= j < i + 1 ==> !Near(number, table[j].0) by {
          forall j | 0 <= j < i + 1 ensures !Near(number, table[j].0) {
            if 0 < j { assert table[j] == table[1..][j - 1]; }
          }
        }
        r
      else r
  }

  /**
   * `float_as_fraction`: the label of the first listed fraction within 0.01 of the
   * number, and otherwise the number's decimal rendering `format(number)`.
   */
  function FloatAsFraction(number: real, format: real -> string): (s: string)
  {
    match FindFraction(Fractions, number)
    case Some(fraction) => fraction
    case None => format(number)
  }

  /** Every listed fraction is shown with its own label. */
  lemma FractionsLabelThemselves(format: real -> string, k: nat)
    requires k < |Fractions|
    ensures FloatAsFraction(Fractions[k].0, format) == Fractions[k].1
  {
    var number := Fractions[k].0;
    assert Near(number, Fractions[k].0);
    assert forall j :: 0 <= j < |Fractions| && j != k ==> !Near(number, Fractions[j].0);
  }

  /** A number far from every listed fraction falls back to its decimal rendering. */
  lemma FarNumbersUseFormat(number: real, format: real -> string)
    requires forall i :: 0 <= i < |Fractions| ==> !Near(number, Fractions[i].0)
    ensures FloatAsFraction(number, format) == format(number)
  {
  }

  const UiPrefix: string := "Time Scale: "

  /** `make_ui_text`: the prefix, then the scale as a fraction. */
  function UiText(scale: real, format: real -> string): (t: string)
    ensures |UiPrefix| <= |t| && t[..|UiPrefix|] == UiPrefix
    ensures (forall i :: 0 <= i < |Fractions| ==> !Near(scale, Fractions[i].0)) ==>
      t == UiPrefix + format(scale)
  {
    UiPrefix + FloatAsFraction(scale, format)
  }

  /** A scale picked from the table is shown with its own label. */
  lemma UiTextShowsLabel(format: real -> string, k: nat)
    requires k < |Fractions|
    ensures UiText(Fractions[k].0, format) == UiPrefix + Fractions[k].1
  {
    FractionsLabelThemselves(format, k);
  }

  /**
   * `time_scale_ui`: the text is rewritten, to the prefix and the scale's label, only in
   * frames where the scale changed.
   */
  function TimeScaleUi(changed: bool, scale: TimeScale, text: string, format: real -> string): (t: string)
    ensures !changed ==> t == text
    ensures changed ==> |UiPrefix| <= |t| && t[..|UiPrefix|] == UiPrefix
    ensures changed ==> forall k :: 0 <= k < |Fractions| && scale.factor == Fractions[k].0 ==>
      t == UiPrefix + Fractions[k].1
  {
    if changed then
      assert forall k :: 0 <= k < |Fractions| && scale.factor == Fractions[k].0 ==>
        UiText(scale.factor, format) == UiPrefix + Fractions[k].1 by {
        forall k | 0 <= k < |Fractions| && scale.factor == Fractions[k].0
          ensures UiText(scale.factor, format) == UiPrefix + Fractions[k].1
        {
          UiTextShowsLabel(format, k);
        }
      }
      UiText(scale.factor, format)
    else text
  }
}
