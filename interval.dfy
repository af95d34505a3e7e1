/** The "interval between messages" control of both dispatch forms: two
    range sliders over 1..60 seconds, the lower and the upper bound of the
    random pause, wired so that the lower bound never passes the upper. */
module Interval {

  /** `intervalMin` and `intervalMax` of the form. */
  datatype Pause = Pause(min: int, max: int)

  /** The form's starting values: 15 to 30 seconds. */
  const DefaultPause := Pause(15, 30)

  /** The range both sliders offer. */
  const Lowest := 1
  const Highest := 60

  lemma DefaultInRange()
    ensures InRange(DefaultPause)
  {
  }

  predicate Ordered(p: Pause)
  {
    p.min <= p.max
  }

  /** Both bounds on the sliders' scale and in order. */
  predicate InRange(p: Pause)
  {
    Lowest <= p.min <= p.max <= Highest
  }

  function Max(a: int, b: int): int
  {
    if a >= b then a else b
  }

  function Min(a: int, b: int): int
  {
    if a <= b then a else b
  }

  /** The lower slider moved to `newMin`: the upper bound is pushed up to
      it when it was below. */
  function MinMoved(p: Pause, newMin: int): (r: Pause)
    ensures r.min == newMin && Ordered(r)
    ensures r.max == p.max || (p.max < newMin && r.max == newMin)
  {
    Pause(newMin, Max(newMin, p.max))
  }

  /** The upper slider moved to `newMax`: the lower bound is pulled down to
      it when it was above. */
  function MaxMoved(p: Pause, newMax: int): (r: Pause)
    ensures r.max == newMax && Ordered(r)
    ensures r.min == p.min || (newMax < p.min && r.min == newMax)
  {
    Pause(Min(p.min, newMax), newMax)
  }

  /** A user's moves, in order. */
  datatype Move = MinTo(value: int) | MaxTo(value: int)

  function Apply(p: Pause, moves: seq<Move>): Pause
    decreases |moves|
  {
    if moves == [] then p
    else
      var q := match moves[0]
        case MinTo(v) => MinMoved(p, v)
        case MaxTo(v) => MaxMoved(p, v);
      Apply(q, moves[1..])
  }

  /** Whatever the user does with the sliders, the values they offer keep
      a pause that was on the scale and in order (as the defaults are) so. */
  lemma {:induction false} MovesStayInRange(p: Pause, moves: seq<Move>)
    requires InRange(p)
    requires forall i :: 0 <= i < |moves| ==> Lowest <= moves[i].value <= Highest
    ensures InRange(Apply(p, moves))
    decreases |moves|
  {
    if moves != [] {
      var q := match moves[0]
        case MinTo(v) => MinMoved(p, v)
        case MaxTo(v) => MaxMoved(p, v);
      assert InRange(q);
      MovesStayInRange(q, moves[1..]);
    }
  }

  /** After any move, even from an unordered pause, the pause is ordered. */
  lemma {:induction false} MovesOrder(p: Pause, moves: seq<Move>)
    requires moves != [] || Ordered(p)
    ensures Ordered(Apply(p, moves))
    decreases |moves|
  {
    if moves != [] {
      var q := match moves[0]
        case MinTo(v) => MinMoved(p, v)
        case MaxTo(v) => MaxMoved(p, v);
      MovesOrder(q, moves[1..]);
    }
  }

  /** Moving a slider within the other bound changes only that slider,
      and moving it back restores the pause. */
  lemma MoveWithinBound(p: Pause, v: int)
    requires Ordered(p)
    ensures v <= p.max ==> MinMoved(p, v) == Pause(v, p.max) && MinMoved(MinMoved(p, v), p.min) == p
    ensures p.min <= v ==> MaxMoved(p, v) == Pause(p.min, v) && MaxMoved(MaxMoved(p, v), p.max) == p
  {
  }
}
