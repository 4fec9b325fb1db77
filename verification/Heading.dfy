/** mj_host/src/IntentAdapter.cpp: the heading unwrapped from the odometry's yaw, and the reference held against a
    bearing that flickers. */
module Heading {
  import opened Prelude

  /** The source's literal stands for pi, and doubles are reals. */
  const PI: real := 3.14159265358979323846
  const TURN: real := 2.0 * PI

  /** The value both wrapping loops end with. */
  function Wrap(d: real): (w: real)
    ensures -PI <= w <= PI
  {
    WrapUp(WrapDown(d))
  }

  function WrapDown(d: real): (w: real)
    ensures w <= PI && (d >= -PI ==> w >= -PI)
    decreases if d > PI then d else 0.0
  {
    if d > PI then WrapDown(d - TURN) else d
  }

  function WrapUp(d: real): (w: real)
    requires d <= PI
    ensures -PI <= w <= PI
    decreases if d < -PI then -d else 0.0
  {
    if d < -PI then WrapUp(d + TURN) else d
  }

  /** x and y are the same direction: k whole turns apart. */
  predicate Turns(x: real, y: real, k: int) {
    x - y == k as real * TURN
  }

  ghost predicate SameDirection(x: real, y: real) {
    exists k :: Turns(x, y, k)
  }

  lemma {:induction false} DownTurns(d: real) returns (k: int)
    ensures Turns(WrapDown(d), d, k)
    decreases if d > PI then d else 0.0
  {
    k := 0;
    if d > PI {
      k := DownTurns(d - TURN);
      k := k - 1;
    }
  }

  lemma {:induction false} UpTurns(d: real) returns (k: int)
    requires d <= PI
    ensures Turns(WrapUp(d), d, k)
    decreases if d < -PI then -d else 0.0
  {
    k := 0;
    if d < -PI {
      k := UpTurns(d + TURN);
      k := k + 1;
    }
  }

  /** Wrapping takes off whole turns. */
  lemma WrapTurns(d: real) returns (k: int)
    ensures Turns(Wrap(d), d, k)
  {
    var i := DownTurns(d);
    var j := UpTurns(WrapDown(d));
    k := i + j;
  }

  /** Two angles in the same direction and less than a turn apart are equal. */
  lemma CloseTurnsAreEqual(x: real, y: real, k: int)
    requires Turns(x, y, k) && -TURN < x - y < TURN
    ensures x == y
  {
    assert k >= 1 ==> k as real * TURN >= TURN;
    assert k <= -1 ==> k as real * TURN <= -TURN;
  }

  lemma WrapIs(d: real, e: real, k: int)
    requires Turns(e, d, k) && -PI < e < PI
    ensures Wrap(d) == e
  {
    var j := WrapTurns(d);
    assert Turns(Wrap(d), e, j - k);
    CloseTurnsAreEqual(Wrap(d), e, j - k);
  }

  /** Both loops, from d. */
  method WrapLoop(d: real) returns (w: real)
    ensures w == Wrap(d)
  {
    w := d;
    while w > PI
      invariant WrapDown(w) == WrapDown(d)
      decreases if w > PI then w else 0.0
    {
      w := w - 2.0 * 3.14159265358979323846;
    }
    while w < -PI
      invariant w <= PI && WrapUp(w) == Wrap(d)
      decreases if w < -PI then -w else 0.0
    {
      w := w + 2.0 * 3.14159265358979323846;
    }
  }

  // ---------------------------------------------------------------- the heading over a run

  datatype State = State(heading: real, prevYaw: real, have: bool)

  const START := State(0.0, 0.0, false)

  function Step(s: State, yaw: real): State {
    State(if s.have then s.heading + Wrap(yaw - s.prevYaw) else s.heading, yaw, true)
  }

  function Run(yaws: seq<real>): State {
    if yaws == [] then START else Step(Run(yaws[..|yaws| - 1]), yaws[|yaws| - 1])
  }

  /** The heading is the yaw turned since the first tick, give or take whole turns. */
  lemma {:induction false} HeadingIsYawTurned(yaws: seq<real>) returns (k: int)
    requires yaws != []
    ensures Run(yaws).have && Run(yaws).prevYaw == yaws[|yaws| - 1]
    ensures Turns(Run(yaws).heading, yaws[|yaws| - 1] - yaws[0], k)
  {
    var n := |yaws| - 1;
    if n == 0 {
      k := 0;
      assert yaws[..0] == [];
    } else {
      var i := HeadingIsYawTurned(yaws[..n]);
      var j := WrapTurns(yaws[n] - yaws[n - 1]);
      k := i + j;
      assert Run(yaws).heading == Run(yaws[..n]).heading + Wrap(yaws[n] - yaws[n - 1]);
    }
  }

  /** One tick moves the heading by at most half a turn. */
  lemma HeadingMovesHalfATurnAtMost(yaws: seq<real>, yaw: real)
    ensures -PI <= Run(yaws + [yaw]).heading - Run(yaws).heading <= PI
  {
    assert (yaws + [yaw])[..|yaws|] == yaws;
  }

  /** The yaw readings show the body's true bearing, whole turns dropped, and the body turns less than half a turn
      between ticks. */
  ghost predicate Shows(yaws: seq<real>, bearings: seq<real>) {
    && |yaws| == |bearings|
    && (forall i :: 0 <= i < |yaws| ==> SameDirection(yaws[i], bearings[i]))
    && (forall i :: 0 < i < |yaws| ==> -PI < bearings[i] - bearings[i - 1] < PI)
  }

  /** Then unwrapping loses nothing: the heading is exactly how far the body has turned since the first tick. */
  lemma {:induction false} UnwrappingIsFaithful(yaws: seq<real>, bearings: seq<real>)
    requires yaws != [] && Shows(yaws, bearings)
    ensures Run(yaws).heading == bearings[|yaws| - 1] - bearings[0]
    ensures Run(yaws).have && Run(yaws).prevYaw == yaws[|yaws| - 1]
  {
    var n := |yaws| - 1;
    if n == 0 {
      assert yaws[..0] == [];
    } else {
      UnwrappingIsFaithful(yaws[..n], bearings[..n]);
      assert SameDirection(yaws[n], bearings[n]) && SameDirection(yaws[n - 1], bearings[n - 1]);
      var i :| Turns(yaws[n], bearings[n], i);
      var j :| Turns(yaws[n - 1], bearings[n - 1], j);
      assert Turns(bearings[n] - bearings[n - 1], yaws[n] - yaws[n - 1], j - i);
      WrapIs(yaws[n] - yaws[n - 1], bearings[n] - bearings[n - 1], j - i);
    }
  }

  // ---------------------------------------------------------------- the reference

  /** The reference a bearing sets: the direction of the bearing, with the continuous reference on the turn of it
      nearest the reference held so far. */
  function Aimed(unwrap: bool, heading: real, reference: real, bearing: real): real {
    if unwrap then reference + Wrap(heading - bearing - reference) else heading - bearing
  }

  lemma AimedPointsAtTheBearing(unwrap: bool, heading: real, reference: real, bearing: real)
    ensures SameDirection(Aimed(unwrap, heading, reference, bearing), heading - bearing)
    ensures unwrap ==> -PI <= Aimed(unwrap, heading, reference, bearing) - reference <= PI
  {
    if unwrap {
      var k := WrapTurns(heading - bearing - reference);
      assert Turns(Aimed(unwrap, heading, reference, bearing), heading - bearing, k);
    } else {
      assert Turns(Aimed(unwrap, heading, reference, bearing), heading - bearing, 0);
    }
  }

  /** No other turn of the bearing's direction is nearer the reference held so far. */
  lemma AimedIsNearest(heading: real, reference: real, bearing: real, other: real)
    requires SameDirection(other, heading - bearing)
    ensures Abs(Aimed(true, heading, reference, bearing) - reference) <= Abs(other - reference)
  {
    var aimed := Aimed(true, heading, reference, bearing);
    var k := WrapTurns(heading - bearing - reference);
    var j :| Turns(other, heading - bearing, j);
    assert Turns(other, aimed, j - k);
    if -PI < other - reference < PI {
      CloseTurnsAreEqual(other, aimed, j - k);
    }
  }

  /** A bearing that flickers across the back moves the continuous reference only by the flicker: when the new direction
      is `delta` from the reference held, whole turns aside, the reference moves by exactly delta. */
  lemma FlickerDoesNotFlip(heading: real, reference: real, bearing: real, delta: real)
    requires -PI < delta < PI && SameDirection(heading - bearing, reference + delta)
    ensures Aimed(true, heading, reference, bearing) == reference + delta
  {
    var k :| Turns(heading - bearing, reference + delta, k);
    assert Turns(delta, heading - bearing - reference, -k);
    WrapIs(heading - bearing - reference, delta, -k);
  }

  /** Without it the same flicker can move the reference by almost a whole turn. */
  lemma PlainReferenceFlips(delta: real)
    requires 0.0 < delta < PI
    ensures var left, right := -PI + delta / 2.0, PI - delta / 2.0;
            && SameDirection(left, right + delta)
            && Aimed(false, 0.0, Aimed(false, 0.0, 0.0, left), right) - Aimed(false, 0.0, 0.0, left) == delta - TURN
  {
    assert Turns(-PI + delta / 2.0, PI - delta / 2.0 + delta, -1);
  }

  class Tracker {
    const unwrap: bool
    var heading: real
    var reference: real
    var prevYaw: real
    var have: bool

    constructor (unwrap: bool)
      ensures this.unwrap == unwrap && Now() == START && reference == 0.0
    {
      this.unwrap := unwrap;
      heading, reference, prevYaw, have := 0.0, 0.0, 0.0, false;
    }

    ghost function Now(): State
      reads this
    {
      State(heading, prevYaw, have)
    }

    /** The start of a tick: the heading moves by the wrapped increment, the reference a little towards it. */
    method TakeYaw(yaw: real)
      modifies this
      ensures Now() == Step(old(Now()), yaw)
      ensures var held := if old(have) then old(reference) else 0.0;
              reference - heading == (held - heading) * (2999.0 / 3000.0)
    {
      if have {
        var d := WrapLoop(yaw - prevYaw);
        heading := heading + d;
      } else {
        reference := 0.0;
      }
      prevYaw, have := yaw, true;
      reference := reference + (1.0 / 3000.0) * (heading - reference);
    }

    /** A loop won with a bearing: into occupied space the reference is let go, else it is aimed there. */
    method Aim(bearing: real, blocked: bool)
      modifies this`reference
      ensures blocked ==> reference == heading
      ensures !blocked ==> reference == Aimed(unwrap, heading, old(reference), bearing)
    {
      if blocked {
        reference := heading;
      } else {
        var want := heading - bearing;
        if unwrap {
          ghost var first := want;
          while want - reference > PI
            invariant WrapDown(want - reference) == WrapDown(first - reference)
            decreases if want - reference > PI then want - reference else 0.0
          {
            want := want - 2.0 * 3.14159265358979323846;
          }
          while want - reference < -PI
            invariant want - reference <= PI && WrapUp(want - reference) == Wrap(first - reference)
            decreases if want - reference < -PI then reference - want else 0.0
          {
            want := want + 2.0 * 3.14159265358979323846;
          }
        }
        reference := want;
      }
    }
  }
}
