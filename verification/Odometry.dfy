/** mj_host/src/Odometry.cpp: the trunk's position from one foot contact, the legs and the IMU. */
module Odometry {
  import opened Prelude

  datatype Vec2 = Vec2(x: real, y: real)
  datatype Vec3 = Vec3(x: real, y: real, z: real) {
    function XY(): Vec2 { Vec2(x, y) }
  }
  datatype Quat = Quat(w: real, x: real, y: real, z: real)

  const ORIGIN := Vec3(0.0, 0.0, 0.0)

  function Add(a: Vec3, b: Vec3): Vec3 { Vec3(a.x + b.x, a.y + b.y, a.z + b.z) }
  function Minus(a: Vec2, b: Vec2): Vec2 { Vec2(a.x - b.x, a.y - b.y) }
  function Plus(a: Vec2, b: Vec2): Vec2 { Vec2(a.x + b.x, a.y + b.y) }
  function Negate(a: Vec3): Vec3 { Vec3(-a.x, -a.y, -a.z) }

  /** q v q*, expanded. */
  function Rotate(q: Quat, v: Vec3): Vec3 {
    Vec3(Coordinate(q.w, q.x, q.y, q.z, v.x, v.y, v.z),
         Coordinate(q.w, q.y, q.z, q.x, v.y, v.z, v.x),
         Coordinate(q.w, q.z, q.x, q.y, v.z, v.x, v.y))
  }

  /** One coordinate v of the rotated vector; the other two are the same expression with the
      axes turned around, as `t` is. */
  function Coordinate(w: real, a: real, b: real, c: real, v: real, n: real, p: real): real {
    var tv := 2.0 * (b * p - c * n);
    var tn := 2.0 * (c * v - a * p);
    var tp := 2.0 * (a * n - b * v);
    v + w * tv + b * tp - c * tn
  }

  datatype SitePose = SitePose(pos: Vec3, quat: Quat)

  function TransformPoint(p: SitePose, v: Vec3): Vec3 {
    Add(p.pos, Rotate(p.quat, v))
  }

  function SquaredNorm(q: Quat): real {
    q.w * q.w + q.x * q.x + q.y * q.y + q.z * q.z
  }

  /** `norm` is the square root of SquaredNorm(q). */
  function Normalized(q: Quat, norm: real): Quat {
    if norm > 0.0 then Quat(q.w / norm, q.x / norm, q.y / norm, q.z / norm) else q
  }

  /** The pair (cosine, sine) whose atan2 is the yaw. */
  function Heading(q: Quat): Vec2 {
    Vec2(1.0 - 2.0 * (q.y * q.y + q.z * q.z), 2.0 * (q.w * q.z + q.x * q.y))
  }

  /** One call's arguments, with the square root that `normalized` takes of the quaternion. */
  datatype Reading = Reading(left: SitePose, right: SitePose, imu: Quat, norm: real) {
    ghost predicate Valid() { norm >= 0.0 && norm * norm == SquaredNorm(imu) }
    function Foot(foot: nat): SitePose { if foot == 0 then left else right }
    function Rot(): Quat { Normalized(imu, norm) }
  }

  /** What a reading does to points: foot frame to trunk frame, trunk frame to world axes. */
  datatype View = View(origin: nat -> Vec3, trunk: (nat, Vec3) -> Vec3, world: Vec3 -> Vec3, heading: Vec2) {
    function Contact(foot: nat, local: Vec3): Vec3 { world(trunk(foot, local)) }
  }

  function ViewOf(r: Reading): View {
    View((foot: nat) => r.Foot(foot).pos,
         (foot: nat, v: Vec3) => TransformPoint(r.Foot(foot), v),
         (v: Vec3) => Rotate(r.Rot(), v),
         Heading(r.Rot()))
  }

  // ---------------------------------------------------------------- the estimator's step

  const SOLE_HALF_LEN := 0.0270
  const SOLE_HALF_WIDTH := 0.0206
  const SWITCH_MARGIN := -0.010
  const SWITCH_CONFIRM_TICKS := 2

  datatype Candidate = Candidate(foot: nat, corner: Vec3, xy: Vec2)

  datatype State = State(anchorFoot: nat, anchorLocal: Vec3, anchorXY: Vec2, position: Vec3, heading: Vec2,
                         pending: Option<Candidate>, pendingTicks: nat, needsInit: bool)

  const START := State(0, ORIGIN, Vec2(0.0, 0.0), ORIGIN, Vec2(1.0, 0.0), None, 0, true)

  /** The four sole corners in the order they are tried. */
  function Corner(i: nat): Vec3 {
    Vec3(if i < 2 then SOLE_HALF_LEN else -SOLE_HALF_LEN,
         if i % 2 == 0 then SOLE_HALF_WIDTH else -SOLE_HALF_WIDTH, 0.0)
  }

  /** Where the k-th of the eight corners is, by the estimate: the left foot's four come first. */
  function CornerInWorld(v: View, position: Vec3, k: nat): Vec3 {
    Add(position, v.Contact(k / 4, Corner(k % 4)))
  }

  /** The running minimum over the first k corners, from the margin down. */
  function Lowest(v: View, position: Vec3, k: nat): (real, Option<Candidate>) {
    if k == 0 then (-SWITCH_MARGIN, None)
    else
      var (lowest, best) := Lowest(v, position, k - 1);
      var world := CornerInWorld(v, position, k - 1);
      if world.z < lowest
      then (world.z, Some(Candidate((k - 1) / 4, Corner((k - 1) % 4), world.XY())))
      else (lowest, best)
  }

  function LowestCorner(v: View, position: Vec3): Option<Candidate> {
    Lowest(v, position, 8).1
  }

  function Reprojected(s: State, v: View): State {
    var contact := v.Contact(s.anchorFoot, s.anchorLocal);
    s.(position := Vec3(s.anchorXY.x - contact.x, s.anchorXY.y - contact.y, -contact.z))
  }

  /** The state `lowest_corner` is asked in: initialised and reprojected. */
  function Settled(s: State, v: View): State {
    var init := if s.needsInit
                then s.(anchorXY := v.world(v.origin(s.anchorFoot)).XY(), needsInit := false)
                else s;
    Reprojected(init, v)
  }

  function Confirmed(s: State, cand: Option<Candidate>): State {
    match cand
    case None => s.(pending := None, pendingTicks := 0)
    case Some(c) =>
      if s.pending.Some? && s.pending.value.foot == c.foot
      then s.(pendingTicks := s.pendingTicks + 1)
      else s.(pending := cand, pendingTicks := 1)
  }

  function Switched(s: State, v: View): State {
    if s.pendingTicks >= SWITCH_CONFIRM_TICKS && s.pending.Some? then
      var p := s.pending.value;
      Reprojected(s.(pending := None, anchorFoot := p.foot, anchorLocal := p.corner, anchorXY := p.xy), v)
        .(pendingTicks := 0)
    else s
  }

  function Step(s: State, v: View): State {
    var settled := Settled(s, v);
    Switched(Confirmed(settled, LowestCorner(v, settled.position)), v).(heading := v.heading)
  }

  function Run(views: seq<View>): State {
    if views == [] then START else Step(Run(views[..|views| - 1]), views[|views| - 1])
  }

  // ---------------------------------------------------------------- the class

  /** v is the reading's own view.  The triggers keep the arithmetic of Rotate out of the proofs
      that only need to know which points were transformed. */
  ghost predicate Shows(v: View, r: Reading) {
    && (forall f: nat {:trigger v.origin(f)} :: v.origin(f) == r.Foot(f).pos)
    && (forall f: nat, p {:trigger TransformPoint(r.Foot(f), p)} :: v.trunk(f, p) == TransformPoint(r.Foot(f), p))
    && (forall p {:trigger Rotate(r.Rot(), p)} :: v.world(p) == Rotate(r.Rot(), p))
    && v.heading == Heading(r.Rot())
  }

  class Odometry {
    var anchorFoot: nat
    var anchorLocal: Vec3
    var anchorXY: Vec2
    var position: Vec3
    var heading: Vec2
    var pending: Option<Candidate>
    var pendingTicks: nat
    var needsInit: bool

    ghost function Now(): State
      reads this
    {
      State(anchorFoot, anchorLocal, anchorXY, position, heading, pending, pendingTicks, needsInit)
    }

    constructor ()
      ensures Now() == START
    {
      anchorFoot, anchorLocal, anchorXY, position := 0, ORIGIN, Vec2(0.0, 0.0), ORIGIN;
      heading, pending, pendingTicks, needsInit := Vec2(1.0, 0.0), None, 0, true;
    }

    static method ContactPoint(rot: Quat, r: Reading, ghost v: View, foot: nat, local: Vec3) returns (contact: Vec3)
      requires Shows(v, r) && rot == r.Rot()
      ensures contact == v.Contact(foot, local)
    {
      var contactInTrunk := TransformPoint(r.Foot(foot), local);
      contact := Rotate(rot, contactInTrunk);
    }

    static method AxesOf(rot: Quat, r: Reading, ghost v: View, pos: Vec3) returns (p: Vec3)
      requires Shows(v, r) && rot == r.Rot()
      ensures p == v.world(pos)
    {
      p := Rotate(rot, pos);
    }

    method Reproject(rot: Quat, r: Reading, ghost v: View)
      requires Shows(v, r) && rot == r.Rot()
      modifies this`position
      ensures Now() == Reprojected(old(Now()), v)
    {
      var contact := ContactPoint(rot, r, v, anchorFoot, anchorLocal);
      position := Vec3(anchorXY.x - contact.x, anchorXY.y - contact.y, -contact.z);
    }

    method TryCorner(rot: Quat, r: Reading, ghost v: View, foot: nat, i: nat, lowest: real, best: Option<Candidate>)
      returns (lowest': real, best': Option<Candidate>)
      requires Shows(v, r) && rot == r.Rot() && i < 4
      requires (lowest, best) == Lowest(v, position, 4 * foot + i)
      ensures (lowest', best') == Lowest(v, position, 4 * foot + i + 1)
    {
      lowest', best' := lowest, best;
      var inWorld := ContactPoint(rot, r, v, foot, Corner(i));
      var world := Add(position, inWorld);
      if world.z < lowest {
        lowest' := world.z;
        best' := Some(Candidate(foot, Corner(i), world.XY()));
      }
    }

    method FindLowestCorner(rot: Quat, r: Reading, ghost v: View) returns (best: Option<Candidate>)
      requires Shows(v, r) && rot == r.Rot()
      ensures best == LowestCorner(v, position)
    {
      var lowest := -SWITCH_MARGIN;
      best := None;
      for foot := 0 to 2
        invariant (lowest, best) == Lowest(v, position, 4 * foot)
      {
        for i := 0 to 4
          invariant (lowest, best) == Lowest(v, position, 4 * foot + i)
        {
          lowest, best := TryCorner(rot, r, v, foot, i, lowest, best);
        }
      }
    }

    method Update(r: Reading, ghost v: View)
      requires r.Valid() && Shows(v, r)
      modifies this
      ensures Now() == Step(old(Now()), v)
    {
      var rot := Normalized(r.imu, r.norm);
      if needsInit {
        var anchorWorld := AxesOf(rot, r, v, r.Foot(anchorFoot).pos);
        anchorXY := anchorWorld.XY();
        needsInit := false;
      }
      Reproject(rot, r, v);
      var cand := FindLowestCorner(rot, r, v);
      if cand.None? {
        pending := None;
        pendingTicks := 0;
      } else {
        if pending.Some? && pending.value.foot == cand.value.foot {
          pendingTicks := pendingTicks + 1;
        } else {
          pending := cand;
          pendingTicks := 1;
        }
        if pendingTicks >= SWITCH_CONFIRM_TICKS {
          var p := pending.value;
          pending := None;
          anchorFoot, anchorLocal, anchorXY := p.foot, p.corner, p.xy;
          Reproject(rot, r, v);
          pendingTicks := 0;
        }
      }
      heading := Heading(rot);
    }
  }

  // ---------------------------------------------------------------- what a reading guarantees

  /** The foot frame's origin goes to the site, and opposite corners lie evenly about it. */
  ghost predicate Rigid(v: View) {
    && (forall f :: v.trunk(f, ORIGIN) == v.origin(f))
    && (forall f, p :: v.Contact(f, p).z + v.Contact(f, Negate(p)).z == 2.0 * v.Contact(f, ORIGIN).z)
  }

  lemma CoordinateAdd(w: real, a: real, b: real, c: real, v: real, n: real, p: real, v': real, n': real, p': real)
    ensures Coordinate(w, a, b, c, v + v', n + n', p + p')
         == Coordinate(w, a, b, c, v, n, p) + Coordinate(w, a, b, c, v', n', p')
  {
  }

  lemma RotateAdd(q: Quat, u: Vec3, v: Vec3)
    ensures Rotate(q, Add(u, v)) == Add(Rotate(q, u), Rotate(q, v))
  {
    CoordinateAdd(q.w, q.x, q.y, q.z, u.x, u.y, u.z, v.x, v.y, v.z);
    CoordinateAdd(q.w, q.y, q.z, q.x, u.y, u.z, u.x, v.y, v.z, v.x);
    CoordinateAdd(q.w, q.z, q.x, q.y, u.z, u.x, u.y, v.z, v.x, v.y);
  }

  lemma OppositePoints(s: SitePose, rot: Quat, p: Vec3)
    ensures Rotate(rot, TransformPoint(s, p)).z + Rotate(rot, TransformPoint(s, Negate(p))).z
         == 2.0 * Rotate(rot, s.pos).z
    ensures TransformPoint(s, ORIGIN) == s.pos
  {
    var a, b := TransformPoint(s, p), TransformPoint(s, Negate(p));
    assert Add(a, b) == Add(s.pos, s.pos) by {
      RotateAdd(s.quat, p, Negate(p));
      assert Rotate(s.quat, Add(p, Negate(p))) == ORIGIN;
    }
    RotateAdd(rot, a, b);
    RotateAdd(rot, s.pos, s.pos);
  }

  lemma EveryReadingIsRigid(r: Reading)
    ensures Rigid(ViewOf(r))
  {
    var v := ViewOf(r);
    forall f: nat, p ensures v.Contact(f, p).z + v.Contact(f, Negate(p)).z == 2.0 * v.Contact(f, ORIGIN).z {
      OppositePoints(r.Foot(f), r.Rot(), p);
    }
  }

  // ---------------------------------------------------------------- the lowest corner

  /** The running minimum is below the margin, at or below every corner tried, strictly below
      the earlier ones, and attained by the candidate it names. */
  lemma {:induction false} LowestIsLeast(v: View, position: Vec3, k: nat)
    requires k <= 8
    ensures var (lowest, best) := Lowest(v, position, k);
            && (forall i :: 0 <= i < k ==> lowest <= CornerInWorld(v, position, i).z)
            && (best.None? ==> lowest == -SWITCH_MARGIN)
            && (best.Some? ==> exists i :: 0 <= i < k && CornerInWorld(v, position, i).z == lowest < -SWITCH_MARGIN
                                 && best.value == Candidate(i / 4, Corner(i % 4), CornerInWorld(v, position, i).XY())
                                 && forall j :: 0 <= j < i ==> lowest < CornerInWorld(v, position, j).z)
  {
    if k > 0 {
      LowestIsLeast(v, position, k - 1);
    }
  }

  ghost predicate IsCorner(p: Vec3) {
    exists i :: 0 <= i < 4 && p == Corner(i)
  }

  /** What holds of the fields between updates. */
  ghost predicate Reachable(s: State) {
    && s.anchorFoot < 2
    && (s.anchorLocal == ORIGIN || IsCorner(s.anchorLocal))
    && s.pendingTicks < SWITCH_CONFIRM_TICKS
    && (s.pendingTicks == 0 <==> s.pending.None?)
    && (s.pending.Some? ==> s.pending.value.foot < 2 && IsCorner(s.pending.value.corner))
    && (s.needsInit ==> s == START)
  }

  lemma CornerAt(v: View, position: Vec3, f: nat, i: nat)
    requires i < 4
    ensures CornerInWorld(v, position, 4 * f + i) == Add(position, v.Contact(f, Corner(i)))
  {
    assert (4 * f + i) / 4 == f && (4 * f + i) % 4 == i;
  }

  /** With the anchor on the ground some sole corner is on or below it: the anchor corner itself, or one of the two
      opposite corners about the anchored foot centre. */
  lemma SomeCornerIsDown(v: View, position: Vec3, f: nat, anchor: Vec3) returns (k: nat)
    requires Rigid(v) && f < 2 && (anchor == ORIGIN || IsCorner(anchor)) && position.z == -v.Contact(f, anchor).z
    ensures k < 8 && CornerInWorld(v, position, k).z <= 0.0
  {
    if anchor == ORIGIN {
      assert Negate(Corner(0)) == Corner(3);
      assert v.Contact(f, Corner(0)).z + v.Contact(f, Negate(Corner(0))).z == 2.0 * v.Contact(f, ORIGIN).z;
      CornerAt(v, position, f, 0);
      CornerAt(v, position, f, 3);
      k := if v.Contact(f, Corner(0)).z <= v.Contact(f, anchor).z then 4 * f else 4 * f + 3;
    } else {
      var i :| 0 <= i < 4 && anchor == Corner(i);
      CornerAt(v, position, f, i);
      k := 4 * f + i;
    }
  }

  /** So `lowest_corner` always finds a corner: one is under 1 cm. */
  lemma ACandidateAlwaysExists(s: State, v: View)
    requires Reachable(s) && Rigid(v)
    ensures LowestCorner(v, Settled(s, v).position).Some?
    ensures LowestCorner(v, Settled(s, v).position).value.foot < 2
    ensures IsCorner(LowestCorner(v, Settled(s, v).position).value.corner)
  {
    var position := Settled(s, v).position;
    var k := SomeCornerIsDown(v, position, s.anchorFoot, s.anchorLocal);
    LowestIsLeast(v, position, 8);
  }

  lemma StepStaysReachable(s: State, v: View)
    requires Reachable(s) && Rigid(v)
    ensures Reachable(Step(s, v)) && !Step(s, v).needsInit
  {
    ACandidateAlwaysExists(s, v);
  }

  ghost predicate AllRigid(views: seq<View>) {
    forall v :: v in views ==> Rigid(v)
  }

  lemma {:induction false} RunStaysReachable(views: seq<View>)
    requires AllRigid(views)
    ensures Reachable(Run(views))
  {
    if views != [] {
      RunStaysReachable(views[..|views| - 1]);
      StepStaysReachable(Run(views[..|views| - 1]), views[|views| - 1]);
    }
  }

  // ---------------------------------------------------------------- the anchor

  /** After every update the anchor contact lies exactly at (anchor XY, 0) in the estimate. */
  lemma AnchorTouchesTheGround(s: State, v: View)
    requires Reachable(s) && Rigid(v)
    ensures var t := Step(s, v);
            Add(t.position, v.Contact(t.anchorFoot, t.anchorLocal)) == Vec3(t.anchorXY.x, t.anchorXY.y, 0.0)
  {
    ACandidateAlwaysExists(s, v);
  }

  /** The first update puts the trunk at XY (0, 0). */
  lemma FirstUpdateIsTheOrigin(v: View)
    requires Rigid(v)
    ensures Step(START, v).position.XY() == Vec2(0.0, 0.0)
  {
    ACandidateAlwaysExists(START, v);
  }

  ghost predicate Switches(s: State, v: View) {
    var settled := Settled(s, v);
    Confirmed(settled, LowestCorner(v, settled.position)).pendingTicks >= SWITCH_CONFIRM_TICKS
  }

  /** The lowest corner seen by the last of `views`. */
  ghost function LastCandidate(views: seq<View>): Option<Candidate>
    requires views != []
  {
    var v := views[|views| - 1];
    LowestCorner(v, Settled(Run(views[..|views| - 1]), v).position)
  }

  /** The pending candidate is the lowest corner of the update before. */
  lemma PendingIsTheLastCandidate(views: seq<View>)
    requires AllRigid(views) && Run(views).pending.Some?
    ensures views != [] && LastCandidate(views) == Run(views).pending
  {
    var s, v := Run(views[..|views| - 1]), views[|views| - 1];
    RunStaysReachable(views[..|views| - 1]);
    ACandidateAlwaysExists(s, v);
  }

  /** A foot becomes the anchor only after holding the lowest corner on two consecutive updates;
      the corner anchored, and its XY, are those of the first of the two. */
  lemma AnchorHeldTheLowestCornerTwice(views: seq<View>, v: View)
    requires AllRigid(views) && Rigid(v)
    ensures var s, t, both := Run(views), Run(views + [v]), views + [v];
            && (Switches(s, v) ==>
                  && views != []
                  && LastCandidate(views).Some? && LastCandidate(both).Some?
                  && LastCandidate(views).value.foot == LastCandidate(both).value.foot == t.anchorFoot
                  && LastCandidate(views).value == Candidate(t.anchorFoot, t.anchorLocal, t.anchorXY))
            && (!Switches(s, v) ==> t.anchorFoot == s.anchorFoot && t.anchorLocal == s.anchorLocal)
  {
    var s := Run(views);
    assert (views + [v])[..|views|] == views;
    RunStaysReachable(views);
    ACandidateAlwaysExists(s, v);
    if s.pending.Some? {
      PendingIsTheLastCandidate(views);
    }
  }

  /** Where the estimate has a candidate's corner, before a switch. */
  ghost function Estimated(s: State, v: View, c: Candidate): Vec3 {
    Add(Settled(s, v).position, v.Contact(c.foot, c.corner))
  }

  /** A switch moves the estimate by the pending corner's recorded XY less its current estimated one, and up by that
      corner's depth below the ground; so it moves nothing exactly when the corner is where it was recorded, on the
      ground.  Without a switch the estimate is the settled one. */
  lemma SwitchMovesByTheDrift(s: State, v: View)
    requires Reachable(s) && Rigid(v)
    ensures Switches(s, v) ==> s.pending.Some?
    ensures var settled, t := Settled(s, v), Step(s, v);
            if Switches(s, v) then
              var recorded, now := s.pending.value.xy, Estimated(s, v, s.pending.value);
              && t.position == Add(settled.position, Vec3(recorded.x - now.x, recorded.y - now.y, -now.z))
              && (t.position == settled.position <==> now == Vec3(recorded.x, recorded.y, 0.0))
            else t.position == settled.position
  {
    ACandidateAlwaysExists(s, v);
  }

  /** The trunk and both feet upright, the feet at the given places. */
  function Upright(left: Vec3, right: Vec3): Reading {
    var upright := Quat(1.0, 0.0, 0.0, 0.0);
    Reading(SitePose(left, upright), SitePose(right, upright), upright, 1.0)
  }

  /** What an upright reading shows: a sole point beside its foot's place. */
  ghost predicate ShowsFeet(v: View, left: Vec3, right: Vec3) {
    && v.world(v.origin(0)) == left
    && forall f, p {:trigger v.Contact(f, p)} :: v.Contact(f, p) == Add(if f == 0 then left else right, p)
  }

  lemma UprightShowsFeet(v: View, left: Vec3, right: Vec3)
    requires Shows(v, Upright(left, right))
    ensures Upright(left, right).Valid() && ShowsFeet(v, left, right)
  {
    var r := Upright(left, right);
    assert v.world(v.origin(0)) == Rotate(r.Rot(), v.origin(0));
    forall f: nat, p ensures v.Contact(f, p) == Add(if f == 0 then left else right, p) {
      assert v.trunk(f, p) == TransformPoint(r.Foot(f), p);
      assert v.world(v.trunk(f, p)) == Rotate(r.Rot(), v.trunk(f, p));
    }
  }

  /** With the left foot anchored at its centre on the ground, a right foot below it holds the lowest corner. */
  lemma LowerFootIsPicked(v: View, right: Vec3)
    requires ShowsFeet(v, ORIGIN, right) && right.z < 0.0
    ensures LowestCorner(v, ORIGIN) == Some(Candidate(1, Corner(0), Add(right, Corner(0)).XY()))
  {
    forall k | 0 <= k < 8 ensures CornerInWorld(v, ORIGIN, k).z == if k < 4 then 0.0 else right.z {
      assert v.Contact(k / 4, Corner(k % 4)) == Add(if k / 4 == 0 then ORIGIN else right, Corner(k % 4));
    }
    LowestIsLeast(v, ORIGIN, 8);
    assert CornerInWorld(v, ORIGIN, 4).z == right.z;
    assert v.Contact(1, Corner(0)) == Add(right, Corner(0));
  }

  lemma SettlesAtTheOrigin(s: State, v: View, right: Vec3)
    requires ShowsFeet(v, ORIGIN, right) && s.anchorFoot == 0 && s.anchorLocal == ORIGIN
    requires s.needsInit || s.anchorXY == Vec2(0.0, 0.0)
    ensures Settled(s, v) == s.(position := ORIGIN, anchorXY := Vec2(0.0, 0.0), needsInit := false)
  {
    assert v.Contact(0, ORIGIN) == ORIGIN;
  }

  lemma FirstOfTheJump(v: View, right: Vec3)
    requires ShowsFeet(v, ORIGIN, right) && right.z < 0.0
    ensures Step(START, v) == State(0, ORIGIN, Vec2(0.0, 0.0), ORIGIN, v.heading,
                                    Some(Candidate(1, Corner(0), Add(right, Corner(0)).XY())), 1, false)
  {
    SettlesAtTheOrigin(START, v, right);
    LowerFootIsPicked(v, right);
  }

  lemma SecondOfTheJump(s: State, v: View, recorded: Vec2, right: Vec3)
    requires ShowsFeet(v, ORIGIN, right) && right.z < 0.0
    requires s == State(0, ORIGIN, Vec2(0.0, 0.0), ORIGIN, s.heading, Some(Candidate(1, Corner(0), recorded)), 1, false)
    ensures Settled(s, v).position == ORIGIN
    ensures var corner := Add(right, Corner(0));
            Step(s, v).position == Vec3(recorded.x - corner.x, recorded.y - corner.y, -right.z)
  {
    SettlesAtTheOrigin(s, v, right);
    LowerFootIsPicked(v, right);
    assert v.Contact(1, Corner(0)) == Add(right, Corner(0));
  }

  lemma RunJumps(v: View, w: View, a: Vec3, b: Vec3, jump: Vec3)
    requires ShowsFeet(v, ORIGIN, a) && ShowsFeet(w, ORIGIN, b) && a.z < 0.0 && b.z < 0.0
    requires jump == Vec3(a.x - b.x, a.y - b.y, -b.z)
    ensures Run([v]).position == Settled(Run([v]), w).position == ORIGIN
    ensures Run([v, w]).position == jump
  {
    assert [v][..0] == [] && [v, w][..1] == [v];
    FirstOfTheJump(v, a);
    assert Run([v]) == Step(Run([v][..0]), v);
    SecondOfTheJump(Run([v]), w, Add(a, Corner(0)).XY(), b);
    assert Run([v, w]) == Step(Run([v]), w);
  }

  /** Two upright readings that jump: the right foot hangs `depth` under the left, and slips by `slip` between them.  The
      anchored left foot does not move, yet the trunk goes back by the slip and up by the depth. */
  lemma EstimateJumps(depth: real, slip: real) returns (r: Reading, r': Reading)
    requires depth > 0.0
    ensures r == Upright(ORIGIN, Vec3(0.0, -0.1, -depth)) && r' == Upright(ORIGIN, Vec3(slip, -0.1, -depth))
    ensures r.Valid() && r'.Valid()
    ensures Run([ViewOf(r)]).position == Settled(Run([ViewOf(r)]), ViewOf(r')).position == ORIGIN
    ensures Run([ViewOf(r), ViewOf(r')]).position == Vec3(-slip, 0.0, depth)
  {
    var a, b := Vec3(0.0, -0.1, -depth), Vec3(slip, -0.1, -depth);
    r, r' := Upright(ORIGIN, a), Upright(ORIGIN, b);
    UprightShowsFeet(ViewOf(r), ORIGIN, a);
    UprightShowsFeet(ViewOf(r'), ORIGIN, b);
    RunJumps(ViewOf(r), ViewOf(r'), a, b, Vec3(-slip, 0.0, depth));
  }

  // ---------------------------------------------------------------- turning the world about Z

  /** The Hamilton product. */
  function Product(p: Quat, q: Quat): Quat {
    Quat(RealPart(p.w, p.x, p.y, p.z, q.w, q.x, q.y, q.z),
         AxisPart(p.w, p.x, p.y, p.z, q.w, q.x, q.y, q.z),
         AxisPart(p.w, p.y, p.z, p.x, q.w, q.y, q.z, q.x),
         AxisPart(p.w, p.z, p.x, p.y, q.w, q.z, q.x, q.y))
  }

  function RealPart(w: real, a: real, b: real, c: real, w': real, a': real, b': real, c': real): real {
    w * w' - a * a' - b * b' - c * c'
  }

  function AxisPart(w: real, a: real, b: real, c: real, w': real, a': real, b': real, c': real): real {
    w * a' + a * w' + b * c' - c * b'
  }

  /** A rotation about world Z by twice the angle whose cosine and sine are given. */
  datatype Turn = Turn(cos: real, sin: real) {
    ghost predicate Unit() { cos * cos + sin * sin == 1.0 }
    function Quaternion(): Quat { Quat(cos, 0.0, 0.0, sin) }
    function Spin(p: Vec2): Vec2 {
      Vec2((cos * cos - sin * sin) * p.x - 2.0 * cos * sin * p.y,
           2.0 * cos * sin * p.x + (cos * cos - sin * sin) * p.y)
    }
  }

  function TurnedReading(t: Turn, r: Reading): Reading {
    r.(imu := Product(t.Quaternion(), r.imu))
  }

  /** q v q*, for every q. */
  function Conjugate(q: Quat, v: Vec3): Vec3 {
    Vec3(Sandwich(q.w, q.x, q.y, q.z, v.x, v.y, v.z),
         Sandwich(q.w, q.y, q.z, q.x, v.y, v.z, v.x),
         Sandwich(q.w, q.z, q.x, q.y, v.z, v.x, v.y))
  }

  /** The coordinate of q v q*, unit or not. */
  function Sandwich(w: real, a: real, b: real, c: real, v: real, n: real, p: real): real {
    (w * w + a * a - b * b - c * c) * v + 2.0 * (a * b - w * c) * n + 2.0 * (a * c + w * b) * p
  }

  lemma CoordinateOfUnit(w: real, a: real, b: real, c: real, v: real, n: real, p: real)
    requires w * w + a * a + b * b + c * c == 1.0
    ensures Coordinate(w, a, b, c, v, n, p) == Sandwich(w, a, b, c, v, n, p)
  {
    assert Coordinate(w, a, b, c, v, n, p)
        == Sandwich(w, a, b, c, v, n, p) + (1.0 - (w * w + a * a + b * b + c * c)) * v;
  }

  lemma RotateOfUnit(q: Quat, v: Vec3)
    requires SquaredNorm(q) == 1.0
    ensures Rotate(q, v) == Conjugate(q, v)
  {
    CoordinateOfUnit(q.w, q.x, q.y, q.z, v.x, v.y, v.z);
    CoordinateOfUnit(q.w, q.y, q.z, q.x, v.y, v.z, v.x);
    CoordinateOfUnit(q.w, q.z, q.x, q.y, v.z, v.x, v.y);
  }

  lemma SandwichX(k: real, s: real, w: real, x: real, y: real, z: real, vx: real, vy: real, vz: real)
    ensures Sandwich(k * w - s * z, k * x - s * y, k * y + s * x, k * z + s * w, vx, vy, vz)
         == (k * k - s * s) * Sandwich(w, x, y, z, vx, vy, vz) - 2.0 * k * s * Sandwich(w, y, z, x, vy, vz, vx)
  {
  }

  lemma SandwichY(k: real, s: real, w: real, x: real, y: real, z: real, vx: real, vy: real, vz: real)
    ensures Sandwich(k * w - s * z, k * y + s * x, k * z + s * w, k * x - s * y, vy, vz, vx)
         == 2.0 * k * s * Sandwich(w, x, y, z, vx, vy, vz) + (k * k - s * s) * Sandwich(w, y, z, x, vy, vz, vx)
  {
  }

  lemma SandwichZ(k: real, s: real, w: real, x: real, y: real, z: real, vx: real, vy: real, vz: real)
    requires k * k + s * s == 1.0
    ensures Sandwich(k * w - s * z, k * z + s * w, k * x - s * y, k * y + s * x, vz, vx, vy)
         == Sandwich(w, z, x, y, vz, vx, vy)
  {
    assert Sandwich(k * w - s * z, k * z + s * w, k * x - s * y, k * y + s * x, vz, vx, vy)
        == (k * k + s * s) * Sandwich(w, z, x, y, vz, vx, vy);
  }

  /** The estimate's picture after the turn: XY spun, Z kept. */
  function Spun(spin: Vec2 -> Vec2, p: Vec3): Vec3 {
    var xy := spin(p.XY());
    Vec3(xy.x, xy.y, p.z)
  }

  /** The product with a turn, its zero terms gone. */
  function TurnedBy(t: Turn, q: Quat): Quat {
    Quat(t.cos * q.w - t.sin * q.z, t.cos * q.x - t.sin * q.y,
         t.cos * q.y + t.sin * q.x, t.cos * q.z + t.sin * q.w)
  }

  lemma ProductOfTurn(t: Turn, q: Quat)
    ensures Product(t.Quaternion(), q) == TurnedBy(t, q)
  {
  }

  lemma SandwichXY(k: real, s: real, w: real, x: real, y: real, z: real, vx: real, vy: real, vz: real)
    ensures Vec2(Sandwich(k * w - s * z, k * x - s * y, k * y + s * x, k * z + s * w, vx, vy, vz),
                 Sandwich(k * w - s * z, k * y + s * x, k * z + s * w, k * x - s * y, vy, vz, vx))
         == Turn(k, s).Spin(Vec2(Sandwich(w, x, y, z, vx, vy, vz), Sandwich(w, y, z, x, vy, vz, vx)))
  {
    SandwichX(k, s, w, x, y, z, vx, vy, vz);
    SandwichY(k, s, w, x, y, z, vx, vy, vz);
  }

  lemma ConjugateTurned(t: Turn, q: Quat, v: Vec3)
    requires t.Unit()
    ensures Conjugate(TurnedBy(t, q), v) == Spun(t.Spin, Conjugate(q, v))
  {
    var Turn(k, s) := t;
    var Quat(w, x, y, z) := q;
    SandwichZ(k, s, w, x, y, z, v.x, v.y, v.z);
    SandwichXY(k, s, w, x, y, z, v.x, v.y, v.z);
    assert Conjugate(TurnedBy(t, q), v).XY() == t.Spin(Conjugate(q, v).XY());
  }

  lemma NormTurned(t: Turn, q: Quat)
    ensures SquaredNorm(TurnedBy(t, q)) == (t.cos * t.cos + t.sin * t.sin) * SquaredNorm(q)
  {
  }

  lemma RotateTurned(t: Turn, q: Quat, v: Vec3)
    requires t.Unit() && SquaredNorm(q) == 1.0
    ensures Rotate(TurnedBy(t, q), v) == Spun(t.Spin, Rotate(q, v))
  {
    NormTurned(t, q);
    RotateOfUnit(TurnedBy(t, q), v);
    RotateOfUnit(q, v);
    ConjugateTurned(t, q, v);
  }

  lemma HeadingTurned(t: Turn, q: Quat)
    requires t.Unit() && SquaredNorm(q) == 1.0
    ensures Heading(TurnedBy(t, q)) == t.Spin(Heading(q))
  {
    RotateTurned(t, q, Vec3(1.0, 0.0, 0.0));
  }

  lemma Quotients(k: real, s: real, a: real, b: real, n: real)
    requires n > 0.0
    ensures (k * a - s * b) / n == k * (a / n) - s * (b / n)
    ensures (k * a + s * b) / n == k * (a / n) + s * (b / n)
  {
    assert a == (a / n) * n && b == (b / n) * n;
    assert k * a - s * b == (k * (a / n) - s * (b / n)) * n;
    assert k * a + s * b == (k * (a / n) + s * (b / n)) * n;
  }

  lemma NormalizedTurned(t: Turn, q: Quat, norm: real)
    requires norm > 0.0
    ensures Normalized(TurnedBy(t, q), norm) == TurnedBy(t, Normalized(q, norm))
  {
    var Turn(k, s) := t;
    var Quat(w, x, y, z) := q;
    Quotients(k, s, w, z, norm);
    Quotients(k, s, x, y, norm);
    Quotients(k, s, y, x, norm);
    Quotients(k, s, z, w, norm);
    calc {
      Normalized(TurnedBy(t, q), norm);
      Quat((k * w - s * z) / norm, (k * x - s * y) / norm, (k * y + s * x) / norm, (k * z + s * w) / norm);
      Quat(k * (w / norm) - s * (z / norm), k * (x / norm) - s * (y / norm),
           k * (y / norm) + s * (x / norm), k * (z / norm) + s * (w / norm));
      TurnedBy(t, Normalized(q, norm));
    }
  }

  lemma SquareOfQuotient(a: real, b: real, n: real, m: real)
    requires m > 0.0 && m == n * n && a == b * n
    ensures b * b == (a * a) / m
  {
    assert a * a == (b * b) * m;
  }

  lemma SquareIsPositive(n: real, m: real)
    requires n > 0.0 && m == n * n
    ensures m > 0.0
  {
    assert m / n == n;
  }

  lemma SharesOfOne(a: real, b: real, c: real, d: real, m: real)
    requires m > 0.0 && a + b + c + d == m
    ensures a / m + b / m + c / m + d / m == 1.0
  {
    assert (a + b + c + d) / m == 1.0;
  }

  lemma NormalizedIsUnit(q: Quat, norm: real, squared: real)
    requires norm > 0.0 && squared == norm * norm && squared == SquaredNorm(q)
    ensures SquaredNorm(Normalized(q, norm)) == 1.0
  {
    SquareIsPositive(norm, squared);
    SquareOfQuotient(q.w, q.w / norm, norm, squared);
    SquareOfQuotient(q.x, q.x / norm, norm, squared);
    SquareOfQuotient(q.y, q.y / norm, norm, squared);
    SquareOfQuotient(q.z, q.z / norm, norm, squared);
    SharesOfOne(q.w * q.w, q.x * q.x, q.y * q.y, q.z * q.z, squared);
  }

  /** v' sees what v sees, in a world spun about Z. */
  ghost predicate SeesSpun(spin: Vec2 -> Vec2, v: View, v': View) {
    && (forall f :: v'.origin(f) == v.origin(f))
    && (forall f, p :: v'.trunk(f, p) == v.trunk(f, p))
    && (forall p :: v'.world(p) == Spun(spin, v.world(p)))
    && v'.heading == spin(v.heading)
  }

  /** Addition and subtraction pass through the spin. */
  ghost predicate Linear(spin: Vec2 -> Vec2) {
    && (forall a, b :: spin(Plus(a, b)) == Plus(spin(a), spin(b)))
    && (forall a, b :: spin(Minus(a, b)) == Minus(spin(a), spin(b)))
    && spin(Vec2(0.0, 0.0)) == Vec2(0.0, 0.0)
  }

  lemma EverySpinIsLinear(t: Turn)
    ensures Linear(t.Spin)
  {
    var Turn(k, s) := t;
    forall a, b
      ensures t.Spin(Plus(a, b)) == Plus(t.Spin(a), t.Spin(b))
      ensures t.Spin(Minus(a, b)) == Minus(t.Spin(a), t.Spin(b))
    {
    }
  }

  /** A reading with a nonzero IMU quaternion, and the same reading with it premultiplied. */
  lemma TurnedReadingSeesSpun(t: Turn, r: Reading)
    requires t.Unit() && r.Valid() && r.norm > 0.0
    ensures TurnedReading(t, r).Valid() && SeesSpun(t.Spin, ViewOf(r), ViewOf(TurnedReading(t, r)))
  {
    var r' := TurnedReading(t, r);
    ProductOfTurn(t, r.imu);
    NormTurned(t, r.imu);
    NormalizedTurned(t, r.imu, r.norm);
    NormalizedIsUnit(r.imu, r.norm, r.norm * r.norm);
    HeadingTurned(t, r.Rot());
    forall p ensures ViewOf(r').world(p) == Spun(t.Spin, ViewOf(r).world(p)) {
      RotateTurned(t, r.Rot(), p);
    }
  }

  // ---------------------------------------------------------------- whole runs

  function SpunCandidate(spin: Vec2 -> Vec2, c: Option<Candidate>): Option<Candidate> {
    match c
    case None => None
    case Some(p) => Some(p.(xy := spin(p.xy)))
  }

  /** Every XY spun; every Z, foot, corner and tick count as it was. */
  function SpunState(spin: Vec2 -> Vec2, s: State): State {
    s.(anchorXY := spin(s.anchorXY), position := Spun(spin, s.position), heading := spin(s.heading),
       pending := SpunCandidate(spin, s.pending))
  }

  lemma SpunAdd(spin: Vec2 -> Vec2, a: Vec3, b: Vec3)
    requires Linear(spin)
    ensures Spun(spin, Add(a, b)) == Add(Spun(spin, a), Spun(spin, b))
  {
    assert Add(a, b).XY() == Plus(a.XY(), b.XY());
  }

  lemma {:induction false} LowestSpun(spin: Vec2 -> Vec2, v: View, v': View, position: Vec3, k: nat)
    requires Linear(spin) && SeesSpun(spin, v, v')
    ensures Lowest(v', Spun(spin, position), k)
         == (Lowest(v, position, k).0, SpunCandidate(spin, Lowest(v, position, k).1))
  {
    if k > 0 {
      LowestSpun(spin, v, v', position, k - 1);
      SpunAdd(spin, position, v.Contact((k - 1) / 4, Corner((k - 1) % 4)));
    }
  }

  lemma ReprojectedSpun(spin: Vec2 -> Vec2, v: View, v': View, s: State)
    requires Linear(spin) && SeesSpun(spin, v, v')
    ensures Reprojected(SpunState(spin, s), v') == SpunState(spin, Reprojected(s, v))
  {
    var contact := v.Contact(s.anchorFoot, s.anchorLocal);
    assert Vec2(s.anchorXY.x - contact.x, s.anchorXY.y - contact.y) == Minus(s.anchorXY, contact.XY());
  }

  lemma SettledSpun(spin: Vec2 -> Vec2, v: View, v': View, s: State)
    requires Linear(spin) && SeesSpun(spin, v, v')
    ensures Settled(SpunState(spin, s), v') == SpunState(spin, Settled(s, v))
  {
    var init := if s.needsInit
                then s.(anchorXY := v.world(v.origin(s.anchorFoot)).XY(), needsInit := false)
                else s;
    ReprojectedSpun(spin, v, v', init);
  }

  lemma StepSpun(spin: Vec2 -> Vec2, v: View, v': View, s: State)
    requires Linear(spin) && SeesSpun(spin, v, v')
    ensures Step(SpunState(spin, s), v') == SpunState(spin, Step(s, v))
    ensures Switches(SpunState(spin, s), v') <==> Switches(s, v)
  {
    var settled := Settled(s, v);
    var cand := LowestCorner(v, settled.position);
    SettledSpun(spin, v, v', s);
    LowestSpun(spin, v, v', settled.position, 8);
    var c := Confirmed(settled, cand);
    assert Confirmed(SpunState(spin, settled), SpunCandidate(spin, cand)) == SpunState(spin, c);
    if c.pendingTicks >= SWITCH_CONFIRM_TICKS && c.pending.Some? {
      var p := c.pending.value;
      ReprojectedSpun(spin, v, v', c.(pending := None, anchorFoot := p.foot, anchorLocal := p.corner, anchorXY := p.xy));
    }
  }

  function Views(readings: seq<Reading>): seq<View> {
    seq(|readings|, i requires 0 <= i < |readings| => ViewOf(readings[i]))
  }

  function TurnedReadings(t: Turn, readings: seq<Reading>): seq<Reading> {
    seq(|readings|, i requires 0 <= i < |readings| => TurnedReading(t, readings[i]))
  }

  /** Over a whole run, up to the heading before the first update. */
  lemma {:induction false} RunSpun(spin: Vec2 -> Vec2, vs: seq<View>, vs': seq<View>)
    requires Linear(spin) && |vs'| == |vs| && forall i :: 0 <= i < |vs| ==> SeesSpun(spin, vs[i], vs'[i])
    ensures Run(vs') == SpunState(spin, Run(vs)).(heading := Run(vs').heading)
    ensures vs != [] ==> Run(vs') == SpunState(spin, Run(vs))
    ensures vs != [] ==> (SwitchesLast(vs') <==> SwitchesLast(vs))
  {
    if vs != [] {
      var n := |vs| - 1;
      RunSpun(spin, vs[..n], vs'[..n]);
      var s, s' := Run(vs[..n]), Run(vs'[..n]);
      StepSpun(spin, vs[n], vs'[n], s);
    }
  }

  /** The last update of the run moved the anchor. */
  ghost predicate SwitchesLast(vs: seq<View>)
    requires vs != []
  {
    Switches(Run(vs[..|vs| - 1]), vs[|vs| - 1])
  }

  /** Premultiplying every nonzero IMU quaternion of a run by one rotation about world Z spins
      every estimated XY, anchor XY, pending XY and heading by that rotation, and leaves every Z,
      anchor foot, chosen corner, confirmation count and switch as it was. */
  lemma YawEquivariance(t: Turn, readings: seq<Reading>)
    requires t.Unit() && readings != []
    requires forall r :: r in readings ==> r.Valid() && r.norm > 0.0
    ensures var vs, vs' := Views(readings), Views(TurnedReadings(t, readings));
            Run(vs') == SpunState(t.Spin, Run(vs)) && (SwitchesLast(vs') <==> SwitchesLast(vs))
  {
    var vs, vs' := Views(readings), Views(TurnedReadings(t, readings));
    forall i | 0 <= i < |vs| ensures SeesSpun(t.Spin, vs[i], vs'[i]) {
      TurnedReadingSeesSpun(t, readings[i]);
    }
    EverySpinIsLinear(t);
    RunSpun(t.Spin, vs, vs');
  }

  /** The rest of the inputs: a zero quaternion, which `normalized` leaves alone, is its own
      premultiple, so such a reading cannot turn with the world. */
  lemma ZeroReadingDoesNotTurn(t: Turn, r: Reading)
    requires r.Valid() && r.norm == 0.0
    ensures TurnedReading(t, r) == r
  {
    ZeroSquare(r.imu.w);
    ZeroSquare(r.imu.x);
    ZeroSquare(r.imu.y);
    ZeroSquare(r.imu.z);
    ProductOfTurn(t, r.imu);
  }

  lemma ZeroSquare(a: real)
    ensures a * a >= 0.0 && (a * a == 0.0 ==> a == 0.0)
  {
    if a != 0.0 {
      assert (a * a) / a == a;
    }
  }
}
