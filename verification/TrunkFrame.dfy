/** mj_host/src/Odometry.cpp: the estimate does not depend on how the trunk's own frame is chosen. */
module TrunkFrame {
  import opened O = Odometry
  import opened Prelude

  // ---------------------------------------------------------------- quaternions

  function Star(q: Quat): Quat { Quat(q.w, -q.x, -q.y, -q.z) }
  function Pure(v: Vec3): Quat { Quat(0.0, v.x, v.y, v.z) }
  function Scalar(k: real): Quat { Quat(k, 0.0, 0.0, 0.0) }
  function Times(k: real, q: Quat): Quat { Quat(k * q.w, k * q.x, k * q.y, k * q.z) }
  function Scaled(k: real, v: Vec3): Vec3 { Vec3(Multiple(k, v.x), Multiple(k, v.y), Multiple(k, v.z)) }
  function Multiple(k: real, a: real): real { k * a }

  lemma RealPartAssociates(aw: real, ax: real, ay: real, az: real, dw: real, dx: real, dy: real, dz: real,
                           cw: real, cx: real, cy: real, cz: real)
    ensures RealPart(RealPart(aw, ax, ay, az, dw, dx, dy, dz), AxisPart(aw, ax, ay, az, dw, dx, dy, dz),
                     AxisPart(aw, ay, az, ax, dw, dy, dz, dx), AxisPart(aw, az, ax, ay, dw, dz, dx, dy), cw, cx, cy, cz)
         == RealPart(aw, ax, ay, az, RealPart(dw, dx, dy, dz, cw, cx, cy, cz), AxisPart(dw, dx, dy, dz, cw, cx, cy, cz),
                     AxisPart(dw, dy, dz, dx, cw, cy, cz, cx), AxisPart(dw, dz, dx, dy, cw, cz, cx, cy))
  {
  }

  lemma AxisPartAssociates(aw: real, ax: real, ay: real, az: real, dw: real, dx: real, dy: real, dz: real,
                           cw: real, cx: real, cy: real, cz: real)
    ensures AxisPart(RealPart(aw, ax, ay, az, dw, dx, dy, dz), AxisPart(aw, ax, ay, az, dw, dx, dy, dz),
                     AxisPart(aw, ay, az, ax, dw, dy, dz, dx), AxisPart(aw, az, ax, ay, dw, dz, dx, dy), cw, cx, cy, cz)
         == AxisPart(aw, ax, ay, az, RealPart(dw, dx, dy, dz, cw, cx, cy, cz), AxisPart(dw, dx, dy, dz, cw, cx, cy, cz),
                     AxisPart(dw, dy, dz, dx, cw, cy, cz, cx), AxisPart(dw, dz, dx, dy, cw, cz, cx, cy))
  {
  }

  lemma ProductAssociates(a: Quat, b: Quat, c: Quat)
    ensures Product(Product(a, b), c) == Product(a, Product(b, c))
  {
    RealPartAssociates(a.w, a.x, a.y, a.z, b.w, b.x, b.y, b.z, c.w, c.x, c.y, c.z);
    AxisPartAssociates(a.w, a.x, a.y, a.z, b.w, b.x, b.y, b.z, c.w, c.x, c.y, c.z);
    AxisPartAssociates(a.w, a.y, a.z, a.x, b.w, b.y, b.z, b.x, c.w, c.y, c.z, c.x);
    AxisPartAssociates(a.w, a.z, a.x, a.y, b.w, b.z, b.x, b.y, c.w, c.z, c.x, c.y);
  }

  lemma PartsStarred(w: real, a: real, b: real, c: real, w': real, a': real, b': real, c': real)
    ensures RealPart(w', -a', -b', -c', w, -a, -b, -c) == RealPart(w, a, b, c, w', a', b', c')
    ensures AxisPart(w', -a', -b', -c', w, -a, -b, -c) == -AxisPart(w, a, b, c, w', a', b', c')
  {
  }

  lemma StarOfProduct(p: Quat, q: Quat)
    ensures Star(Product(p, q)) == Product(Star(q), Star(p))
    ensures Star(Star(q)) == q
  {
    PartsStarred(p.w, p.x, p.y, p.z, q.w, q.x, q.y, q.z);
    PartsStarred(p.w, p.y, p.z, p.x, q.w, q.y, q.z, q.x);
    PartsStarred(p.w, p.z, p.x, p.y, q.w, q.z, q.x, q.y);
  }

  /** A scalar passes through, from either side. */
  lemma ScalarPasses(k: real, q: Quat)
    ensures Product(Scalar(k), q) == Product(q, Scalar(k)) == Times(k, q)
    ensures k == 1.0 ==> Times(k, q) == q
  {
  }

  lemma StarGivesNorm(q: Quat)
    ensures Product(q, Star(q)) == Product(Star(q), q) == Scalar(SquaredNorm(q))
    ensures SquaredNorm(Star(q)) == SquaredNorm(q)
  {
  }

  lemma MiddleIsNorm(p: Quat, q: Quat)
    ensures Product(Product(p, q), Product(Star(q), Star(p))) == Product(p, Product(Scalar(SquaredNorm(q)), Star(p)))
  {
    ProductAssociates(p, q, Product(Star(q), Star(p)));
    ProductAssociates(q, Star(q), Star(p));
    StarGivesNorm(q);
  }

  lemma NormInTheMiddle(p: Quat, m: real)
    ensures Product(p, Product(Scalar(m), Star(p))) == Product(Scalar(SquaredNorm(p)), Scalar(m))
  {
    ScalarPasses(m, Star(p));
    ProductAssociates(p, Star(p), Scalar(m));
    StarGivesNorm(p);
  }

  lemma NormOfProduct(p: Quat, q: Quat)
    ensures SquaredNorm(Product(p, q)) == SquaredNorm(p) * SquaredNorm(q)
  {
    StarGivesNorm(Product(p, q));
    StarOfProduct(p, q);
    MiddleIsNorm(p, q);
    NormInTheMiddle(p, SquaredNorm(q));
    ScalarsMultiply(SquaredNorm(Product(p, q)), SquaredNorm(p), SquaredNorm(q));
  }

  lemma ScalarsMultiply(k: real, n: real, m: real)
    requires Scalar(k) == Product(Scalar(n), Scalar(m))
    ensures k == n * m
  {
    assert Product(Scalar(n), Scalar(m)).w == n * m;
  }

  // ---------------------------------------------------------------- rotations compose

  lemma ConjugateIsProduct(q: Quat, v: Vec3)
    ensures Product(Product(q, Pure(v)), Star(q)) == Pure(Conjugate(q, v))
  {
  }

  lemma ConjugateOfProduct(p: Quat, q: Quat, v: Vec3)
    ensures Conjugate(Product(p, q), v) == Conjugate(p, Conjugate(q, v))
  {
    var m := Pure(v);
    calc {
      Pure(Conjugate(Product(p, q), v));
      { ConjugateIsProduct(Product(p, q), v); StarOfProduct(p, q); }
      Product(Product(Product(p, q), m), Product(Star(q), Star(p)));
      { ProductAssociates(p, q, m); }
      Product(Product(p, Product(q, m)), Product(Star(q), Star(p)));
      { ProductAssociates(Product(p, Product(q, m)), Star(q), Star(p)); }
      Product(Product(Product(p, Product(q, m)), Star(q)), Star(p));
      { ProductAssociates(p, Product(q, m), Star(q)); ConjugateIsProduct(q, v); }
      Product(Product(p, Pure(Conjugate(q, v))), Star(p));
      { ConjugateIsProduct(p, Conjugate(q, v)); }
      Pure(Conjugate(p, Conjugate(q, v)));
    }
  }

  /** What a norm other than 1 adds to a coordinate. */
  function GapAlong(w: real, a: real, b: real, c: real, v: real): real {
    (1.0 - (w * w + a * a + b * b + c * c)) * v
  }

  function Gap(q: Quat, v: Vec3): Vec3 {
    Vec3(GapAlong(q.w, q.x, q.y, q.z, v.x), GapAlong(q.w, q.y, q.z, q.x, v.y), GapAlong(q.w, q.z, q.x, q.y, v.z))
  }

  lemma CoordinateHasGap(w: real, a: real, b: real, c: real, v: real, n: real, p: real)
    ensures Coordinate(w, a, b, c, v, n, p) == Sandwich(w, a, b, c, v, n, p) + GapAlong(w, a, b, c, v)
  {
  }

  /** The expanded rotation of a quaternion that need not be a unit. */
  lemma RotateHasGap(q: Quat, v: Vec3)
    ensures Rotate(q, v) == Add(Conjugate(q, v), Gap(q, v))
  {
    CoordinateHasGap(q.w, q.x, q.y, q.z, v.x, v.y, v.z);
    CoordinateHasGap(q.w, q.y, q.z, q.x, v.y, v.z, v.x);
    CoordinateHasGap(q.w, q.z, q.x, q.y, v.z, v.x, v.y);
  }

  lemma GapIsScaled(q: Quat, v: Vec3)
    ensures Gap(q, v) == Scaled(1.0 - SquaredNorm(q), v)
  {
  }

  lemma CoordinateScaled(w: real, a: real, b: real, c: real, v: real, n: real, p: real, k: real)
    ensures Coordinate(w, a, b, c, Multiple(k, v), Multiple(k, n), Multiple(k, p))
         == Multiple(k, Coordinate(w, a, b, c, v, n, p))
  {
  }

  lemma RotateScaled(q: Quat, k: real, v: Vec3)
    ensures Rotate(q, Scaled(k, v)) == Scaled(k, Rotate(q, v))
  {
    CoordinateScaled(q.w, q.x, q.y, q.z, v.x, v.y, v.z, k);
    CoordinateScaled(q.w, q.y, q.z, q.x, v.y, v.z, v.x, k);
    CoordinateScaled(q.w, q.z, q.x, q.y, v.z, v.x, v.y, k);
  }

  /** Rotating by q, then by a unit g: the product's rotation but for what q's norm adds, which g turns in the one and not
      in the other. */
  lemma RotateTwice(g: Quat, q: Quat, v: Vec3)
    requires SquaredNorm(g) == 1.0
    ensures var k, c := 1.0 - SquaredNorm(q), Conjugate(g, Conjugate(q, v));
            && Rotate(Product(g, q), v) == Add(c, Scaled(k, v))
            && Rotate(g, Rotate(q, v)) == Add(c, Scaled(k, Rotate(g, v)))
  {
    var k := 1.0 - SquaredNorm(q);
    NormOfProduct(g, q);
    RotateHasGap(Product(g, q), v);
    GapIsScaled(Product(g, q), v);
    ConjugateOfProduct(g, q, v);
    RotateHasGap(q, v);
    GapIsScaled(q, v);
    RotateAdd(g, Conjugate(q, v), Scaled(k, v));
    RotateScaled(g, k, v);
    RotateOfUnit(g, Conjugate(q, v));
  }

  // ---------------------------------------------------------------- a foot's pose in the turned frame

  function Turned(g: Quat, p: SitePose): SitePose {
    SitePose(Rotate(g, p.pos), Product(g, p.quat))
  }

  lemma ScaledApart(c: Vec3, k: real, u: Vec3, v: Vec3)
    ensures Add(c, Scaled(k, u)) == Add(c, Scaled(k, v)) <==> k == 0.0 || u == v
  {
    OneApart(k, u.x, v.x);
    OneApart(k, u.y, v.y);
    OneApart(k, u.z, v.z);
  }

  lemma OneApart(k: real, a: real, b: real)
    ensures k * a == k * b <==> k == 0.0 || a == b
  {
    if k != 0.0 && k * a == k * b {
      assert a == (k * a) / k == (k * b) / k == b;
    }
  }

  lemma AddCancels(a: Vec3, b: Vec3, c: Vec3)
    ensures Add(a, b) == Add(a, c) <==> b == c
  {
  }

  /** A sole point of the turned foot is the turned sole point exactly when the foot's quaternion is a unit, or the turn
      leaves that point of the foot frame where it is. */
  lemma FootTurns(g: Quat, p: SitePose, v: Vec3)
    requires SquaredNorm(g) == 1.0
    ensures TransformPoint(Turned(g, p), v) == Rotate(g, TransformPoint(p, v)) <==>
              SquaredNorm(p.quat) == 1.0 || Rotate(g, v) == v
  {
    RotateTwice(g, p.quat, v);
    RotateAdd(g, p.pos, Rotate(p.quat, v));
    AddCancels(Rotate(g, p.pos), Rotate(Product(g, p.quat), v), Rotate(g, Rotate(p.quat, v)));
    ScaledApart(Conjugate(g, Conjugate(p.quat, v)), 1.0 - SquaredNorm(p.quat), v, Rotate(g, v));
  }

  /** Where a point of the foot is, seen from the foot's place. */
  function FromPlace(p: SitePose, v: Vec3): Vec3 {
    Add(TransformPoint(p, v), Negate(p.pos))
  }

  /** Turning a foot about its own vertical spins its sole points about its place. */
  lemma FootYawSpins(t: Turn, p: SitePose, v: Vec3)
    requires t.Unit() && SquaredNorm(p.quat) == 1.0
    ensures FromPlace(p.(quat := Product(t.Quaternion(), p.quat)), v) == Spun(t.Spin, FromPlace(p, v))
  {
    ProductOfTurn(t, p.quat);
    RotateTurned(t, p.quat, v);
    assert FromPlace(p, v) == Rotate(p.quat, v);
    assert FromPlace(p.(quat := TurnedBy(t, p.quat)), v) == Rotate(TurnedBy(t, p.quat), v);
  }

  // ---------------------------------------------------------------- a reading in the turned frame

  /** What the same pose of the body reads as when the trunk's frame is turned by g: both feet by g, and the IMU's
      orientation with g undone first. */
  function Reframed(g: Quat, r: Reading): Reading {
    Reading(Turned(g, r.left), Turned(g, r.right), Product(r.imu, Star(g)), r.norm)
  }

  ghost predicate UnitFeet(r: Reading) {
    SquaredNorm(r.left.quat) == 1.0 && SquaredNorm(r.right.quat) == 1.0
  }

  lemma NormalizedIsTimes(q: Quat, norm: real)
    requires norm > 0.0
    ensures Normalized(q, norm) == Times(1.0 / norm, q)
  {
  }

  lemma TimesOfProduct(k: real, p: Quat, q: Quat)
    ensures Product(Times(k, p), q) == Times(k, Product(p, q))
  {
    ScalarPasses(k, p);
    ScalarPasses(k, Product(p, q));
    ProductAssociates(Scalar(k), p, q);
  }

  lemma ImuReframed(g: Quat, r: Reading)
    requires SquaredNorm(g) == 1.0 && r.Valid() && r.norm > 0.0
    ensures Reframed(g, r).Valid() && SquaredNorm(r.Rot()) == 1.0
    ensures Reframed(g, r).Rot() == Product(r.Rot(), Star(g))
  {
    NormOfProduct(r.imu, Star(g));
    StarGivesNorm(g);
    NormalizedIsUnit(r.imu, r.norm, r.norm * r.norm);
    NormalizedIsTimes(r.imu, r.norm);
    NormalizedIsTimes(Product(r.imu, Star(g)), r.norm);
    TimesOfProduct(1.0 / r.norm, r.imu, Star(g));
  }

  /** A vector turned by g, then by q with g undone first, is the vector turned by q. */
  lemma UndoneFirst(g: Quat, q: Quat, v: Vec3)
    requires SquaredNorm(g) == 1.0 && SquaredNorm(q) == 1.0
    ensures Rotate(Product(q, Star(g)), Rotate(g, v)) == Rotate(q, v)
  {
    var b := Product(q, Star(g));
    StarGivesNorm(g);
    NormOfProduct(q, Star(g));
    RotateOfUnit(b, Rotate(g, v));
    RotateOfUnit(g, v);
    RotateOfUnit(q, v);
    ConjugateOfProduct(b, g, v);
    ProductAssociates(q, Star(g), g);
    ScalarPasses(1.0, q);
  }

  /** v' sees every sole point, and both feet's places, where v does. */
  ghost predicate SeesTheSame(v: View, v': View) {
    && (forall f, p :: v'.Contact(f, p) == v.Contact(f, p))
    && (forall f :: v'.world(v'.origin(f)) == v.world(v.origin(f)))
  }

  lemma ReframedSeesTheSame(g: Quat, r: Reading)
    requires SquaredNorm(g) == 1.0 && r.Valid() && r.norm > 0.0 && UnitFeet(r)
    ensures Reframed(g, r).Valid() && SeesTheSame(ViewOf(r), ViewOf(Reframed(g, r)))
  {
    var r' := Reframed(g, r);
    var v, v' := ViewOf(r), ViewOf(r');
    ImuReframed(g, r);
    forall f: nat, p ensures v'.Contact(f, p) == v.Contact(f, p) {
      FootTurns(g, r.Foot(f), p);
      UndoneFirst(g, r.Rot(), TransformPoint(r.Foot(f), p));
    }
    forall f: nat ensures v'.world(v'.origin(f)) == v.world(v.origin(f)) {
      UndoneFirst(g, r.Rot(), r.Foot(f).pos);
    }
  }

  /** A zero quaternion cannot undo the turn: what such a reading shows turns with the frame. */
  lemma ZeroReadingTurns(g: Quat, r: Reading, f: nat, p: Vec3)
    requires SquaredNorm(g) == 1.0 && r.Valid() && r.norm == 0.0 && UnitFeet(r)
    ensures ViewOf(Reframed(g, r)).Contact(f, p) == Rotate(g, ViewOf(r).Contact(f, p))
  {
    ZeroSquare(r.imu.w);
    ZeroSquare(r.imu.x);
    ZeroSquare(r.imu.y);
    ZeroSquare(r.imu.z);
    var zero := Quat(0.0, 0.0, 0.0, 0.0);
    assert r.imu == zero && Product(zero, Star(g)) == zero;
    FootTurns(g, r.Foot(f), p);
    ZeroTurnsNothing(TransformPoint(r.Foot(f), p));
    ZeroTurnsNothing(TransformPoint(Turned(g, r.Foot(f)), p));
  }

  lemma ZeroTurnsNothing(v: Vec3)
    ensures Rotate(Quat(0.0, 0.0, 0.0, 0.0), v) == v
  {
  }

  // ---------------------------------------------------------------- whole runs

  lemma {:induction false} LowestSame(v: View, v': View, position: Vec3, k: nat)
    requires SeesTheSame(v, v')
    ensures Lowest(v', position, k) == Lowest(v, position, k)
  {
    if k > 0 {
      LowestSame(v, v', position, k - 1);
      assert v'.Contact((k - 1) / 4, Corner((k - 1) % 4)) == v.Contact((k - 1) / 4, Corner((k - 1) % 4));
    }
  }

  /** One update, whatever heading the state holds. */
  lemma StepSame(v: View, v': View, s: State, heading: Vec2)
    requires SeesTheSame(v, v')
    ensures Step(s.(heading := heading), v') == Step(s, v).(heading := v'.heading)
    ensures Switches(s.(heading := heading), v') <==> Switches(s, v)
  {
    LowestSame(v, v', Settled(s, v).position, 8);
  }

  lemma {:induction false} RunSame(vs: seq<View>, vs': seq<View>)
    requires |vs'| == |vs| && forall i :: 0 <= i < |vs| ==> SeesTheSame(vs[i], vs'[i])
    ensures Run(vs') == Run(vs).(heading := Run(vs').heading)
    ensures vs != [] ==> (SwitchesLast(vs') <==> SwitchesLast(vs))
  {
    if vs != [] {
      var n := |vs| - 1;
      RunSame(vs[..n], vs'[..n]);
      StepSame(vs[n], vs'[n], Run(vs[..n]), Run(vs'[..n]).heading);
    }
  }

  /** Each reading in a frame of its own. */
  function ReframedReadings(gs: seq<Quat>, readings: seq<Reading>): seq<Reading>
    requires |gs| == |readings|
  {
    seq(|readings|, i requires 0 <= i < |readings| => Reframed(gs[i], readings[i]))
  }

  /** How the trunk's frame is chosen does not matter, even if it is chosen anew for every reading: with both feet turned
      by a unit quaternion and the IMU's nonzero quaternion multiplied by its conjugate on the right, every position,
      anchor, pending candidate, tick count and switch of a run is as it was; only the heading is the turned IMU's. */
  lemma TrunkFrameDoesNotMatter(gs: seq<Quat>, readings: seq<Reading>)
    requires |gs| == |readings| && readings != []
    requires forall g :: g in gs ==> SquaredNorm(g) == 1.0
    requires forall r :: r in readings ==> r.Valid() && r.norm > 0.0 && UnitFeet(r)
    ensures var vs, vs' := Views(readings), Views(ReframedReadings(gs, readings));
            && Run(vs') == Run(vs).(heading := Run(vs').heading)
            && (SwitchesLast(vs') <==> SwitchesLast(vs))
  {
    var vs, vs' := Views(readings), Views(ReframedReadings(gs, readings));
    forall i | 0 <= i < |vs| ensures SeesTheSame(vs[i], vs'[i]) {
      assert gs[i] in gs && readings[i] in readings;
      ReframedSeesTheSame(gs[i], readings[i]);
    }
    RunSame(vs, vs');
  }
}
