/**
 * Coordinate frames (src/frames.cpp) over the reals: the attitude sent to the autopilot is composed
 * from the estimate, the camera calibration and the mount. The mount's tilt enters as its cosine and
 * sine, and the quaternion's norm as the number whose square is the sum of squares.
 */
module Frames {
  import opened Basics
  import opened Estimates

  /** A matrix by its rows. */
  datatype Matrix = Matrix(a: Vec3, b: Vec3, c: Vec3)

  function Dot(u: Vec3, v: Vec3): real {
    u.x * v.x + u.y * v.y + u.z * v.z
  }

  function Cross(u: Vec3, v: Vec3): Vec3 {
    Vec3(u.y * v.z - u.z * v.y, u.z * v.x - u.x * v.z, u.x * v.y - u.y * v.x)
  }

  function Transpose(m: Matrix): Matrix {
    Matrix(Vec3(m.a.x, m.b.x, m.c.x), Vec3(m.a.y, m.b.y, m.c.y), Vec3(m.a.z, m.b.z, m.c.z))
  }

  function Apply(m: Matrix, v: Vec3): Vec3 {
    Vec3(Dot(m.a, v), Dot(m.b, v), Dot(m.c, v))
  }

  /** The product; each row is a row of `m` taken through the transpose of `n`. */
  function Mul(m: Matrix, n: Matrix): Matrix {
    var t := Transpose(n);
    Matrix(Apply(t, m.a), Apply(t, m.b), Apply(t, m.c))
  }

  function Det(m: Matrix): real {
    Dot(m.a, Cross(m.b, m.c))
  }

  const IDENTITY := Matrix(Vec3(1.0, 0.0, 0.0), Vec3(0.0, 1.0, 0.0), Vec3(0.0, 0.0, 1.0))

  /** A rotation: orthonormal rows and determinant one. */
  predicate Proper(m: Matrix) {
    Mul(m, Transpose(m)) == IDENTITY && Det(m) == 1.0
  }

  // ---- matrix algebra

  lemma ApplyProduct(m: Matrix, n: Matrix, v: Vec3)
    ensures Apply(Mul(m, n), v) == Apply(m, Apply(n, v))
  {
    hide Apply, Dot;
    RowOfProduct(m.a, n, v);
    RowOfProduct(m.b, n, v);
    RowOfProduct(m.c, n, v);
    Unfold(Mul(m, n), v);
    Unfold(m, Apply(n, v));
  }

  lemma Unfold(m: Matrix, v: Vec3)
    ensures Apply(m, v) == Vec3(Dot(m.a, v), Dot(m.b, v), Dot(m.c, v))
  {
  }

  lemma RowOfProduct(r: Vec3, n: Matrix, v: Vec3)
    ensures Dot(Apply(Transpose(n), r), v) == Dot(r, Apply(n, v))
  {
  }

  lemma TransposeOfProduct(m: Matrix, n: Matrix)
    ensures Transpose(Mul(m, n)) == Mul(Transpose(n), Transpose(m))
  {
  }

  lemma Associative(l: Matrix, m: Matrix, n: Matrix)
    ensures Mul(Mul(l, m), n) == Mul(l, Mul(m, n))
  {
    hide Apply, Transpose;
    TransposeOfProduct(m, n);
    ApplyProduct(Transpose(n), Transpose(m), l.a);
    ApplyProduct(Transpose(n), Transpose(m), l.b);
    ApplyProduct(Transpose(n), Transpose(m), l.c);
  }

  lemma Neutral(m: Matrix)
    ensures Mul(m, IDENTITY) == m && Mul(IDENTITY, m) == m && Transpose(Transpose(m)) == m
  {
  }

  /** The cofactors: row k is the cross product of the other two rows. */
  function Cofactors(m: Matrix): Matrix {
    Matrix(Cross(m.b, m.c), Cross(m.c, m.a), Cross(m.a, m.b))
  }

  lemma CrossOfImages(p: Vec3, q: Vec3, u: Vec3, v: Vec3)
    ensures Dot(p, u) * Dot(q, v) - Dot(q, u) * Dot(p, v) == Dot(Cross(p, q), Cross(u, v))
  {
  }

  lemma CrossThrough(m: Matrix, u: Vec3, v: Vec3)
    ensures Cross(Apply(m, u), Apply(m, v)) == Apply(Cofactors(m), Cross(u, v))
  {
    hide Dot;
    CrossOfImages(m.b, m.c, u, v);
    CrossOfImages(m.c, m.a, u, v);
    CrossOfImages(m.a, m.b, u, v);
  }

  function Scale(k: real, v: Vec3): Vec3 {
    Vec3(k * v.x, k * v.y, k * v.z)
  }

  function Diagonal(d: real): Matrix {
    Matrix(Vec3(d, 0.0, 0.0), Vec3(0.0, d, 0.0), Vec3(0.0, 0.0, d))
  }

  lemma DetOfTranspose(m: Matrix)
    ensures Det(Transpose(m)) == Det(m)
  {
  }

  lemma DotCommutes(u: Vec3, v: Vec3)
    ensures Dot(u, v) == Dot(v, u)
  {
  }

  lemma CrossIsOrthogonal(u: Vec3, v: Vec3)
    ensures Dot(Cross(u, v), u) == 0.0 && Dot(Cross(u, v), v) == 0.0
  {
  }

  lemma TripleTurns(u: Vec3, v: Vec3, w: Vec3)
    ensures Dot(Cross(u, v), w) == Dot(Cross(v, w), u)
  {
    TripleOfNumbers(u.x, u.y, u.z, v.x, v.y, v.z, w.x, w.y, w.z);
  }

  lemma TripleOfNumbers(a: real, b: real, c: real, d: real, e: real, f: real, g: real, h: real, i: real)
    ensures (b * f - c * e) * g + (c * d - a * f) * h + (a * e - b * d) * i
            == (e * i - f * h) * a + (f * g - d * i) * b + (d * h - e * g) * c
  {
  }

  lemma CofactorsOfTranspose(m: Matrix)
    ensures Transpose(Cofactors(m)) == Cofactors(Transpose(m))
  {
    hide Cross;
    FirstColumn(m.a, m.b, m.c);
    SecondColumn(m.a, m.b, m.c);
    ThirdColumn(m.a, m.b, m.c);
  }

  lemma FirstColumn(a: Vec3, b: Vec3, c: Vec3)
    ensures Cross(Vec3(a.y, b.y, c.y), Vec3(a.z, b.z, c.z)) == Vec3(Cross(b, c).x, Cross(c, a).x, Cross(a, b).x)
  {
  }

  lemma SecondColumn(a: Vec3, b: Vec3, c: Vec3)
    ensures Cross(Vec3(a.z, b.z, c.z), Vec3(a.x, b.x, c.x)) == Vec3(Cross(b, c).y, Cross(c, a).y, Cross(a, b).y)
  {
  }

  lemma ThirdColumn(a: Vec3, b: Vec3, c: Vec3)
    ensures Cross(Vec3(a.x, b.x, c.x), Vec3(a.y, b.y, c.y)) == Vec3(Cross(b, c).z, Cross(c, a).z, Cross(a, b).z)
  {
  }

  lemma CofactorsProduct(m: Matrix)
    ensures Mul(Transpose(m), Cofactors(m)) == Diagonal(Det(m))
  {
    hide Dot, Cross;
    var t := Transpose(m);
    CofactorsOfTranspose(m);
    CrossIsOrthogonal(t.a, t.b);
    CrossIsOrthogonal(t.b, t.c);
    CrossIsOrthogonal(t.c, t.a);
    TripleTurns(t.a, t.b, t.c);
    TripleTurns(t.b, t.c, t.a);
    DotCommutes(t.a, Cross(t.b, t.c));
    DetOfTranspose(m);
  }

  lemma CofactorsInvert(m: Matrix, v: Vec3)
    ensures Apply(Transpose(m), Apply(Cofactors(m), v)) == Scale(Det(m), v)
  {
    hide Mul, Cofactors, Det, Transpose;
    ApplyProduct(Transpose(m), Cofactors(m), v);
    CofactorsProduct(m);
    DiagonalScales(Det(m), v);
  }

  lemma DiagonalScales(d: real, v: Vec3)
    ensures Apply(Diagonal(d), v) == Scale(d, v)
  {
  }

  lemma DotScale(u: Vec3, k: real, v: Vec3)
    ensures Dot(u, Scale(k, v)) == k * Dot(u, v)
  {
  }

  lemma DetOfProduct(m: Matrix, n: Matrix)
    ensures Det(Mul(m, n)) == Det(m) * Det(n)
  {
    hide Dot, Cross, Apply, Scale, Cofactors, Transpose;
    var t := Transpose(n);
    var w := Cross(m.b, m.c);
    CrossThrough(t, m.b, m.c);
    RowOfProduct(m.a, Transpose(t), Apply(Cofactors(t), w));
    Neutral(n);
    Neutral(t);
    CofactorsInvert(t, w);
    DotScale(m.a, Det(t), w);
    DetOfTranspose(n);
    assert Det(Mul(m, n)) == Dot(Apply(t, m.a), Cross(Apply(t, m.b), Apply(t, m.c)));
  }

  /** A multiple of a rotation, row by row. */
  lemma FromRows(m: Matrix, d: real)
    requires Dot(m.a, m.a) == d && Dot(m.b, m.b) == d && Dot(m.c, m.c) == d
    requires Dot(m.a, m.b) == 0.0 && Dot(m.b, m.c) == 0.0 && Dot(m.c, m.a) == 0.0
    ensures Mul(m, Transpose(m)) == Diagonal(d)
  {
    hide Dot;
    Neutral(m);
    DotCommutes(m.a, m.b);
    DotCommutes(m.b, m.c);
    DotCommutes(m.c, m.a);
  }

  /** In a rotation every row is the cross product of the other two, and the transpose is the inverse. */
  lemma ProperCofactors(m: Matrix)
    requires Proper(m)
    ensures m == Cofactors(m) && Mul(Transpose(m), m) == IDENTITY && Proper(Transpose(m))
  {
    hide Mul, Det, Cofactors, Transpose;
    CofactorsProduct(m);
    assert Diagonal(Det(m)) == IDENTITY;
    Associative(m, Transpose(m), Cofactors(m));
    Neutral(m);
    Neutral(Cofactors(m));
    DetOfTranspose(m);
  }

  /** (m x)(m x)^T, where x x^T is known. */
  lemma Conjugated(m: Matrix, x: Matrix)
    ensures Mul(Mul(m, x), Transpose(Mul(m, x))) == Mul(m, Mul(Mul(x, Transpose(x)), Transpose(m)))
  {
    hide Mul, Transpose;
    TransposeOfProduct(m, x);
    Associative(m, x, Mul(Transpose(x), Transpose(m)));
    Associative(x, Transpose(x), Transpose(m));
  }

  lemma ProperProduct(m: Matrix, n: Matrix)
    requires Proper(m) && Proper(n)
    ensures Proper(Mul(m, n))
  {
    hide Mul, Transpose, Det;
    Conjugated(m, n);
    Neutral(Transpose(m));
    DetOfProduct(m, n);
  }

  lemma LengthKept(m: Matrix, v: Vec3)
    requires Mul(Transpose(m), m) == IDENTITY
    ensures Dot(Apply(m, v), Apply(m, v)) == Dot(v, v)
  {
    hide Mul, Transpose, Dot;
    RowOfProduct(v, Transpose(m), Apply(m, v));
    Neutral(m);
    ApplyProduct(Transpose(m), m, v);
    ApplyIdentity(v);
  }

  lemma ApplyIdentity(v: Vec3)
    ensures Apply(IDENTITY, v) == v
  {
  }

  // ---- the frames

  /** (x, y, z) up to north, east, down: (y, x, -z). */
  function NedFromWorld(): Matrix {
     Matrix(Vec3(0.0, 1.0, 0.0), Vec3(1.0, 0.0, 0.0), Vec3(0.0, 0.0, -1.0))
  }

  /** `body_from_camera`; the tilt has cosine `c` and sine `s`. */
  function BodyFromCamera(c: real, s: real, upsideDown: bool): Matrix {
    if upsideDown then Matrix(Vec3(0.0, s, c), Vec3(-1.0, 0.0, 0.0), Vec3(0.0, -c, s))
    else Matrix(Vec3(0.0, -s, c), Vec3(1.0, 0.0, 0.0), Vec3(0.0, c, s))
  }

  /** Half a turn about the optical axis, camera z. */
  function HalfTurn(): Matrix {
     Matrix(Vec3(-1.0, 0.0, 0.0), Vec3(0.0, -1.0, 0.0), Vec3(0.0, 0.0, 1.0))
  }

  /** Eigen's rotation matrix of a unit quaternion. */
  function Rotation(q: Quaternion): Matrix {
    Matrix(
      Vec3(1.0 - 2.0 * (q.y * q.y + q.z * q.z), 2.0 * (q.x * q.y - q.w * q.z), 2.0 * (q.x * q.z + q.w * q.y)),
      Vec3(2.0 * (q.x * q.y + q.w * q.z), 1.0 - 2.0 * (q.x * q.x + q.z * q.z), 2.0 * (q.y * q.z - q.w * q.x)),
      Vec3(2.0 * (q.x * q.z - q.w * q.y), 2.0 * (q.y * q.z + q.w * q.x), 1.0 - 2.0 * (q.x * q.x + q.y * q.y)))
  }

  predicate Unit(w: real, x: real, y: real, z: real) {
    w * w + x * x + y * y + z * z == 1.0
  }

  /** Its first row; the other two are the first row with the axes cycled. */
  function Row(w: real, x: real, y: real, z: real): Vec3 {
    Vec3(1.0 - 2.0 * (y * y + z * z), 2.0 * (x * y - w * z), 2.0 * (x * z + w * y))
  }

  function Cycle(v: Vec3): Vec3 {
    Vec3(v.y, v.z, v.x)
  }

  lemma RotationHasRows(q: Quaternion)
    ensures Rotation(q) == Matrix(Row(q.w, q.x, q.y, q.z), Cycle(Cycle(Row(q.w, q.y, q.z, q.x))),
                                  Cycle(Row(q.w, q.z, q.x, q.y)))
  {
  }

  lemma UnitCycles(w: real, x: real, y: real, z: real)
    ensures Unit(w, x, y, z) == Unit(w, y, z, x)
  {
  }

  lemma TwoSquares(a: real, b: real, c: real, d: real)
    ensures (a * c - b * d) * (a * c - b * d) + (a * d + b * c) * (a * d + b * c) == (a * a + b * b) * (c * c + d * d)
  {
  }

  lemma RowNumbers(w: real, x: real, y: real, z: real, p: real, q: real, r: real)
    requires Unit(w, x, y, z)
    requires p == 1.0 - 2.0 * (y * y + z * z) && q == 2.0 * (x * y - w * z) && r == 2.0 * (x * z + w * y)
    ensures p * p + q * q + r * r == 1.0
  {
    TwoSquares(x, w, y, z);
    var s := y * y + z * z;
    var b, c := x * y - w * z, x * z + w * y;
    assert x * x + w * w == 1.0 - s;
    assert b * b + c * c == (1.0 - s) * s;
  }

  lemma RowIsUnit(w: real, x: real, y: real, z: real)
    requires Unit(w, x, y, z)
    ensures Dot(Row(w, x, y, z), Row(w, x, y, z)) == 1.0
  {
    var v := Row(w, x, y, z);
    RowNumbers(w, x, y, z, v.x, v.y, v.z);
  }

  lemma RowsOfNumbers(w: real, x: real, y: real, z: real, a: real, b: real, c: real, d: real, e: real, f: real)
    requires Unit(w, x, y, z)
    requires a == 1.0 - 2.0 * (y * y + z * z) && b == 2.0 * (x * y - w * z) && c == 2.0 * (x * z + w * y)
    requires d == 2.0 * (x * y + w * z) && e == 1.0 - 2.0 * (x * x + z * z) && f == 2.0 * (y * z - w * x)
    ensures a * d + b * e + c * f == 0.0
  {
  }

  lemma RowsAreNormal(w: real, x: real, y: real, z: real)
    requires Unit(w, x, y, z)
    ensures Dot(Row(w, x, y, z), Cycle(Cycle(Row(w, y, z, x)))) == 0.0
  {
    var u, v := Row(w, x, y, z), Cycle(Cycle(Row(w, y, z, x)));
    RowsOfNumbers(w, x, y, z, u.x, u.y, u.z, v.x, v.y, v.z);
  }

  lemma CrossX(w: real, x: real, y: real, z: real, b: real, c: real, e: real, f: real)
    requires Unit(w, x, y, z) && b == 1.0 - 2.0 * (x * x + z * z) && c == 2.0 * (y * z - w * x)
    requires e == 2.0 * (y * z + w * x) && f == 1.0 - 2.0 * (x * x + y * y)
    ensures b * f - c * e == 1.0 - 2.0 * (y * y + z * z)
  {
  }

  lemma CrossY(w: real, x: real, y: real, z: real, a: real, c: real, d: real, f: real)
    requires Unit(w, x, y, z) && a == 2.0 * (x * y + w * z) && c == 2.0 * (y * z - w * x)
    requires d == 2.0 * (x * z - w * y) && f == 1.0 - 2.0 * (x * x + y * y)
    ensures c * d - a * f == 2.0 * (x * y - w * z)
  {
  }

  lemma CrossZ(w: real, x: real, y: real, z: real, a: real, b: real, d: real, e: real)
    requires Unit(w, x, y, z) && a == 2.0 * (x * y + w * z) && b == 1.0 - 2.0 * (x * x + z * z)
    requires d == 2.0 * (x * z - w * y) && e == 2.0 * (y * z + w * x)
    ensures a * e - b * d == 2.0 * (x * z + w * y)
  {
  }

  lemma CycleKeepsDot(u: Vec3, v: Vec3)
    ensures Dot(Cycle(u), Cycle(v)) == Dot(u, v)
  {
  }

  lemma ThreeCycles(v: Vec3)
    ensures Cycle(Cycle(Cycle(v))) == v
  {
  }

  /** The first row is the cross product of the other two. */
  lemma RowsTurnRight(w: real, x: real, y: real, z: real, u: Vec3, v: Vec3)
    requires Unit(w, x, y, z) && u == Cycle(Cycle(Row(w, y, z, x))) && v == Cycle(Row(w, z, x, y))
    ensures Cross(u, v) == Row(w, x, y, z)
  {
    CrossX(w, x, y, z, u.y, u.z, v.y, v.z);
    CrossY(w, x, y, z, u.x, u.z, v.x, v.z);
    CrossZ(w, x, y, z, u.x, u.y, v.x, v.y);
  }

  /** Every unit quaternion names a rotation. */
  lemma RotationIsProper(q: Quaternion)
    requires q.NormSquared() == 1.0
    ensures Proper(Rotation(q))
  {
    var w, x, y, z := q.w, q.x, q.y, q.z;
    assert Unit(w, x, y, z);
    RotationHasRows(q);
    hide Mul, Transpose, Dot, Cross, Rotation, Quaternion.NormSquared, Unit, Row, Cycle;
    UnitCycles(w, x, y, z);
    UnitCycles(w, y, z, x);
    RowsMakeRotation(w, x, y, z, Rotation(q));
  }

  lemma RowsMakeRotation(w: real, x: real, y: real, z: real, m: Matrix)
    requires Unit(w, x, y, z) && Unit(w, y, z, x) && Unit(w, z, x, y)
    requires m == Matrix(Row(w, x, y, z), Cycle(Cycle(Row(w, y, z, x))), Cycle(Row(w, z, x, y)))
    ensures Proper(m)
  {
    hide Mul, Transpose, Dot, Cross, Unit, Row, Cycle;
    var a, b, c := Row(w, x, y, z), Row(w, y, z, x), Row(w, z, x, y);
    RowIsUnit(w, x, y, z);
    RowIsUnit(w, y, z, x);
    CycleKeepsDot(b, b);
    CycleKeepsDot(Cycle(b), Cycle(b));
    RowIsUnit(w, z, x, y);
    CycleKeepsDot(c, c);
    RowsAreNormal(w, x, y, z);
    RowsAreNormal(w, y, z, x);
    CycleKeepsDot(b, Cycle(Cycle(c)));
    CycleKeepsDot(Cycle(b), Cycle(Cycle(Cycle(c))));
    ThreeCycles(c);
    RowsAreNormal(w, z, x, y);
    CycleKeepsDot(c, Cycle(Cycle(a)));
    ThreeCycles(a);
    RowsTurnRight(w, x, y, z, m.b, m.c);
    FromRows(m, 1.0);
  }

  lemma DotInPlane(p: real, q: real, r: real, s: real)
    ensures Dot(Vec3(0.0, p, q), Vec3(0.0, r, s)) == p * r + q * s
  {
  }

  lemma DotOnAxis(e: real, f: real)
    ensures Dot(Vec3(e, 0.0, 0.0), Vec3(f, 0.0, 0.0)) == e * f
  {
  }

  lemma DotAcross(e: real, p: real, q: real)
    ensures Dot(Vec3(e, 0.0, 0.0), Vec3(0.0, p, q)) == 0.0
  {
  }

  lemma CrossAcross(e: real, p: real, q: real)
    ensures Cross(Vec3(e, 0.0, 0.0), Vec3(0.0, p, q)) == Vec3(0.0, -(e * q), e * p)
  {
  }

  /** Both fixed frames map the axes in this pattern. */
  lemma TurnedIsProper(m: Matrix, e: real, p: real, q: real)
    requires e * e == 1.0 && p * p + q * q == 1.0
    requires m == Matrix(Vec3(0.0, -(e * q), e * p), Vec3(e, 0.0, 0.0), Vec3(0.0, p, q))
    ensures Proper(m)
  {
    hide Dot, Cross, Mul, Transpose;
    DotInPlane(-(e * q), e * p, -(e * q), e * p);
    DotInPlane(p, q, p, q);
    DotInPlane(p, q, -(e * q), e * p);
    DotOnAxis(e, e);
    DotAcross(e, p, q);
    DotAcross(e, -(e * q), e * p);
    DotCommutes(m.b, m.a);
    CrossAcross(e, p, q);
    TurnedNumbers(e, p, q);
    FromRows(m, 1.0);
  }

  lemma TurnedNumbers(e: real, p: real, q: real)
    requires e * e == 1.0 && p * p + q * q == 1.0
    ensures -(e * q) * -(e * q) + e * p * (e * p) == 1.0
    ensures p * -(e * q) + q * (e * p) == 0.0
  {
    assert -(e * q) * -(e * q) + e * p * (e * p) == (e * e) * (p * p + q * q);
  }

  lemma MountIsProper(c: real, s: real, upsideDown: bool)
    requires c * c + s * s == 1.0
    ensures Proper(BodyFromCamera(c, s, upsideDown))
  {
    hide Proper;
    if upsideDown {
      TurnedIsProper(BodyFromCamera(c, s, true), -1.0, -c, s);
    } else {
      TurnedIsProper(BodyFromCamera(c, s, false), 1.0, c, s);
    }
  }

  lemma NedIsProper()
    ensures Proper(NedFromWorld())
  {
    hide Proper;
    TurnedIsProper(NedFromWorld(), 1.0, 0.0, -1.0);
  }

  lemma HalfTurnApplied(v: Vec3)
    ensures Apply(Transpose(HalfTurn()), v) == Vec3(-v.x, -v.y, v.z)
  {
  }

  /** `HalfTurn` turns by half about the third axis. */
  lemma HalfTurnIsRotation()
    ensures HalfTurn() == Rotation(Quaternion(0.0, 0.0, 0.0, 1.0))
  {
  }

  /** An inverted camera is an upright one turned by half about its optical axis, at every tilt. */
  lemma InvertedIsHalfTurned(c: real, s: real)
    ensures BodyFromCamera(c, s, true) == Mul(BodyFromCamera(c, s, false), HalfTurn())
    ensures BodyFromCamera(c, s, false) == Mul(BodyFromCamera(c, s, true), HalfTurn())
  {
    hide Apply, Transpose, HalfTurn;
    var up, down := BodyFromCamera(c, s, false), BodyFromCamera(c, s, true);
    HalfTurnApplied(up.a);
    HalfTurnApplied(up.b);
    HalfTurnApplied(up.c);
    HalfTurnApplied(down.a);
    HalfTurnApplied(down.b);
    HalfTurnApplied(down.c);
  }

  // ---- the transform

  function SumOfSquares(m: Matrix): real {
    Dot(m.a, m.a) + Dot(m.b, m.b) + Dot(m.c, m.c)
  }

  function Less(u: Vec3, v: Vec3): Vec3 {
    Vec3(u.x - v.x, u.y - v.y, u.z - v.z)
  }

  function Difference(m: Matrix, n: Matrix): Matrix {
    Matrix(Less(m.a, n.a), Less(m.b, n.b), Less(m.c, n.c))
  }

  /** How far `m` is from orthogonal: the square of the norm the constructor compares with 1e-6. */
  function Drift(m: Matrix): real {
    SumOfSquares(Difference(Mul(m, Transpose(m)), IDENTITY))
  }

  const TOLERANCE := 0.000001

  datatype FrameTransform = FrameTransform(bodyFromImu: Matrix) {
    /** `ned_from_body` for a unit quaternion. */
    function Attitude(orientation: Quaternion): Matrix {
      Mul(Mul(NedFromWorld(), Rotation(orientation)), Transpose(bodyFromImu))
    }

    /** `transform`; None where it throws. `norm` is the quaternion's norm. */
    function Transform(e: Estimate, norm: real): Option<Pose> {
      if !e.finite || norm < 0.000000000001 then None
      else Some(Pose(e.timestamp, e.generation, Apply(NedFromWorld(), e.position), Apply(NedFromWorld(), e.velocity),
                     Attitude(Normalised(e.orientation, norm))))
    }

    function ExpectedStationaryAcceleration(gravity: real): Option<Vec3> {
      if gravity <= 0.0 then None else Some(Apply(Transpose(bodyFromImu), Vec3(0.0, 0.0, -gravity)))
    }
  }

  /** What is sent; the attitude stands for the three angles taken from it. */
  datatype Pose = Pose(timestamp: Time, generation: nat, position: Vec3, velocity: Vec3, attitude: Matrix)

  /** The constructor; None where it throws. */
  function NewFrameTransform(cameraFromImu: Matrix, c: real, s: real, upsideDown: bool): Option<FrameTransform> {
    if Drift(cameraFromImu) > TOLERANCE * TOLERANCE || Det(cameraFromImu) - 1.0 > TOLERANCE
       || 1.0 - Det(cameraFromImu) > TOLERANCE then None
    else Some(FrameTransform(Mul(BodyFromCamera(c, s, upsideDown), cameraFromImu)))
  }

  function Normalised(q: Quaternion, norm: real): Quaternion
    requires norm > 0.0
  {
    Quaternion(q.w / norm, q.x / norm, q.y / norm, q.z / norm)
  }

  /** `norm` is the norm of `q`. */
  predicate IsNorm(q: Quaternion, norm: real) {
    norm >= 0.0 && norm * norm == q.NormSquared()
  }

  lemma NormalisedNumbers(w: real, x: real, y: real, z: real, n: real, a: real, b: real, c: real, d: real)
    requires n > 0.0 && n * n == w * w + x * x + y * y + z * z
    requires w == a * n && x == b * n && y == c * n && z == d * n
    ensures a * a + b * b + c * c + d * d == 1.0
  {
    SquareOfProduct(a, n, w);
    SquareOfProduct(b, n, x);
    SquareOfProduct(c, n, y);
    SquareOfProduct(d, n, z);
    Positive(n, n, n * n);
    SharesOfOne(n * n, a * a, b * b, c * c, d * d, w * w, x * x, y * y, z * z);
  }

  lemma SharesOfOne(n: real, a: real, b: real, c: real, d: real, w: real, x: real, y: real, z: real)
    requires n > 0.0 && n == w + x + y + z && w == n * a && x == n * b && y == n * c && z == n * d
    ensures a + b + c + d == 1.0
  {
    var t := a + b + c + d;
    var p := n * t;
    Gather(n, a, b, c, d, t, p);
    CancelOne(n, t, p);
  }

  lemma Gather(n: real, a: real, b: real, c: real, d: real, t: real, p: real)
    requires t == a + b + c + d && p == n * t
    ensures p == n * a + n * b + n * c + n * d
  {
  }

  lemma CancelOne(n: real, t: real, p: real)
    requires n > 0.0 && p == n * t && p == n
    ensures t == 1.0
  {
    if t > 1.0 {
      Positive(n, t - 1.0, p - n);
    } else if t < 1.0 {
      Positive(n, 1.0 - t, n - p);
    }
  }

  lemma SquareOfProduct(a: real, n: real, w: real)
    requires w == a * n
    ensures w * w == n * n * (a * a)
  {
  }

  lemma NormalisedIsUnit(q: Quaternion, norm: real)
    requires norm > 0.0 && IsNorm(q, norm)
    ensures Normalised(q, norm).NormSquared() == 1.0
  {
    var u := Normalised(q, norm);
    NormalisedNumbers(q.w, q.x, q.y, q.z, norm, u.w, u.x, u.y, u.z);
  }

  lemma ProductOfProper(m: Matrix, n: Matrix, o: Matrix)
    requires Proper(m) && Proper(n) && Proper(o)
    ensures Proper(Mul(Mul(m, n), o))
  {
    hide Proper, Mul;
    ProperProduct(m, n);
    ProperProduct(Mul(m, n), o);
  }

  /**
   * With a proper calibration the attitude is a rotation (orthogonal both ways, determinant one) for
   * every estimate and both mounts, and it keeps every length.
   */
  lemma AttitudeIsProper(calibration: Matrix, c: real, s: real, upsideDown: bool, q: Quaternion, norm: real, v: Vec3)
    requires Proper(calibration) && c * c + s * s == 1.0 && norm > 0.0 && IsNorm(q, norm)
    ensures var t := FrameTransform(Mul(BodyFromCamera(c, s, upsideDown), calibration));
            var m := t.Attitude(Normalised(q, norm));
            && Proper(m) && Proper(Transpose(m)) && Dot(Apply(m, v), Apply(m, v)) == Dot(v, v)
  {
    var mount, unit := BodyFromCamera(c, s, upsideDown), Normalised(q, norm);
    MountIsProper(c, s, upsideDown);
    NormalisedIsUnit(q, norm);
    RotationIsProper(unit);
    NedIsProper();
    hide Proper, Mul, Transpose, Det, Dot, Apply, Rotation, NedFromWorld, BodyFromCamera, Normalised, IsNorm;
    var body := Mul(mount, calibration);
    ProperProduct(mount, calibration);
    TransposeIsProper(body);
    ProductOfProper(NedFromWorld(), Rotation(unit), Transpose(body));
    var m := FrameTransform(body).Attitude(unit);
    TransposeIsProper(m);
    ProperKeepsLength(m, v);
  }

  lemma TransposeIsProper(m: Matrix)
    requires Proper(m)
    ensures Proper(Transpose(m))
  {
    ProperCofactors(m);
  }

  lemma ProperKeepsLength(m: Matrix, v: Vec3)
    requires Proper(m)
    ensures Dot(Apply(m, v), Apply(m, v)) == Dot(v, v)
  {
    hide Mul, Transpose, Dot, Apply;
    ProperCofactors(m);
    LengthKept(m, v);
  }

  /** A calibration is accepted exactly within the tolerance of a rotation. */
  lemma AcceptedExactlyNearRotation(calibration: Matrix, c: real, s: real, upsideDown: bool)
    ensures NewFrameTransform(calibration, c, s, upsideDown).Some? <==>
            && SumOfSquares(Difference(Mul(calibration, Transpose(calibration)), IDENTITY)) <= 0.000001 * 0.000001
            && 1.0 - 0.000001 <= Det(calibration) <= 1.0 + 0.000001
  {
    hide Mul, Transpose, Det, BodyFromCamera, SumOfSquares, Difference;
  }

  /** A proper calibration is accepted. */
  lemma ProperIsAccepted(calibration: Matrix, c: real, s: real, upsideDown: bool)
    requires Proper(calibration)
    ensures NewFrameTransform(calibration, c, s, upsideDown)
            == Some(FrameTransform(Mul(BodyFromCamera(c, s, upsideDown), calibration)))
  {
    hide Mul, Transpose, Det, BodyFromCamera, Dot;
    NoDifference(IDENTITY);
  }

  lemma NoDifference(m: Matrix)
    ensures SumOfSquares(Difference(m, m)) == 0.0
  {
    hide Less, Dot;
    LessItself(m.a);
    LessItself(m.b);
    LessItself(m.c);
    DotOfZero();
  }

  lemma LessItself(u: Vec3)
    ensures Less(u, u) == Vec3(0.0, 0.0, 0.0)
  {
  }

  lemma DotOfZero()
    ensures Dot(Vec3(0.0, 0.0, 0.0), Vec3(0.0, 0.0, 0.0)) == 0.0
  {
  }

  // ---- a calibration that is only nearly a rotation

  lemma ApplyLess(m: Matrix, u: Vec3, v: Vec3)
    ensures Apply(m, Less(u, v)) == Less(Apply(m, u), Apply(m, v))
  {
  }

  lemma DifferenceTimes(m: Matrix, n: Matrix, o: Matrix)
    ensures Mul(Difference(m, n), o) == Difference(Mul(m, o), Mul(n, o))
  {
    hide Apply, Less, Transpose;
    ApplyLess(Transpose(o), m.a, n.a);
    ApplyLess(Transpose(o), m.b, n.b);
    ApplyLess(Transpose(o), m.c, n.c);
  }

  lemma TimesDifference(o: Matrix, m: Matrix, n: Matrix)
    ensures Mul(o, Difference(m, n)) == Difference(Mul(o, m), Mul(o, n))
  {
    var t := Transpose(o);
    DifferenceTimes(Transpose(m), Transpose(n), t);
    TransposeOfDifference(m, n);
    TransposeOfDifference(Mul(o, m), Mul(o, n));
    hide Mul, Transpose, Difference;
    TransposeOfProduct(o, m);
    TransposeOfProduct(o, n);
    TransposeOfProduct(o, Difference(m, n));
    Neutral(Mul(o, Difference(m, n)));
    Neutral(Difference(Mul(o, m), Mul(o, n)));
  }

  lemma TransposeOfDifference(m: Matrix, n: Matrix)
    ensures Transpose(Difference(m, n)) == Difference(Transpose(m), Transpose(n))
  {
  }

  lemma SquaresOfTranspose(m: Matrix)
    ensures SumOfSquares(Transpose(m)) == SumOfSquares(m)
  {
  }

  lemma SquaresOfRotated(s: Matrix, q: Matrix)
    requires Proper(q)
    ensures SumOfSquares(Mul(s, Transpose(q))) == SumOfSquares(s)
    ensures SumOfSquares(Mul(q, s)) == SumOfSquares(s)
  {
    hide Proper, Dot, Apply, Transpose;
    RightTurnKeepsSquares(s, q);
    RightTurnKeepsSquares(Transpose(s), q);
    Neutral(s);
    SquaresOfTranspose(s);
    TransposeOfProduct(q, s);
    SquaresOfTranspose(Mul(q, s));
  }

  lemma RightTurnKeepsSquares(s: Matrix, q: Matrix)
    requires Proper(q)
    ensures SumOfSquares(Mul(s, Transpose(q))) == SumOfSquares(s)
  {
    hide Proper, Dot, Apply, Transpose;
    Neutral(q);
    ProperKeepsLength(q, s.a);
    ProperKeepsLength(q, s.b);
    ProperKeepsLength(q, s.c);
  }

  lemma DriftBehindRotation(q: Matrix, m: Matrix)
    requires Proper(q)
    ensures Drift(Mul(q, m)) == Drift(m)
  {
    assert Mul(q, Transpose(q)) == IDENTITY;
    var x := Mul(m, Transpose(m));
    hide Proper, Mul, Transpose, Difference, SumOfSquares;
    Conjugated(q, m);
    DifferenceTimes(x, IDENTITY, Transpose(q));
    Neutral(Transpose(q));
    TimesDifference(q, Mul(x, Transpose(q)), Transpose(q));
    SquaresOfRotated(Difference(x, IDENTITY), q);
    SquaresOfRotated(Mul(Difference(x, IDENTITY), Transpose(q)), q);
  }

  lemma DriftBeforeRotation(m: Matrix, q: Matrix)
    requires Proper(q)
    ensures Drift(Mul(m, q)) == Drift(m)
  {
    assert Mul(q, Transpose(q)) == IDENTITY;
    hide Proper, Mul, Transpose, Difference, SumOfSquares;
    Conjugated(m, q);
    Neutral(Transpose(m));
  }

  /**
   * For every calibration the constructor accepts, proper or not, the attitude is exactly as far from
   * orthogonal as the calibration was, and has its determinant: the composition adds no error.
   */
  lemma AttitudeKeepsTheDrift(calibration: Matrix, c: real, s: real, upsideDown: bool, q: Quaternion, norm: real)
    requires c * c + s * s == 1.0 && norm > 0.0 && IsNorm(q, norm)
    requires NewFrameTransform(calibration, c, s, upsideDown).Some?
    ensures var m := NewFrameTransform(calibration, c, s, upsideDown).value.Attitude(Normalised(q, norm));
            && Drift(Transpose(m)) == Drift(calibration) <= TOLERANCE * TOLERANCE
            && Det(m) == Det(calibration) && -TOLERANCE <= Det(m) - 1.0 <= TOLERANCE
  {
    hide Proper, Mul, Transpose, Det, Drift, Rotation, NedFromWorld, BodyFromCamera, Normalised, IsNorm,
      Quaternion.NormSquared;
    var mount, unit := BodyFromCamera(c, s, upsideDown), Normalised(q, norm);
    MountIsProper(c, s, upsideDown);
    NormalisedIsUnit(q, norm);
    RotationIsProper(unit);
    NedIsProper();
    ProperProduct(NedFromWorld(), Rotation(unit));
    CompositionKeepsDrift(Mul(NedFromWorld(), Rotation(unit)), mount, calibration);
  }

  lemma CompositionKeepsDrift(world: Matrix, mount: Matrix, calibration: Matrix)
    requires Proper(world) && Proper(mount)
    ensures var m := Mul(world, Transpose(Mul(mount, calibration)));
            Drift(Transpose(m)) == Drift(calibration) && Det(m) == Det(calibration)
  {
    assert Det(mount) == 1.0 && Det(world) == 1.0;
    hide Proper, Mul, Transpose, Det, Drift;
    var body := Mul(mount, calibration);
    TransposeOfProduct(world, Transpose(body));
    Neutral(body);
    TransposeIsProper(world);
    DriftBeforeRotation(body, Transpose(world));
    DriftBehindRotation(mount, calibration);
    DetOfProduct(world, Transpose(body));
    DetOfTranspose(body);
    DetOfProduct(mount, calibration);
  }

  // ---- what the quaternion's scale does

  lemma Opposites(a: real, b: real)
    ensures -a * -b == a * b
  {
  }

  lemma OppositeRow(w: real, x: real, y: real, z: real)
    ensures Row(-w, -x, -y, -z) == Row(w, x, y, z)
  {
    Opposites(y, y);
    Opposites(z, z);
    Opposites(x, y);
    Opposites(w, z);
    Opposites(x, z);
    Opposites(w, y);
  }

  function Opposite(q: Quaternion): Quaternion {
    Quaternion(-q.w, -q.x, -q.y, -q.z)
  }

  lemma OppositeRotation(q: Quaternion)
    ensures Rotation(Opposite(q)) == Rotation(q)
  {
    hide Row, Rotation;
    RotationHasRows(q);
    RotationHasRows(Opposite(q));
    OppositeRow(q.w, q.x, q.y, q.z);
    OppositeRow(q.w, q.y, q.z, q.x);
    OppositeRow(q.w, q.z, q.x, q.y);
  }

  lemma SameSquares(a: real, b: real)
    requires a > 0.0 && b > 0.0 && a * a == b * b
    ensures a == b
  {
    if a > b {
      Positive(a - b, a + b, a * a - b * b);
    } else if a < b {
      Positive(b - a, a + b, b * b - a * a);
    }
  }

  lemma ScaledNorm(k: real, n: real, m: real, square: real)
    requires k != 0.0 && n > 0.0 && m > 0.0 && n * n == square && m * m == k * k * square
    ensures m == if k > 0.0 then k * n else -(k * n)
  {
    var h := if k > 0.0 then k else -k;
    Positive(h, n, h * n);
    assert h * h == k * k;
    assert (h * n) * (h * n) == h * h * (n * n);
    SameSquares(h * n, m);
  }

  lemma ScaledQuotient(w: real, k: real, n: real, m: real, p: real)
    requires p == k * w && k != 0.0 && n > 0.0 && m > 0.0 && m == (if k > 0.0 then k * n else -(k * n))
    ensures p / m == if k > 0.0 then w / n else -(w / n)
  {
    var u := w / n;
    assert w == u * n;
    var r := if k > 0.0 then u else -u;
    assert p == r * m;
    QuotientIs(p, m, r);
  }

  lemma QuotientIs(a: real, b: real, r: real)
    requires b != 0.0 && a == r * b
    ensures a / b == r
  {
  }

  function Scaled(k: real, q: Quaternion): Quaternion {
    Quaternion(k * q.w, k * q.x, k * q.y, k * q.z)
  }

  lemma ScaledNormSquared(k: real, q: Quaternion)
    ensures Scaled(k, q).NormSquared() == k * k * q.NormSquared()
  {
    assert (k * q.w) * (k * q.w) == k * k * (q.w * q.w);
    assert (k * q.x) * (k * q.x) == k * k * (q.x * q.x);
    assert (k * q.y) * (k * q.y) == k * k * (q.y * q.y);
    assert (k * q.z) * (k * q.z) == k * k * (q.z * q.z);
  }

  /** A quaternion and any nonzero multiple of it give the same pose, wherever both are accepted. */
  lemma ScaleDoesNotMatter(t: FrameTransform, e: Estimate, norm: real, k: real, scaledNorm: real)
    requires k != 0.0 && IsNorm(e.orientation, norm) && IsNorm(Scaled(k, e.orientation), scaledNorm)
    requires t.Transform(e, norm).Some?
    requires t.Transform(e.(orientation := Scaled(k, e.orientation)), scaledNorm).Some?
    ensures t.Transform(e.(orientation := Scaled(k, e.orientation)), scaledNorm) == t.Transform(e, norm)
  {
    var q := e.orientation;
    ScaledNormSquared(k, q);
    ScaledNorm(k, norm, scaledNorm, q.NormSquared());
    hide Apply, Mul, Transpose, Rotation, NedFromWorld, IsNorm, Quaternion.NormSquared;
    ScaledQuotient(q.w, k, norm, scaledNorm, Scaled(k, q).w);
    ScaledQuotient(q.x, k, norm, scaledNorm, Scaled(k, q).x);
    ScaledQuotient(q.y, k, norm, scaledNorm, Scaled(k, q).y);
    ScaledQuotient(q.z, k, norm, scaledNorm, Scaled(k, q).z);
    assert Normalised(Scaled(k, q), scaledNorm)
           == if k > 0.0 then Normalised(q, norm) else Opposite(Normalised(q, norm));
    OppositeRotation(Normalised(q, norm));
  }

  /** The transform refuses exactly numbers that are not finite, and quaternions too small to name an orientation. */
  lemma RefusedExactlyWithoutOrientation(t: FrameTransform, e: Estimate, norm: real)
    requires IsNorm(e.orientation, norm)
    ensures t.Transform(e, norm).None? <==> !e.finite || e.orientation.NormSquared() < TINY
  {
    hide FrameTransform.Attitude, Apply, Quaternion.NormSquared;
    if norm < 0.000000000001 {
      SmallSquare(norm, 0.000000000001, TINY);
    } else {
      LargeSquare(norm, 0.000000000001, TINY);
    }
  }

  lemma LargeSquare(n: real, d: real, square: real)
    requires 0.0 <= d <= n && square == d * d
    ensures n * n >= square
  {
    assert n * n - d * d == (n - d) * (n + d);
  }

  /** An estimate that passes the publication checks is never refused by the transform. */
  lemma AcceptableIsTransformed(t: FrameTransform, e: Estimate, session: nat, now: Time, maxAge: Time, norm: real)
    requires IsNorm(e.orientation, norm) && Validate(e, session, now, maxAge) == Some(Acceptable)
    ensures t.Transform(e, norm).Some?
  {
    hide FrameTransform.Transform, Quaternion.NormSquared;
    RefusedExactlyWithoutOrientation(t, e, norm);
  }

  lemma SmallSquare(n: real, d: real, square: real)
    requires 0.0 <= n < d && square == d * d
    ensures n * n < square
  {
    Positive(d - n, d + n, square - n * n);
  }

  // ---- rest, position, angles

  /**
   * At rest: taken through the attitude, the predicted specific force is the upward support force of a
   * level body, for any calibration; and a proper one predicts it with magnitude g.
   */
  lemma StationaryAccelerationMatchesAttitude(t: FrameTransform, unit: Quaternion, gravity: real)
    ensures t.ExpectedStationaryAcceleration(gravity).Some? <==> gravity > 0.0
    ensures gravity > 0.0 ==>
            Apply(Mul(NedFromWorld(), Rotation(unit)), t.ExpectedStationaryAcceleration(gravity).value)
            == Apply(t.Attitude(unit), Vec3(0.0, 0.0, -gravity))
    ensures gravity > 0.0 && Proper(t.bodyFromImu) ==>
              var a := t.ExpectedStationaryAcceleration(gravity).value; Dot(a, a) == gravity * gravity
  {
    hide Mul, Apply, Rotation, NedFromWorld, Transpose, Dot, Proper;
    ApplyProduct(Mul(NedFromWorld(), Rotation(unit)), Transpose(t.bodyFromImu), Vec3(0.0, 0.0, -gravity));
    if gravity > 0.0 && Proper(t.bodyFromImu) {
      TransposeIsProper(t.bodyFromImu);
      ProperKeepsLength(Transpose(t.bodyFromImu), Vec3(0.0, 0.0, -gravity));
      DotInPlane(0.0, -gravity, 0.0, -gravity);
      Opposites(gravity, gravity);
    }
  }

  /** World axes to NED keeps lengths, is its own inverse, and swaps x and y while flipping z. */
  lemma NedSwapsAxes(v: Vec3)
    ensures Apply(NedFromWorld(), v) == Vec3(v.y, v.x, -v.z)
    ensures Apply(NedFromWorld(), Apply(NedFromWorld(), v)) == v
  {
  }

  /** The roll, pitch and yaw rotations in ZYX order, from their cosines and sines. */
  function Zyx(cr: real, sr: real, cp: real, sp: real, cy: real, sy: real): Matrix {
    Matrix(Vec3(cp * cy, (cy * sr) * sp - sy * cr, (cy * cr) * sp + sy * sr),
           Vec3(cp * sy, (sy * sr) * sp + cy * cr, (sy * cr) * sp - cy * sr),
           Vec3(-sp, cp * sr, cp * cr))
  }

  /** `c` and `s` are the cosine and sine of atan2(y, x), and `k` the length of (x, y). */
  predicate Points(c: real, s: real, k: real, x: real, y: real) {
    c * c + s * s == 1.0 && k >= 0.0 && x == k * c && y == k * s && (k == 0.0 ==> c == 1.0 && s == 0.0)
  }

  lemma NonNegativeRoot(a: real, b: real)
    requires a >= 0.0 && b >= 0.0 && a * a == b * b
    ensures a == b
  {
    if a > b {
      Positive(a - b, a + b, a * a - b * b);
    } else if a < b {
      Positive(b - a, a + b, b * b - a * a);
    }
  }

  lemma PointsAtLength(c: real, s: real, k: real, x: real, y: real, r: real)
    requires Points(c, s, k, x, y) && r >= 0.0 && x * x + y * y == r * r
    ensures k == r
  {
    assert (k * c) * (k * c) + (k * s) * (k * s) == (k * k) * (c * c + s * s);
    NonNegativeRoot(k, r);
  }

  lemma CancelFactor(q: real, u: real, x: real, p: real)
    requires q > 0.0 && p == q * u && p == q * x
    ensures u == x
  {
    if u > x {
      Positive(q, u - x, 0.0);
    } else if u < x {
      Positive(q, x - u, 0.0);
    }
  }

  /** Two entries that determine each other; q is the squared cosine of the pitch. */
  lemma CoupledEntries(u: real, v: real, q: real, sp: real, a: real, b: real)
    requires q > 0.0 && q == 1.0 - sp * sp && u == -(q * a) - v * sp && v == -(q * b) - u * sp
    ensures u == b * sp - a
    ensures v == a * sp - b
  {
    assert v * sp == -(q * (b * sp)) - u * (sp * sp);
    assert u * (sp * sp) == u - q * u;
    var x := b * sp - a;
    assert q * x == q * (b * sp) - q * a;
    CancelFactor(q, u, x, q * u);
    assert u * sp == b * (sp * sp) - a * sp;
    assert b * (sp * sp) == b - q * b;
  }

  lemma Regroup(k: real, a: real, b: real, x: real, y: real)
    requires x == k * a && y == k * b
    ensures x * y == (k * k) * (a * b)
  {
  }

  /** The entries the angles are not read from, given those they are. */
  lemma RemainingEntries(m: Matrix, cr: real, sr: real, cp: real, sp: real, cy: real, sy: real)
    requires cp > 0.0 && cp * cp == 1.0 - sp * sp && m.c == Vec3(-sp, cp * sr, cp * cr)
    requires m.a.x == cp * cy && m.b.x == cp * sy
    requires m.a.y == m.b.z * m.c.x - m.b.x * m.c.z && m.b.z == m.c.x * m.a.y - m.c.y * m.a.x
    requires m.a.z == m.b.x * m.c.y - m.b.y * m.c.x && m.b.y == m.c.z * m.a.x - m.c.x * m.a.z
    ensures m.a.y == (cy * sr) * sp - sy * cr && m.b.z == (sy * cr) * sp - cy * sr
    ensures m.a.z == (cy * cr) * sp + sy * sr && m.b.y == (sy * sr) * sp + cy * cr
  {
    var q := cp * cp;
    Positive(cp, cp, q);
    Regroup(cp, sy, cr, m.b.x, m.c.z);
    Regroup(cp, sr, cy, m.c.y, m.a.x);
    Regroup(cp, sy, sr, m.b.x, m.c.y);
    Regroup(cp, cr, cy, m.c.z, m.a.x);
    CoupledEntries(m.a.y, m.b.z, q, sp, sy * cr, cy * sr);
    CoupledEntries(m.a.z, -m.b.y, q, sp, -(sy * sr), cy * cr);
  }

  lemma ProperNumbers(m: Matrix)
    requires Proper(m)
    ensures Related(m)
  {
    ProperCofactors(m);
    hide Cross, Det, Mul, Transpose, RowsAreUnit, ColumnIsUnit, EntriesAreCofactors;
    RowLengths(m);
    ColumnLength(m);
    CofactorEntries(m);
  }

  lemma RowLengths(m: Matrix)
    requires Mul(m, Transpose(m)) == IDENTITY
    ensures RowsAreUnit(m)
  {
    hide Dot, Mul, Transpose;
    DiagonalOf(m);
    DotEntries(m.b);
    DotEntries(m.c);
  }

  lemma ColumnLength(m: Matrix)
    requires Mul(Transpose(m), m) == IDENTITY
    ensures ColumnIsUnit(m)
  {
    hide Dot, Mul;
    Neutral(m);
    DiagonalOf(Transpose(m));
    DotEntries(Transpose(m).a);
  }

  lemma CofactorEntries(m: Matrix)
    requires m == Cofactors(m)
    ensures EntriesAreCofactors(m)
  {
    hide Cross;
    CrossEntries(m.b, m.c);
    CrossEntries(m.c, m.a);
  }

  lemma DiagonalOf(m: Matrix)
    ensures var d := Mul(m, Transpose(m)); d.a.x == Dot(m.a, m.a) && d.b.y == Dot(m.b, m.b) && d.c.z == Dot(m.c, m.c)
  {
    hide Dot;
    Neutral(m);
  }

  lemma DotEntries(u: Vec3)
    ensures Dot(u, u) == u.x * u.x + u.y * u.y + u.z * u.z
  {
  }

  lemma CrossEntries(u: Vec3, v: Vec3)
    ensures Cross(u, v) == Vec3(u.y * v.z - u.z * v.y, u.z * v.x - u.x * v.z, u.x * v.y - u.y * v.x)
  {
  }

  /**
   * The angles sent name the attitude: reading roll and yaw with atan2 and pitch with asin (whose clamp
   * never acts) and composing them again in ZYX order gives the attitude back, unless the pitch is
   * straight up or down; there it does exactly when the middle entry is one.
   */
  lemma AnglesNameTheAttitude(m: Matrix, cr: real, sr: real, roll: real, cp: real, sp: real,
                              cy: real, sy: real, yaw: real)
    requires Proper(m) && sp == -m.c.x && cp >= 0.0 && cp * cp + sp * sp == 1.0
    requires Points(cr, sr, roll, m.c.z, m.c.y) && Points(cy, sy, yaw, m.a.x, m.b.x)
    ensures Zyx(cr, sr, cp, sp, cy, sy) == m <==> cp > 0.0 || m.b.y == 1.0
  {
    hide Proper, Mul, Transpose, Dot, Cross;
    ProperNumbers(m);
    if cp > 0.0 {
      AnglesOnASlope(m, cr, sr, roll, cp, sp, cy, sy, yaw);
    } else {
      AnglesStraight(m, cr, sr, roll, sp, cy, sy, yaw);
    }
  }

  lemma AnglesOnASlope(m: Matrix, cr: real, sr: real, roll: real, cp: real, sp: real, cy: real, sy: real, yaw: real)
    requires Related(m) && sp == -m.c.x && cp > 0.0 && cp * cp + sp * sp == 1.0
    requires Points(cr, sr, roll, m.c.z, m.c.y) && Points(cy, sy, yaw, m.a.x, m.b.x)
    ensures Zyx(cr, sr, cp, sp, cy, sy) == m
  {
    hide Zyx;
    PointsAtLength(cr, sr, roll, m.c.z, m.c.y, cp);
    PointsAtLength(cy, sy, yaw, m.a.x, m.b.x, cp);
    Square(cp, sp);
    RemainingEntries(m, cr, sr, cp, sp, cy, sy);
    ZyxEntries(m, cr, sr, cp, sp, cy, sy);
  }

  lemma ZyxEntries(m: Matrix, cr: real, sr: real, cp: real, sp: real, cy: real, sy: real)
    requires m == Matrix(Vec3(cp * cy, (cy * sr) * sp - sy * cr, (cy * cr) * sp + sy * sr),
                         Vec3(cp * sy, (sy * sr) * sp + cy * cr, (sy * cr) * sp - cy * sr),
                         Vec3(-sp, cp * sr, cp * cr))
    ensures Zyx(cr, sr, cp, sp, cy, sy) == m
  {
  }

  lemma AnglesStraight(m: Matrix, cr: real, sr: real, roll: real, sp: real, cy: real, sy: real, yaw: real)
    requires Related(m) && sp == -m.c.x && sp * sp == 1.0
    requires Points(cr, sr, roll, m.c.z, m.c.y) && Points(cy, sy, yaw, m.a.x, m.b.x)
    ensures Zyx(cr, sr, 0.0, sp, cy, sy) == m <==> m.b.y == 1.0
  {
    hide Zyx;
    PointsAtLength(cr, sr, roll, m.c.z, m.c.y, 0.0);
    PointsAtLength(cy, sy, yaw, m.a.x, m.b.x, 0.0);
    StraightUpOrDown(m, sp);
  }

  predicate RowsAreUnit(m: Matrix) {
    && m.b.x * m.b.x + m.b.y * m.b.y + m.b.z * m.b.z == 1.0
    && m.c.x * m.c.x + m.c.y * m.c.y + m.c.z * m.c.z == 1.0
  }

  predicate ColumnIsUnit(m: Matrix) {
    m.a.x * m.a.x + m.b.x * m.b.x + m.c.x * m.c.x == 1.0
  }

  predicate EntriesAreCofactors(m: Matrix) {
    && m.a.y == m.b.z * m.c.x - m.b.x * m.c.z && m.b.z == m.c.x * m.a.y - m.c.y * m.a.x
    && m.a.z == m.b.x * m.c.y - m.b.y * m.c.x && m.b.y == m.c.z * m.a.x - m.c.x * m.a.z
  }

  /** What a rotation's entries satisfy, number by number. */
  predicate Related(m: Matrix) {
    RowsAreUnit(m) && ColumnIsUnit(m) && EntriesAreCofactors(m)
  }

  lemma Square(cp: real, sp: real)
    requires cp * cp + sp * sp == 1.0
    ensures cp * cp == 1.0 - sp * sp
  {
  }

  lemma ZeroSquare(a: real)
    requires a * a == 0.0
    ensures a == 0.0
  {
    if a > 0.0 {
      Positive(a, a, a * a);
    } else if a < 0.0 {
      Positive(-a, -a, a * a);
    }
  }

  lemma StraightZyx(sp: real)
    ensures Zyx(1.0, 0.0, 0.0, sp, 1.0, 0.0) == Matrix(Vec3(0.0, 0.0, sp), Vec3(0.0, 1.0, 0.0), Vec3(-sp, 0.0, 0.0))
  {
  }

  lemma StraightNumbers(u: real, v: real, y: real, z: real, sp: real, zz: real)
    requires u == -(z * sp) && v == y * sp && zz == z * z && y * y + zz == 1.0 && y == 1.0
    ensures u == 0.0 && v == sp && z == 0.0
  {
    assert zz == 0.0;
    ZeroSquare(z);
  }

  lemma StraightUpOrDown(m: Matrix, sp: real)
    requires m.c == Vec3(-sp, 0.0, 0.0) && m.a.x == 0.0 && m.b.x == 0.0
    requires m.a.y == -(m.b.z * sp) && m.a.z == m.b.y * sp && m.b.y * m.b.y + m.b.z * m.b.z == 1.0
    ensures m == Zyx(1.0, 0.0, 0.0, sp, 1.0, 0.0) <==> m.b.y == 1.0
  {
    hide Zyx;
    StraightZyx(sp);
    if m.b.y == 1.0 {
      StraightNumbers(m.a.y, m.a.z, m.b.y, m.b.z, sp, m.b.z * m.b.z);
    }
  }

  /** A body pointing straight up, turned about the vertical by an angle with this cosine and sine. */
  function StraightUp(c: real, s: real): Matrix {
    Matrix(Vec3(0.0, -s, c), Vec3(0.0, c, s), Vec3(-1.0, 0.0, 0.0))
  }

  lemma StraightUpIsProper(c: real, s: real)
    requires c * c + s * s == 1.0
    ensures Proper(StraightUp(c, s))
  {
    hide Dot, Cross, Mul, Transpose;
    var m := StraightUp(c, s);
    DotInPlane(-s, c, -s, c);
    DotInPlane(c, s, c, s);
    DotInPlane(-s, c, c, s);
    DotOnAxis(-1.0, -1.0);
    DotAcross(-1.0, c, s);
    DotAcross(-1.0, -s, c);
    DotCommutes(m.b, m.c);
    CrossOntoAxis(c, s);
    StraightUpNumbers(c, s);
    DotCommutes(m.a, m.b);
    FromRows(m, 1.0);
  }

  lemma CrossOntoAxis(c: real, s: real)
    ensures Cross(Vec3(0.0, c, s), Vec3(-1.0, 0.0, 0.0)) == Vec3(0.0, -s, c)
  {
  }

  lemma StraightUpNumbers(c: real, s: real)
    requires c * c + s * s == 1.0
    ensures -s * -s + c * c == 1.0
    ensures -s * c + c * s == 0.0
  {
  }

  /**
   * The angles do lose the attitude of a body pointing straight up: whatever its heading, roll and yaw are
   * both read as zero, and only for one heading do they give it back.
   */
  lemma StraightUpLosesItsHeading(c: real, s: real)
    requires c * c + s * s == 1.0
    ensures var m := StraightUp(c, s);
            && Proper(m) && Points(1.0, 0.0, 0.0, m.c.z, m.c.y) && Points(1.0, 0.0, 0.0, m.a.x, m.b.x)
            && (Zyx(1.0, 0.0, 0.0, 1.0, 1.0, 0.0) == m <==> c == 1.0)
  {
    var m := StraightUp(c, s);
    hide Proper, Zyx;
    StraightUpIsProper(c, s);
    AnglesNameTheAttitude(m, 1.0, 0.0, 0.0, 0.0, 1.0, 1.0, 0.0, 0.0);
  }

  // ---- what the pose says of the vehicle

  /** Hamilton's product. */
  function Hamilton(p: Quaternion, q: Quaternion): Quaternion {
    Quaternion(p.w * q.w - p.x * q.x - p.y * q.y - p.z * q.z,
               p.w * q.x + p.x * q.w + p.y * q.z - p.z * q.y,
               p.w * q.y - p.x * q.z + p.y * q.w + p.z * q.x,
               p.w * q.z + p.x * q.y - p.y * q.x + p.z * q.w)
  }

  /** q v q*, the vector part: what a unit quaternion does to a vector. */
  function Turned(q: Quaternion, v: Vec3): Vec3 {
    var r := Hamilton(Hamilton(q, Quaternion(0.0, v.x, v.y, v.z)), Quaternion(q.w, -q.x, -q.y, -q.z));
    Vec3(r.x, r.y, r.z)
  }

  /** One lane of q v q*; the other two are this one with the axes cycled. */
  function TurnedLane(w: real, x: real, y: real, z: real, a: real, b: real, c: real): real {
    (x * a + y * b + z * c) * x + (w * a + (y * c - z * b)) * w
    - (w * b + (z * a - x * c)) * z + (w * c + (x * b - y * a)) * y
  }

  lemma LaneIsRow(w: real, x: real, y: real, z: real, a: real, b: real, c: real)
    requires Unit(w, x, y, z)
    ensures TurnedLane(w, x, y, z, a, b, c) == Dot(Row(w, x, y, z), Vec3(a, b, c))
  {
    assert (w * w + x * x) * a == (1.0 - y * y - z * z) * a;
  }

  lemma TurnedLanes(q: Quaternion, v: Vec3)
    ensures Turned(q, v) == Vec3(TurnedLane(q.w, q.x, q.y, q.z, v.x, v.y, v.z),
                                 TurnedLane(q.w, q.y, q.z, q.x, v.y, v.z, v.x),
                                 TurnedLane(q.w, q.z, q.x, q.y, v.z, v.x, v.y))
  {
  }

  /** The matrix of a unit quaternion turns every vector as the quaternion does. */
  lemma RotationTurns(q: Quaternion, v: Vec3)
    requires Unit(q.w, q.x, q.y, q.z)
    ensures Apply(Rotation(q), v) == Turned(q, v)
  {
    hide Turned, TurnedLane, Rotation, Row, Unit, Dot, Cycle;
    RotationHasRows(q);
    TurnedLanes(q, v);
    UnitCycles(q.w, q.x, q.y, q.z);
    UnitCycles(q.w, q.y, q.z, q.x);
    LaneIsRow(q.w, q.x, q.y, q.z, v.x, v.y, v.z);
    LaneIsRow(q.w, q.y, q.z, q.x, v.y, v.z, v.x);
    LaneIsRow(q.w, q.z, q.x, q.y, v.z, v.x, v.y);
    CycledDot(Row(q.w, q.y, q.z, q.x), v);
    CycledDot(Row(q.w, q.z, q.x, q.y), v);
  }

  lemma CycledDot(u: Vec3, v: Vec3)
    ensures Dot(Cycle(u), v) == Dot(u, Vec3(v.z, v.x, v.y))
    ensures Dot(Cycle(Cycle(u)), v) == Dot(u, Vec3(v.y, v.z, v.x))
  {
  }

  /**
   * The mount looks where it says: the optical axis points forward and, by the tilt, down; the right of the
   * image is the right of the body, or its left when the camera hangs upside down.
   */
  lemma MountLooksDown(c: real, s: real, upsideDown: bool)
    ensures Apply(BodyFromCamera(c, s, upsideDown), Vec3(0.0, 0.0, 1.0)) == Vec3(c, 0.0, s)
    ensures Apply(BodyFromCamera(c, s, upsideDown), Vec3(1.0, 0.0, 0.0)) == Vec3(0.0, if upsideDown then -1.0 else 1.0, 0.0)
    ensures Apply(BodyFromCamera(c, s, upsideDown), Vec3(0.0, 1.0, 0.0))
            == if upsideDown then Vec3(s, 0.0, -c) else Vec3(-s, 0.0, c)
  {
    hide Dot;
    var m := BodyFromCamera(c, s, upsideDown);
    DotWithAxes(m.a);
    DotWithAxes(m.b);
    DotWithAxes(m.c);
  }

  lemma DotWithAxes(u: Vec3)
    ensures Dot(u, Vec3(1.0, 0.0, 0.0)) == u.x && Dot(u, Vec3(0.0, 1.0, 0.0)) == u.y && Dot(u, Vec3(0.0, 0.0, 1.0)) == u.z
  {
  }

  lemma AttitudeOfBody(ned: Matrix, r: Matrix, body: Matrix, v: Vec3)
    requires Proper(body)
    ensures Apply(Mul(Mul(ned, r), Transpose(body)), Apply(body, v)) == Apply(ned, Apply(r, v))
  {
    hide Mul, Transpose, Apply, Proper;
    ProperCofactors(body);
    ApplyProduct(Mul(ned, r), Transpose(body), Apply(body, v));
    ApplyProduct(Transpose(body), body, v);
    ApplyIdentity(v);
    ApplyProduct(ned, r, v);
  }

  /**
   * The pose says what the estimate says, in north-east-down axes: its position and velocity with x and y
   * swapped and z flipped, its own stamp and generation, and an attitude that takes any direction of the IMU,
   * seen from the body through camera and mount, to where the estimate turns it in the world.
   */
  lemma PoseTellsTheEstimate(calibration: Matrix, c: real, s: real, upsideDown: bool, e: Estimate, norm: real, v: Vec3)
    requires Proper(calibration) && c * c + s * s == 1.0 && e.finite && norm >= 0.000000000001 && IsNorm(e.orientation, norm)
    ensures var t := FrameTransform(Mul(BodyFromCamera(c, s, upsideDown), calibration));
            && NewFrameTransform(calibration, c, s, upsideDown) == Some(t) && t.Transform(e, norm).Some?
            && var pose := t.Transform(e, norm).value;
            && pose.timestamp == e.timestamp && pose.generation == e.generation
            && pose.position == Vec3(e.position.y, e.position.x, -e.position.z)
            && pose.velocity == Vec3(e.velocity.y, e.velocity.x, -e.velocity.z)
            && var turned := Turned(Normalised(e.orientation, norm), v);
               Apply(pose.attitude, Apply(BodyFromCamera(c, s, upsideDown), Apply(calibration, v)))
               == Vec3(turned.y, turned.x, -turned.z)
  {
    hide Proper, Mul, Transpose, Apply, Dot, Rotation, Turned, NedFromWorld, BodyFromCamera, Normalised, NewFrameTransform, IsNorm;
    var unit, mount := Normalised(e.orientation, norm), BodyFromCamera(c, s, upsideDown);
    ProperIsAccepted(calibration, c, s, upsideDown);
    MountIsProper(c, s, upsideDown);
    NormalisedIsUnit(e.orientation, norm);
    RotationTurns(unit, v);
    NedSwapsAxes(e.position);
    NedSwapsAxes(e.velocity);
    NedSwapsAxes(Turned(unit, v));
    ProperProduct(mount, calibration);
    ApplyProduct(mount, calibration, v);
    AttitudeOfBody(NedFromWorld(), Rotation(unit), Mul(mount, calibration), v);
  }
}
