/** Rigid transforms over the exact reals: the closed-form inverse, the forward kinematics chain
    and the AX = XB residuals of the two calibration scripts. A homogeneous matrix is kept as
    its rotation and its translation. */
module RigidTransforms {
  import opened Wrappers

  datatype Vector = Vector(x: real, y: real, z: real)

  // By rows.
  datatype Matrix = Matrix(a: Vector, b: Vector, c: Vector)

  datatype Transform = Transform(rot: Matrix, pos: Vector)

  const ZERO := Vector(0.0, 0.0, 0.0)
  const UNIT := Matrix(Vector(1.0, 0.0, 0.0), Vector(0.0, 1.0, 0.0), Vector(0.0, 0.0, 1.0))
  const IDENTITY := Transform(UNIT, ZERO)

  function Add(u: Vector, v: Vector): Vector {
    Vector(u.x + v.x, u.y + v.y, u.z + v.z)
  }

  // A product with a name, so that proofs can leave its meaning out.
  function Times(a: real, b: real): real {
    a * b
  }

  function Scale(k: real, v: Vector): Vector {
    Vector(Times(k, v.x), Times(k, v.y), Times(k, v.z))
  }

  function Dot(u: Vector, v: Vector): real {
    Times(u.x, v.x) + Times(u.y, v.y) + Times(u.z, v.z)
  }

  function Cross(u: Vector, v: Vector): Vector {
    Vector(Times(u.y, v.z) - Times(u.z, v.y), Times(u.z, v.x) - Times(u.x, v.z), Times(u.x, v.y) - Times(u.y, v.x))
  }

  // Row vector times matrix.
  function RowMul(v: Vector, m: Matrix): Vector {
    Add(Add(Scale(v.x, m.a), Scale(v.y, m.b)), Scale(v.z, m.c))
  }

  function Mul(m: Matrix, n: Matrix): Matrix {
    Matrix(RowMul(m.a, n), RowMul(m.b, n), RowMul(m.c, n))
  }

  // Matrix times column vector.
  function Apply(m: Matrix, v: Vector): Vector {
    Vector(Dot(m.a, v), Dot(m.b, v), Dot(m.c, v))
  }

  function Transpose(m: Matrix): Matrix {
    Matrix(Vector(m.a.x, m.b.x, m.c.x), Vector(m.a.y, m.b.y, m.c.y), Vector(m.a.z, m.b.z, m.c.z))
  }

  function Det(m: Matrix): real {
    Dot(m.a, Cross(m.b, m.c))
  }

  // Matrix product of two homogeneous matrices.
  function Compose(s: Transform, t: Transform): Transform {
    Transform(Mul(s.rot, t.rot), Add(Apply(s.rot, t.pos), s.pos))
  }

  function Inv(t: Transform): Transform {
    Transform(Transpose(t.rot), Scale(-1.0, Apply(Transpose(t.rot), t.pos)))
  }

  predicate Rotation(m: Matrix) {
    Mul(Transpose(m), m) == UNIT && Det(m) == 1.0
  }

  predicate Rigid(t: Transform) {
    Rotation(t.rot)
  }

  // ---------------------------------------------------------------- linear algebra

  lemma Commute(a: real, b: real)
    ensures Times(a, b) == Times(b, a)
  {
  }

  lemma Associate(a: real, b: real, c: real)
    ensures Times(Times(a, b), c) == Times(a, Times(b, c))
  {
  }

  lemma Distribute(a: real, b: real, c: real)
    ensures Times(a + b, c) == Times(a, c) + Times(b, c)
    ensures Times(c, a + b) == Times(c, a) + Times(c, b)
  {
  }

  lemma Subtract(k: real, a: real, b: real)
    ensures Times(k, a - b) == Times(k, a) - Times(k, b)
  {
  }

  lemma Spread(k: real, a: real, b: real, c: real)
    ensures Times(k, a + b + c) == Times(k, a) + Times(k, b) + Times(k, c)
  {
  }

  lemma RowMulAdds(u: Vector, v: Vector, m: Matrix)
    ensures RowMul(Add(u, v), m) == Add(RowMul(u, m), RowMul(v, m))
  {
    hide Times;
    ScaleAdds(u.x, v.x, m.a);
    ScaleAdds(u.y, v.y, m.b);
    ScaleAdds(u.z, v.z, m.c);
  }

  lemma ScaleAdds(k: real, l: real, v: Vector)
    ensures Scale(k + l, v) == Add(Scale(k, v), Scale(l, v))
  {
    hide Times;
    Distribute(k, l, v.x);
    Distribute(k, l, v.y);
    Distribute(k, l, v.z);
  }

  lemma ScaleScales(k: real, l: real, v: Vector)
    ensures Scale(Times(k, l), v) == Scale(k, Scale(l, v))
  {
    hide Times;
    Associate(k, l, v.x);
    Associate(k, l, v.y);
    Associate(k, l, v.z);
  }

  lemma ScaleSpreads(k: real, u: Vector, v: Vector)
    ensures Scale(k, Add(u, v)) == Add(Scale(k, u), Scale(k, v))
  {
    hide Times;
    Distribute(u.x, v.x, k);
    Distribute(u.y, v.y, k);
    Distribute(u.z, v.z, k);
  }

  lemma RowMulScales(k: real, v: Vector, m: Matrix)
    ensures RowMul(Scale(k, v), m) == Scale(k, RowMul(v, m))
  {
    hide Times;
    var a, b, c := Scale(v.x, m.a), Scale(v.y, m.b), Scale(v.z, m.c);
    ScaleScales(k, v.x, m.a);
    ScaleScales(k, v.y, m.b);
    ScaleScales(k, v.z, m.c);
    ScaleSpreads(k, Add(a, b), c);
    ScaleSpreads(k, a, b);
  }

  lemma RowMulAssociates(v: Vector, m: Matrix, n: Matrix)
    ensures RowMul(RowMul(v, m), n) == RowMul(v, Mul(m, n))
  {
    var a, b, c := Scale(v.x, m.a), Scale(v.y, m.b), Scale(v.z, m.c);
    RowMulAdds(Add(a, b), c, n);
    RowMulAdds(a, b, n);
    RowMulScales(v.x, m.a, n);
    RowMulScales(v.y, m.b, n);
    RowMulScales(v.z, m.c, n);
    hide Scale, Add;
  }

  lemma MulAssociates(l: Matrix, m: Matrix, n: Matrix)
    ensures Mul(Mul(l, m), n) == Mul(l, Mul(m, n))
  {
    hide RowMul;
    RowMulAssociates(l.a, m, n);
    RowMulAssociates(l.b, m, n);
    RowMulAssociates(l.c, m, n);
  }

  lemma DotAdds(u: Vector, v: Vector, w: Vector)
    ensures Dot(Add(u, v), w) == Dot(u, w) + Dot(v, w)
    ensures Dot(w, Add(u, v)) == Dot(w, u) + Dot(w, v)
  {
    hide Times;
    Distribute(u.x, v.x, w.x);
    Distribute(u.y, v.y, w.y);
    Distribute(u.z, v.z, w.z);
  }

  lemma DotCommutes(u: Vector, v: Vector)
    ensures Dot(u, v) == Dot(v, u)
  {
    hide Times;
    Commute(u.x, v.x);
    Commute(u.y, v.y);
    Commute(u.z, v.z);
  }

  lemma DotScales(k: real, u: Vector, w: Vector)
    ensures Dot(Scale(k, u), w) == Times(k, Dot(u, w))
    ensures Dot(w, Scale(k, u)) == Times(k, Dot(w, u))
  {
    hide Times;
    DotCommutes(w, Scale(k, u));
    DotCommutes(w, u);
    Associate(k, u.x, w.x);
    Associate(k, u.y, w.y);
    Associate(k, u.z, w.z);
    Spread(k, Times(u.x, w.x), Times(u.y, w.y), Times(u.z, w.z));
  }

  lemma RowThenDot(v: Vector, m: Matrix, w: Vector)
    ensures Dot(RowMul(v, m), w) == Dot(v, Apply(m, w))
  {
    var a, b, c := Scale(v.x, m.a), Scale(v.y, m.b), Scale(v.z, m.c);
    DotAdds(Add(a, b), c, w);
    DotAdds(a, b, w);
    DotScales(v.x, m.a, w);
    DotScales(v.y, m.b, w);
    DotScales(v.z, m.c, w);
  }

  lemma ApplyAssociates(m: Matrix, n: Matrix, v: Vector)
    ensures Apply(Mul(m, n), v) == Apply(m, Apply(n, v))
  {
    hide RowMul, Dot;
    RowThenDot(m.a, n, v);
    RowThenDot(m.b, n, v);
    RowThenDot(m.c, n, v);
  }

  lemma ApplyAdds(m: Matrix, u: Vector, v: Vector)
    ensures Apply(m, Add(u, v)) == Add(Apply(m, u), Apply(m, v))
  {
    hide Dot;
    DotAdds(u, v, m.a);
    DotAdds(u, v, m.b);
    DotAdds(u, v, m.c);
  }

  lemma UnitLaws(m: Matrix)
    ensures Mul(UNIT, m) == m && Mul(m, UNIT) == m
  {
    UnitRows(m);
    RowOfUnit(m.a);
    RowOfUnit(m.b);
    RowOfUnit(m.c);
    hide RowMul;
  }

  lemma UnitRows(m: Matrix)
    ensures RowMul(Vector(1.0, 0.0, 0.0), m) == m.a
    ensures RowMul(Vector(0.0, 1.0, 0.0), m) == m.b
    ensures RowMul(Vector(0.0, 0.0, 1.0), m) == m.c
  {
    ScaleUnits(m.a);
    ScaleUnits(m.b);
    ScaleUnits(m.c);
    hide Scale;
  }

  lemma ScaleUnits(v: Vector)
    ensures Scale(1.0, v) == v && Scale(0.0, v) == ZERO
  {
  }

  lemma RowOfUnit(v: Vector)
    ensures RowMul(v, Matrix(Vector(1.0, 0.0, 0.0), Vector(0.0, 1.0, 0.0), Vector(0.0, 0.0, 1.0))) == v
  {
  }

  lemma ApplyUnit(v: Vector)
    ensures Apply(UNIT, v) == v
  {
  }

  lemma ComposeAssociates(r: Transform, s: Transform, t: Transform)
    ensures Compose(Compose(r, s), t) == Compose(r, Compose(s, t))
  {
    hide Mul, Apply;
    MulAssociates(r.rot, s.rot, t.rot);
    ApplyAssociates(r.rot, s.rot, t.pos);
    ApplyAdds(r.rot, Apply(s.rot, t.pos), s.pos);
  }

  lemma IdentityLaws(t: Transform)
    ensures Compose(IDENTITY, t) == t && Compose(t, IDENTITY) == t
  {
    UnitLaws(t.rot);
    ApplyUnit(t.pos);
    hide Mul;
  }

  lemma TransposeOfMul(m: Matrix, n: Matrix)
    ensures Transpose(Mul(m, n)) == Mul(Transpose(n), Transpose(m))
  {
    var p, q := Transpose(m), Transpose(n);
    hide RowMul, Dot, Transpose;
    RowMulIsApply(m.a, n);
    RowMulIsApply(m.b, n);
    RowMulIsApply(m.c, n);
    RowMulIsApply(q.a, p);
    RowMulIsApply(q.b, p);
    RowMulIsApply(q.c, p);
    TransposeTwice(m);
    NineDots(m, q);
    TransposeIs(Mul(m, n));
  }

  lemma TransposeIs(m: Matrix)
    ensures Transpose(m) == Matrix(Vector(m.a.x, m.b.x, m.c.x), Vector(m.a.y, m.b.y, m.c.y),
                                   Vector(m.a.z, m.b.z, m.c.z))
  {
  }

  lemma NineDots(m: Matrix, n: Matrix)
    ensures Dot(m.a, n.a) == Dot(n.a, m.a) && Dot(m.a, n.b) == Dot(n.b, m.a) && Dot(m.a, n.c) == Dot(n.c, m.a)
    ensures Dot(m.b, n.a) == Dot(n.a, m.b) && Dot(m.b, n.b) == Dot(n.b, m.b) && Dot(m.b, n.c) == Dot(n.c, m.b)
    ensures Dot(m.c, n.a) == Dot(n.a, m.c) && Dot(m.c, n.b) == Dot(n.b, m.c) && Dot(m.c, n.c) == Dot(n.c, m.c)
  {
  }

  lemma RowMulIsApply(v: Vector, m: Matrix)
    ensures RowMul(v, m) == Apply(Transpose(m), v)
  {
  }

  // ---------------------------------------------------------------- rotations

  function Cofactors(m: Matrix): Matrix {
    Matrix(Cross(m.b, m.c), Cross(m.c, m.a), Cross(m.a, m.b))
  }

  // A matrix times its adjugate is its determinant times the unit matrix.
  lemma AdjugateLaw(m: Matrix)
    requires Det(m) == 1.0
    ensures Mul(m, Transpose(Cofactors(m))) == UNIT
  {
    var f := Cofactors(m);
    TransposeTwice(f);
    RowMulIsApply(m.a, Transpose(f));
    RowMulIsApply(m.b, Transpose(f));
    RowMulIsApply(m.c, Transpose(f));
    TripleProducts(m.a, m.b, m.c);
    CrossIsNormal(m.a, m.b);
    CrossIsNormal(m.b, m.c);
    CrossIsNormal(m.c, m.a);
    NineDots(f, m);
    hide RowMul, Dot, Cross, Transpose;
  }

  lemma CrossIsNormal(u: Vector, v: Vector)
    ensures Dot(u, Cross(u, v)) == 0.0 && Dot(v, Cross(u, v)) == 0.0
  {
  }

  lemma TripleProducts(u: Vector, v: Vector, w: Vector)
    ensures Dot(v, Cross(w, u)) == Dot(u, Cross(v, w)) && Dot(w, Cross(u, v)) == Dot(u, Cross(v, w))
  {
    TripleSum(u, v, w);
    TripleSum(v, w, u);
    TripleSum(w, u, v);
    hide Dot, Cross;
  }

  lemma TripleSum(u: Vector, v: Vector, w: Vector)
    ensures Dot(u, Cross(v, w)) ==
              u.x * v.y * w.z - u.x * v.z * w.y + u.y * v.z * w.x - u.y * v.x * w.z + u.z * v.x * w.y - u.z * v.y * w.x
  {
    var c := Cross(v, w);
    Term(u.x, c.x, v.y, w.z, v.z, w.y);
    Term(u.y, c.y, v.z, w.x, v.x, w.z);
    Term(u.z, c.z, v.x, w.y, v.y, w.x);
  }

  lemma Term(x: real, f: real, p: real, q: real, r: real, s: real)
    requires f == p * q - r * s
    ensures x * f == x * p * q - x * r * s
  {
  }

  // A rotation is its own matrix of cofactors, so its transpose is an inverse on both sides.
  lemma RotationInverts(m: Matrix)
    requires Rotation(m)
    ensures Mul(m, Transpose(m)) == UNIT && Cofactors(m) == m
  {
    var adj := Transpose(Cofactors(m));
    AdjugateLaw(m);
    MulAssociates(Transpose(m), m, adj);
    UnitLaws(adj);
    UnitLaws(Transpose(m));
    assert Transpose(m) == adj by { hide Mul; }
    TransposeTwice(m);
    TransposeTwice(Cofactors(m));
  }

  lemma TransposeTwice(m: Matrix)
    ensures Transpose(Transpose(m)) == m
  {
  }

  /** The closed form is a two-sided inverse of every rigid transform. */
  lemma InvIsInverse(t: Transform)
    requires Rigid(t)
    ensures Compose(Inv(t), t) == IDENTITY && Compose(t, Inv(t)) == IDENTITY
  {
    RotationInverts(t.rot);
    var u := Transpose(t.rot);
    var back := Apply(u, t.pos);
    ApplyScales(t.rot, -1.0, back);
    ApplyAssociates(t.rot, u, t.pos);
    ApplyUnit(t.pos);
    hide Mul, Apply, Transpose;
    AddNegated(back);
    AddNegated(t.pos);
  }

  lemma ApplyScales(m: Matrix, k: real, v: Vector)
    ensures Apply(m, Scale(k, v)) == Scale(k, Apply(m, v))
  {
    DotScales(k, v, m.a);
    DotScales(k, v, m.b);
    DotScales(k, v, m.c);
    hide Dot;
  }

  lemma AddNegated(v: Vector)
    ensures Add(v, Scale(-1.0, v)) == ZERO && Add(Scale(-1.0, v), v) == ZERO
  {
  }

  /** It is one exactly for the matrices with orthonormal columns: a scaled or sheared matrix is
      not inverted by it. */
  lemma InvIsInverseIff(t: Transform)
    ensures Compose(Inv(t), t) == IDENTITY <==> Mul(Transpose(t.rot), t.rot) == UNIT
  {
    hide Mul, Apply, Transpose;
    AddNegated(Apply(Transpose(t.rot), t.pos));
  }

  // ---------------------------------------------------------------- products of rotations

  lemma CrossAdds(u: Vector, v: Vector, w: Vector)
    ensures Cross(Add(u, v), w) == Add(Cross(u, w), Cross(v, w))
    ensures Cross(w, Add(u, v)) == Add(Cross(w, u), Cross(w, v))
  {
    hide Times;
    Distribute(u.x, v.x, w.y);
    Distribute(u.x, v.x, w.z);
    Distribute(u.y, v.y, w.x);
    Distribute(u.y, v.y, w.z);
    Distribute(u.z, v.z, w.x);
    Distribute(u.z, v.z, w.y);
  }

  lemma CrossScales(k: real, u: Vector, w: Vector)
    ensures Cross(Scale(k, u), w) == Scale(k, Cross(u, w))
    ensures Cross(w, Scale(k, u)) == Scale(k, Cross(w, u))
  {
    CrossScalesLeft(k, u, w);
    CrossSwaps(u, w);
    CrossSwaps(Scale(k, u), w);
    ScaleSwaps(k, Cross(u, w));
    hide Cross;
  }

  lemma ScaleSwaps(k: real, v: Vector)
    ensures Scale(-1.0, Scale(k, v)) == Scale(k, Scale(-1.0, v))
  {
  }

  lemma CrossScalesLeft(k: real, u: Vector, w: Vector)
    ensures Cross(Scale(k, u), w) == Scale(k, Cross(u, w))
  {
    hide Times;
    MinorScales(k, u.y, u.z, w.y, w.z);
    MinorScales(k, u.z, u.x, w.z, w.x);
    MinorScales(k, u.x, u.y, w.x, w.y);
  }

  lemma MinorScales(k: real, p: real, q: real, r: real, s: real)
    ensures Times(Times(k, p), s) - Times(Times(k, q), r) == Times(k, Times(p, s) - Times(q, r))
  {
    hide Times;
    Associate(k, p, s);
    Associate(k, q, r);
    Subtract(k, Times(p, s), Times(q, r));
  }

  lemma CrossSwaps(u: Vector, v: Vector)
    ensures Cross(v, u) == Scale(-1.0, Cross(u, v)) && Cross(u, u) == ZERO
  {
  }

  lemma CrossRow(e: Vector, v: Vector, m: Matrix)
    ensures Cross(e, RowMul(v, m)) == RowMul(v, Matrix(Cross(e, m.a), Cross(e, m.b), Cross(e, m.c)))
    ensures Cross(RowMul(v, m), e) == RowMul(v, Matrix(Cross(m.a, e), Cross(m.b, e), Cross(m.c, e)))
  {
    var a, b, c := Scale(v.x, m.a), Scale(v.y, m.b), Scale(v.z, m.c);
    CrossAdds(Add(a, b), c, e);
    CrossAdds(a, b, e);
    CrossScales(v.x, m.a, e);
    CrossScales(v.y, m.b, e);
    CrossScales(v.z, m.c, e);
    hide Cross, Scale, Add;
  }

  lemma ScaleNegated(k: real, v: Vector)
    ensures Scale(k, Scale(-1.0, v)) == Scale(-k, v)
  {
  }

  // The matrix whose rows multiply like a cross product with v.
  function Skew(v: Vector): Matrix {
    Matrix(Vector(0.0, -v.z, v.y), Vector(v.z, 0.0, -v.x), Vector(-v.y, v.x, 0.0))
  }

  // The cross products of one row of a rotation with the combination v of its rows.
  lemma SkewRows(v: Vector, m: Matrix)
    ensures RowMul(v, Matrix(ZERO, m.c, Scale(-1.0, m.b))) == RowMul(Skew(v).a, m)
    ensures RowMul(v, Matrix(Scale(-1.0, m.c), ZERO, m.a)) == RowMul(Skew(v).b, m)
    ensures RowMul(v, Matrix(m.b, Scale(-1.0, m.a), ZERO)) == RowMul(Skew(v).c, m)
  {
    ScaleNegated(v.x, m.c);
    ScaleNegated(v.y, m.a);
    ScaleNegated(v.z, m.b);
    ScaleUnits(m.a);
    ScaleUnits(m.b);
    ScaleUnits(m.c);
    ScaleZero(v.x);
    ScaleZero(v.y);
    ScaleZero(v.z);
    hide Scale;
  }

  lemma ScaleZero(k: real)
    ensures Scale(k, ZERO) == ZERO
  {
    assert Scale(k, Vector(0.0, 0.0, 0.0)) == ZERO;
  }

  lemma SkewIsCross(u: Vector, v: Vector)
    ensures RowMul(u, Skew(v)) == Cross(u, v)
  {
  }

  // A rotation keeps cross products.
  lemma RotationKeepsCross(u: Vector, v: Vector, m: Matrix)
    requires Rotation(m)
    ensures Cross(RowMul(u, m), RowMul(v, m)) == RowMul(Cross(u, v), m)
  {
    RotationInverts(m);
    CrossRow(RowMul(v, m), u, m);
    CrossRow(m.a, v, m);
    CrossRow(m.b, v, m);
    CrossRow(m.c, v, m);
    CrossSwaps(m.a, m.b);
    CrossSwaps(m.b, m.c);
    CrossSwaps(m.c, m.a);
    SkewRows(v, m);
    RowMulAssociates(u, Skew(v), m);
    SkewIsCross(u, v);
    hide RowMul, Scale, Cross, Skew;
  }

  // A rotation keeps inner products.
  lemma RotationKeepsDot(u: Vector, v: Vector, m: Matrix)
    requires Rotation(m)
    ensures Dot(RowMul(u, m), RowMul(v, m)) == Dot(u, v)
  {
    RotationInverts(m);
    RowThenDot(u, m, RowMul(v, m));
    RowMulIsApply(v, m);
    ApplyAssociates(m, Transpose(m), v);
    ApplyUnit(v);
  }

  lemma RotationsMultiply(m: Matrix, n: Matrix)
    requires Rotation(m) && Rotation(n)
    ensures Rotation(Mul(m, n))
  {
    var p, q := Transpose(m), Transpose(n);
    TransposeOfMul(m, n);
    MulAssociates(q, p, Mul(m, n));
    MulAssociates(p, m, n);
    UnitLaws(n);
    RotationKeepsCross(m.b, m.c, n);
    RotationKeepsDot(m.a, Cross(m.b, m.c), n);
  }

  /** Rigid transforms compose to rigid transforms. */
  lemma RigidCompose(s: Transform, t: Transform)
    requires Rigid(s) && Rigid(t)
    ensures Rigid(Compose(s, t))
  {
    RotationsMultiply(s.rot, t.rot);
  }

  // ---------------------------------------------------------------- forward kinematics

  // Rotations about one axis; the angle is given by its cosine and sine.
  datatype Angle = Angle(cos: real, sin: real)

  predicate OnCircle(q: Angle) {
    q.cos * q.cos + q.sin * q.sin == 1.0
  }

  function RotX(q: Angle): Matrix {
    Matrix(Vector(1.0, 0.0, 0.0), Vector(0.0, q.cos, -q.sin), Vector(0.0, q.sin, q.cos))
  }

  function RotY(q: Angle): Matrix {
    Matrix(Vector(q.cos, 0.0, q.sin), Vector(0.0, 1.0, 0.0), Vector(-q.sin, 0.0, q.cos))
  }

  function RotZ(q: Angle): Matrix {
    Matrix(Vector(q.cos, -q.sin, 0.0), Vector(q.sin, q.cos, 0.0), Vector(0.0, 0.0, 1.0))
  }

  // Products with a vector that has a zero component, one lemma for each place.
  lemma ScaleSparse(k: real, x: real, y: real)
    ensures Scale(k, Vector(x, y, 0.0)) == Vector(k * x, k * y, 0.0)
    ensures Scale(k, Vector(x, 0.0, y)) == Vector(k * x, 0.0, k * y)
    ensures Scale(k, Vector(0.0, x, y)) == Vector(0.0, k * x, k * y)
  {
  }

  lemma DotSparse(x: real, y: real)
    ensures Dot(Vector(x, y, 0.0), Vector(x, y, 0.0)) == x * x + y * y
    ensures Dot(Vector(x, 0.0, y), Vector(x, 0.0, y)) == x * x + y * y
    ensures Dot(Vector(1.0, 0.0, 0.0), Vector(x, 0.0, 0.0)) == x
  {
  }

  lemma CrossSparse(x: real, y: real)
    ensures Cross(Vector(x, y, 0.0), Vector(0.0, 0.0, 1.0)) == Vector(y, -x, 0.0)
    ensures Cross(Vector(0.0, 1.0, 0.0), Vector(x, 0.0, y)) == Vector(y, 0.0, -x)
    ensures Cross(Vector(0.0, x, -y), Vector(0.0, y, x)) == Vector(x * x + y * y, 0.0, 0.0)
  {
  }

  // The four products of a plane rotation.
  lemma PlaneProducts(q: Angle)
    requires OnCircle(q)
    ensures q.cos * q.cos + q.sin * q.sin == 1.0 && -q.sin * -q.sin + q.cos * q.cos == 1.0
    ensures q.cos * -q.sin + q.sin * q.cos == 0.0 && -q.sin * q.cos + q.cos * q.sin == 0.0
    ensures q.cos * q.sin + -q.sin * q.cos == 0.0
  {
  }

  lemma RotXRotates(q: Angle)
    requires OnCircle(q)
    ensures Rotation(RotX(q))
  {
    hide Scale, Cross, Dot, OnCircle;
    var c, s, m := q.cos, q.sin, RotX(q);
    PlaneProducts(q);
    ScaleSparse(c, c, -s);
    ScaleSparse(s, s, c);
    ScaleSparse(-s, c, -s);
    ScaleSparse(c, s, c);
    ScaleUnits(m.a);
    ScaleUnits(m.b);
    ScaleUnits(m.c);
    CrossSparse(c, s);
    DotSparse(1.0, 0.0);
  }

  lemma RotYRotates(q: Angle)
    requires OnCircle(q)
    ensures Rotation(RotY(q))
  {
    hide Scale, Cross, Dot, OnCircle;
    var c, s, m := q.cos, q.sin, RotY(q);
    PlaneProducts(q);
    ScaleSparse(c, c, s);
    ScaleSparse(-s, -s, c);
    ScaleSparse(s, c, s);
    ScaleSparse(c, -s, c);
    ScaleUnits(m.a);
    ScaleUnits(m.b);
    ScaleUnits(m.c);
    CrossSparse(-s, c);
    DotSparse(c, s);
  }

  lemma RotZRotates(q: Angle)
    requires OnCircle(q)
    ensures Rotation(RotZ(q))
  {
    hide Mul, Det, OnCircle;
    RotZInverts(q);
    RotZKeepsSense(q);
  }

  lemma RotZInverts(q: Angle)
    requires OnCircle(q)
    ensures Mul(Transpose(RotZ(q)), RotZ(q)) == UNIT
  {
    hide RowMul, OnCircle;
    RotZFirstRows(q);
    UnitRows(RotZ(q));
  }

  lemma RotZFirstRows(q: Angle)
    requires OnCircle(q)
    ensures RowMul(Vector(q.cos, q.sin, 0.0), RotZ(q)) == Vector(1.0, 0.0, 0.0)
    ensures RowMul(Vector(-q.sin, q.cos, 0.0), RotZ(q)) == Vector(0.0, 1.0, 0.0)
  {
    hide Scale, OnCircle;
    var c, s, m := q.cos, q.sin, RotZ(q);
    PlaneProducts(q);
    ScaleSparse(c, c, -s);
    ScaleSparse(s, s, c);
    ScaleSparse(-s, c, -s);
    ScaleSparse(c, s, c);
    ScaleUnits(m.c);
  }

  lemma RotZKeepsSense(q: Angle)
    requires OnCircle(q)
    ensures Det(RotZ(q)) == 1.0
  {
    hide Cross, Dot, OnCircle;
    PlaneProducts(q);
    CrossSparse(q.sin, q.cos);
    DotSparse(q.cos, -q.sin);
  }

  // Where a joint sits on the link before it.
  datatype Origin = Origin(xyz: Vector, roll: Angle, pitch: Angle, yaw: Angle)

  predicate OriginOk(o: Origin) {
    OnCircle(o.roll) && OnCircle(o.pitch) && OnCircle(o.yaw)
  }

  // _rpy_to_matrix
  function RpyToMatrix(roll: Angle, pitch: Angle, yaw: Angle): Matrix {
    Mul(Mul(RotZ(yaw), RotY(pitch)), RotX(roll))
  }

  function Joint(o: Origin, q: Angle): Transform {
    Transform(Mul(RpyToMatrix(o.roll, o.pitch, o.yaw), RotZ(q)), o.xyz)
  }

  lemma JointIsRigid(o: Origin, q: Angle)
    requires OriginOk(o) && OnCircle(q)
    ensures Rigid(Joint(o, q))
  {
    hide Mul, Rotation, OnCircle, RotX, RotY, RotZ;
    RotXRotates(o.roll);
    RotYRotates(o.pitch);
    RotZRotates(o.yaw);
    RotZRotates(q);
    RotationsMultiply(RotZ(o.yaw), RotY(o.pitch));
    RotationsMultiply(Mul(RotZ(o.yaw), RotY(o.pitch)), RotX(o.roll));
    RotationsMultiply(RpyToMatrix(o.roll, o.pitch, o.yaw), RotZ(q));
  }

  // The chain of the first n joints, read from the last one: a joint moves everything behind it.
  function Chain(origins: seq<Origin>, angles: seq<Angle>, n: nat): Transform
    requires n <= |origins| && n <= |angles|
  {
    if n == 0 then IDENTITY else Compose(Chain(origins, angles, n - 1), Joint(origins[n - 1], angles[n - 1]))
  }

  // zip stops at the shorter list.
  function Shorter(a: nat, b: nat): nat {
    if a <= b then a else b
  }

  /** forward_kinematics: the chain of all joints, and a rigid transform for every list, which
      sends every point through the joints. */
  method ForwardKinematics(origins: seq<Origin>, angles: seq<Angle>) returns (t: Transform)
    requires (forall o :: o in origins ==> OriginOk(o)) && forall q :: q in angles ==> OnCircle(q)
    ensures t == Chain(origins, angles, Shorter(|origins|, |angles|))
    ensures Rigid(t)
    ensures forall v :: Point(t, v) == ThroughJoints(origins, angles, Shorter(|origins|, |angles|), v)
  {
    hide Rigid, Compose, Joint, OriginOk, OnCircle;
    t := IDENTITY;
    IdentityIsRigid();
    for i := 0 to Shorter(|origins|, |angles|)
      invariant t == Chain(origins, angles, i) && Rigid(t)
    {
      var joint := Joint(origins[i], angles[i]);
      JointIsRigid(origins[i], angles[i]);
      RigidCompose(t, joint);
      t := Compose(t, joint);
    }
    forall v ensures Point(t, v) == ThroughJoints(origins, angles, Shorter(|origins|, |angles|), v) {
      ChainMoves(origins, angles, Shorter(|origins|, |angles|), v);
    }
  }

  lemma IdentityIsRigid()
    ensures Rigid(IDENTITY)
  {
    RotZRotates(Angle(1.0, 0.0));
    assert RotZ(Angle(1.0, 0.0)) == UNIT;
    hide Rotation;
  }

  // ---------------------------------------------------------------- where a point goes

  // The turns about the axes, on coordinates.
  function TurnX(q: Angle, v: Vector): Vector {
    Vector(v.x, q.cos * v.y - q.sin * v.z, q.sin * v.y + q.cos * v.z)
  }

  function TurnY(q: Angle, v: Vector): Vector {
    Vector(q.cos * v.x + q.sin * v.z, v.y, q.cos * v.z - q.sin * v.x)
  }

  function TurnZ(q: Angle, v: Vector): Vector {
    Vector(q.cos * v.x - q.sin * v.y, q.sin * v.x + q.cos * v.y, v.z)
  }

  // The point seen at v behind the transform.
  function Point(t: Transform, v: Vector): Vector {
    Add(Apply(t.rot, v), t.pos)
  }

  // A joint turns about its own z axis, then comes the fixed roll, pitch and yaw, in this order
  // about fixed axes, and the offset.
  function ThroughJoint(o: Origin, q: Angle, v: Vector): Vector {
    Add(TurnZ(o.yaw, TurnY(o.pitch, TurnX(o.roll, TurnZ(q, v)))), o.xyz)
  }

  // From the last of the first n joints to the first.
  function ThroughJoints(origins: seq<Origin>, angles: seq<Angle>, n: nat, v: Vector): Vector
    requires n <= |origins| && n <= |angles|
    decreases n
  {
    if n == 0 then v
    else ThroughJoints(origins, angles, n - 1, ThroughJoint(origins[n - 1], angles[n - 1], v))
  }

  lemma RotationsTurn(q: Angle, v: Vector)
    ensures Apply(RotX(q), v) == TurnX(q, v)
    ensures Apply(RotY(q), v) == TurnY(q, v)
    ensures Apply(RotZ(q), v) == TurnZ(q, v)
  {
  }

  /** The matrix of roll, pitch and yaw turns about x first, then about y, then about z. */
  lemma RpyTurns(roll: Angle, pitch: Angle, yaw: Angle, v: Vector)
    ensures Apply(RpyToMatrix(roll, pitch, yaw), v) == TurnZ(yaw, TurnY(pitch, TurnX(roll, v)))
  {
    hide Apply, Mul, RotX, RotY, RotZ, TurnX, TurnY, TurnZ;
    ApplyAssociates(Mul(RotZ(yaw), RotY(pitch)), RotX(roll), v);
    ApplyAssociates(RotZ(yaw), RotY(pitch), Apply(RotX(roll), v));
    RotationsTurn(roll, v);
    RotationsTurn(pitch, TurnX(roll, v));
    RotationsTurn(yaw, TurnY(pitch, TurnX(roll, v)));
  }

  lemma JointMoves(o: Origin, q: Angle, v: Vector)
    ensures Point(Joint(o, q), v) == ThroughJoint(o, q, v)
  {
    hide Apply, Mul, RpyToMatrix, RotZ, TurnX, TurnY, TurnZ;
    ApplyAssociates(RpyToMatrix(o.roll, o.pitch, o.yaw), RotZ(q), v);
    RotationsTurn(q, v);
    RpyTurns(o.roll, o.pitch, o.yaw, TurnZ(q, v));
  }

  lemma ComposeMoves(s: Transform, t: Transform, v: Vector)
    ensures Point(Compose(s, t), v) == Point(s, Point(t, v))
  {
    ApplyAssociates(s.rot, t.rot, v);
    ApplyAdds(s.rot, Apply(t.rot, v), t.pos);
    hide Apply, Mul;
  }

  /** Forward kinematics on points: a point at the end of the chain goes through the last joint
      first, each joint turning it by its angle, then by its mounting, then shifting it. */
  lemma {:induction false} ChainMoves(origins: seq<Origin>, angles: seq<Angle>, n: nat, v: Vector)
    requires n <= |origins| && n <= |angles|
    ensures Point(Chain(origins, angles, n), v) == ThroughJoints(origins, angles, n, v)
    decreases n
  {
    hide Point, Compose, Joint, ThroughJoint;
    if n == 0 {
      IdentityMoves(v);
    } else {
      var joint := Joint(origins[n - 1], angles[n - 1]);
      ComposeMoves(Chain(origins, angles, n - 1), joint, v);
      JointMoves(origins[n - 1], angles[n - 1], v);
      ChainMoves(origins, angles, n - 1, ThroughJoint(origins[n - 1], angles[n - 1], v));
    }
  }

  lemma IdentityMoves(v: Vector)
    ensures Point(IDENTITY, v) == v
  {
    ApplyUnit(v);
    hide Apply;
  }

  // ---------------------------------------------------------------- AX = XB

  function Difference(u: Vector, v: Vector): Vector {
    Add(u, Scale(-1.0, v))
  }

  // The square of one residual, in square millimetres: only translations are compared.
  function Squared(left: Transform, right: Transform): real {
    var d := Difference(left.pos, right.pos);
    1000000.0 * Dot(d, d)
  }

  // Both forms compare A X with X B; they differ in A.
  function InHandMotion(g: Transform, next: Transform): Transform {
    Compose(Inv(next), g)
  }

  function ToHandMotion(g: Transform, next: Transform): Transform {
    Compose(next, Inv(g))
  }

  function MarkerMotion(t: Transform, next: Transform): Transform {
    Compose(next, Inv(t))
  }

  function Residual(x: Transform, a: Transform, b: Transform): real {
    Squared(Compose(a, x), Compose(x, b))
  }

  // range(n - 1) is empty for no sample too.
  function Pairs(n: nat): nat {
    if n == 0 then 0 else n - 1
  }

  /** validate_axb of the eye-in-hand script: the squares of its residuals; None when it raises,
      for want of marker poses or of any residual to take the maximum of. */
  method ValidateInHand(x: Transform, g: seq<Transform>, t: seq<Transform>) returns (errs: Option<seq<real>>)
    ensures errs.Some? <==> 2 <= |g| <= |t|
    ensures errs.Some? ==> |errs.value| == |g| - 1
    ensures errs.Some? ==> forall i :: 0 <= i < |g| - 1 ==>
              errs.value[i] == Residual(x, InHandMotion(g[i], g[i + 1]), MarkerMotion(t[i], t[i + 1]))
  {
    hide Residual, InHandMotion, MarkerMotion;
    var out: seq<real> := [];
    for i := 0 to Pairs(|g|)
      invariant |out| == i && (i > 0 ==> i + 1 <= |t|)
      invariant forall k :: 0 <= k < i ==>
                  out[k] == Residual(x, InHandMotion(g[k], g[k + 1]), MarkerMotion(t[k], t[k + 1]))
    {
      if i + 1 >= |t| {
        return None;
      }
      out := out + [Residual(x, InHandMotion(g[i], g[i + 1]), MarkerMotion(t[i], t[i + 1]))];
    }
    return if out == [] then None else Some(out);
  }

  /** validate_axb of the eye-to-hand script. */
  method ValidateToHand(x: Transform, g: seq<Transform>, t: seq<Transform>) returns (errs: Option<seq<real>>)
    ensures errs.Some? <==> 2 <= |g| <= |t|
    ensures errs.Some? ==> |errs.value| == |g| - 1
    ensures errs.Some? ==> forall i :: 0 <= i < |g| - 1 ==>
              errs.value[i] == Residual(x, ToHandMotion(g[i], g[i + 1]), MarkerMotion(t[i], t[i + 1]))
  {
    hide Residual, ToHandMotion, MarkerMotion;
    var out: seq<real> := [];
    for i := 0 to Pairs(|g|)
      invariant |out| == i && (i > 0 ==> i + 1 <= |t|)
      invariant forall k :: 0 <= k < i ==>
                  out[k] == Residual(x, ToHandMotion(g[k], g[k + 1]), MarkerMotion(t[k], t[k + 1]))
    {
      if i + 1 >= |t| {
        return None;
      }
      out := out + [Residual(x, ToHandMotion(g[i], g[i + 1]), MarkerMotion(t[i], t[i + 1]))];
    }
    return if out == [] then None else Some(out);
  }

  // ---------------------------------------------------------------- soundness

  // Cancelling a rigid transform on either side.
  lemma CancelLeft(r: Transform, s: Transform, t: Transform)
    requires Rigid(r)
    ensures Compose(r, s) == Compose(r, t) <==> s == t
  {
    hide Compose, Inv, Rigid;
    InvIsInverse(r);
    ComposeAssociates(Inv(r), r, s);
    ComposeAssociates(Inv(r), r, t);
    IdentityLaws(s);
    IdentityLaws(t);
  }

  lemma CancelRight(r: Transform, s: Transform, t: Transform)
    requires Rigid(r)
    ensures Compose(s, r) == Compose(t, r) <==> s == t
  {
    hide Compose, Inv, Rigid;
    InvIsInverse(r);
    ComposeAssociates(s, r, Inv(r));
    ComposeAssociates(t, r, Inv(r));
    IdentityLaws(s);
    IdentityLaws(t);
  }

  // Where an eye on the gripper sees the target in the base frame, and where an eye beside the
  // robot sees it in the gripper frame.
  function InBase(g: Transform, x: Transform, t: Transform): Transform {
    Compose(Compose(g, x), t)
  }

  function InGripper(g: Transform, x: Transform, t: Transform): Transform {
    Compose(Inv(g), Compose(x, t))
  }

  /** Eye in hand: two samples solve AX = XB exactly when they see one fixed target. */
  lemma InHandIff(g: Transform, g': Transform, x: Transform, t: Transform, t': Transform)
    requires Rigid(g) && Rigid(g') && Rigid(t)
    ensures Compose(InHandMotion(g, g'), x) == Compose(x, MarkerMotion(t, t')) <==> InBase(g, x, t) == InBase(g', x, t')
  {
    hide Compose, Inv, Rigid;
    var a, b := InHandMotion(g, g'), MarkerMotion(t, t');
    CancelLeft(g', Compose(a, x), Compose(x, b));
    CancelRight(t, Compose(g', Compose(a, x)), Compose(g', Compose(x, b)));
    UndoLeft(g', g, x);
    ComposeAssociates(g', x, b);
    UndoRight(Compose(g', x), t', t);
  }

  /** Eye to hand: the same with the target fixed on the gripper. */
  lemma ToHandIff(g: Transform, g': Transform, x: Transform, t: Transform, t': Transform)
    requires Rigid(g) && Rigid(g') && Rigid(t)
    ensures Compose(ToHandMotion(g, g'), x) == Compose(x, MarkerMotion(t, t')) <==>
            InGripper(g, x, t) == InGripper(g', x, t')
  {
    hide Compose, Inv, Rigid;
    var a, b := ToHandMotion(g, g'), MarkerMotion(t, t');
    CancelRight(t, Compose(a, x), Compose(x, b));
    UndoRight(x, t', t);
    ComposeAssociates(a, x, t);
    ComposeAssociates(g', Inv(g), Compose(x, t));
    CancelLeft(g', InGripper(g, x, t), InGripper(g', x, t'));
    InvIsInverse(g');
    ComposeAssociates(g', Inv(g'), Compose(x, t'));
    IdentityLaws(Compose(x, t'));
  }

  // g' ((inv(g') g) x) is g x.
  lemma UndoLeft(g': Transform, g: Transform, x: Transform)
    requires Rigid(g')
    ensures Compose(g', Compose(Compose(Inv(g'), g), x)) == Compose(g, x)
  {
    hide Compose, Inv, Rigid;
    InvIsInverse(g');
    ComposeAssociates(Inv(g'), g, x);
    ComposeAssociates(g', Inv(g'), Compose(g, x));
    IdentityLaws(Compose(g, x));
  }

  // (s (t' inv(t))) t is s t'.
  lemma UndoRight(s: Transform, t': Transform, t: Transform)
    requires Rigid(t)
    ensures Compose(Compose(s, Compose(t', Inv(t))), t) == Compose(s, t')
  {
    hide Compose, Inv, Rigid;
    InvIsInverse(t);
    ComposeAssociates(s, Compose(t', Inv(t)), t);
    ComposeAssociates(t', Inv(t), t);
    IdentityLaws(t');
  }

  lemma InvOfTurn(m: Matrix)
    ensures Inv(Transform(m, ZERO)).pos == ZERO
  {
    DotZero(Transpose(m).a);
    DotZero(Transpose(m).b);
    DotZero(Transpose(m).c);
    ScaleZero(-1.0);
    hide Dot, Transpose;
  }

  lemma DotZero(v: Vector)
    ensures Dot(v, ZERO) == 0.0
  {
    assert Dot(v, Vector(0.0, 0.0, 0.0)) == 0.0;
  }

  ghost predicate AllRigid(g: seq<Transform>) {
    forall i :: 0 <= i < |g| ==> Rigid(g[i])
  }

  lemma SquareIsPositive(x: real)
    ensures Times(x, x) >= 0.0 && (Times(x, x) == 0.0 ==> x == 0.0)
  {
    hide Times;
    if x == 0.0 {
      ZeroSquare();
    } else if x > 0.0 {
      PositiveProduct(x, x);
    } else if x < 0.0 {
      PositiveProduct(-x, -x);
      NegatedSquare(x);
    }
  }

  lemma PositiveProduct(a: real, b: real)
    requires a > 0.0 && b > 0.0
    ensures Times(a, b) > 0.0
  {
    assert a * b > 0.0;
  }

  lemma ZeroSquare()
    ensures Times(0.0, 0.0) == 0.0
  {
  }

  lemma NegatedSquare(x: real)
    ensures Times(-x, -x) == Times(x, x)
  {
  }

  lemma DotIsZeroIff(v: Vector)
    ensures Dot(v, v) == 0.0 <==> v == ZERO
  {
    SquareIsPositive(v.x);
    SquareIsPositive(v.y);
    SquareIsPositive(v.z);
    assert Dot(v, v) == 0.0 ==> v == ZERO by { hide Times; }
    if v == ZERO {
      DotZero(v);
    }
  }

  lemma DifferenceIsZeroIff(u: Vector, v: Vector)
    ensures Difference(u, v) == ZERO <==> u == v
  {
  }

  /** A residual is zero exactly if the two sides of AX = XB have the same translation. */
  lemma ResidualIsZeroIff(x: Transform, a: Transform, b: Transform)
    ensures Residual(x, a, b) == 0.0 <==> Compose(a, x).pos == Compose(x, b).pos
  {
    DotIsZeroIff(Difference(Compose(a, x).pos, Compose(x, b).pos));
    DifferenceIsZeroIff(Compose(a, x).pos, Compose(x, b).pos);
    hide Dot, Difference, Compose;
  }

  // What the scripts do not look at: the two sides have the same rotation.
  predicate SameTurn(x: Transform, a: Transform, b: Transform) {
    Compose(a, x).rot == Compose(x, b).rot
  }

  // A zero residual and equal rotations, which together are AX = XB.
  predicate Solved(x: Transform, a: Transform, b: Transform) {
    Residual(x, a, b) == 0.0 && SameTurn(x, a, b)
  }

  lemma SolvedIff(x: Transform, a: Transform, b: Transform)
    ensures Solved(x, a, b) <==> Compose(a, x) == Compose(x, b)
  {
    ResidualIsZeroIff(x, a, b);
    hide Residual, Compose;
  }

  predicate AllAre(views: seq<Transform>, target: Transform) {
    forall k :: 0 <= k < |views| ==> views[k] == target
  }

  ghost predicate SeesOne(views: seq<Transform>) {
    exists target :: AllAre(views, target)
  }

  // A list is constant exactly if its neighbours agree.
  lemma SeesOneIff(views: seq<Transform>)
    ensures SeesOne(views) <==> forall i :: 0 <= i < |views| - 1 ==> views[i] == views[i + 1]
  {
    if forall i :: 0 <= i < |views| - 1 ==> views[i] == views[i + 1] {
      var target := if views == [] then IDENTITY else views[0];
      forall k | 0 <= k < |views|
        ensures views[k] == target
      {
        NeighboursReach(views, k);
      }
      assert AllAre(views, target);
    }
  }

  lemma {:induction false} NeighboursReach(views: seq<Transform>, k: nat)
    requires k < |views| && forall i :: 0 <= i < |views| - 1 ==> views[i] == views[i + 1]
    ensures views[k] == views[0]
  {
    if k > 0 {
      NeighboursReach(views, k - 1);
      assert views[k - 1] == views[k - 1 + 1];
    }
  }

  function InBaseViews(x: Transform, g: seq<Transform>, t: seq<Transform>): seq<Transform>
    requires |g| <= |t|
  {
    seq(|g|, k requires 0 <= k < |g| => InBase(g[k], x, t[k]))
  }

  function InGripperViews(x: Transform, g: seq<Transform>, t: seq<Transform>): seq<Transform>
    requires |g| <= |t|
  {
    seq(|g|, k requires 0 <= k < |g| => InGripper(g[k], x, t[k]))
  }

  ghost predicate InHandSolved(x: Transform, g: seq<Transform>, t: seq<Transform>)
    requires |g| <= |t|
  {
    forall i :: 0 <= i < |g| - 1 ==> Solved(x, InHandMotion(g[i], g[i + 1]), MarkerMotion(t[i], t[i + 1]))
  }

  ghost predicate ToHandSolved(x: Transform, g: seq<Transform>, t: seq<Transform>)
    requires |g| <= |t|
  {
    forall i :: 0 <= i < |g| - 1 ==> Solved(x, ToHandMotion(g[i], g[i + 1]), MarkerMotion(t[i], t[i + 1]))
  }

  /** What the residuals mean, eye in hand: for every list of samples, all residuals are zero and
      all rotations agree exactly if every sample sees one and the same target in the base frame. */
  lemma FixedTargetInHandIff(x: Transform, g: seq<Transform>, t: seq<Transform>)
    requires AllRigid(g) && AllRigid(t) && |g| <= |t|
    ensures InHandSolved(x, g, t) <==> SeesOne(InBaseViews(x, g, t))
  {
    hide Rigid, InHandMotion, MarkerMotion, InBase, Compose, Solved, SeesOne;
    var views := InBaseViews(x, g, t);
    SeesOneIff(views);
    forall i | 0 <= i < |g| - 1
      ensures Solved(x, InHandMotion(g[i], g[i + 1]), MarkerMotion(t[i], t[i + 1])) <==> views[i] == views[i + 1]
    {
      SolvedIff(x, InHandMotion(g[i], g[i + 1]), MarkerMotion(t[i], t[i + 1]));
      InHandIff(g[i], g[i + 1], x, t[i], t[i + 1]);
    }
  }

  /** Eye to hand: the same with the target on the gripper. */
  lemma FixedTargetToHandIff(x: Transform, g: seq<Transform>, t: seq<Transform>)
    requires AllRigid(g) && AllRigid(t) && |g| <= |t|
    ensures ToHandSolved(x, g, t) <==> SeesOne(InGripperViews(x, g, t))
  {
    hide Rigid, ToHandMotion, MarkerMotion, InGripper, Compose, Solved, SeesOne;
    var views := InGripperViews(x, g, t);
    SeesOneIff(views);
    forall i | 0 <= i < |g| - 1
      ensures Solved(x, ToHandMotion(g[i], g[i + 1]), MarkerMotion(t[i], t[i + 1])) <==> views[i] == views[i + 1]
    {
      SolvedIff(x, ToHandMotion(g[i], g[i + 1]), MarkerMotion(t[i], t[i + 1]));
      ToHandIff(g[i], g[i + 1], x, t[i], t[i + 1]);
    }
  }

  /** The rotations do have to be looked at: the gripper turns a quarter about the base axis, the
      marker does not move, and the residual is zero although no one target is seen. */
  lemma ZeroResidualIsNotEnough()
    ensures var g, g' := IDENTITY, Transform(RotZ(Angle(0.0, 1.0)), ZERO);
            && Rigid(g) && Rigid(g')
            && Residual(IDENTITY, InHandMotion(g, g'), MarkerMotion(IDENTITY, IDENTITY)) == 0.0
            && InBase(g, IDENTITY, IDENTITY) != InBase(g', IDENTITY, IDENTITY)
  {
    hide Compose, Mul, Rotation, Residual, Inv;
    var g' := Transform(RotZ(Angle(0.0, 1.0)), ZERO);
    RotZRotates(Angle(0.0, 1.0));
    IdentityIsRigid();
    IdentityLaws(IDENTITY);
    IdentityLaws(g');
    IdentityLaws(Inv(g'));
    InvIsInverse(IDENTITY);
    IdentityLaws(Inv(IDENTITY));
    InvOfTurn(RotZ(Angle(0.0, 1.0)));
    ResidualIsZeroIff(IDENTITY, InHandMotion(IDENTITY, g'), MarkerMotion(IDENTITY, IDENTITY));
  }
}
