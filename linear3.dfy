/** Three-by-three real linear algebra: the part of numpy.linalg that the
    mesh solver uses (det and solve), written out in closed form. */
module Linear3 {

  datatype Vec3 = Vec3(x: real, y: real, z: real)

  /** A matrix given by its three rows. */
  datatype Mat3 = Mat3(r1: Vec3, r2: Vec3, r3: Vec3)

  function Dot(u: Vec3, v: Vec3): real
  {
    u.x * v.x + u.y * v.y + u.z * v.z
  }

  /** The product A·v. */
  function MatVec(a: Mat3, v: Vec3): Vec3
  {
    Vec3(Dot(a.r1, v), Dot(a.r2, v), Dot(a.r3, v))
  }

  function Abs(x: real): real
  {
    if x < 0.0 then -x else x
  }

  /** The largest magnitude of the three components. */
  function MaxAbs(v: Vec3): (m: real)
    ensures m == Abs(v.x) || m == Abs(v.y) || m == Abs(v.z)
    ensures Abs(v.x) <= m && Abs(v.y) <= m && Abs(v.z) <= m
  {
    var a, b, c := Abs(v.x), Abs(v.y), Abs(v.z);
    if a >= b && a >= c then a else if b >= c then b else c
  }

  predicate Symmetric(a: Mat3)
  {
    a.r1.y == a.r2.x && a.r1.z == a.r3.x && a.r2.z == a.r3.y
  }

  /** The determinant, by cofactor expansion along the first row; it agrees
      with the expansion along the first column. */
  function Det(a: Mat3): (d: real)
    ensures d == a.r1.x * (a.r2.y * a.r3.z - a.r3.y * a.r2.z)
                 - a.r2.x * (a.r1.y * a.r3.z - a.r3.y * a.r1.z)
                 + a.r3.x * (a.r1.y * a.r2.z - a.r2.y * a.r1.z)
  {
    a.r1.x * (a.r2.y * a.r3.z - a.r2.z * a.r3.y)
    - a.r1.y * (a.r2.x * a.r3.z - a.r2.z * a.r3.x)
    + a.r1.z * (a.r2.x * a.r3.y - a.r2.y * a.r3.x)
  }

  /** A with its k-th column (k in 1..3) replaced by b. */
  function ReplaceColumn(a: Mat3, k: int, b: Vec3): Mat3
    requires 1 <= k <= 3
  {
    if k == 1 then
      Mat3(Vec3(b.x, a.r1.y, a.r1.z), Vec3(b.y, a.r2.y, a.r2.z), Vec3(b.z, a.r3.y, a.r3.z))
    else if k == 2 then
      Mat3(Vec3(a.r1.x, b.x, a.r1.z), Vec3(a.r2.x, b.y, a.r2.z), Vec3(a.r3.x, b.z, a.r3.z))
    else
      Mat3(Vec3(a.r1.x, a.r1.y, b.x), Vec3(a.r2.x, a.r2.y, b.y), Vec3(a.r3.x, a.r3.y, b.z))
  }

  /** Cramer's rule: the k-th unknown is det(A with column k := b) / det(A).
      Stands in for numpy.linalg.solve on a non-singular system. */
  function Cramer(a: Mat3, b: Vec3): (v: Vec3)
    requires Det(a) != 0.0
    ensures MatVec(a, v) == b
  {
    CramerSolves(a, b);
    CramerSolution(a, b)
  }

  function CramerSolution(a: Mat3, b: Vec3): Vec3
    requires Det(a) != 0.0
  {
    var d := Det(a);
    Vec3(Det(ReplaceColumn(a, 1, b)) / d,
         Det(ReplaceColumn(a, 2, b)) / d,
         Det(ReplaceColumn(a, 3, b)) / d)
  }

  /** Expanding the three Cramer numerators along their replaced column and
      summing row by row gives det(A)·b: the identity A·adj(A) = det(A)·I. */
  lemma CramerNumerators(a: Mat3, b: Vec3)
    ensures var d1, d2, d3 := Det(ReplaceColumn(a, 1, b)), Det(ReplaceColumn(a, 2, b)), Det(ReplaceColumn(a, 3, b));
      && a.r1.x * d1 + a.r1.y * d2 + a.r1.z * d3 == Det(a) * b.x
      && a.r2.x * d1 + a.r2.y * d2 + a.r2.z * d3 == Det(a) * b.y
      && a.r3.x * d1 + a.r3.y * d2 + a.r3.z * d3 == Det(a) * b.z
  {
  }

  /** The Cramer solution solves the system. */
  lemma CramerSolves(a: Mat3, b: Vec3)
    requires Det(a) != 0.0
    ensures MatVec(a, CramerSolution(a, b)) == b
  {
    var d := Det(a);
    var d1, d2, d3 := Det(ReplaceColumn(a, 1, b)), Det(ReplaceColumn(a, 2, b)), Det(ReplaceColumn(a, 3, b));
    CramerNumerators(a, b);
    var v := CramerSolution(a, b);
    assert v == Vec3(d1 / d, d2 / d, d3 / d);
    RowOverDet(a.r1, d1, d2, d3, d, b.x);
    RowOverDet(a.r2, d1, d2, d3, d, b.y);
    RowOverDet(a.r3, d1, d2, d3, d, b.z);
  }

  lemma RowOverDet(r: Vec3, d1: real, d2: real, d3: real, d: real, rhs: real)
    requires d != 0.0
    requires r.x * d1 + r.y * d2 + r.z * d3 == d * rhs
    ensures Dot(r, Vec3(d1 / d, d2 / d, d3 / d)) == rhs
  {
    calc {
      Dot(r, Vec3(d1 / d, d2 / d, d3 / d));
      r.x * (d1 / d) + r.y * (d2 / d) + r.z * (d3 / d);
      (r.x * d1 + r.y * d2 + r.z * d3) / d;
      (d * rhs) / d;
      rhs;
    }
  }

  /** Replacing column k by A·v multiplies the determinant by the k-th
      component of v (multilinearity plus alternation). */
  lemma ReplaceByProduct(a: Mat3, v: Vec3)
    ensures Det(ReplaceColumn(a, 1, MatVec(a, v))) == v.x * Det(a)
    ensures Det(ReplaceColumn(a, 2, MatVec(a, v))) == v.y * Det(a)
    ensures Det(ReplaceColumn(a, 3, MatVec(a, v))) == v.z * Det(a)
  {
  }

  /** A non-singular system has exactly one solution: the Cramer one. */
  lemma CramerUnique(a: Mat3, b: Vec3, v: Vec3)
    requires Det(a) != 0.0
    requires MatVec(a, v) == b
    ensures v == Cramer(a, b)
  {
    ReplaceByProduct(a, v);
    var d := Det(a);
    assert Det(ReplaceColumn(a, 1, b)) / d == v.x;
    assert Det(ReplaceColumn(a, 2, b)) / d == v.y;
    assert Det(ReplaceColumn(a, 3, b)) / d == v.z;
  }
}
