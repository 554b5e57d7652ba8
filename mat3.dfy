/**
 * 3x3 matrices (src/mat/mat3.rs): three `Vec3d` rows, `identity`, `trace`,
 * `determinant` and the compound assignments.
 *
 * DEFECT kept as written: every compound assignment (`+=`, `*=`, with a
 * scalar or a matrix) updates rows 0 and 1 only; row 2 is never touched
 * (src/mat/mat3.rs:78-116).
 */
module Matrix3 {
  import Vector3
  import Matrix2

  datatype Mat3 = Mat3(r0: Vector3.Vec3d, r1: Vector3.Vec3d, r2: Vector3.Vec3d)

  function Zero(): Mat3 {
    Mat3(Vector3.Zero(), Vector3.Zero(), Vector3.Zero())
  }

  /** `identity`: the rows (1,0,0), (0,1,0), (0,0,1). */
  function Identity(): Mat3 {
    Mat3(Vector3.Vec3d(1.0, 0.0, 0.0), Vector3.Vec3d(0.0, 1.0, 0.0), Vector3.Vec3d(0.0, 0.0, 1.0))
  }

  /** `rows[i]`; an index past 2 would panic. */
  function Row(m: Mat3, i: int): Vector3.Vec3d
    requires 0 <= i < 3
  {
    if i == 0 then m.r0 else if i == 1 then m.r1 else m.r2
  }

  /** `rows[i][j]`. */
  function Entry(m: Mat3, i: int, j: int): real
    requires 0 <= i < 3 && 0 <= j < 3
  {
    Vector3.Index(Row(m, i), j)
  }

  /** The same nine entries with rows and columns exchanged. */
  function Transposed(m: Mat3): Mat3 {
    Mat3(Vector3.Vec3d(m.r0.x, m.r1.x, m.r2.x),
         Vector3.Vec3d(m.r0.y, m.r1.y, m.r2.y),
         Vector3.Vec3d(m.r0.z, m.r1.z, m.r2.z))
  }

  /** The 2x2 matrix left when row 0 and column `j` are deleted. */
  function FirstRowMinor(m: Mat3, j: int): Matrix2.Mat2
    requires 0 <= j < 3
  {
    var a := if j == 0 then m.r1.y else m.r1.x;
    var b := if j == 2 then m.r1.y else m.r1.z;
    var c := if j == 0 then m.r2.y else m.r2.x;
    var d := if j == 2 then m.r2.y else m.r2.z;
    Matrix2.Mat2(Vector2Of(a, b), Vector2Of(c, d))
  }

  function Vector2Of(a: real, b: real): Matrix2.Vector2.Vec2d {
    Matrix2.Vector2.Vec2d(a, b)
  }

  /** `trace`: the sum of the three diagonal entries. */
  function Trace(m: Mat3): (r: real)
    ensures r == Entry(m, 0, 0) + Entry(m, 1, 1) + Entry(m, 2, 2)
  {
    m.r0.x + m.r1.y + m.r2.z
  }

  /** `determinant`: `i - j + k` over the products of row 0 with the 2x2 minors. */
  function Determinant(m: Mat3): real {
    var i := m.r0.x * (m.r1.y * m.r2.z - m.r1.z * m.r2.y);
    var j := m.r0.y * (m.r1.x * m.r2.z - m.r1.z * m.r2.x);
    var k := m.r0.z * (m.r1.x * m.r2.y - m.r1.y * m.r2.x);
    i - j + k
  }

  /** The determinant is the cofactor expansion along row 0 with signs +, -, +. */
  lemma DeterminantExpansion(m: Mat3)
    ensures Determinant(m) == Entry(m, 0, 0) * Matrix2.Determinant(FirstRowMinor(m, 0))
                            - Entry(m, 0, 1) * Matrix2.Determinant(FirstRowMinor(m, 1))
                            + Entry(m, 0, 2) * Matrix2.Determinant(FirstRowMinor(m, 2))
  {
  }

  lemma IdentityTraceAndDeterminant()
    ensures Trace(Identity()) == 3.0
    ensures Determinant(Identity()) == 1.0
  {
  }

  /** Transposing the entries leaves the determinant unchanged. */
  lemma TransposeKeepsDeterminant(m: Mat3)
    ensures Determinant(Transposed(m)) == Determinant(m)
  {
  }

  /** Two equal rows give determinant 0, whichever two they are. */
  lemma EqualRowsVanish(u: Vector3.Vec3d, v: Vector3.Vec3d)
    ensures Determinant(Mat3(u, u, v)) == 0.0
    ensures Determinant(Mat3(u, v, u)) == 0.0
    ensures Determinant(Mat3(v, u, u)) == 0.0
  {
  }

  /** The matrix `m += other` leaves: rows 0 and 1 summed, row 2 kept. */
  function AddedInPlace(m: Mat3, other: Mat3): Mat3 {
    Mat3(Vector3.Add(m.r0, other.r0), Vector3.Add(m.r1, other.r1), m.r2)
  }

  /**
   * The matrix `m += s` leaves. Vec3d has no `+= f64`; the scalar is read as
   * added to each component of rows 0 and 1. Row 2 is kept.
   */
  function ScalarAddedInPlace(m: Mat3, s: real): Mat3 {
    var d := Vector3.Vec3d(s, s, s);
    Mat3(Vector3.Add(m.r0, d), Vector3.Add(m.r1, d), m.r2)
  }

  /** The matrix `m *= s` leaves: rows 0 and 1 scaled by `s`, row 2 kept. */
  function ScaledInPlace(m: Mat3, s: real): Mat3 {
    Mat3(Vector3.Scale(m.r0, s), Vector3.Scale(m.r1, s), m.r2)
  }

  /** The matrix `m *= other` leaves: rows 0 and 1 multiplied component-wise, row 2 kept. */
  function MultipliedInPlace(m: Mat3, other: Mat3): Mat3 {
    Mat3(Vector3.Mul(m.r0, other.r0), Vector3.Mul(m.r1, other.r1), m.r2)
  }

  /**
   * `+=` with a matrix is not the matrix sum: row 2 of `m + other` differs
   * from the in-place result unless `other`'s row 2 is zero.
   */
  lemma AddAssignSkipsLastRow(m: Mat3, other: Mat3)
    ensures AddedInPlace(m, other) == Mat3(Vector3.Add(m.r0, other.r0), Vector3.Add(m.r1, other.r1), Vector3.Add(m.r2, other.r2))
            <==> other.r2 == Vector3.Zero()
  {
  }

  /**
   * The row-0 expansion with rows 0 and 1 scaled by `s` is `s * s` times the
   * expansion, stated over the nine entries.
   */
  lemma ScaledExpansion(d: real, d': real, s: real,
                        ax: real, ay: real, az: real, bx: real, yb: real, bz: real, cx: real, cy: real, cz: real)
    requires d == ax * (yb * cz - bz * cy) - ay * (bx * cz - bz * cx) + az * (bx * cy - yb * cx)
    requires d' == (ax * s) * ((yb * s) * cz - (bz * s) * cy)
                 - (ay * s) * ((bx * s) * cz - (bz * s) * cx)
                 + (az * s) * ((bx * s) * cy - (yb * s) * cx)
    ensures d' == s * s * d
  {
  }

  /** `*=` with a scalar scales the determinant by `s * s`, not by `s * s * s`. */
  lemma ScaleAssignDeterminant(m: Mat3, s: real)
    ensures Determinant(ScaledInPlace(m, s)) == s * s * Determinant(m)
  {
    ScaledExpansion(Determinant(m), Determinant(ScaledInPlace(m, s)), s,
      m.r0.x, m.r0.y, m.r0.z, m.r1.x, m.r1.y, m.r1.z, m.r2.x, m.r2.y, m.r2.z);
  }

  /** A `Mat3` held in a mutable place: the receiver of the compound assignments. */
  class MutableMat3 {
    const rows: array<Vector3.Vec3d>

    ghost predicate Valid()
      reads this
    {
      rows.Length == 3
    }

    function Value(): Mat3
      reads this, rows
      requires Valid()
    {
      Mat3(rows[0], rows[1], rows[2])
    }

    constructor (m: Mat3)
      ensures Valid() && fresh(rows) && Value() == m
    {
      rows := new Vector3.Vec3d[3][m.r0, m.r1, m.r2];
    }

    /** `+= scalar` (AddAssign<f64>). */
    method AddAssignScalar(s: real)
      requires Valid()
      modifies rows
      ensures Value() == ScalarAddedInPlace(old(Value()), s)
    {
      var d := Vector3.Vec3d(s, s, s);
      rows[0] := Vector3.Add(rows[0], d);
      rows[1] := Vector3.Add(rows[1], d);
    }

    /** `+= other` (AddAssign<Mat3>). */
    method AddAssign(other: Mat3)
      requires Valid()
      modifies rows
      ensures Value() == AddedInPlace(old(Value()), other)
    {
      rows[0] := Vector3.Add(rows[0], other.r0);
      rows[1] := Vector3.Add(rows[1], other.r1);
    }

    /** `*= scalar` (MulAssign<f64>). */
    method MulAssignScalar(s: real)
      requires Valid()
      modifies rows
      ensures Value() == ScaledInPlace(old(Value()), s)
    {
      rows[0] := Vector3.Scale(rows[0], s);
      rows[1] := Vector3.Scale(rows[1], s);
    }

    /** `*= other` (MulAssign<Mat3>). */
    method MulAssign(other: Mat3)
      requires Valid()
      modifies rows
      ensures Value() == MultipliedInPlace(old(Value()), other)
    {
      rows[0] := Vector3.Mul(rows[0], other.r0);
      rows[1] := Vector3.Mul(rows[1], other.r1);
    }
  }
}
