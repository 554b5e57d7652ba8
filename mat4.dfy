/**
 * 4x4 matrices (src/mat/mat4.rs): four `Vec4d` rows.
 *
 * The struct declares three rows but `new`, `zero` and `identity` build
 * four; the model has four.
 *
 * DEFECTS kept as written: the loops of `transpose`, `Add`, `Mul<f64>`,
 * `Mul<Vec4d>` and `Mul<Mat4>` run over indices 0, 1, 2 only, so row 3
 * (and for `transpose`, column 3) of every result keeps the zero it was
 * initialised with. `Mat4 * Mat4` multiplies corresponding rows component
 * by component; it is not the matrix product.
 *
 * `determinant` and `minor` do not compile as written: the determinant
 * never returns its sum, `minor` is declared to return a `Mat2` but builds
 * a `Mat3`, and its loops are wrong. The model gives their evident intent:
 * the 3x3 submatrix left after deleting one row and one column, and the
 * Laplace expansion along row 0 over all four columns. The determinant
 * loop is written `for j in 0..3`, three columns like the other loops; the
 * four terms follow its comment `det(M)=a*A+b*B+c*C+d*D`.
 *
 * `orient` takes `&self` yet assigns the rows; the model gives it the
 * evident `&mut self` meaning, a method that updates the rows in place.
 */
module Matrix4 {
  import Vector3
  import Vector4
  import Matrix3

  type Vec4d = Vector4.Vec4d

  datatype Mat4 = Mat4(r0: Vec4d, r1: Vec4d, r2: Vec4d, r3: Vec4d)

  /** `zero`: four zero rows. */
  function Zero(): Mat4 {
    Mat4(Vector4.Zero(), Vector4.Zero(), Vector4.Zero(), Vector4.Zero())
  }

  /** `identity`: 1 on the diagonal, 0 elsewhere. */
  function Identity(): Mat4 {
    Mat4(Vector4.Vec4d(1.0, 0.0, 0.0, 0.0), Vector4.Vec4d(0.0, 1.0, 0.0, 0.0),
         Vector4.Vec4d(0.0, 0.0, 1.0, 0.0), Vector4.Vec4d(0.0, 0.0, 0.0, 1.0))
  }

  /** `rows[i]`; an index past 3 would panic. */
  function Row(m: Mat4, i: int): Vec4d
    requires 0 <= i < 4
  {
    if i == 0 then m.r0 else if i == 1 then m.r1 else if i == 2 then m.r2 else m.r3
  }

  /** `rows[i][j]`. */
  function Entry(m: Mat4, i: int, j: int): real
    requires 0 <= i < 4 && 0 <= j < 4
  {
    Vector4.Index(Row(m, i), j)
  }

  /** `trace`: the sum of the four diagonal entries. */
  function Trace(m: Mat4): (r: real)
    ensures r == Entry(m, 0, 0) + Entry(m, 1, 1) + Entry(m, 2, 2) + Entry(m, 3, 3)
  {
    m.r0.x + m.r1.y + m.r2.z + m.r3.w
  }

  lemma IdentityEntries(i: int, j: int)
    requires 0 <= i < 4 && 0 <= j < 4
    ensures Entry(Identity(), i, j) == if i == j then 1.0 else 0.0
  {
  }

  lemma IdentityTrace()
    ensures Trace(Identity()) == 4.0
  {
  }

  /** The first `n` components of `v`, the rest zero: a row part-way through a fill loop. */
  function Prefix(v: Vec4d, n: int): Vec4d {
    Vector4.Vec4d(if n > 0 then v.x else 0.0, if n > 1 then v.y else 0.0,
                  if n > 2 then v.z else 0.0, if n > 3 then v.w else 0.0)
  }

  /** Writing component `n` of a prefix extends the prefix by one. */
  lemma PrefixStep(v: Vec4d, n: int)
    requires 0 <= n < 4
    ensures Vector4.WithIndex(Prefix(v, n), n, Vector4.Index(v, n)) == Prefix(v, n + 1)
  {
  }

  // ---------------------------------------------------------------- transpose

  /** Row `i` of the result of `transpose`: column `i` of `m` for i < 3, with a 0 in place of row 3. */
  function TransposedRow(m: Mat4, i: int): Vec4d
    requires 0 <= i < 4
  {
    if i < 3 then Vector4.Vec4d(Entry(m, 0, i), Entry(m, 1, i), Entry(m, 2, i), 0.0)
    else Vector4.Zero()
  }

  /** What `transpose` returns. */
  function Transposed(m: Mat4): Mat4 {
    Mat4(TransposedRow(m, 0), TransposedRow(m, 1), TransposedRow(m, 2), TransposedRow(m, 3))
  }

  /** `transpose` sets entry (i, j) to entry (j, i) for i, j < 3; row 3 and column 3 stay 0. */
  lemma TransposedEntries(m: Mat4, i: int, j: int)
    requires 0 <= i < 4 && 0 <= j < 4
    ensures Entry(Transposed(m), i, j) == if i < 3 && j < 3 then Entry(m, j, i) else 0.0
  {
  }

  /**
   * Transposing twice gives `m` back exactly when row 3 and column 3 of `m`
   * are all zero: the loops bounded by 3 lose them.
   */
  lemma TransposeTwiceIff(m: Mat4)
    ensures Transposed(Transposed(m)) == m
            <==> m.r3 == Vector4.Zero() && m.r0.w == 0.0 && m.r1.w == 0.0 && m.r2.w == 0.0
  {
  }

  /** `transpose`: fills a zero matrix with `t[i][j] = m[j][i]` for i, j in 0..3. */
  method Transpose(m: Mat4) returns (t: Mat4)
    ensures t == Transposed(m)
  {
    var rows := new Vec4d[4](_ => Vector4.Zero());
    for i := 0 to 3
      invariant forall k :: 0 <= k < i ==> rows[k] == TransposedRow(m, k)
      invariant forall k :: i <= k < 4 ==> rows[k] == Vector4.Zero()
    {
      for j := 0 to 3
        invariant rows[i] == Prefix(TransposedRow(m, i), j)
        invariant forall k :: 0 <= k < i ==> rows[k] == TransposedRow(m, k)
        invariant forall k :: i < k < 4 ==> rows[k] == Vector4.Zero()
      {
        PrefixStep(TransposedRow(m, i), j);
        rows[i] := Vector4.WithIndex(rows[i], j, Entry(m, j, i));
      }
    }
    t := Mat4(rows[0], rows[1], rows[2], rows[3]);
  }

  // ------------------------------------------------------ row-wise operators

  /** What `a + b` returns: rows 0-2 summed, row 3 zero. */
  function Sum(a: Mat4, b: Mat4): Mat4 {
    Mat4(Vector4.Add(a.r0, b.r0), Vector4.Add(a.r1, b.r1), Vector4.Add(a.r2, b.r2), Vector4.Zero())
  }

  /** What `m * s` returns: rows 0-2 scaled, row 3 zero. */
  function Scaled(m: Mat4, s: real): Mat4 {
    Mat4(Vector4.Scale(m.r0, s), Vector4.Scale(m.r1, s), Vector4.Scale(m.r2, s), Vector4.Zero())
  }

  /** What `a * b` returns: rows 0-2 multiplied component-wise, row 3 zero. */
  function RowProduct(a: Mat4, b: Mat4): Mat4 {
    Mat4(Vector4.Mul(a.r0, b.r0), Vector4.Mul(a.r1, b.r1), Vector4.Mul(a.r2, b.r2), Vector4.Zero())
  }

  /** What `m * v` returns: `out[i] = dot(rows[i], v)` for i < 3 and `out[3] = 0`. */
  function Applied(m: Mat4, v: Vec4d): Vec4d {
    Vector4.Vec4d(Vector4.Dot(m.r0, v), Vector4.Dot(m.r1, v), Vector4.Dot(m.r2, v), 0.0)
  }

  /** `Add<Mat4>`: fills rows 0..3 of a zero matrix with the row sums. */
  method Add(a: Mat4, b: Mat4) returns (r: Mat4)
    ensures r == Sum(a, b)
  {
    var rows := new Vec4d[4](_ => Vector4.Zero());
    for i := 0 to 3
      invariant forall k :: 0 <= k < i ==> rows[k] == Vector4.Add(Row(a, k), Row(b, k))
      invariant forall k :: i <= k < 4 ==> rows[k] == Vector4.Zero()
    {
      rows[i] := Vector4.Add(Row(a, i), Row(b, i));
    }
    r := Mat4(rows[0], rows[1], rows[2], rows[3]);
  }

  /** `Mul<f64>`: fills rows 0..3 of a zero matrix with the scaled rows. */
  method Scale(m: Mat4, s: real) returns (r: Mat4)
    ensures r == Scaled(m, s)
  {
    var rows := new Vec4d[4](_ => Vector4.Zero());
    for i := 0 to 3
      invariant forall k :: 0 <= k < i ==> rows[k] == Vector4.Scale(Row(m, k), s)
      invariant forall k :: i <= k < 4 ==> rows[k] == Vector4.Zero()
    {
      rows[i] := Vector4.Scale(Row(m, i), s);
    }
    r := Mat4(rows[0], rows[1], rows[2], rows[3]);
  }

  /** `Mul<Mat4>`: fills rows 0..3 of a zero matrix with component-wise row products. */
  method Multiply(a: Mat4, b: Mat4) returns (r: Mat4)
    ensures r == RowProduct(a, b)
  {
    var rows := new Vec4d[4](_ => Vector4.Zero());
    for i := 0 to 3
      invariant forall k :: 0 <= k < i ==> rows[k] == Vector4.Mul(Row(a, k), Row(b, k))
      invariant forall k :: i <= k < 4 ==> rows[k] == Vector4.Zero()
    {
      rows[i] := Vector4.Mul(Row(a, i), Row(b, i));
    }
    r := Mat4(rows[0], rows[1], rows[2], rows[3]);
  }

  /** `Mul<Vec4d>`: writes `dot(rows[i], v)` into components 0..3 of a zero vector. */
  method Apply(m: Mat4, v: Vec4d) returns (r: Vec4d)
    ensures r == Applied(m, v)
  {
    r := Vector4.Zero();
    for i := 0 to 3
      invariant r == Prefix(Applied(m, v), i)
    {
      PrefixStep(Applied(m, v), i);
      r := Vector4.WithIndex(r, i, Vector4.Dot(Row(m, i), v));
    }
  }

  /** Adding the zero matrix keeps `m` exactly when row 3 of `m` is already zero. */
  lemma SumWithZeroIff(m: Mat4)
    ensures Sum(m, Zero()) == m <==> m.r3 == Vector4.Zero()
  {
  }

  /** Scaling by 1 keeps `m` exactly when row 3 of `m` is already zero. */
  lemma ScaleByOneIff(m: Mat4)
    ensures Scaled(m, 1.0) == m <==> m.r3 == Vector4.Zero()
  {
  }

  /**
   * `Identity() * m` is not `m`: only the diagonal entries of rows 0-2
   * survive the row-by-row product.
   */
  lemma ProductWithIdentity(m: Mat4)
    ensures RowProduct(Identity(), m)
            == Mat4(Vector4.Vec4d(m.r0.x, 0.0, 0.0, 0.0), Vector4.Vec4d(0.0, m.r1.y, 0.0, 0.0),
                    Vector4.Vec4d(0.0, 0.0, m.r2.z, 0.0), Vector4.Zero())
  {
  }

  /** The identity maps a vector to its first three components and drops the fourth. */
  lemma ApplyIdentity(v: Vec4d)
    ensures Applied(Identity(), v) == Vector4.Vec4d(v.x, v.y, v.z, 0.0)
  {
  }

  /** Each of the first three output components is the dot product of that row with `v`. */
  lemma AppliedComponents(m: Mat4, v: Vec4d, i: int)
    requires 0 <= i < 4
    ensures Vector4.Index(Applied(m, v), i) == if i < 3 then Vector4.Dot(Row(m, i), v) else 0.0
  {
  }

  // ------------------------------------------- minor, cofactor, determinant

  /** The three components of `v` other than component `j`, in order. */
  function DropComponent(v: Vec4d, j: int): Vector3.Vec3d
    requires 0 <= j < 4
  {
    if j == 0 then Vector3.Vec3d(v.y, v.z, v.w)
    else if j == 1 then Vector3.Vec3d(v.x, v.z, v.w)
    else if j == 2 then Vector3.Vec3d(v.x, v.y, v.w)
    else Vector3.Vec3d(v.x, v.y, v.z)
  }

  /** `minor(i, j)` as intended: the 3x3 matrix left after deleting row `i` and column `j`. */
  function Minor(m: Mat4, i: int, j: int): Matrix3.Mat3
    requires 0 <= i < 4 && 0 <= j < 4
  {
    var a := if i == 0 then m.r1 else m.r0;
    var b := if i <= 1 then m.r2 else m.r1;
    var c := if i <= 2 then m.r3 else m.r2;
    Matrix3.Mat3(DropComponent(a, j), DropComponent(b, j), DropComponent(c, j))
  }

  /** Index `k` of a 3-element range with `skip` taken out of 0..3. */
  function Skip(k: int, skip: int): int {
    if k < skip then k else k + 1
  }

  /** Entry (a, b) of a minor is the entry of `m` found by skipping row `i` and column `j`. */
  lemma MinorEntries(m: Mat4, i: int, j: int, a: int, b: int)
    requires 0 <= i < 4 && 0 <= j < 4 && 0 <= a < 3 && 0 <= b < 3
    ensures Matrix3.Entry(Minor(m, i, j), a, b) == Entry(m, Skip(a, i), Skip(b, j))
  {
  }

  /** `(-1)^((i+1)+(j+1))`: +1 when i + j is even, -1 when odd. */
  function Sign(n: int): real {
    if n % 2 == 0 then 1.0 else -1.0
  }

  /** `cofactor(i, j)`: the signed determinant of the minor. */
  function Cofactor(m: Mat4, i: int, j: int): real
    requires 0 <= i < 4 && 0 <= j < 4
  {
    Sign(i + j) * Matrix3.Determinant(Minor(m, i, j))
  }

  /** The cofactor is the minor's determinant, negated exactly when i + j is odd. */
  lemma CofactorSign(m: Mat4, i: int, j: int)
    requires 0 <= i < 4 && 0 <= j < 4
    ensures (i + j) % 2 == 0 ==> Cofactor(m, i, j) == Matrix3.Determinant(Minor(m, i, j))
    ensures (i + j) % 2 == 1 ==> Cofactor(m, i, j) == -Matrix3.Determinant(Minor(m, i, j))
  {
  }

  /** The identity's cofactors are its own entries: 1 on the diagonal, 0 elsewhere. */
  lemma IdentityCofactors(i: int, j: int)
    requires 0 <= i < 4 && 0 <= j < 4
    ensures Cofactor(Identity(), i, j) == if i == j then 1.0 else 0.0
  {
  }

  /** `determinant` as intended (the comment `det(M)=a*A+b*B+c*C+d*D`): expansion along row 0. */
  function Determinant(m: Mat4): real {
    m.r0.x * Cofactor(m, 0, 0) + m.r0.y * Cofactor(m, 0, 1)
    + m.r0.z * Cofactor(m, 0, 2) + m.r0.w * Cofactor(m, 0, 3)
  }

  lemma IdentityDeterminant()
    ensures Determinant(Identity()) == 1.0
  {
    assert Minor(Identity(), 0, 0) == Matrix3.Identity();
    Matrix3.IdentityTraceAndDeterminant();
    assert Cofactor(Identity(), 0, 0) == 1.0;
  }

  /** A matrix whose row 0 is zero has determinant 0. */
  lemma ZeroFirstRowDeterminant(m: Mat4)
    requires m.r0 == Vector4.Zero()
    ensures Determinant(m) == 0.0
  {
  }

  /** The determinant is linear in row 0: scaling row 0 by `s` scales it by `s`. */
  lemma FirstRowLinear(m: Mat4, s: real)
    ensures Determinant(m.(r0 := Vector4.Scale(m.r0, s))) == s * Determinant(m)
  {
    var n := m.(r0 := Vector4.Scale(m.r0, s));
    assert Minor(n, 0, 0) == Minor(m, 0, 0);
    assert Minor(n, 0, 1) == Minor(m, 0, 1);
    assert Minor(n, 0, 2) == Minor(m, 0, 2);
    assert Minor(n, 0, 3) == Minor(m, 0, 3);
  }

  /** Two equal rows among rows 1-3 make every row-0 minor singular, so the determinant is 0. */
  lemma EqualLowerRowsVanish(m: Mat4)
    requires m.r1 == m.r2 || m.r1 == m.r3 || m.r2 == m.r3
    ensures Determinant(m) == 0.0
  {
    forall j | 0 <= j < 4
      ensures Cofactor(m, 0, j) == 0.0
    {
      var d1, d2, d3 := DropComponent(m.r1, j), DropComponent(m.r2, j), DropComponent(m.r3, j);
      assert Minor(m, 0, j) == Matrix3.Mat3(d1, d2, d3);
      Matrix3.EqualRowsVanish(d1, d3);
      Matrix3.EqualRowsVanish(d1, d2);
      Matrix3.EqualRowsVanish(d2, d1);
    }
  }

  // ------------------------------------------------------------------ inverse

  /** Row `i` of the matrix of cofactors. */
  function CofactorRow(m: Mat4, i: int): Vec4d
    requires 0 <= i < 4
  {
    Vector4.Vec4d(Cofactor(m, i, 0), Cofactor(m, i, 1), Cofactor(m, i, 2), Cofactor(m, i, 3))
  }

  /** The matrix `c` with `c[i][j] = cofactor(i, j)` for all i, j < 4. */
  function CofactorMatrix(m: Mat4): Mat4 {
    Mat4(CofactorRow(m, 0), CofactorRow(m, 1), CofactorRow(m, 2), CofactorRow(m, 3))
  }

  /** What `inverse` returns: the (3-bounded) transpose of the cofactor matrix, times 1/det. */
  function InverseOf(m: Mat4): Mat4
    requires Determinant(m) != 0.0
  {
    Scaled(Transposed(CofactorMatrix(m)), 1.0 / Determinant(m))
  }

  /**
   * `inverse`: fills the cofactor matrix with a double loop over 0..4,
   * transposes it, and scales it by `1 / determinant`.
   */
  method Inverse(m: Mat4) returns (r: Mat4)
    requires Determinant(m) != 0.0
    ensures r == InverseOf(m)
  {
    var rows := new Vec4d[4](_ => Vector4.Zero());
    for i := 0 to 4
      invariant forall k :: 0 <= k < i ==> rows[k] == CofactorRow(m, k)
      invariant forall k :: i <= k < 4 ==> rows[k] == Vector4.Zero()
    {
      for j := 0 to 4
        invariant rows[i] == Prefix(CofactorRow(m, i), j)
        invariant forall k :: 0 <= k < i ==> rows[k] == CofactorRow(m, k)
        invariant forall k :: i < k < 4 ==> rows[k] == Vector4.Zero()
      {
        PrefixStep(CofactorRow(m, i), j);
        rows[i] := Vector4.WithIndex(rows[i], j, Cofactor(m, i, j));
      }
    }
    var c := Mat4(rows[0], rows[1], rows[2], rows[3]);
    var adj := Transpose(c);
    var invDet := 1.0 / Determinant(m);
    r := Scale(adj, invDet);
  }

  /** Scaling the (3-bounded) transpose of `c`: entry (i, j) is `c[j][i] * s` for i, j < 3, else 0. */
  lemma ScaledTransposedEntries(c: Mat4, s: real, i: int, j: int)
    requires 0 <= i < 4 && 0 <= j < 4
    ensures Entry(Scaled(Transposed(c), s), i, j) == if i < 3 && j < 3 then Entry(c, j, i) * s else 0.0
  {
    ScaledEntries(Transposed(c), s, i, j);
    TransposedEntries(c, i, j);
  }

  /** `m * s` scales entry (i, j) for i < 3; row 3 is 0. */
  lemma ScaledEntries(m: Mat4, s: real, i: int, j: int)
    requires 0 <= i < 4 && 0 <= j < 4
    ensures Entry(Scaled(m, s), i, j) == if i < 3 then Entry(m, i, j) * s else 0.0
  {
    if i < 3 {
      assert Row(Scaled(m, s), i) == Vector4.Scale(Row(m, i), s);
      Vector4.ScaleIndex(Row(m, i), s, j);
    }
  }

  lemma CofactorMatrixEntries(m: Mat4, i: int, j: int)
    requires 0 <= i < 4 && 0 <= j < 4
    ensures Entry(CofactorMatrix(m), i, j) == Cofactor(m, i, j)
  {
  }

  /**
   * Entry (i, j) of the result of `inverse` is entry (j, i) of the cofactor
   * matrix divided by the determinant for i, j < 3; row 3 and column 3 are 0.
   */
  lemma InverseEntries(m: Mat4, i: int, j: int)
    requires Determinant(m) != 0.0
    requires 0 <= i < 4 && 0 <= j < 4
    ensures Entry(InverseOf(m), i, j)
            == if i < 3 && j < 3 then Entry(CofactorMatrix(m), j, i) * (1.0 / Determinant(m)) else 0.0
  {
    ScaledTransposedEntries(CofactorMatrix(m), 1.0 / Determinant(m), i, j);
  }

  /** The inverse of the identity loses its last diagonal entry: it is diag(1, 1, 1, 0). */
  lemma InverseOfIdentity()
    ensures Determinant(Identity()) == 1.0
    ensures InverseOf(Identity())
            == Mat4(Vector4.Vec4d(1.0, 0.0, 0.0, 0.0), Vector4.Vec4d(0.0, 1.0, 0.0, 0.0),
                    Vector4.Vec4d(0.0, 0.0, 1.0, 0.0), Vector4.Zero())
  {
    IdentityDeterminant();
    IdentityCofactorMatrix();
    InverseOfUnitCofactors(Identity());
  }

  /** A matrix with determinant 1 whose cofactor matrix is the identity has `inverse` diag(1, 1, 1, 0). */
  lemma InverseOfUnitCofactors(m: Mat4)
    requires Determinant(m) == 1.0 && CofactorMatrix(m) == Identity()
    ensures InverseOf(m)
            == Mat4(Vector4.Vec4d(1.0, 0.0, 0.0, 0.0), Vector4.Vec4d(0.0, 1.0, 0.0, 0.0),
                    Vector4.Vec4d(0.0, 0.0, 1.0, 0.0), Vector4.Zero())
  {
    InverseFrom(m, Identity(), 1.0);
    assert Transposed(Identity())
        == Mat4(Vector4.Vec4d(1.0, 0.0, 0.0, 0.0), Vector4.Vec4d(0.0, 1.0, 0.0, 0.0),
                Vector4.Vec4d(0.0, 0.0, 1.0, 0.0), Vector4.Zero());
  }

  /** The identity is its own cofactor matrix. */
  lemma IdentityCofactorMatrix()
    ensures CofactorMatrix(Identity()) == Identity()
  {
    IdentityCofactorRow0();
    IdentityCofactorRow1();
    IdentityCofactorRow2();
    IdentityCofactorRow3();
  }

  lemma IdentityCofactorRow0() ensures CofactorRow(Identity(), 0) == Identity().r0 {}
  lemma IdentityCofactorRow1() ensures CofactorRow(Identity(), 1) == Identity().r1 {}
  lemma IdentityCofactorRow2() ensures CofactorRow(Identity(), 2) == Identity().r2 {}
  lemma IdentityCofactorRow3() ensures CofactorRow(Identity(), 3) == Identity().r3 {}

  /** `inverse` in terms of a known cofactor matrix `c` and determinant `d`. */
  lemma InverseFrom(m: Mat4, c: Mat4, d: real)
    requires CofactorMatrix(m) == c && Determinant(m) == d && d != 0.0
    ensures InverseOf(m) == Scaled(Transposed(c), 1.0 / d)
  {
  }

  // ------------------------------------------------------------------- orient

  /**
   * The matrix `orient(pos, fwd, up)` leaves: columns 0-3 of rows 0-2 are
   * `fwd`, `left = up x fwd`, `up` and `pos`; the bottom row is (0, 0, 0, 1).
   */
  function Oriented(pos: Vector3.Vec3d, fwd: Vector3.Vec3d, up: Vector3.Vec3d): Mat4 {
    var left := Vector3.Cross(up, fwd);
    Mat4(Vector4.Vec4d(fwd.x, left.x, up.x, pos.x),
         Vector4.Vec4d(fwd.y, left.y, up.y, pos.y),
         Vector4.Vec4d(fwd.z, left.z, up.z, pos.z),
         Vector4.Vec4d(0.0, 0.0, 0.0, 1.0))
  }

  /**
   * The oriented matrix sends the x axis to `fwd`, the y axis to `up x fwd`,
   * the z axis to `up` and the origin (w = 1) to `pos`.
   */
  lemma OrientedAxes(pos: Vector3.Vec3d, fwd: Vector3.Vec3d, up: Vector3.Vec3d)
    ensures var o := Oriented(pos, fwd, up);
      var left := Vector3.Cross(up, fwd);
      Applied(o, Vector4.Vec4d(1.0, 0.0, 0.0, 0.0)) == Vector4.Vec4d(fwd.x, fwd.y, fwd.z, 0.0) &&
      Applied(o, Vector4.Vec4d(0.0, 1.0, 0.0, 0.0)) == Vector4.Vec4d(left.x, left.y, left.z, 0.0) &&
      Applied(o, Vector4.Vec4d(0.0, 0.0, 1.0, 0.0)) == Vector4.Vec4d(up.x, up.y, up.z, 0.0) &&
      Applied(o, Vector4.Vec4d(0.0, 0.0, 0.0, 1.0)) == Vector4.Vec4d(pos.x, pos.y, pos.z, 0.0) &&
      o.r3 == Vector4.Vec4d(0.0, 0.0, 0.0, 1.0)
  {
  }

  /** A `Mat4` held in a mutable place: the receiver of `orient`. */
  class MutableMat4 {
    const rows: array<Vec4d>

    ghost predicate Valid()
      reads this
    {
      rows.Length == 4
    }

    function Value(): Mat4
      reads this, rows
      requires Valid()
    {
      Mat4(rows[0], rows[1], rows[2], rows[3])
    }

    constructor (m: Mat4)
      ensures Valid() && fresh(rows) && Value() == m
    {
      rows := new Vec4d[4][m.r0, m.r1, m.r2, m.r3];
    }

    /** `orient`: overwrites all four rows; the old value does not matter. */
    method Orient(pos: Vector3.Vec3d, fwd: Vector3.Vec3d, up: Vector3.Vec3d)
      requires Valid()
      modifies rows
      ensures Value() == Oriented(pos, fwd, up)
    {
      var left := Vector3.Cross(up, fwd);
      rows[0] := Vector4.Vec4d(fwd.x, left.x, up.x, pos.x);
      rows[1] := Vector4.Vec4d(fwd.y, left.y, up.y, pos.y);
      rows[2] := Vector4.Vec4d(fwd.z, left.z, up.z, pos.z);
      rows[3] := Vector4.Vec4d(0.0, 0.0, 0.0, 1.0);
    }
  }
}
