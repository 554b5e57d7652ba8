/**
 * 2x2 matrices (src/mat/mat2.rs): two `Vec2d` rows and the determinant.
 *
 * The rest of mat2.rs repeats members of `Vec3d` (`new`, `new_zero`,
 * `+=`, `*=`, `==`); those are modelled once, in module Vector3.
 */
module Matrix2 {
  import Vector2

  datatype Mat2 = Mat2(r0: Vector2.Vec2d, r1: Vector2.Vec2d)

  function Identity(): Mat2 {
    Mat2(Vector2.Vec2d(1.0, 0.0), Vector2.Vec2d(0.0, 1.0))
  }

  /** The same four entries with rows and columns exchanged. */
  function Transposed(m: Mat2): Mat2 {
    Mat2(Vector2.Vec2d(m.r0.x, m.r1.x), Vector2.Vec2d(m.r0.y, m.r1.y))
  }

  /** `determinant`: `rows[0].x * rows[1].y - rows[0].y * rows[1].x`. */
  function Determinant(m: Mat2): real {
    m.r0.x * m.r1.y - m.r0.y * m.r1.x
  }

  /** Exchanging the two rows negates the determinant. */
  lemma SwapRowsNegates(m: Mat2)
    ensures Determinant(Mat2(m.r1, m.r0)) == -Determinant(m)
  {
  }

  /** Two equal rows give determinant 0. */
  lemma EqualRowsVanish(v: Vector2.Vec2d)
    ensures Determinant(Mat2(v, v)) == 0.0
  {
  }

  lemma IdentityDeterminant()
    ensures Determinant(Identity()) == 1.0
  {
  }

  lemma TransposeKeepsDeterminant(m: Mat2)
    ensures Determinant(Transposed(m)) == Determinant(m)
    ensures Transposed(Transposed(m)) == m
  {
  }
}
