# Rigid-body maths kernel, modelled in Dafny

This project models the maths kernel of a small Rust rigid-body physics
engine:

- the vector types `Vec2d`, `Vec3d` and `Vec4d`;
- the 2x2, 3x3 and 4x4 matrices;
- the quaternion `Quat`;
- the collision shape `ShapeT`;
- the rigid `Body`;
- the `Scene` that steps every body under gravity.

One Dafny module per source file: `Vector2`, `Vector3`, `Vector4`,
`Matrix2`, `Matrix3`, `Matrix4`, `Quaternion`, `Shapes`, `Bodies`, `Scenes`.

How the source becomes Dafny:

- **Values.** Each value type is a `datatype`. Each pure operator is a
  `function`.
- **In-place operators.** Every operator that updates its receiver in place
  (`+=`, `*=`, `q[i] = v`, `orient`, `apply_impulse_linear`) is a method of
  a small class that holds the receiver's fields. The 3x3 and 4x4 matrices
  keep their rows in an `array`.
- **Loops.** The loops of `mat4.rs` are methods with loop invariants, proved
  against the function that describes their result.
- **Numbers.** `f64` is read as the exact `real`. Rounding, infinities and
  NaN are not modelled. Every division carries a nonzero-divisor
  precondition.
- **Magnitudes.** `get_magnitude` is a square root and is never computed.
  Where the source uses it, the model takes the magnitude `mag` as a
  parameter, characterised by `IsMagnitude` (`mag >= 0` and
  `mag * mag == MagnitudeSquared`).
- **PI** is the decimal value of the double closest to pi.

**Defects kept as written.** The model reproduces what the code does, each
defect is flagged in a comment, and a lemma shows its effect:

- `Vec3d - Vec3d` computes z as `self.y - other.z`.
  - `Vector3.AddThenSubRestoresIff` shows adding then subtracting `b`
    restores `a` only when `a.y + b.y == a.z + b.z`.
  - `Vector3.SubSelfNotZero` shows `v - v` need not be zero.
- `Quat::normalize` takes the new `w` from `x`. `Quaternion.NormalizeUnitIff`
  shows the result has unit length exactly when `w*w == x*x`.
- `Quat * Quat` is not the Hamilton product.
  - `Quaternion.ZeroTimesZero` shows `zero() * zero()` is all zeros.
  - Rotating by `zero()` still leaves points in place (`Quaternion.RotateByZero`).
- The `mat4.rs` loops stop at index 3, so row 3 (and for `transpose`,
  column 3) of each result stays 0.
  - See `Matrix4.SumWithZeroIff`, `Matrix4.ScaleByOneIff` and
    `Matrix4.TransposeTwiceIff`.
  - `Matrix4.InverseOfIdentity` shows the inverse of the identity is
    diag(1, 1, 1, 0).
- `Mat4 * Mat4` multiplies corresponding rows component-wise
  (`Matrix4.ProductWithIdentity`).
- The `mat3.rs` compound assignments update rows 0 and 1 only.
  - `Matrix3.AddAssignSkipsLastRow` shows the effect on `+=`.
  - `Matrix3.ScaleAssignDeterminant` shows `*= s` scales the determinant by
    `s*s`.
- `body_space_to_world_space` is not the inverse of
  `world_space_to_body_space`. `Bodies.SpaceRoundTripFails` gives a concrete
  point. For every body without rotation, `Bodies.UnrotatedRoundTrip` gives
  the point the round trip reaches, and `Bodies.RoundTripArithmetic` shows it
  equals the start only on one line of points.
- The scene's `update` applies gravity twice.
  - A movable body always ends a step at velocity (0, 0, -2·GRAVITY·dt)
    (`Scenes.MovableVelocity`).
  - An immovable body (inverse mass 0) still accelerates
    (`Scenes.ImmovableVelocity`), so the ground falls
    (`Scenes.InitialSceneAfterOneSecond`).

**Readings of code that does not compile as written.**

- `Scene` exists only as commented-out code (`src/physics/scene.rs`). It is
  modelled as a class whose list of bodies `update` changes in place, body
  by body.
  - `for &mut body in &mut self.bodies` would update copies. The in-place
    reading is the evident intent.
  - `init` leaves the velocity and colour of the two bodies unset; the model
    uses zero and `White`.
- `Mat4` declares three rows but `new`, `zero` and `identity` build four; the
  model has four.
- `Mat4::determinant` never returns its sum, and `Mat4::minor` is declared to
  return a `Mat2` but builds a `Mat3` with broken loops. The model gives their
  evident meaning:
  - the minor is the 3x3 matrix left after deleting one row and one column;
  - the determinant is the Laplace expansion along row 0 over all four
    columns, as the comment `det(M)=a⋅A+b⋅B+c⋅C+d⋅D` says. The loop itself
    is written `for j in 0..3`, which would cover three columns like every
    other loop of the file; the four-term reading rests on that comment.
- `Mat4::orient` takes `&self` yet assigns the rows. The model reads it as
  `&mut self`: `Matrix4.MutableMat4.Orient` updates the rows in place.
- `Mat3 += f64` adds the scalar to every component of rows 0 and 1.
- `mat2.rs` and `mat3.rs` repeat `Vec3d` members (`new_zero` with three
  arguments, `+`, `+=`, `*`, `*=`, `==`). Those are modelled once, in `Vector3`.
- `Vec3d::zero`, `Vec4d::zero`, scalar multiply (`Scale`), `cross` and
  `Vec4d` index assignment are used by the source but not defined in it. The
  model defines them in the obvious way.

## Model

| member | source | states |
|---|---|---|
| Vector2.Add | src/vec/vec2d.rs:25-34 | subtracting `b` from `a + b` gives back `a` |
| Vector2.Sub | src/vec/vec2d.rs:61-70 | `a - b` is the zero vector exactly when `a == b` |
| Vector2.Div | src/vec/vec2d.rs:79-88 | for nonzero `s`, each component of `a / s` times `s` is the component of `a` |
| Vector2.Normalize | src/vec/vec2d.rs:16-22 | with a positive magnitude, scaling the result back by `mag` gives the input |
| Vector2.Eq | src/vec/vec2d.rs:98-102 | `==` holds exactly when the two vectors are equal |
| Vector2.Mul | src/vec/vec2d.rs:43-52 | no contract of its own: the component-wise product; `MulCommutes` states its laws |
| Vector2.MulCommutes | src/vec/vec2d.rs:43-52 | the component-wise product is commutative and (1, 1) is its unit |
| Vector2.EqIsEquivalence | src/vec/vec2d.rs:98-102 | `==` is reflexive, symmetric and transitive |
| Vector2.NormalizeIsUnit | src/vec/vec2d.rs:16-22 | a normalized vector has squared magnitude exactly 1 |
| Vector2.NormalizeIdempotent | src/vec/vec2d.rs:16-22 | normalizing a normalized vector changes nothing |
| Vector2.MutableVec2d.constructor | src/vec/vec2d.rs:8-10 | the new place holds the given vector |
| Vector2.MutableVec2d.AddAssign | src/vec/vec2d.rs:36-41 | `+=` leaves the place holding `old + other` |
| Vector2.MutableVec2d.MulAssign | src/vec/vec2d.rs:54-59 | `*=` leaves the place holding `old * other` |
| Vector2.MutableVec2d.SubAssign | src/vec/vec2d.rs:72-77 | `-=` leaves the place holding `old - other` |
| Vector2.MutableVec2d.DivAssign | src/vec/vec2d.rs:90-95 | `/=` leaves the place holding `old / s` |
| Vector3.Add | src/vec/vec3d.rs:37-47 | no contract of its own: the component-wise sum; `AddAndMulCommute` and `AddThenSubRestoresIff` state its laws |
| Vector3.Sub | src/vec/vec3d.rs:77-87 | no contract of its own: x and y subtract, z is `a.y - b.z` as written; `AddThenSubRestoresIff` and `SubSelfNotZero` state the effect |
| Vector3.Mul | src/vec/vec3d.rs:57-67 | no contract of its own: the component-wise product; `AddAndMulCommute` states that it commutes |
| Vector3.Scale | src/physics/body.rs:90 | no contract of its own: `v * s` on every component, used by the source but not defined in it; `DivUndoesScale` relates it to `/` |
| Vector3.Cross | src/mat/mat4.rs:107 | no contract of its own: the cross product, used by the source but not defined in it; `CrossAntiCommutes` states its laws |
| Vector3.Index | src/mat/mat3.rs:22-26 | no contract of its own: `v[0..2]` as used by `rows[i][j]`; `IndexDetermines` states that the indices read the whole vector |
| Vector3.NewZero | src/vec/vec3d.rs:13-15 | `new_zero` ignores its arguments and yields (0, 0, 0) |
| Vector3.Div | src/vec/vec3d.rs:97-107 | for nonzero `s`, scaling `a / s` back by `s` gives `a` |
| Vector3.Normalize | src/vec/vec3d.rs:24-34 | with a positive magnitude, scaling the result back by `mag` gives the input |
| Vector3.Eq | src/vec/vec3d.rs:118-124 | `==` holds exactly when the two vectors are equal |
| Vector3.AddThenSubRestoresIff | src/vec/vec3d.rs:77-87 | `(a + b) - b == a` exactly when `a.y + b.y == a.z + b.z`, because of the z defect |
| Vector3.SubSelfNotZero | src/vec/vec3d.rs:84 | `(0, 1, 0) - (0, 1, 0)` is `(0, 0, 1)`, not zero |
| Vector3.IndexDetermines | src/mat/mat3.rs:22-26 | two vectors are equal exactly when they agree at indices 0, 1 and 2 |
| Vector3.AddAndMulCommute | src/vec/vec3d.rs:37-67 | `+` and the component-wise `*` commute, and the zero vector is the unit of `+` |
| Vector3.DivUndoesScale | src/vec/vec3d.rs:97-107 | dividing by a nonzero `s` undoes scaling by `s` |
| Vector3.CrossAntiCommutes | src/mat/mat4.rs:107 | `a × b == -(b × a)` and `a × a == 0` |
| Vector3.EqIsEquivalence | src/vec/vec3d.rs:118-124 | `==` is reflexive, symmetric and transitive |
| Vector3.NormalizeIsUnit | src/vec/vec3d.rs:24-34 | a normalized vector has squared magnitude exactly 1 |
| Vector3.NormalizeIdempotent | src/vec/vec3d.rs:24-34 | normalizing a normalized vector changes nothing |
| Vector3.MutableVec3d.constructor | src/vec/vec3d.rs:9-11 | the new place holds the given vector |
| Vector3.MutableVec3d.AddAssign | src/vec/vec3d.rs:49-55 | `+=` leaves the place holding `old + other` |
| Vector3.MutableVec3d.MulAssign | src/vec/vec3d.rs:69-75 | `*=` leaves the place holding `old * other` |
| Vector3.MutableVec3d.SubAssign | src/vec/vec3d.rs:89-95 | `-=` subtracts every component, and agrees with the literal `Sub` exactly when the old y equals the old z |
| Vector3.MutableVec3d.DivAssign | src/vec/vec3d.rs:109-115 | `/=` leaves the place holding `old / s` |
| Vector4.NewZero | src/vec/vec4d.rs:14-16 | `new_zero` ignores its arguments and yields the zero vector |
| Vector4.Add | src/vec/vec4d.rs:61-72 | subtracting `b` from `a + b` gives back `a` |
| Vector4.Sub | src/vec/vec4d.rs:105-116 | `a - b` is the zero vector exactly when `a == b` |
| Vector4.Div | src/vec/vec4d.rs:127-138 | for nonzero `s`, scaling `a / s` back by `s` gives `a` |
| Vector4.Normalize | src/vec/vec4d.rs:26-47 | magnitude 0 gives the input back; a positive magnitude gives a vector that scales back to the input |
| Vector4.WithIndex | src/mat/mat4.rs:64 | writing component `idx` sets that component and keeps the other three |
| Vector4.Eq | src/vec/vec4d.rs:150-157 | `==` holds exactly when the two vectors are equal |
| Vector4.Mul | src/vec/vec4d.rs:83-94 | no contract of its own: the component-wise product; `MulCommutes` states its laws |
| Vector4.Scale | src/mat/mat4.rs:156 | no contract of its own: `v * s` on every component, used by the source but not defined in it; `ScaleIndex` and `Div` state its meaning |
| Vector4.Dot | src/vec/vec4d.rs:49-58 | no contract of its own: the sum of the four products; `DotSymmetric` states its laws |
| Vector4.Index | src/vec/vec4d.rs:160-172 | no contract of its own: 0..3 select x, y, z, w; `IndexDetermines` and `WithIndex` state its meaning |
| Vector4.IndexDetermines | src/vec/vec4d.rs:160-172 | two vectors that agree at indices 0..3 are equal |
| Vector4.DotSymmetric | src/vec/vec4d.rs:49-58 | `dot` is symmetric and is 0 against the zero vector |
| Vector4.MulCommutes | src/vec/vec4d.rs:83-94 | the component-wise product is commutative and (1, 1, 1, 1) is its unit |
| Vector4.ScaleIndex | src/mat/mat4.rs:156 | scaling a vector scales each indexed component |
| Vector4.EqIsEquivalence | src/vec/vec4d.rs:150-157 | `==` is reflexive, symmetric and transitive |
| Vector4.NormalizeZeroVector | src/vec/vec4d.rs:41-46 | `normalize` hands the zero vector back unchanged |
| Vector4.NormalizeIsUnit | src/vec/vec4d.rs:32-39 | a normalized nonzero vector has squared magnitude exactly 1 |
| Vector4.NormalizeIdempotent | src/vec/vec4d.rs:26-47 | normalizing twice gives the same as normalizing once, the zero vector included |
| Vector4.MutableVec4d.constructor | src/vec/vec4d.rs:10-12 | the new place holds the given vector |
| Vector4.MutableVec4d.AddAssign | src/vec/vec4d.rs:74-81 | `+=` leaves the place holding `old + other` |
| Vector4.MutableVec4d.MulAssign | src/vec/vec4d.rs:96-103 | `*=` leaves the place holding `old * other` |
| Vector4.MutableVec4d.SubAssign | src/vec/vec4d.rs:118-125 | `-=` leaves the place holding `old - other` |
| Vector4.MutableVec4d.DivAssign | src/vec/vec4d.rs:140-147 | `/=` leaves the place holding `old / s` |
| Matrix2.Determinant | src/mat/mat2.rs:15-18 | no contract of its own: `r0.x*r1.y - r0.y*r1.x`; `SwapRowsNegates`, `EqualRowsVanish`, `IdentityDeterminant` and `TransposeKeepsDeterminant` state its laws |
| Matrix2.SwapRowsNegates | src/mat/mat2.rs:15-18 | exchanging the two rows negates the determinant |
| Matrix2.EqualRowsVanish | src/mat/mat2.rs:15-18 | two equal rows give determinant 0 |
| Matrix2.IdentityDeterminant | src/mat/mat2.rs:15-18 | the identity has determinant 1 |
| Matrix2.TransposeKeepsDeterminant | src/mat/mat2.rs:15-18 | transposing keeps the determinant, and transposing twice gives the matrix back |
| Matrix3.Determinant | src/mat/mat3.rs:28-39 | no contract of its own: the three signed products of row 0 with 2x2 determinants; `DeterminantExpansion`, `TransposeKeepsDeterminant` and `EqualRowsVanish` state its laws |
| Matrix3.FirstRowMinor | src/mat/mat3.rs:28-39 | no contract of its own: the 2x2 matrix of rows 1-2 without column j; `DeterminantExpansion` states its role |
| Matrix3.ScalarAddedInPlace | src/mat/mat3.rs:78-83 | no contract of its own: what `+= s` leaves; `MutableMat3.AddAssignScalar` is proved to produce it |
| Matrix3.AddedInPlace | src/mat/mat3.rs:85-90 | no contract of its own: what `+= other` leaves; `AddAssignSkipsLastRow` and `MutableMat3.AddAssign` state its meaning |
| Matrix3.ScaledInPlace | src/mat/mat3.rs:104-109 | no contract of its own: what `*= s` leaves; `ScaleAssignDeterminant` and `MutableMat3.MulAssignScalar` state its meaning |
| Matrix3.MultipliedInPlace | src/mat/mat3.rs:111-116 | no contract of its own: what `*= other` leaves; `MutableMat3.MulAssign` is proved to produce it |
| Matrix3.Trace | src/mat/mat3.rs:22-26 | the trace is the sum of the three diagonal entries `rows[i][i]` |
| Matrix3.DeterminantExpansion | src/mat/mat3.rs:28-39 | the determinant is the expansion along row 0 with signs +, -, + over the 2x2 minors |
| Matrix3.IdentityTraceAndDeterminant | src/mat/mat3.rs:15-39 | the identity has trace 3 and determinant 1 |
| Matrix3.TransposeKeepsDeterminant | src/mat/mat3.rs:28-39 | transposing the entries keeps the determinant |
| Matrix3.EqualRowsVanish | src/mat/mat3.rs:28-39 | any two equal rows give determinant 0 |
| Matrix3.AddAssignSkipsLastRow | src/mat/mat3.rs:85-90 | `+=` equals the full row-wise sum exactly when the other matrix's row 2 is zero |
| Matrix3.ScaleAssignDeterminant | src/mat/mat3.rs:104-109 | `*= s` multiplies the determinant by `s*s`, because row 2 is not scaled |
| Matrix3.MutableMat3.constructor | src/mat/mat3.rs:7-9 | the new place holds the given rows in a fresh array |
| Matrix3.MutableMat3.AddAssignScalar | src/mat/mat3.rs:78-83 | `+= s` adds `s` to every component of rows 0 and 1; row 2 is unchanged |
| Matrix3.MutableMat3.AddAssign | src/mat/mat3.rs:85-90 | `+= other` adds rows 0 and 1 of `other`; row 2 is unchanged |
| Matrix3.MutableMat3.MulAssignScalar | src/mat/mat3.rs:104-109 | `*= s` scales rows 0 and 1; row 2 is unchanged |
| Matrix3.MutableMat3.MulAssign | src/mat/mat3.rs:111-116 | `*= other` multiplies rows 0 and 1 component-wise; row 2 is unchanged |
| Matrix4.Trace | src/mat/mat4.rs:27-32 | the trace is the sum of the four diagonal entries `rows[i][i]` |
| Matrix4.IdentityEntries | src/mat/mat4.rs:18-25 | `identity` has 1 on the diagonal and 0 elsewhere |
| Matrix4.IdentityTrace | src/mat/mat4.rs:18-32 | the identity has trace 4 |
| Matrix4.Transposed | src/mat/mat4.rs:47-55 | no contract of its own: what `transpose` returns; `TransposedEntries`, `TransposeTwiceIff` and the `Transpose` loop state its meaning |
| Matrix4.TransposedEntries | src/mat/mat4.rs:47-55 | entry (i, j) of `transpose` is entry (j, i) for i, j < 3, and 0 in row 3 and column 3 |
| Matrix4.TransposeTwiceIff | src/mat/mat4.rs:47-55 | transposing twice gives `m` back exactly when row 3 and column 3 of `m` are zero |
| Matrix4.Transpose | src/mat/mat4.rs:47-55 | the double loop over 0..3 returns the transposed matrix with row and column 3 zero |
| Matrix4.Sum | src/mat/mat4.rs:138-148 | no contract of its own: what `a + b` returns; the `Add` loop and `SumWithZeroIff` state its meaning |
| Matrix4.Scaled | src/mat/mat4.rs:150-160 | no contract of its own: what `m * s` returns; the `Scale` loop, `ScaledEntries` and `ScaleByOneIff` state its meaning |
| Matrix4.RowProduct | src/mat/mat4.rs:176-186 | no contract of its own: what `a * b` returns; the `Multiply` loop and `ProductWithIdentity` state its meaning |
| Matrix4.Applied | src/mat/mat4.rs:162-174 | no contract of its own: what `m * v` returns; the `Apply` loop, `AppliedComponents` and `ApplyIdentity` state its meaning |
| Matrix4.Add | src/mat/mat4.rs:138-148 | the loop over 0..3 returns rows 0-2 summed and row 3 zero |
| Matrix4.Scale | src/mat/mat4.rs:150-160 | the loop over 0..3 returns rows 0-2 scaled and row 3 zero |
| Matrix4.Multiply | src/mat/mat4.rs:176-186 | the loop over 0..3 returns rows 0-2 multiplied component-wise and row 3 zero |
| Matrix4.Apply | src/mat/mat4.rs:162-174 | the loop over 0..3 returns `dot(rows[i], v)` in components 0-2 and 0 in component 3 |
| Matrix4.SumWithZeroIff | src/mat/mat4.rs:138-148 | adding the zero matrix keeps `m` exactly when row 3 of `m` is zero |
| Matrix4.ScaleByOneIff | src/mat/mat4.rs:150-160 | scaling by 1 keeps `m` exactly when row 3 of `m` is zero |
| Matrix4.ProductWithIdentity | src/mat/mat4.rs:176-186 | `identity * m` keeps only the diagonal entries of rows 0-2: it is not `m` |
| Matrix4.ApplyIdentity | src/mat/mat4.rs:162-174 | the identity maps a vector to its first three components and drops the fourth |
| Matrix4.AppliedComponents | src/mat/mat4.rs:162-174 | output component i is `dot(rows[i], v)` for i < 3 and 0 for i = 3 |
| Matrix4.Minor | src/mat/mat4.rs:80-104 | no contract of its own: the intended 3x3 minor; `MinorEntries` states its entries |
| Matrix4.Cofactor | src/mat/mat4.rs:74-78 | no contract of its own: the signed minor determinant; `CofactorSign` and `IdentityCofactors` state its meaning |
| Matrix4.Determinant | src/mat/mat4.rs:34-45 | no contract of its own: the intended row-0 expansion; `IdentityDeterminant`, `ZeroFirstRowDeterminant`, `FirstRowLinear` and `EqualLowerRowsVanish` state its laws |
| Matrix4.MinorEntries | src/mat/mat4.rs:80-104 | entry (a, b) of minor (i, j) is the entry of `m` reached by skipping row i and column j |
| Matrix4.CofactorSign | src/mat/mat4.rs:74-78 | the cofactor is the minor's determinant, negated exactly when i + j is odd |
| Matrix4.IdentityCofactors | src/mat/mat4.rs:74-78 | the identity's cofactors are 1 on the diagonal and 0 elsewhere |
| Matrix4.IdentityDeterminant | src/mat/mat4.rs:34-45 | the identity has determinant 1 under the row-0 expansion |
| Matrix4.ZeroFirstRowDeterminant | src/mat/mat4.rs:34-45 | a matrix with a zero row 0 has determinant 0 |
| Matrix4.FirstRowLinear | src/mat/mat4.rs:34-45 | scaling row 0 by `s` scales the determinant by `s` |
| Matrix4.EqualLowerRowsVanish | src/mat/mat4.rs:34-45 | two equal rows among rows 1-3 give determinant 0 |
| Matrix4.CofactorMatrix | src/mat/mat4.rs:62-66 | no contract of its own: the matrix the cofactor loop fills; `CofactorMatrixEntries` states its entries |
| Matrix4.InverseOf | src/mat/mat4.rs:57-72 | no contract of its own: what `inverse` returns; the `Inverse` loop, `InverseEntries` and `InverseOfIdentity` state its meaning |
| Matrix4.Inverse | src/mat/mat4.rs:57-72 | the 4x4 cofactor loop, the 3-bounded transpose and the scaling by `1/det` return `InverseOf(m)` |
| Matrix4.ScaledTransposedEntries | src/mat/mat4.rs:47-72 | entry (i, j) of `transpose(c) * s` is `c[j][i] * s` for i, j < 3 and 0 otherwise |
| Matrix4.ScaledEntries | src/mat/mat4.rs:150-160 | `m * s` scales each entry of rows 0-2; row 3 is 0 |
| Matrix4.CofactorMatrixEntries | src/mat/mat4.rs:62-66 | entry (i, j) of the filled matrix `c` is `cofactor(i, j)` |
| Matrix4.InverseEntries | src/mat/mat4.rs:57-72 | entry (i, j) of `inverse` is `cofactor(j, i) / det` for i, j < 3, and 0 in row 3 and column 3 |
| Matrix4.InverseOfIdentity | src/mat/mat4.rs:57-72 | the identity has determinant 1, and its `inverse` is diag(1, 1, 1, 0) |
| Matrix4.InverseOfUnitCofactors | src/mat/mat4.rs:57-72 | a matrix with determinant 1 whose cofactor matrix is the identity has inverse diag(1, 1, 1, 0) |
| Matrix4.IdentityCofactorMatrix | src/mat/mat4.rs:62-66 | the identity is its own cofactor matrix |
| Matrix4.InverseFrom | src/mat/mat4.rs:57-72 | (helper) `inverse` is the transposed cofactor matrix scaled by `1/det` |
| Matrix4.Oriented | src/mat/mat4.rs:106-118 | no contract of its own: the rows `orient` writes; `OrientedAxes` and `MutableMat4.Orient` state its meaning |
| Matrix4.OrientedAxes | src/mat/mat4.rs:106-118 | the oriented matrix maps the x, y and z axes to `fwd`, `up × fwd` and `up`, maps the origin to `pos`, and has bottom row (0, 0, 0, 1) |
| Matrix4.MutableMat4.constructor | src/mat/mat4.rs:10-12 | the new place holds the given rows in a fresh array |
| Matrix4.MutableMat4.Orient | src/mat/mat4.rs:106-118 | `orient` writes `fwd`, `up × fwd`, `up` and `pos` as columns of rows 0-2 and sets row 3 to (0, 0, 0, 1) |
| Quaternion.MagnitudeSquared | src/physics/quat/quat.rs:37-42 | no contract of its own: the sum of the four squares; `MagnitudeSquaredNonNegative`, `ScaleMagnitude` and `InverseMagnitude` state its laws |
| Quaternion.Scale | src/physics/quat/quat.rs:114-121 | no contract of its own: all four components times `s`; `ScaleMagnitude` states its effect on the magnitude |
| Quaternion.Inverse | src/physics/quat/quat.rs:71-78 | no contract of its own: the conjugate divided by the squared magnitude; `InverseOfUnit`, `InverseMagnitude`, `InverseInvolution` and `InverseOfZero` state its laws |
| Quaternion.Mul | src/physics/quat/quat.rs:95-106 | no contract of its own: the product as written, which is not the Hamilton product; `ZeroTimesZero`, `MulZeroLeft`, `MulZeroRight` and `MulByZeroBothSides` state its effect |
| Quaternion.RotatePoint | src/physics/quat/quat.rs:80-84 | no contract of its own: the vector part of `q * (v, 0) * inverse(q)`; `RotatePointByUnit` and `RotateByZero` state its meaning |
| Quaternion.Index | src/physics/quat/quat.rs:134-146 | no contract of its own: 0..3 select x, y, z, w; `IndexDetermines` and `MutableQuat.SetIndex` state its meaning |
| Quaternion.MagnitudeSquaredNonNegative | src/physics/quat/quat.rs:37-42 | the squared magnitude is never negative |
| Quaternion.Normalize | src/physics/quat/quat.rs:48-69 | magnitude 0 gives the input back; otherwise x, y and z scale back to the input's, and the new w scales back to the input's x (the defect) |
| Quaternion.RotateMatrix | src/physics/quat/quat.rs:86-92 | each row of the result is the corresponding row rotated on its own |
| Quaternion.Eq | src/physics/quat/quat.rs:124-131 | `==` holds exactly when the two quaternions are equal |
| Quaternion.IndexDetermines | src/physics/quat/quat.rs:134-146 | two quaternions are equal exactly when they agree at indices 0..3 |
| Quaternion.ZeroIsUnit | src/physics/quat/quat.rs:18-20 | `zero()` has squared magnitude 1 and magnitude 1 |
| Quaternion.NormalizeUnitIff | src/physics/quat/quat.rs:48-69 | a normalized nonzero quaternion has unit length exactly when `w*w == x*x` |
| Quaternion.InverseOfZero | src/physics/quat/quat.rs:71-78 | `inverse(zero()) == zero()` |
| Quaternion.InverseOfUnit | src/physics/quat/quat.rs:71-78 | a quaternion of squared magnitude 1 is inverted by negating x, y and z |
| Quaternion.ScaleMagnitude | src/physics/quat/quat.rs:114-121 | scaling by `s` multiplies the squared magnitude by `s*s` |
| Quaternion.InverseMagnitude | src/physics/quat/quat.rs:71-78 | the squared magnitude of the inverse is the reciprocal of the original's |
| Quaternion.InverseInvolution | src/physics/quat/quat.rs:71-78 | `inverse(inverse(q)) == q` |
| Quaternion.ZeroTimesZero | src/physics/quat/quat.rs:95-106 | with the literal product, `zero() * zero()` is all zeros |
| Quaternion.MulByZeroBothSides | src/physics/quat/quat.rs:95-106 | `zero() * (v, 0) * zero()` is `(v.x, v.y, v.z, v.x)` |
| Quaternion.RotatePointWithInverse | src/physics/quat/quat.rs:80-84 | (helper) `rotate_point` is the vector part of `q * (v, 0) * inverse(q)` |
| Quaternion.RotatePointByUnit | src/physics/quat/quat.rs:71-84 | rotating by a quaternion of squared magnitude 1 multiplies on the right by its conjugate |
| Quaternion.ZeroConjugate | src/physics/quat/quat.rs:18-20 | (helper) `zero()` equals its conjugate |
| Quaternion.RotateByZero | src/physics/quat/quat.rs:80-84 | `rotate_point(zero(), v) == v`, even with the literal product |
| Quaternion.RotateMatrixByZero | src/physics/quat/quat.rs:86-92 | `rotate_matrix(zero(), m) == m` |
| Quaternion.MulZeroLeft | src/physics/quat/quat.rs:95-106 | `zero() * p == p` for `p` with scalar part 0 |
| Quaternion.MulZeroRight | src/physics/quat/quat.rs:95-106 | `p * zero()` keeps x, y, z of `p` but its w becomes `p.x` |
| Quaternion.EqIsEquivalence | src/physics/quat/quat.rs:124-131 | `==` is reflexive, symmetric and transitive |
| Quaternion.MutableQuat.constructor | src/physics/quat/quat.rs:14-16 | the new place holds the given quaternion |
| Quaternion.MutableQuat.MulAssign | src/physics/quat/quat.rs:108-112 | `*= other` leaves the place holding `old * other` |
| Quaternion.MutableQuat.MulAssignScalar | src/physics/quat/quat.rs:114-121 | `*= s` scales all four components |
| Quaternion.MutableQuat.SetIndex | src/physics/quat/quat.rs:148-158 | `q[idx] = val` sets the selected component and keeps the other three |
| Shapes.NewSphere | src/physics/shape.rs:33-35 | a sphere of the given radius with centre of mass at the origin |
| Shapes.NewBox | src/physics/shape.rs:37-40 | a box of the given dimensions whose centre of mass, doubled, is (w, l, h) |
| Shapes.GetCenterMass | src/physics/shape.rs:54-59 | the centre of mass stored in either variant |
| Shapes.GetVolume | src/physics/shape.rs:44-52 | no contract of its own: w·l·h for a box, 4/3·PI·r³ for a sphere; `VolumeNonNegative` and `VolumeOfConstructed` state its meaning |
| Shapes.VolumeNonNegative | src/physics/shape.rs:44-52 | non-negative dimensions give a non-negative volume, for both variants |
| Shapes.VolumeOfConstructed | src/physics/shape.rs:44-52 | a box's volume is w·l·h; the unit sphere's is 4/3·PI |
| Shapes.BoxCenterInside | src/physics/shape.rs:37-40 | the centre of mass of a box with non-negative sides lies inside the box |
| Bodies.New | src/physics/body.rs:28-37 | the stored inverse mass times the mass is 1; every other field is stored verbatim |
| Bodies.NewShape | src/physics/body.rs:39-48 | no rotation, at rest at the origin, inverse mass 1, white |
| Bodies.Unit | src/physics/body.rs:50-59 | `unit()` is `new_shape` of a radius-1 sphere |
| Bodies.GetCenterOfMassModelSpace | src/physics/body.rs:67-70 | the shape's own centre of mass |
| Bodies.GetCenterOfMassWorldSpace | src/physics/body.rs:61-65 | no contract of its own: the position plus the rotated centre of mass; `CenterOfMassWithoutRotation` states it for every unrotated body |
| Bodies.WorldSpaceToBodySpace | src/physics/body.rs:72-77 | no contract of its own: `world` minus the world-space centre, rotated by the inverse orientation; `UnrotatedWorldToBody` states it for every unrotated body |
| Bodies.BodySpaceToWorldSpace | src/physics/body.rs:79-83 | no contract of its own: the body-space image plus the rotated argument, as written; `UnrotatedBodyToWorld` and `UnrotatedRoundTrip` state it for every unrotated body |
| Bodies.GetShape | src/physics/body.rs:93-95 | no contract of its own: the stored shape; `GettersAfterNew` states what it returns |
| Bodies.GetColor | src/physics/body.rs:97-99 | no contract of its own: the stored colour; `GettersAfterNew` states what it returns |
| Bodies.ImpulseApplied | src/physics/body.rs:85-91 | with inverse mass 0 the velocity is kept; otherwise the new velocity times the mass is the impulse; no other field changes |
| Bodies.GettersAfterNew | src/physics/body.rs:93-99 | `get_shape`, `get_color` and the model-space centre of mass give back what `new` was given |
| Bodies.CenterOfMassWithoutRotation | src/physics/body.rs:61-65 | with orientation `zero()`, the world-space centre of mass is the position plus the model-space one |
| Bodies.ImpulseForgetsVelocity | src/physics/body.rs:85-91 | for a movable body the old velocity has no effect on the result |
| Bodies.Unrotated | src/physics/body.rs:16-23 | (helper) a body with its orientation set to `zero()` and every other field kept |
| Bodies.UnrotatedWorldToBodyUnfolds | src/physics/body.rs:72-77 | (helper) without rotation, the inverse orientation used is `zero()` as well |
| Bodies.UnrotatedWorldToBody | src/physics/body.rs:72-77 | for every unrotated body and every `v`: `v - (position + center_mass)`, with the literal `Sub` |
| Bodies.UnrotatedBodyToWorld | src/physics/body.rs:79-83 | for every unrotated body and every `v`: `world_space_to_body_space(v) + v`, so it adds `v` to its body-space image instead of undoing it |
| Bodies.UnrotatedRoundTrip | src/physics/body.rs:72-83 | for every unrotated body and every `v`, the round trip gives `(v - c - c) + (v - c)`, `c` the world-space centre |
| Bodies.RoundTripArithmetic | src/physics/body.rs:72-83 | that point equals `v` exactly when `v.x == 3 c.x`, `v.y == 3 c.y` and `v.z == 2 v.y - c.y - 2 c.z` (`RoundTripFixes`): the round trip fails off one line |
| Bodies.UnitCenterOfMass | src/physics/body.rs:50-65 | the unit body's centre of mass is the origin in world space |
| Bodies.UnitWorldToBodyUnfolds | src/physics/body.rs:72-77 | (helper) for the unit body, `world_space_to_body_space(v)` rotates `v - 0` by `zero()` |
| Bodies.UnitWorldToBody | src/physics/body.rs:72-77 | for the unit body, `world_space_to_body_space(v)` is `(v.x, v.y, v.y)`, because of the literal `Sub` |
| Bodies.UnitBodyToWorldUnfolds | src/physics/body.rs:79-83 | (helper) for the unit body, `body_space_to_world_space(v)` adds `v` rotated by `zero()` |
| Bodies.UnitBodyToWorld | src/physics/body.rs:79-83 | for the unit body, `body_space_to_world_space(v)` is `(2 v.x, 2 v.y, v.y + v.z)` |
| Bodies.SpaceRoundTripFails | src/physics/body.rs:72-83 | for the unit body, (1, 2, 3) goes to body space as (1, 2, 2) and comes back as (2, 4, 4) |
| Bodies.MutableBody.constructor | src/physics/body.rs:16-23 | the new place holds the given body |
| Bodies.MutableBody.ApplyImpulseLinear | src/physics/body.rs:85-91 | returns early for inverse mass 0; otherwise overwrites the velocity with `impulse * inv_mass` |
| Scenes.GravityImpulse | src/physics/scene.rs:38-40 | no contract of its own: `(0, 0, -GRAVITY) * mass * dt`, zero for inverse mass 0; `MovableVelocity` and `ImmovableVelocity` state its effect |
| Scenes.VelocityStep | src/physics/scene.rs:34-43 | no contract of its own: impulse then a second gravity term; `MovableVelocity` and `ImmovableVelocity` state its result |
| Scenes.PositionStep | src/physics/scene.rs:45-49 | no contract of its own: `position += velocity * dt`; `StepMovesByNewVelocity` and `ZeroStepKeepsPositions` state its effect |
| Scenes.Stepped | src/physics/scene.rs:33-50 | no contract of its own: both passes over the list; `Scene.Update` is proved to produce it, and `StepKeepsFrame` and `StepIsPerBody` state its meaning |
| Scenes.SteppedN | src/physics/scene.rs:33-50 | no contract of its own: `n` updates; `StepsKeepFrame` and the `*AfterSteps` lemmas state its meaning |
| Scenes.InitialObject | src/physics/scene.rs:16-22 | no contract of its own: the unit sphere at height 5 with inverse mass 1; `ObjectAfterOneSecond` states its fall |
| Scenes.InitialGround | src/physics/scene.rs:24-30 | no contract of its own: the 1000-cube at height -1000 with inverse mass 0; `GroundAfterOneSecond` states its fall |
| Scenes.VelocityPass | src/physics/scene.rs:34-43 | (unpacking) the list after the first loop, element by element, as `Scene.Update` reads it |
| Scenes.PositionPass | src/physics/scene.rs:45-49 | (unpacking) the list after the second loop, element by element, as `Scene.Update` reads it |
| Scenes.Scene.constructor | src/physics/scene.rs:11-13 | the scene holds the given list |
| Scenes.Scene.Init | src/physics/scene.rs:15-31 | `init` appends exactly the object and then the ground |
| Scenes.Scene.Update | src/physics/scene.rs:33-50 | the two loops leave the list `Stepped(old list, dt)`: every velocity first, then every position |
| Scenes.StepKeepsFrame | src/physics/scene.rs:33-50 | one update keeps the number and order of bodies and each one's shape, orientation, inverse mass and colour |
| Scenes.StepMovesByNewVelocity | src/physics/scene.rs:34-49 | each new position is the old position plus the new velocity times `dt` |
| Scenes.ZeroStepKeepsPositions | src/physics/scene.rs:48 | with `dt = 0` no body moves |
| Scenes.MovableVelocity | src/physics/scene.rs:38-42 | a movable body leaves the first loop at (0, 0, -2·GRAVITY·dt), whatever its velocity was |
| Scenes.ImmovableVelocity | src/physics/scene.rs:38-42 | a body of inverse mass 0 ignores the impulse, but its z velocity still drops by GRAVITY·dt |
| Scenes.StepsKeepFrame | src/physics/scene.rs:33-50 | any number of updates keeps the number and order of bodies and their frames |
| Scenes.MovableVelocityAfterSteps | src/physics/scene.rs:38-42 | after one or more updates a movable body moves at (0, 0, -2·GRAVITY·dt) and never faster |
| Scenes.ImmovableVelocityAfterSteps | src/physics/scene.rs:38-42 | after `n` updates an immovable body's z velocity has dropped by n·GRAVITY·dt |
| Scenes.MovableStep | src/physics/scene.rs:33-50 | one update of a movable body: velocity (0, 0, -2·GRAVITY·dt), and the position moves by it times `dt` |
| Scenes.ImmovableStep | src/physics/scene.rs:33-50 | one update of an immovable body: z velocity down by GRAVITY·dt, and the position moves by the new velocity times `dt` |
| Scenes.MovableAfterOneSecond | src/physics/scene.rs:33-50 | a movable body at height h falls to h - 19.6 in one second of `update` |
| Scenes.ImmovableAfterOneSecond | src/physics/scene.rs:33-50 | an immovable body at rest at height h falls to h - 9.8 in one second of `update` |
| Scenes.ObjectAfterOneSecond | src/physics/scene.rs:15-50 | the object `init` spawns moves at -19.6 after one second and has fallen from 5 to -14.6 |
| Scenes.GroundAfterOneSecond | src/physics/scene.rs:24-50 | the ground `init` spawns moves at -9.8 after one second and has fallen from -1000 to -1009.8 |
| Scenes.StepIsPerBody | src/physics/scene.rs:33-50 | one update turns body `i` into its velocity step followed by its position step |
| Scenes.InitialSceneAfterOneSecond | src/physics/scene.rs:15-50 | one second after `init`, the object is at height -14.6 and the ground at -1009.8 |

## Left out

- IEEE-754 behaviour is not modelled: rounding, and the infinities and NaN that division by zero produces. Every division is guarded by a precondition instead.
- Vector2.Div, Vector3.Div, Vector4.Div and the `DivAssign` methods require a nonzero divisor; the source divides unguarded.
- Vector2.Normalize, Vector3.Normalize: require a positive magnitude, because the source's zero vector gives NaN.
- Quaternion.Inverse: requires a nonzero squared magnitude, because the source divides by it unguarded.
- Quaternion.RotatePoint, Quaternion.RotateMatrix: require a nonzero squared magnitude, for the same reason.
- Bodies.New: requires a nonzero mass, because the source stores `1.0 / mass` unguarded.
- Bodies.GetCenterOfMassWorldSpace, Bodies.WorldSpaceToBodySpace, Bodies.BodySpaceToWorldSpace: require the orientation to have a nonzero squared magnitude, because they rotate by it.
- Scenes.GravityImpulse: for inverse mass 0 it yields the zero vector instead of the source's infinite impulse. That impulse is never read, since `apply_impulse_linear` returns first.
- The value of `get_magnitude` (a square root) is not computed. The magnitude is a parameter constrained by `IsMagnitude`.
- `Quat::from_axis_angle` is not modelled. It needs sine and cosine.
- The sphere volume uses `powf(r, 3)`, read as `r * r * r`, with PI as a decimal constant.
- `Mat4::lookat` is not modelled. It does not compile (duplicate parameter, undefined `up`), and its evident intent is unclear.
- `Mat4::determinant` and `Mat4::minor` are modelled by intent, not as written: as written they do not compile.
- `Mat3::transpose`, `Mat3::inverse`, `Mat3::minor` and `Mat3::cofactor` are not modelled. They are uninitialised or have empty bodies.
- `Mat4::inverse` calls `transpose` (src/mat/mat4.rs:66); `Matrix4.Inverse` calls the verified `Transpose` loop for that step.
- The `get_magnitude` methods of the vector types are not modelled.
- The constructors `Vec2d::new`, `Vec3d::new`, `Vec4d::new`, `Quat::new`, `Mat3::new` and `Mat4::new` are the datatype constructors.
- The textbook quaternion laws (associativity, the Hamilton product, length preservation) do not hold for the literal product and are not claimed.
- The round trip between `world_space_to_body_space` and `body_space_to_world_space` does not hold either; `Bodies.SpaceRoundTripFails` shows it fails, and `Bodies.UnrotatedRoundTrip` with `Bodies.RoundTripArithmetic` says where.
- Bodies.UnrotatedRoundTrip: the two space conversions are stated for bodies whose orientation is `zero()`; with another orientation the literal `Quat` product gives no closed form worth stating.
- The visual adapters (`src/visuals/`) are thin wrappers over a rendering library whose code is not part of this model.
- `src/main.rs` only declares modules.
- The drafts under `src/bodies/` are superseded by `src/physics/` and are not part of this model.
