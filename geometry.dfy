/** Homogeneous 4x4 matrices over the reals, the transform algebra that
    `main` relies on when it multiplies the two loaded matrices, and the
    quaternion-to-rotation-matrix conversion the loader applies. */
module Geometry {

  /** A 4x4 matrix, stored row by row (`m[row][column]`). */
  type Matrix4 = m: seq<seq<real>> | |m| == 4 && forall i :: 0 <= i < 4 ==> |m[i]| == 4
    witness [[0.0, 0.0, 0.0, 0.0], [0.0, 0.0, 0.0, 0.0], [0.0, 0.0, 0.0, 0.0], [0.0, 0.0, 0.0, 0.0]]

  /** A 3x3 matrix, stored row by row. */
  type Matrix3 = m: seq<seq<real>> | |m| == 3 && forall i :: 0 <= i < 3 ==> |m[i]| == 3
    witness [[0.0, 0.0, 0.0], [0.0, 0.0, 0.0], [0.0, 0.0, 0.0]]

  datatype Vector3 = Vector3(x: real, y: real, z: real)

  /** A quaternion in the argument order of Eigen's constructor (w, x, y, z). */
  datatype Quaternion = Quaternion(w: real, x: real, y: real, z: real)

  /** The row (0, 0, 0, 1) that closes every homogeneous transform. */
  const BottomRow: seq<real> := [0.0, 0.0, 0.0, 1.0]

  /** The bottom row of a homogeneous transform. The rotation block is not
      constrained: the loader does not normalise its quaternion. */
  predicate HasUnitBottomRow(m: Matrix4) {
    m[3] == BottomRow
  }

  function Identity3(): Matrix3 {
    [[1.0, 0.0, 0.0], [0.0, 1.0, 0.0], [0.0, 0.0, 1.0]]
  }

  function Identity4(): Matrix4 {
    [[1.0, 0.0, 0.0, 0.0], [0.0, 1.0, 0.0, 0.0], [0.0, 0.0, 1.0, 0.0], [0.0, 0.0, 0.0, 1.0]]
  }

  /** `m` with entry (i, j) replaced by v: one `matrix(i, j) = v` assignment. */
  function Assign(m: Matrix4, i: int, j: int, v: real): (r: Matrix4)
    requires 0 <= i < 4 && 0 <= j < 4
    ensures r[i][j] == v
    ensures forall a, b :: 0 <= a < 4 && 0 <= b < 4 && (a != i || b != j) ==> r[a][b] == m[a][b]
  {
    m[i := m[i][j := v]]
  }

  /** `m` with its top-left 3x3 block replaced by r: Eigen's `block<3, 3>(0, 0) = r`. */
  function AssignBlock(m: Matrix4, r: Matrix3): (h: Matrix4)
    ensures forall i, j :: 0 <= i < 3 && 0 <= j < 3 ==> h[i][j] == r[i][j]
    ensures forall i :: 0 <= i < 3 ==> h[i][3] == m[i][3]
    ensures h[3] == m[3]
  {
    [ r[0] + [m[0][3]], r[1] + [m[1][3]], r[2] + [m[2][3]], m[3] ]
  }

  /** The homogeneous matrix with rotation block r and translation column t. */
  function Homogeneous(r: Matrix3, t: Vector3): Matrix4 {
    [ [r[0][0], r[0][1], r[0][2], t.x],
      [r[1][0], r[1][1], r[1][2], t.y],
      [r[2][0], r[2][1], r[2][2], t.z],
      BottomRow ]
  }

  function RotationPart(m: Matrix4): Matrix3 {
    [ m[0][..3], m[1][..3], m[2][..3] ]
  }

  function TranslationPart(m: Matrix4): Vector3 {
    Vector3(m[0][3], m[1][3], m[2][3])
  }

  /** Entry (i, j) of the product a * b. */
  function ProductEntry(a: Matrix4, b: Matrix4, i: int, j: int): real
    requires 0 <= i < 4 && 0 <= j < 4
  {
    a[i][0] * b[0][j] + a[i][1] * b[1][j] + a[i][2] * b[2][j] + a[i][3] * b[3][j]
  }

  /** The 4x4 matrix product a * b. */
  function Mul(a: Matrix4, b: Matrix4): Matrix4 {
    seq(4, i requires 0 <= i < 4 =>
      seq(4, j requires 0 <= j < 4 => ProductEntry(a, b, i, j)))
  }

  /** The 3x3 matrix product a * b. */
  function Mul3(a: Matrix3, b: Matrix3): Matrix3 {
    seq(3, i requires 0 <= i < 3 =>
      seq(3, j requires 0 <= j < 3 => a[i][0] * b[0][j] + a[i][1] * b[1][j] + a[i][2] * b[2][j]))
  }

  /** The vector r * v. */
  function Rotate(r: Matrix3, v: Vector3): Vector3 {
    Vector3(r[0][0] * v.x + r[0][1] * v.y + r[0][2] * v.z,
            r[1][0] * v.x + r[1][1] * v.y + r[1][2] * v.z,
            r[2][0] * v.x + r[2][1] * v.y + r[2][2] * v.z)
  }

  function Add(u: Vector3, v: Vector3): Vector3 {
    Vector3(u.x + v.x, u.y + v.y, u.z + v.z)
  }

  /** Eigen's `Quaternion::toRotationMatrix`, which does not normalise q first. */
  function RotationMatrix(q: Quaternion): Matrix3 {
    var tx, ty, tz := 2.0 * q.x, 2.0 * q.y, 2.0 * q.z;
    var twx, twy, twz := tx * q.w, ty * q.w, tz * q.w;
    var txx, txy, txz := tx * q.x, ty * q.x, tz * q.x;
    var tyy, tyz, tzz := ty * q.y, tz * q.y, tz * q.z;
    [ [1.0 - (tyy + tzz), txy - twz, txz + twy],
      [txy + twz, 1.0 - (txx + tzz), tyz - twx],
      [txz - twy, tyz + twx, 1.0 - (txx + tyy)] ]
  }

  /** Two matrices are equal when every entry is. */
  lemma Extensionality4(a: Matrix4, b: Matrix4)
    requires forall i, j :: 0 <= i < 4 && 0 <= j < 4 ==> a[i][j] == b[i][j]
    ensures a == b
  {
    forall i | 0 <= i < 4 ensures a[i] == b[i] {
      assert forall j :: 0 <= j < 4 ==> a[i][j] == b[i][j];
    }
  }

  lemma Extensionality3(a: Matrix3, b: Matrix3)
    requires forall i, j :: 0 <= i < 3 && 0 <= j < 3 ==> a[i][j] == b[i][j]
    ensures a == b
  {
    forall i | 0 <= i < 3 ensures a[i] == b[i] {
      assert forall j :: 0 <= j < 3 ==> a[i][j] == b[i][j];
    }
  }

  /** A homogeneous matrix has bottom row (0, 0, 0, 1), and its blocks are the ones it was built from. */
  lemma HomogeneousParts(r: Matrix3, t: Vector3)
    ensures HasUnitBottomRow(Homogeneous(r, t))
    ensures RotationPart(Homogeneous(r, t)) == r
    ensures TranslationPart(Homogeneous(r, t)) == t
  {
    Extensionality3(RotationPart(Homogeneous(r, t)), r);
  }

  /** Every matrix with bottom row (0, 0, 0, 1) is the homogeneous matrix of its own blocks. */
  lemma UnitBottomRowIsHomogeneous(m: Matrix4)
    requires HasUnitBottomRow(m)
    ensures m == Homogeneous(RotationPart(m), TranslationPart(m))
  {
    Extensionality4(m, Homogeneous(RotationPart(m), TranslationPart(m)));
  }

  /** The product of two matrices with bottom row (0, 0, 0, 1) has that bottom row again. */
  lemma ProductKeepsBottomRow(a: Matrix4, b: Matrix4)
    requires HasUnitBottomRow(a) && HasUnitBottomRow(b)
    ensures HasUnitBottomRow(Mul(a, b))
  {
    var p := Mul(a, b);
    forall j | 0 <= j < 4 ensures p[3][j] == BottomRow[j] {
      assert p[3][j] == ProductEntry(a, b, 3, j);
    }
  }

  /** The translation column of a * b is R_a * t_b + t_a (b with bottom row (0, 0, 0, 1)). */
  lemma ProductTranslation(a: Matrix4, b: Matrix4)
    requires HasUnitBottomRow(b)
    ensures TranslationPart(Mul(a, b)) == Add(Rotate(RotationPart(a), TranslationPart(b)), TranslationPart(a))
  {
    var p := Mul(a, b);
    assert b[3][3] == 1.0;
    assert p[0][3] == ProductEntry(a, b, 0, 3);
    assert p[1][3] == ProductEntry(a, b, 1, 3);
    assert p[2][3] == ProductEntry(a, b, 2, 3);
  }

  /** The rotation block of a * b is R_a * R_b (b with bottom row (0, 0, 0, 1)). */
  lemma ProductRotation(a: Matrix4, b: Matrix4)
    requires HasUnitBottomRow(b)
    ensures RotationPart(Mul(a, b)) == Mul3(RotationPart(a), RotationPart(b))
  {
    var p, ra, rb := Mul(a, b), RotationPart(a), RotationPart(b);
    forall i, j | 0 <= i < 3 && 0 <= j < 3
      ensures RotationPart(p)[i][j] == Mul3(ra, rb)[i][j]
    {
      assert b[3][j] == 0.0;
      assert p[i][j] == ProductEntry(a, b, i, j);
    }
    Extensionality3(RotationPart(p), Mul3(ra, rb));
  }

  /** Multiplying two homogeneous transforms composes them: rotation R_a R_b, translation R_a t_b + t_a. */
  lemma ProductOfHomogeneous(ra: Matrix3, ta: Vector3, rb: Matrix3, tb: Vector3)
    ensures Mul(Homogeneous(ra, ta), Homogeneous(rb, tb)) == Homogeneous(Mul3(ra, rb), Add(Rotate(ra, tb), ta))
  {
    var a, b := Homogeneous(ra, ta), Homogeneous(rb, tb);
    HomogeneousParts(ra, ta);
    HomogeneousParts(rb, tb);
    ProductKeepsBottomRow(a, b);
    ProductTranslation(a, b);
    ProductRotation(a, b);
    UnitBottomRowIsHomogeneous(Mul(a, b));
  }

  /** The identity matrix is a two-sided unit of the product. */
  lemma ProductIdentity(m: Matrix4)
    ensures Mul(Identity4(), m) == m
    ensures Mul(m, Identity4()) == m
  {
    var left, right := Mul(Identity4(), m), Mul(m, Identity4());
    forall i, j | 0 <= i < 4 && 0 <= j < 4 ensures left[i][j] == m[i][j] && right[i][j] == m[i][j] {
      assert left[i][j] == ProductEntry(Identity4(), m, i, j);
      assert right[i][j] == ProductEntry(m, Identity4(), i, j);
    }
    Extensionality4(left, m);
    Extensionality4(right, m);
  }

  /** The identity quaternion (w = 1) converts to the identity rotation. */
  lemma IdentityQuaternion()
    ensures RotationMatrix(Quaternion(1.0, 0.0, 0.0, 0.0)) == Identity3()
  {
  }
}
