/** The matrix builders of MyRenderer/src/matrix.c. Matrices are values:
    each builder returns a fresh 4 by 4 matrix, indexed `m[row][column]`.
    Floats are modelled as exact reals. */
module Matrix {

  /** `mat4_t`. */
  type Mat4 = m: seq<seq<real>> | |m| == 4 && forall i :: 0 <= i < 4 ==> |m[i]| == 4
    witness [[0.0, 0.0, 0.0, 0.0], [0.0, 0.0, 0.0, 0.0], [0.0, 0.0, 0.0, 0.0], [0.0, 0.0, 0.0, 0.0]]

  /** A homogeneous vector (x, y, z, w). */
  type Vec4 = v: seq<real> | |v| == 4 witness [0.0, 0.0, 0.0, 0.0]

  /** `mat4_identity`. */
  function Identity(): (m: Mat4)
    ensures forall i, j :: 0 <= i < 4 && 0 <= j < 4 ==> m[i][j] == if i == j then 1.0 else 0.0
  {
    [[1.0, 0.0, 0.0, 0.0],
     [0.0, 1.0, 0.0, 0.0],
     [0.0, 0.0, 1.0, 0.0],
     [0.0, 0.0, 0.0, 1.0]]
  }

  /** `m` with entry (i, j) replaced by `v`; every other entry is kept. */
  function SetEntry(m: Mat4, i: int, j: int, v: real): (r: Mat4)
    requires 0 <= i < 4 && 0 <= j < 4
    ensures forall a, b :: 0 <= a < 4 && 0 <= b < 4 ==> r[a][b] == if a == i && b == j then v else m[a][b]
  {
    m[i := m[i][j := v]]
  }

  /** `mat4_make_scale` as written: the identity with `sx`, `sy`, `sz` stored
      at (1,1), (2,2) and (3,3), one place further down the diagonal than a
      scale matrix has them. */
  function MakeScale(sx: real, sy: real, sz: real): (m: Mat4)
    ensures m[1][1] == sx && m[2][2] == sy && m[3][3] == sz
    ensures m[0][0] == 1.0
    ensures forall i, j :: 0 <= i < 4 && 0 <= j < 4 && i != j ==> m[i][j] == Identity()[i][j]
  {
    var m := Identity();
    var m := SetEntry(m, 1, 1, sx);
    var m := SetEntry(m, 2, 2, sy);
    SetEntry(m, 3, 3, sz)
  }

  /** Scaling by one in every argument gives back the identity. */
  lemma ScaleOfOnesIsIdentity()
    ensures MakeScale(1.0, 1.0, 1.0) == Identity()
  {
    var m, id := MakeScale(1.0, 1.0, 1.0), Identity();
    forall i | 0 <= i < 4
      ensures m[i] == id[i]
    {
      assert forall j :: 0 <= j < 4 ==> m[i][j] == id[i][j];
    }
  }

  /** The three arguments can be read back from the matrix, so distinct
      arguments give distinct matrices. */
  lemma MakeScaleInjective(sx: real, sy: real, sz: real, tx: real, ty: real, tz: real)
    requires MakeScale(sx, sy, sz) == MakeScale(tx, ty, tz)
    ensures sx == tx && sy == ty && sz == tz
  {
    assert MakeScale(sx, sy, sz)[1][1] == MakeScale(tx, ty, tz)[1][1];
    assert MakeScale(sx, sy, sz)[2][2] == MakeScale(tx, ty, tz)[2][2];
    assert MakeScale(sx, sy, sz)[3][3] == MakeScale(tx, ty, tz)[3][3];
  }

  /** The product of a matrix and a column vector. */
  function MulVec(m: Mat4, v: Vec4): (r: Vec4)
  {
    seq(4, i requires 0 <= i < 4 => m[i][0] * v[0] + m[i][1] * v[1] + m[i][2] * v[2] + m[i][3] * v[3])
  }

  /** Applied to a point (x, y, z, 1), the matrix built as written leaves x
      alone, scales y by `sx` and z by `sy`, and puts `sz` into w. */
  lemma MakeScaleShifted(sx: real, sy: real, sz: real, x: real, y: real, z: real)
    ensures MulVec(MakeScale(sx, sy, sz), [x, y, z, 1.0]) == [x, sx * y, sy * z, sz]
  {
    var m := MakeScale(sx, sy, sz);
    assert m[0] == [1.0, 0.0, 0.0, 0.0];
    assert m[1] == [0.0, sx, 0.0, 0.0];
    assert m[2] == [0.0, 0.0, sy, 0.0];
    assert m[3] == [0.0, 0.0, 0.0, sz];
    var r := MulVec(m, [x, y, z, 1.0]);
    assert r[0] == x && r[1] == sx * y && r[2] == sy * z && r[3] == sz;
  }

  /** The scale matrix the builder evidently means: `sx`, `sy`, `sz` on the
      first three diagonal entries, 1 in the last. */
  function MakeScaleIntended(sx: real, sy: real, sz: real): (m: Mat4)
    ensures m[0][0] == sx && m[1][1] == sy && m[2][2] == sz && m[3][3] == 1.0
    ensures forall i, j :: 0 <= i < 4 && 0 <= j < 4 && i != j ==> m[i][j] == 0.0
  {
    var m := Identity();
    var m := SetEntry(m, 0, 0, sx);
    var m := SetEntry(m, 1, 1, sy);
    SetEntry(m, 2, 2, sz)
  }

  /** The intended matrix scales each coordinate of a point by its own factor
      and keeps w = 1. */
  lemma IntendedScaleScales(sx: real, sy: real, sz: real, x: real, y: real, z: real)
    ensures MulVec(MakeScaleIntended(sx, sy, sz), [x, y, z, 1.0]) == [sx * x, sy * y, sz * z, 1.0]
  {
    var m := MakeScaleIntended(sx, sy, sz);
    assert m[0] == [sx, 0.0, 0.0, 0.0];
    assert m[1] == [0.0, sy, 0.0, 0.0];
    assert m[2] == [0.0, 0.0, sz, 0.0];
    assert m[3] == [0.0, 0.0, 0.0, 1.0];
    var r := MulVec(m, [x, y, z, 1.0]);
    assert r[0] == sx * x && r[1] == sy * y && r[2] == sz * z && r[3] == 1.0;
  }
}
