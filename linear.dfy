/**
 * Small vectors and matrices in glam's layout, generic in the element type:
 * a 3x3 matrix is stored as its three column axes.
 */
module Linear {

  datatype Vec2<T> = Vec2(x: T, y: T)

  datatype Vec3<T> = Vec3(x: T, y: T, z: T)

  datatype Vec4<T> = Vec4(x: T, y: T, z: T, w: T)

  /** Column-major 3x3 matrix: `xAxis` is the first column. */
  datatype Mat3<T> = Mat3(xAxis: Vec3<T>, yAxis: Vec3<T>, zAxis: Vec3<T>)

  /** An affine transform: linear part plus translation. */
  datatype Affine3A<T> = Affine3A(matrix3: Mat3<T>, translation: Vec3<T>)

  /** `[Vec4; 3]`: the rows of an affine transform, as uploaded to the GPU. */
  datatype Rows3<T> = Rows3(x: Vec4<T>, y: Vec4<T>, z: Vec4<T>)

  /** The entry in row `row` and column `col` (both in 0..3). */
  function Entry<T>(m: Mat3<T>, row: nat, col: nat): T
    requires row < 3 && col < 3
  {
    var axis := if col == 0 then m.xAxis else if col == 1 then m.yAxis else m.zAxis;
    if row == 0 then axis.x else if row == 1 then axis.y else axis.z
  }

  /** The transposed matrix: its columns are the rows of `m`. */
  function Transpose<T>(m: Mat3<T>): (t: Mat3<T>)
    ensures forall row, col | 0 <= row < 3 && 0 <= col < 3 :: Entry(t, row, col) == Entry(m, col, row)
  {
    Mat3(Vec3(m.xAxis.x, m.yAxis.x, m.zAxis.x),
         Vec3(m.xAxis.y, m.yAxis.y, m.zAxis.y),
         Vec3(m.xAxis.z, m.yAxis.z, m.zAxis.z))
  }

  /**
   * `Affine3::to_transpose`: the affine transform as the three rows of the
   * 3x4 matrix `[matrix3 | translation]`.
   */
  function ToTranspose<T>(a: Affine3A<T>): (r: Rows3<T>)
    ensures r.x == Vec4(Entry(a.matrix3, 0, 0), Entry(a.matrix3, 0, 1), Entry(a.matrix3, 0, 2), a.translation.x)
    ensures r.y == Vec4(Entry(a.matrix3, 1, 0), Entry(a.matrix3, 1, 1), Entry(a.matrix3, 1, 2), a.translation.y)
    ensures r.z == Vec4(Entry(a.matrix3, 2, 0), Entry(a.matrix3, 2, 1), Entry(a.matrix3, 2, 2), a.translation.z)
  {
    var t := Transpose(a.matrix3);
    Rows3(Vec4(t.xAxis.x, t.xAxis.y, t.xAxis.z, a.translation.x),
          Vec4(t.yAxis.x, t.yAxis.y, t.yAxis.z, a.translation.y),
          Vec4(t.zAxis.x, t.zAxis.y, t.zAxis.z, a.translation.z))
  }
}
