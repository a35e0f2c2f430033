/**
 * Specification functions for pl.tomaszkax86.math.Matrix: a matrix's contents
 * as a sequence of rows, and the values its builders, operations and buffer
 * layout produce. Element arithmetic goes through Runtime.Mul, so a float
 * product is the exact product of two reals.
 */
module Grids {
  import opened Runtime

  /** A matrix's contents, row by row. */
  type Grid = seq<seq<real>>

  /** g has exactly rows rows, each of exactly columns entries. */
  predicate IsShape(g: Grid, rows: nat, columns: nat)
  {
    |g| == rows && forall i :: 0 <= i < rows ==> |g[i]| == columns
  }

  // ---------------------------------------------------------------------
  // Shapes, cells and the identity
  // ---------------------------------------------------------------------

  /** The rows x columns grid holding x everywhere. */
  function Fill(rows: nat, columns: nat, x: real): (g: Grid)
    ensures IsShape(g, rows, columns)
  {
    seq(rows, i => seq(columns, j => x))
  }

  /** Entry (i, j) is 1 on the diagonal and 0 elsewhere, for any shape. */
  function Identity(rows: nat, columns: nat): (g: Grid)
    ensures IsShape(g, rows, columns)
  {
    seq(rows, i => seq(columns, j => if i == j then 1.0 else 0.0))
  }

  /** g with entry (i, j) replaced by x. */
  function Put(g: Grid, i: nat, j: nat, x: real): (h: Grid)
    requires i < |g| && j < |g[i]|
  {
    g[i := g[i][j := x]]
  }

  /** Two grids of one shape that agree on every cell are equal. */
  lemma SameCells(g: Grid, h: Grid, rows: nat, columns: nat)
    requires IsShape(g, rows, columns) && IsShape(h, rows, columns)
    requires forall i, j :: 0 <= i < rows && 0 <= j < columns ==> g[i][j] == h[i][j]
    ensures g == h
  {
    forall i | 0 <= i < rows
      ensures g[i] == h[i]
    {
      assert forall j :: 0 <= j < columns ==> g[i][j] == h[i][j];
    }
  }

  /**
   * base with its upper-left rows x columns block replaced by top: what a
   * computation writing only that block leaves in a larger destination.
   */
  function Overlay(base: Grid, top: Grid, rows: nat, columns: nat): (g: Grid)
    requires IsShape(top, rows, columns)
    requires rows <= |base| && forall i :: 0 <= i < rows ==> columns <= |base[i]|
    ensures |g| == |base| && forall i :: 0 <= i < |base| ==> |g[i]| == |base[i]|
  {
    seq(|base|, i requires 0 <= i < |base| =>
      seq(|base[i]|, j requires 0 <= j < |base[i]| =>
        if i < rows && j < columns then top[i][j] else base[i][j]))
  }

  /** Overlaying a whole grid replaces it. */
  lemma OverlayWhole(base: Grid, top: Grid, rows: nat, columns: nat)
    requires IsShape(base, rows, columns) && IsShape(top, rows, columns)
    ensures Overlay(base, top, rows, columns) == top
  {
    SameCells(Overlay(base, top, rows, columns), top, rows, columns);
  }

  // ---------------------------------------------------------------------
  // Multiplication, addition and transposition
  // ---------------------------------------------------------------------

  /**
   * The sum of first[row][t] * second[t][column] for t < k, accumulated in
   * index order from 0, as the float accumulator of multiply adds it.
   */
  function Entry(first: Grid, second: Grid, row: nat, column: nat, k: nat): real
    requires row < |first| && k <= |first[row]| && k <= |second|
    requires forall t :: 0 <= t < k ==> column < |second[t]|
  {
    if k == 0 then 0.0
    else Entry(first, second, row, column, k - 1) + Mul(first[row][k - 1], second[k - 1][column])
  }

  /** The rows x columns product of a rows x depth and a depth x columns grid. */
  function Product(first: Grid, second: Grid, rows: nat, depth: nat, columns: nat): (g: Grid)
    requires IsShape(first, rows, depth) && IsShape(second, depth, columns)
    ensures IsShape(g, rows, columns)
  {
    seq(rows, i requires 0 <= i < rows =>
      seq(columns, j requires 0 <= j < columns => Entry(first, second, i, j, depth)))
  }

  /** Multiplying by the identity from the left: only the term t == row survives. */
  lemma {:induction false} EntryIdentityLeft(m: Grid, n: nat, columns: nat, row: nat, column: nat, k: nat)
    requires IsShape(m, n, columns) && row < n && column < columns && k <= n
    ensures Entry(Identity(n, n), m, row, column, k) == if row < k then m[row][column] else 0.0
  {
    if k > 0 {
      EntryIdentityLeft(m, n, columns, row, column, k - 1);
    }
  }

  /** Multiplying by the identity from the right: only the term t == column survives. */
  lemma {:induction false} EntryIdentityRight(m: Grid, rows: nat, n: nat, row: nat, column: nat, k: nat)
    requires IsShape(m, rows, n) && row < rows && column < n && k <= n
    ensures Entry(m, Identity(n, n), row, column, k) == if column < k then m[row][column] else 0.0
  {
    if k > 0 {
      EntryIdentityRight(m, rows, n, row, column, k - 1);
    }
  }

  /** The square identity is a neutral element of the product, on both sides. */
  lemma IdentityNeutral(m: Grid, rows: nat, columns: nat)
    requires IsShape(m, rows, columns)
    ensures Product(Identity(rows, rows), m, rows, rows, columns) == m
    ensures Product(m, Identity(columns, columns), rows, columns, columns) == m
  {
    forall i, j | 0 <= i < rows && 0 <= j < columns
      ensures Product(Identity(rows, rows), m, rows, rows, columns)[i][j] == m[i][j]
      ensures Product(m, Identity(columns, columns), rows, columns, columns)[i][j] == m[i][j]
    {
      EntryIdentityLeft(m, rows, columns, i, j, rows);
      EntryIdentityRight(m, rows, columns, i, j, columns);
    }
    SameCells(Product(Identity(rows, rows), m, rows, rows, columns), m, rows, columns);
    SameCells(Product(m, Identity(columns, columns), rows, columns, columns), m, rows, columns);
  }

  /** The entry-wise sum. */
  function Plus(first: Grid, second: Grid, rows: nat, columns: nat): (g: Grid)
    requires IsShape(first, rows, columns) && IsShape(second, rows, columns)
    ensures IsShape(g, rows, columns)
  {
    seq(rows, i requires 0 <= i < rows =>
      seq(columns, j requires 0 <= j < columns => first[i][j] + second[i][j]))
  }

  /** Addition does not depend on the order of its operands, and adds nothing to a zero grid. */
  lemma PlusLaws(a: Grid, b: Grid, rows: nat, columns: nat)
    requires IsShape(a, rows, columns) && IsShape(b, rows, columns)
    ensures Plus(a, b, rows, columns) == Plus(b, a, rows, columns)
    ensures Plus(a, Fill(rows, columns, 0.0), rows, columns) == a
  {
    SameCells(Plus(a, b, rows, columns), Plus(b, a, rows, columns), rows, columns);
    SameCells(Plus(a, Fill(rows, columns, 0.0), rows, columns), a, rows, columns);
  }

  /** Entry (r, c) of g is entry (c, r) of its transpose. */
  function Transposed(g: Grid, rows: nat, columns: nat): (t: Grid)
    requires IsShape(g, rows, columns)
    ensures IsShape(t, columns, rows)
  {
    seq(columns, j requires 0 <= j < columns => seq(rows, i requires 0 <= i < rows => g[i][j]))
  }

  /** Transposing twice gives back the original. */
  lemma TransposeTwice(g: Grid, rows: nat, columns: nat)
    requires IsShape(g, rows, columns)
    ensures Transposed(Transposed(g, rows, columns), columns, rows) == g
  {
    SameCells(Transposed(Transposed(g, rows, columns), columns, rows), g, rows, columns);
  }

  /** The transpose of the identity is the identity of the swapped shape. */
  lemma TransposeIdentity(rows: nat, columns: nat)
    ensures Transposed(Identity(rows, columns), rows, columns) == Identity(columns, rows)
  {
    SameCells(Transposed(Identity(rows, columns), rows, columns), Identity(columns, rows), columns, rows);
  }

  // ---------------------------------------------------------------------
  // Row and column operations
  // ---------------------------------------------------------------------

  /** Row `row` gains k times row `other`, entry by entry; other rows stay. */
  function AddRows(g: Grid, rows: nat, columns: nat, row: nat, other: nat, k: real): (h: Grid)
    requires IsShape(g, rows, columns) && row < rows && other < rows
    ensures IsShape(h, rows, columns)
  {
    g[row := seq(columns, i requires 0 <= i < columns => g[row][i] + Mul(k, g[other][i]))]
  }

  /** Column `column` gains k times column `other`, entry by entry; other columns stay. */
  function AddColumns(g: Grid, rows: nat, columns: nat, column: nat, other: nat, k: real): (h: Grid)
    requires IsShape(g, rows, columns) && column < columns && other < columns
    ensures IsShape(h, rows, columns)
  {
    seq(rows, i requires 0 <= i < rows => g[i][column := g[i][column] + Mul(k, g[i][other])])
  }

  /** Adding -k times the same other row undoes adding k times it. */
  lemma AddRowsUndo(g: Grid, rows: nat, columns: nat, row: nat, other: nat, k: real)
    requires IsShape(g, rows, columns) && row < rows && other < rows && row != other
    ensures AddRows(AddRows(g, rows, columns, row, other, k), rows, columns, row, other, -k) == g
  {
    var h := AddRows(g, rows, columns, row, other, k);
    forall i | 0 <= i < columns
      ensures AddRows(h, rows, columns, row, other, -k)[row][i] == g[row][i]
    {
      MulNegate(k, g[other][i]);
    }
    SameCells(AddRows(h, rows, columns, row, other, -k), g, rows, columns);
  }

  /** (-k) * x == -(k * x). */
  lemma MulNegate(k: real, x: real)
    ensures Mul(-k, x) == -Mul(k, x)
  {
  }

  /** A column operation is the row operation on the transpose. */
  lemma AddColumnsTransposed(g: Grid, rows: nat, columns: nat, column: nat, other: nat, k: real)
    requires IsShape(g, rows, columns) && column < columns && other < columns
    ensures Transposed(AddColumns(g, rows, columns, column, other, k), rows, columns)
         == AddRows(Transposed(g, rows, columns), columns, rows, column, other, k)
  {
    SameCells(Transposed(AddColumns(g, rows, columns, column, other, k), rows, columns),
              AddRows(Transposed(g, rows, columns), columns, rows, column, other, k), columns, rows);
  }

  /** The entries of one column, top to bottom. */
  function ColumnOf(g: Grid, column: nat): (c: seq<real>)
    requires forall i :: 0 <= i < |g| ==> column < |g[i]|
    ensures |c| == |g|
  {
    seq(|g|, i requires 0 <= i < |g| => g[i][column])
  }

  /** g with row `row` replaced by r. */
  function WithRow(g: Grid, row: nat, r: seq<real>): (h: Grid)
    requires row < |g|
  {
    g[row := r]
  }

  /** g with column `column` replaced by the first |g| entries of c. */
  function WithColumn(g: Grid, column: nat, c: seq<real>): (h: Grid)
    requires forall i :: 0 <= i < |g| ==> column < |g[i]|
    requires |g| <= |c|
  {
    seq(|g|, i requires 0 <= i < |g| => g[i][column := c[i]])
  }

  /** Writing back a column that was read out changes nothing. */
  lemma WithColumnOf(g: Grid, rows: nat, columns: nat, column: nat)
    requires IsShape(g, rows, columns) && column < columns
    ensures WithColumn(g, column, ColumnOf(g, column)) == g
  {
    SameCells(WithColumn(g, column, ColumnOf(g, column)), g, rows, columns);
  }

  /** Reading a column back after writing it yields what was written. */
  lemma ColumnOfWithColumn(g: Grid, rows: nat, columns: nat, column: nat, c: seq<real>)
    requires IsShape(g, rows, columns) && column < columns && rows <= |c|
    ensures ColumnOf(WithColumn(g, column, c), column) == c[..rows]
  {
  }

  // ---------------------------------------------------------------------
  // Column-major layout of the float buffers
  // ---------------------------------------------------------------------

  /** The first `columns` columns of g, one after another. */
  function ColumnMajor(g: Grid, rows: nat, columns: nat): (s: seq<real>)
    requires |g| == rows && forall i :: 0 <= i < rows ==> columns <= |g[i]|
    ensures |s| == columns * rows
  {
    if columns == 0 then []
    else ColumnMajor(g, rows, columns - 1) + ColumnOf(g, columns - 1)
  }

  /** Columns before c occupy the first c * rows places, so c * rows + r stays below columns * rows. */
  lemma FlatIndexBound(rows: nat, columns: nat, r: nat, c: nat)
    requires r < rows && c < columns
    ensures c * rows + r < columns * rows
  {
    assert (c + 1) * rows <= columns * rows;
  }

  /** Flat indices follow the column-major order of the cells. */
  lemma FlatIndexOrder(rows: nat, r: nat, c: nat, r2: nat, c2: nat)
    requires r < rows && r2 < rows
    ensures c * rows + r < c2 * rows + r2 <==> c < c2 || (c == c2 && r < r2)
  {
    if c < c2 {
      assert (c + 1) * rows <= c2 * rows;
    } else if c2 < c {
      assert (c2 + 1) * rows <= c * rows;
    }
  }

  /** Entry (r, c) sits at flat index c * rows + r. */
  lemma {:induction false} ColumnMajorIndex(g: Grid, rows: nat, columns: nat, r: nat, c: nat)
    requires |g| == rows && forall i :: 0 <= i < rows ==> columns <= |g[i]|
    requires r < rows && c < columns
    ensures c * rows + r < columns * rows
    ensures ColumnMajor(g, rows, columns)[c * rows + r] == g[r][c]
  {
    FlatIndexBound(rows, columns, r, c);
    if c < columns - 1 {
      ColumnMajorIndex(g, rows, columns - 1, r, c);
    } else {
      assert |ColumnMajor(g, rows, columns - 1)| == c * rows;
    }
  }

  /** Storing fewer columns gives a prefix of storing more. */
  lemma {:induction false} ColumnMajorPrefix(g: Grid, rows: nat, columns: nat, c: nat)
    requires |g| == rows && forall i :: 0 <= i < rows ==> columns <= |g[i]|
    requires c <= columns
    ensures c * rows <= columns * rows
    ensures ColumnMajor(g, rows, columns)[..c * rows] == ColumnMajor(g, rows, c)
  {
    if c < columns {
      ColumnMajorPrefix(g, rows, columns - 1, c);
      assert c * rows <= (columns - 1) * rows;
      var s := ColumnMajor(g, rows, columns - 1);
      assert ColumnMajor(g, rows, columns)[..c * rows] == s[..c * rows];
    } else {
      assert ColumnMajor(g, rows, columns)[..c * rows] == ColumnMajor(g, rows, columns);
    }
  }

  /**
   * What loading from a float sequence leaves in a grid whose old contents
   * were base: entry (r, c) is data[c * rows + r] when that index is below
   * limit, and keeps its old value otherwise.
   */
  function Loaded(base: Grid, data: seq<real>, rows: nat, columns: nat, limit: nat): (g: Grid)
    requires IsShape(base, rows, columns) && limit <= |data|
    ensures IsShape(g, rows, columns)
  {
    seq(rows, r requires 0 <= r < rows =>
      seq(columns, c requires 0 <= c < columns =>
        if c * rows + r < limit then data[c * rows + r] else base[r][c]))
  }

  /** Loading what was stored, with every stored cell within the limit, gives back the grid. */
  lemma StoreThenLoad(g: Grid, base: Grid, rest: seq<real>, rows: nat, columns: nat)
    requires IsShape(g, rows, columns) && IsShape(base, rows, columns)
    ensures Loaded(base, ColumnMajor(g, rows, columns) + rest, rows, columns, columns * rows) == g
  {
    var data := ColumnMajor(g, rows, columns) + rest;
    forall r, c | 0 <= r < rows && 0 <= c < columns
      ensures Loaded(base, data, rows, columns, columns * rows)[r][c] == g[r][c]
    {
      ColumnMajorIndex(g, rows, columns, r, c);
    }
    SameCells(Loaded(base, data, rows, columns, columns * rows), g, rows, columns);
  }

  /** With a limit of 0 nothing is loaded. */
  lemma LoadNothing(base: Grid, data: seq<real>, rows: nat, columns: nat)
    requires IsShape(base, rows, columns)
    ensures Loaded(base, data, rows, columns, 0) == base
  {
    SameCells(Loaded(base, data, rows, columns, 0), base, rows, columns);
  }

  // ---------------------------------------------------------------------
  // Transformation builders
  // ---------------------------------------------------------------------

  /** loadTranslation: the identity with dx, dy, dz added to the top three cells of column 3. */
  function Translation(rows: nat, columns: nat, dx: real, dy: real, dz: real): (g: Grid)
    requires rows >= 3 && columns >= 4
    ensures IsShape(g, rows, columns)
  {
    var i := Identity(rows, columns);
    var t0 := Put(i, 0, 3, i[0][3] + dx);
    var t1 := Put(t0, 1, 3, t0[1][3] + dy);
    Put(t1, 2, 3, t1[2][3] + dz)
  }

  /** loadScale: the identity with sx, sy, sz as the first three diagonal cells. */
  function Scaling(rows: nat, columns: nat, sx: real, sy: real, sz: real): (g: Grid)
    requires rows >= 3 && columns >= 3
    ensures IsShape(g, rows, columns)
  {
    Put(Put(Put(Identity(rows, columns), 0, 0, sx), 1, 1, sy), 2, 2, sz)
  }

  /** The identity with the given first three diagonal cells and top three cells of column 3. */
  function DiagonalAndOffset(rows: nat, columns: nat, d0: real, d1: real, d2: real, o0: real, o1: real, o2: real): (g: Grid)
    requires rows >= 3 && columns >= 4
    ensures IsShape(g, rows, columns)
  {
    Put(Put(Put(Put(Put(Put(Identity(rows, columns), 0, 0, d0), 1, 1, d1), 2, 2, d2), 0, 3, o0), 1, 3, o1), 2, 3, o2)
  }

  /** loadOrtho, for a box with non-empty extent in every direction. */
  function Ortho(rows: nat, columns: nat, left: real, right: real, bottom: real, top: real, near: real, far: real): (g: Grid)
    requires rows >= 3 && columns >= 4
    requires right != left && top != bottom && far != near
    ensures IsShape(g, rows, columns)
  {
    DiagonalAndOffset(rows, columns,
      2.0 / (right - left), 2.0 / (top - bottom), -2.0 / (far - near),
      -(right + left) / (right - left), -(top + bottom) / (top - bottom), -(far + near) / (far - near))
  }

  /** loadOrtho2D: loadOrtho with near -1 and far 1. */
  function Ortho2D(rows: nat, columns: nat, left: real, right: real, bottom: real, top: real): (g: Grid)
    requires rows >= 3 && columns >= 4
    requires right != left && top != bottom
    ensures IsShape(g, rows, columns)
  {
    Ortho(rows, columns, left, right, bottom, top, -1.0, 1.0)
  }

  /** loadRotationX with the cosine and sine of the angle given. */
  function RotationX(rows: nat, columns: nat, cos: real, sin: real): (g: Grid)
    requires rows >= 3 && columns >= 3
    ensures IsShape(g, rows, columns)
  {
    Put(Put(Put(Put(Identity(rows, columns), 1, 1, cos), 1, 2, -sin), 2, 1, sin), 2, 2, cos)
  }

  /** loadRotationY with the cosine and sine of the angle given. */
  function RotationY(rows: nat, columns: nat, cos: real, sin: real): (g: Grid)
    requires rows >= 3 && columns >= 3
    ensures IsShape(g, rows, columns)
  {
    Put(Put(Put(Put(Identity(rows, columns), 0, 0, cos), 0, 2, sin), 2, 0, -sin), 2, 2, cos)
  }

  /** loadRotationZ with the cosine and sine of the angle given. */
  function RotationZ(rows: nat, columns: nat, cos: real, sin: real): (g: Grid)
    requires rows >= 3 && columns >= 3
    ensures IsShape(g, rows, columns)
  {
    Put(Put(Put(Put(Identity(rows, columns), 0, 0, cos), 0, 1, -sin), 1, 0, sin), 1, 1, cos)
  }

  /** The four-term entry of a product of 4 x 4 grids, written out. */
  lemma Entry4(a: Grid, b: Grid, r: nat, c: nat)
    requires IsShape(a, 4, 4) && IsShape(b, 4, 4) && r < 4 && c < 4
    ensures Entry(a, b, r, c, 4)
         == Mul(a[r][0], b[0][c]) + Mul(a[r][1], b[1][c]) + Mul(a[r][2], b[2][c]) + Mul(a[r][3], b[3][c])
  {
    assert Entry(a, b, r, c, 1) == Mul(a[r][0], b[0][c]);
    assert Entry(a, b, r, c, 2) == Entry(a, b, r, c, 1) + Mul(a[r][1], b[1][c]);
    assert Entry(a, b, r, c, 3) == Entry(a, b, r, c, 2) + Mul(a[r][2], b[2][c]);
  }

  /** Translating by p and then by q translates by p + q. */
  lemma TranslationsCompose(px: real, py: real, pz: real, qx: real, qy: real, qz: real)
    ensures Product(Translation(4, 4, px, py, pz), Translation(4, 4, qx, qy, qz), 4, 4, 4)
         == Translation(4, 4, px + qx, py + qy, pz + qz)
  {
    var a := Translation(4, 4, px, py, pz);
    var b := Translation(4, 4, qx, qy, qz);
    var p := Product(a, b, 4, 4, 4);
    var t := Translation(4, 4, px + qx, py + qy, pz + qz);
    forall r, c | 0 <= r < 4 && 0 <= c < 4
      ensures p[r][c] == t[r][c]
    {
      Entry4(a, b, r, c);
    }
    SameCells(p, t, 4, 4);
  }

  /** Scaling by p and then by q scales by the products of the factors. */
  lemma ScalingsCompose(px: real, py: real, pz: real, qx: real, qy: real, qz: real)
    ensures Product(Scaling(4, 4, px, py, pz), Scaling(4, 4, qx, qy, qz), 4, 4, 4)
         == Scaling(4, 4, Mul(px, qx), Mul(py, qy), Mul(pz, qz))
  {
    var a := Scaling(4, 4, px, py, pz);
    var b := Scaling(4, 4, qx, qy, qz);
    var p := Product(a, b, 4, 4, 4);
    var t := Scaling(4, 4, Mul(px, qx), Mul(py, qy), Mul(pz, qz));
    forall r, c | 0 <= r < 4 && 0 <= c < 4
      ensures p[r][c] == t[r][c]
    {
      Entry4(a, b, r, c);
    }
    SameCells(p, t, 4, 4);
  }

  /** The 2D box [-1, 1] x [-1, 1] gives diag(1, 1, -1, 1): only the z axis is flipped. */
  lemma Ortho2DUnitBox()
    ensures Ortho2D(4, 4, -1.0, 1.0, -1.0, 1.0) == Scaling(4, 4, 1.0, 1.0, -1.0)
  {
    SameCells(Ortho2D(4, 4, -1.0, 1.0, -1.0, 1.0), Scaling(4, 4, 1.0, 1.0, -1.0), 4, 4);
  }

  /**
   * loadCameraView: the identity of the receiver's shape multiplied, in this
   * order, by the rotations about z (roll), x (pitch) and y (yaw) and by the
   * translation by minus the position.
   */
  function CameraView(rows: nat, x: real, y: real, z: real, cosPitch: real, sinPitch: real,
                      cosYaw: real, sinYaw: real, cosRoll: real, sinRoll: real): (g: Grid)
    ensures IsShape(g, rows, 4)
  {
    var roll := Product(Identity(rows, 4), RotationZ(4, 4, cosRoll, sinRoll), rows, 4, 4);
    var pitch := Product(roll, RotationX(4, 4, cosPitch, sinPitch), rows, 4, 4);
    var yaw := Product(pitch, RotationY(4, 4, cosYaw, sinYaw), rows, 4, 4);
    Product(yaw, Translation(4, 4, -x, -y, -z), rows, 4, 4)
  }

  /** On a 4 x 4 receiver the camera view is Rz * Rx * Ry * T, in that order. */
  lemma CameraViewOrder(x: real, y: real, z: real, cosPitch: real, sinPitch: real,
                        cosYaw: real, sinYaw: real, cosRoll: real, sinRoll: real)
    ensures CameraView(4, x, y, z, cosPitch, sinPitch, cosYaw, sinYaw, cosRoll, sinRoll)
         == Product(Product(Product(RotationZ(4, 4, cosRoll, sinRoll), RotationX(4, 4, cosPitch, sinPitch), 4, 4, 4),
                            RotationY(4, 4, cosYaw, sinYaw), 4, 4, 4),
                    Translation(4, 4, -x, -y, -z), 4, 4, 4)
  {
    IdentityNeutral(RotationZ(4, 4, cosRoll, sinRoll), 4, 4);
  }

  /** The bottom row of a 4 x 4 affine transformation. */
  predicate Affine(g: Grid)
    requires IsShape(g, 4, 4)
  {
    g[3] == [0.0, 0.0, 0.0, 1.0]
  }

  /** Products of affine transformations are affine. */
  lemma AffineProduct(a: Grid, b: Grid)
    requires IsShape(a, 4, 4) && IsShape(b, 4, 4) && Affine(a) && Affine(b)
    ensures Affine(Product(a, b, 4, 4, 4))
  {
    var p := Product(a, b, 4, 4, 4);
    forall c | 0 <= c < 4
      ensures p[3][c] == b[3][c]
    {
      Entry4(a, b, 3, c);
    }
    assert p[3] == b[3];
  }

  /** The 4 x 4 camera view keeps points affine: its bottom row is (0, 0, 0, 1). */
  lemma CameraViewAffine(x: real, y: real, z: real, cosPitch: real, sinPitch: real,
                         cosYaw: real, sinYaw: real, cosRoll: real, sinRoll: real)
    ensures Affine(CameraView(4, x, y, z, cosPitch, sinPitch, cosYaw, sinYaw, cosRoll, sinRoll))
  {
    CameraViewOrder(x, y, z, cosPitch, sinPitch, cosYaw, sinYaw, cosRoll, sinRoll);
    var rz := RotationZ(4, 4, cosRoll, sinRoll);
    var rx := RotationX(4, 4, cosPitch, sinPitch);
    var ry := RotationY(4, 4, cosYaw, sinYaw);
    var t := Translation(4, 4, -x, -y, -z);
    assert Affine(rz) && Affine(rx) && Affine(ry) && Affine(t);
    AffineProduct(rz, rx);
    AffineProduct(Product(rz, rx, 4, 4, 4), ry);
    AffineProduct(Product(Product(rz, rx, 4, 4, 4), ry, 4, 4, 4), t);
  }

  // ---------------------------------------------------------------------
  // The 3 x 3 inverse
  // ---------------------------------------------------------------------

  /** m has three rows, each with at least three entries. */
  predicate Has3x3(m: Grid)
  {
    |m| == 3 && forall i :: 0 <= i < 3 ==> 3 <= |m[i]|
  }

  /** The determinant of the upper-left 3 x 3 block, term by term as inverse3 writes it. */
  function Det3(m: Grid): real
    requires Has3x3(m)
  {
    Mul(Mul(m[0][0], m[1][1]), m[2][2])
    + Mul(Mul(m[1][0], m[2][1]), m[0][2])
    + Mul(Mul(m[2][0], m[0][1]), m[1][2])
    - Mul(Mul(m[0][0], m[2][1]), m[1][2])
    - Mul(Mul(m[1][0], m[0][1]), m[2][2])
    - Mul(Mul(m[2][0], m[1][1]), m[0][2])
  }

  /** The signed 2 x 2 minors: entry (i, j) is the cofactor of m[i][j]. */
  function Cofactors3(m: Grid): (c: Grid)
    requires Has3x3(m)
    ensures IsShape(c, 3, 3)
  {
    [[  Mul(m[1][1], m[2][2]) - Mul(m[2][1], m[1][2]),
      -(Mul(m[1][0], m[2][2]) - Mul(m[2][0], m[1][2])),
        Mul(m[1][0], m[2][1]) - Mul(m[2][0], m[1][1])],
     [-(Mul(m[0][1], m[2][2]) - Mul(m[2][1], m[0][2])),
        Mul(m[0][0], m[2][2]) - Mul(m[2][0], m[0][2]),
      -(Mul(m[0][0], m[2][1]) - Mul(m[2][0], m[0][1]))],
     [  Mul(m[0][1], m[1][2]) - Mul(m[1][1], m[0][2]),
      -(Mul(m[0][0], m[1][2]) - Mul(m[1][0], m[0][2])),
        Mul(m[0][0], m[1][1]) - Mul(m[1][0], m[0][1])]]
  }

  /** What inverse3 writes: every cofactor times 1/det, in the cofactor's own place. */
  function InverseAsWritten(m: Grid): (g: Grid)
    requires Has3x3(m) && Det3(m) != 0.0
    ensures IsShape(g, 3, 3)
  {
    var c := Cofactors3(m);
    var inv := 1.0 / Det3(m);
    seq(3, i requires 0 <= i < 3 => seq(3, j requires 0 <= j < 3 => Mul(c[i][j], inv)))
  }

  /** The inverse: the cofactors transposed (the adjugate) times 1/det. */
  function Inverse3(m: Grid): (g: Grid)
    requires Has3x3(m) && Det3(m) != 0.0
    ensures IsShape(g, 3, 3)
  {
    var c := Cofactors3(m);
    var inv := 1.0 / Det3(m);
    seq(3, i requires 0 <= i < 3 => seq(3, j requires 0 <= j < 3 => Mul(c[j][i], inv)))
  }

  /** The upper-left 3 x 3 block. */
  function Block3(m: Grid): (b: Grid)
    requires Has3x3(m)
    ensures IsShape(b, 3, 3) && Has3x3(b)
  {
    [m[0][..3], m[1][..3], m[2][..3]]
  }

  /**
   * Laplace expansion of the determinant of [[a, b, c], [d, e, f], [g, h, k]]
   * along each of its rows: each is a polynomial identity in the nine entries.
   */
  lemma LaplaceRow0(a: real, b: real, c: real, d: real, e: real, f: real, g: real, h: real, k: real)
    ensures Mul(a, Mul(e, k) - Mul(h, f)) + Mul(b, -(Mul(d, k) - Mul(g, f))) + Mul(c, Mul(d, h) - Mul(g, e))
         == Mul(Mul(a, e), k) + Mul(Mul(d, h), c) + Mul(Mul(g, b), f)
      - Mul(Mul(a, h), f) - Mul(Mul(d, b), k) - Mul(Mul(g, e), c)
  {
  }

  lemma LaplaceRow1(a: real, b: real, c: real, d: real, e: real, f: real, g: real, h: real, k: real)
    ensures Mul(d, -(Mul(b, k) - Mul(h, c))) + Mul(e, Mul(a, k) - Mul(g, c)) + Mul(f, -(Mul(a, h) - Mul(g, b)))
         == Mul(Mul(a, e), k) + Mul(Mul(d, h), c) + Mul(Mul(g, b), f)
      - Mul(Mul(a, h), f) - Mul(Mul(d, b), k) - Mul(Mul(g, e), c)
  {
  }

  lemma LaplaceRow2(a: real, b: real, c: real, d: real, e: real, f: real, g: real, h: real, k: real)
    ensures Mul(g, Mul(b, f) - Mul(e, c)) + Mul(h, -(Mul(a, f) - Mul(d, c))) + Mul(k, Mul(a, e) - Mul(d, b))
         == Mul(Mul(a, e), k) + Mul(Mul(d, h), c) + Mul(Mul(g, b), f)
      - Mul(Mul(a, h), f) - Mul(Mul(d, b), k) - Mul(Mul(g, e), c)
  {
  }

  /** Expansion by alien cofactors: a row against the cofactors of another row sums to 0. */
  lemma AlienCofactors(a: real, b: real, c: real, d: real, e: real, f: real, g: real, h: real, k: real)
    ensures Mul(a, -(Mul(b, k) - Mul(h, c))) + Mul(b, Mul(a, k) - Mul(g, c)) + Mul(c, -(Mul(a, h) - Mul(g, b))) == 0.0
    ensures Mul(a, Mul(b, f) - Mul(e, c)) + Mul(b, -(Mul(a, f) - Mul(d, c))) + Mul(c, Mul(a, e) - Mul(d, b)) == 0.0
    ensures Mul(d, Mul(e, k) - Mul(h, f)) + Mul(e, -(Mul(d, k) - Mul(g, f))) + Mul(f, Mul(d, h) - Mul(g, e)) == 0.0
    ensures Mul(d, Mul(b, f) - Mul(e, c)) + Mul(e, -(Mul(a, f) - Mul(d, c))) + Mul(f, Mul(a, e) - Mul(d, b)) == 0.0
    ensures Mul(g, Mul(e, k) - Mul(h, f)) + Mul(h, -(Mul(d, k) - Mul(g, f))) + Mul(k, Mul(d, h) - Mul(g, e)) == 0.0
    ensures Mul(g, -(Mul(b, k) - Mul(h, c))) + Mul(h, Mul(a, k) - Mul(g, c)) + Mul(k, -(Mul(a, h) - Mul(g, b))) == 0.0
  {
  }

  /** The three-term entry of a product with depth 3, written out. */
  lemma Entry3(a: Grid, b: Grid, r: nat, c: nat)
    requires r < |a| && 3 <= |a[r]| && 3 <= |b| && forall t :: 0 <= t < 3 ==> c < |b[t]|
    ensures Entry(a, b, r, c, 3) == Mul(a[r][0], b[0][c]) + Mul(a[r][1], b[1][c]) + Mul(a[r][2], b[2][c])
  {
    assert Entry(a, b, r, c, 1) == Mul(a[r][0], b[0][c]);
    assert Entry(a, b, r, c, 2) == Entry(a, b, r, c, 1) + Mul(a[r][1], b[1][c]);
  }

  /** A common factor of three products can be taken out of their sum. */
  lemma FactorOut(x0: real, x1: real, x2: real, y0: real, y1: real, y2: real, s: real, inv: real)
    requires Mul(x0, y0) + Mul(x1, y1) + Mul(x2, y2) == s
    ensures Mul(x0, Mul(y0, inv)) + Mul(x1, Mul(y1, inv)) + Mul(x2, Mul(y2, inv)) == Mul(s, inv)
    ensures Mul(Mul(y0, inv), x0) + Mul(Mul(y1, inv), x1) + Mul(Mul(y2, inv), x2) == Mul(s, inv)
  {
  }

  /** Row i of m against the cofactors of row j of m. */
  function RowTimesCofactors(m: Grid, i: nat, j: nat): real
    requires IsShape(m, 3, 3) && i < 3 && j < 3
  {
    var c := Cofactors3(m);
    Mul(m[i][0], c[j][0]) + Mul(m[i][1], c[j][1]) + Mul(m[i][2], c[j][2])
  }

  /** Row i of m against the cofactors of row j: det when i == j, 0 otherwise. */
  lemma RowAgainstCofactors(m: Grid, i: nat, j: nat)
    requires IsShape(m, 3, 3) && i < 3 && j < 3
    ensures RowTimesCofactors(m, i, j) == if i == j then Det3(m) else 0.0
  {
    var a, b, c, d, e, f, g, h, k := m[0][0], m[0][1], m[0][2], m[1][0], m[1][1], m[1][2], m[2][0], m[2][1], m[2][2];
    AlienCofactors(a, b, c, d, e, f, g, h, k);
    if i == 0 {
      LaplaceRow0(a, b, c, d, e, f, g, h, k);
      assert RowTimesCofactors(m, 0, 0) == Det3(m);
      assert RowTimesCofactors(m, 0, 1) == 0.0;
      assert RowTimesCofactors(m, 0, 2) == 0.0;
    } else if i == 1 {
      LaplaceRow1(a, b, c, d, e, f, g, h, k);
      assert RowTimesCofactors(m, 1, 0) == 0.0;
      assert RowTimesCofactors(m, 1, 1) == Det3(m);
      assert RowTimesCofactors(m, 1, 2) == 0.0;
    } else {
      LaplaceRow2(a, b, c, d, e, f, g, h, k);
      assert RowTimesCofactors(m, 2, 0) == 0.0;
      assert RowTimesCofactors(m, 2, 1) == 0.0;
      assert RowTimesCofactors(m, 2, 2) == Det3(m);
    }
  }

  /** The determinant times its reciprocal is 1. */
  lemma ReciprocalCancels(det: real)
    requires det != 0.0
    ensures Mul(det, 1.0 / det) == 1.0 && Mul(0.0, 1.0 / det) == 0.0
  {
  }

  /** The adjugate over the determinant is a right inverse. */
  lemma InverseIsInverse(m: Grid)
    requires IsShape(m, 3, 3) && Det3(m) != 0.0
    ensures Product(m, Inverse3(m), 3, 3, 3) == Identity(3, 3)
  {
    var c := Cofactors3(m);
    var inv := 1.0 / Det3(m);
    var n := Inverse3(m);
    var p := Product(m, n, 3, 3, 3);
    ReciprocalCancels(Det3(m));
    forall i, j | 0 <= i < 3 && 0 <= j < 3
      ensures p[i][j] == Identity(3, 3)[i][j]
    {
      Entry3(m, n, i, j);
      RowAgainstCofactors(m, i, j);
      FactorOut(m[i][0], m[i][1], m[i][2], c[j][0], c[j][1], c[j][2], if i == j then Det3(m) else 0.0, inv);
    }
    SameCells(p, Identity(3, 3), 3, 3);
  }

  /**
   * What inverse3 writes, multiplied by the transpose of its input, is the
   * identity: the result is the transpose of the inverse.
   */
  lemma InverseAsWrittenIsTransposed(m: Grid)
    requires IsShape(m, 3, 3) && Det3(m) != 0.0
    ensures Product(InverseAsWritten(m), Transposed(m, 3, 3), 3, 3, 3) == Identity(3, 3)
    ensures InverseAsWritten(m) == Transposed(Inverse3(m), 3, 3)
  {
    var c := Cofactors3(m);
    var inv := 1.0 / Det3(m);
    var w := InverseAsWritten(m);
    var t := Transposed(m, 3, 3);
    var p := Product(w, t, 3, 3, 3);
    ReciprocalCancels(Det3(m));
    forall i, j | 0 <= i < 3 && 0 <= j < 3
      ensures p[i][j] == Identity(3, 3)[i][j]
    {
      Entry3(w, t, i, j);
      RowAgainstCofactors(m, j, i);
      FactorOut(m[j][0], m[j][1], m[j][2], c[i][0], c[i][1], c[i][2], if i == j then Det3(m) else 0.0, inv);
    }
    SameCells(p, Identity(3, 3), 3, 3);
    SameCells(w, Transposed(Inverse3(m), 3, 3), 3, 3);
  }

  /**
   * For the shear [[1, 1, 0], [0, 1, 0], [0, 0, 1]] (determinant 1) the matrix
   * inverse3 writes is not an inverse: entry (0, 0) of the product is 0.
   */
  lemma InverseAsWrittenCounterexample()
    ensures var m := [[1.0, 1.0, 0.0], [0.0, 1.0, 0.0], [0.0, 0.0, 1.0]];
      && Det3(m) == 1.0
      && InverseAsWritten(m) == [[1.0, 0.0, 0.0], [-1.0, 1.0, 0.0], [0.0, 0.0, 1.0]]
      && Product(m, InverseAsWritten(m), 3, 3, 3)[0][0] == 0.0
      && Product(m, InverseAsWritten(m), 3, 3, 3) != Identity(3, 3)
  {
    var m := [[1.0, 1.0, 0.0], [0.0, 1.0, 0.0], [0.0, 0.0, 1.0]];
    var w := InverseAsWritten(m);
    assert Det3(m) == 1.0;
    SameCells(w, [[1.0, 0.0, 0.0], [-1.0, 1.0, 0.0], [0.0, 0.0, 1.0]], 3, 3);
    Entry3(m, w, 0, 0);
    assert Product(m, w, 3, 3, 3)[0][0] != Identity(3, 3)[0][0];
  }
}
