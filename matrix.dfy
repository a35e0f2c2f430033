/**
 * pl.tomaszkax86.math.Matrix: a rows x columns grid of floats, updated in
 * place by its methods and by static helpers that take the matrices they
 * work on, plus the java.nio.FloatBuffer operations its load and store use.
 *
 * The Java `float[][] values` is an array2: its rows are never exposed or
 * shared, so nothing is lost. The private scratch matrices `transformation`
 * and `result` are allocated on first use with the receiver's own shape;
 * `transform`, `inverse` and `transpose` compute into `result` and then swap
 * the two matrices' buffers. Repr is the receiver's footprint: itself, its
 * buffer and the scratch matrices with their buffers.
 */
module Matrices {
  import opened Runtime
  import opened Grids

  /** The contents of a two-dimensional array, row by row. */
  function GridOf(a: array2<real>): (g: Grid)
    reads a
    ensures IsShape(g, a.Length0, a.Length1)
    ensures forall i, j :: 0 <= i < a.Length0 && 0 <= j < a.Length1 ==> g[i][j] == a[i, j]
  {
    seq(a.Length0, i requires 0 <= i < a.Length0 reads a =>
      seq(a.Length1, j requires 0 <= j < a.Length1 reads a => a[i, j]))
  }

  /** inverse3 refuses determinants whose magnitude is below 1e-6f (taken as the real 10^-6). */
  const INVERSE_EPSILON: real := 0.000001

  function Min(a: nat, b: nat): nat
  {
    if a < b then a else b
  }

  /** The 4 x 4 transformations loadCameraView loads into its scratch matrix. */
  datatype Builder =
    | RotateX(cos: real, sin: real)
    | RotateY(cos: real, sin: real)
    | RotateZ(cos: real, sin: real)
    | Move(dx: real, dy: real, dz: real)

  function BuilderGrid(b: Builder): (g: Grid)
    ensures IsShape(g, 4, 4)
  {
    match b
    case RotateX(c, s) => RotationX(4, 4, c, s)
    case RotateY(c, s) => RotationY(4, 4, c, s)
    case RotateZ(c, s) => RotationZ(4, 4, c, s)
    case Move(dx, dy, dz) => Translation(4, 4, dx, dy, dz)
  }

  class Matrix {
    const rows: nat
    const columns: nat
    var values: array2<real>
    var transformation: Matrix?
    var result: Matrix?
    ghost var Repr: set<object>

    /** The buffer has the matrix's shape. */
    predicate Shaped()
      reads this
    {
      values.Length0 == rows && values.Length1 == columns
    }

    /** The scratch matrices have the receiver's shape and buffers of their own. */
    ghost predicate Valid()
      reads this, result, transformation
    {
      && Shaped()
      && (result != null ==>
            && result != this && result.rows == rows && result.columns == columns
            && result.Shaped() && result.values != values)
      && (transformation != null ==>
            && transformation != this && transformation != result
            && transformation.rows == rows && transformation.columns == columns
            && transformation.Shaped() && transformation.values != values
            && (result != null ==> transformation.values != result.values))
      && Repr == {this, values}
                 + (if result != null then {result, result.values} else {})
                 + (if transformation != null then {transformation, transformation.values} else {})
    }

    /** The matrix's entries. */
    function Cells(): Grid
      reads this, values
    {
      GridOf(values)
    }

    /** What the result scratch holds: zeros until it is first allocated. */
    ghost function ScratchCells(): (g: Grid)
      requires Valid()
      reads this, Repr
      ensures IsShape(g, rows, columns)
    {
      if result == null then Fill(rows, columns, 0.0) else result.Cells()
    }

    /** Matrix(rows, columns): all entries 0. */
    constructor(rows: nat, columns: nat)
      ensures Valid() && fresh(Repr)
      ensures this.rows == rows && this.columns == columns
      ensures result == null && transformation == null
      ensures Cells() == Fill(rows, columns, 0.0)
    {
      this.rows := rows;
      this.columns := columns;
      values := new real[rows, columns]((i, j) => 0.0);
      result := null;
      transformation := null;
      new;
      Repr := {this, values};
      assert Cells() == Fill(rows, columns, 0.0) by {
        SameCells(Cells(), Fill(rows, columns, 0.0), rows, columns);
      }
    }

    /** Matrix(size): the square size x size zero matrix. */
    constructor Square(size: nat)
      ensures Valid() && fresh(Repr)
      ensures rows == size && columns == size
      ensures result == null && transformation == null
      ensures Cells() == Fill(size, size, 0.0)
    {
      rows := size;
      columns := size;
      values := new real[size, size]((i, j) => 0.0);
      result := null;
      transformation := null;
      new;
      Repr := {this, values};
      assert Cells() == Fill(size, size, 0.0) by {
        SameCells(Cells(), Fill(size, size, 0.0), size, size);
      }
    }

    function Get(row: nat, column: nat): (x: real)
      requires Shaped() && row < rows && column < columns
      reads this, values
      ensures x == Cells()[row][column]
    {
      values[row, column]
    }

    method Set(row: nat, column: nat, value: real)
      requires Shaped() && row < rows && column < columns
      modifies values
      ensures Cells() == Put(old(Cells()), row, column, value)
    {
      values[row, column] := value;
      SameCells(Cells(), Put(old(Cells()), row, column, value), rows, columns);
    }

    /** getRow: copies the `columns` cells of row `row` to the front of dst. */
    method GetRow(row: nat, dst: array<real>)
      requires Shaped() && row < rows && columns <= dst.Length
      modifies dst
      ensures dst[..] == Cells()[row] + old(dst[columns..])
    {
      var i := 0;
      while i < columns
        invariant 0 <= i <= columns
        invariant dst[..i] == Cells()[row][..i]
        invariant dst[i..] == old(dst[i..])
      {
        dst[i] := values[row, i];
        i := i + 1;
      }
    }

    /** setRow: row `row` becomes the first `columns` cells of src. */
    method SetRow(row: nat, src: array<real>)
      requires Shaped() && row < rows && columns <= src.Length
      modifies values
      ensures Cells() == WithRow(old(Cells()), row, src[..columns])
    {
      var i := 0;
      while i < columns
        invariant 0 <= i <= columns
        invariant forall r, c :: 0 <= r < rows && 0 <= c < columns ==>
          values[r, c] == if r == row && c < i then src[c] else old(values[r, c])
      {
        values[row, i] := src[i];
        i := i + 1;
      }
      SameCells(Cells(), WithRow(old(Cells()), row, src[..columns]), rows, columns);
    }

    /**
     * getColumn: copies the `rows` cells of column `column` to the front of
     * dst. The column is only read inside the loop, so with no rows any
     * column is accepted and nothing changes.
     */
    method GetColumn(column: int, dst: array<real>)
      requires Shaped() && (rows == 0 || 0 <= column < columns) && rows <= dst.Length
      modifies dst
      ensures rows == 0 ==> dst[..] == old(dst[..])
      ensures 0 < rows ==> dst[..] == ColumnOf(Cells(), column) + old(dst[rows..])
    {
      var i := 0;
      while i < rows
        invariant 0 <= i <= rows
        invariant 0 < rows ==> dst[..i] == ColumnOf(Cells(), column)[..i]
        invariant dst[i..] == old(dst[i..])
      {
        dst[i] := values[i, column];
        i := i + 1;
      }
    }

    /** setColumn: column `column` becomes the first `rows` cells of src; with no rows any column is accepted. */
    method SetColumn(column: int, src: array<real>)
      requires Shaped() && (rows == 0 || 0 <= column < columns) && rows <= src.Length
      modifies values
      ensures rows == 0 ==> Cells() == old(Cells())
      ensures 0 < rows ==> Cells() == WithColumn(old(Cells()), column, src[..])
    {
      var i := 0;
      while i < rows
        invariant 0 <= i <= rows
        invariant forall r, c :: 0 <= r < rows && 0 <= c < columns ==>
          values[r, c] == if c == column && r < i then src[r] else old(values[r, c])
      {
        values[i, column] := src[i];
        i := i + 1;
      }
      if 0 < rows {
        SameCells(Cells(), WithColumn(old(Cells()), column, src[..]), rows, columns);
      } else {
        assert Cells() == [] == old(Cells());
      }
    }

    /** addRow: row `row` gains multiplier times row `other`; with no columns any rows are accepted. */
    method AddRow(row: int, other: int, multiplier: real)
      requires Shaped() && (columns == 0 || (0 <= row < rows && 0 <= other < rows))
      modifies values
      ensures columns == 0 ==> Cells() == old(Cells())
      ensures 0 < columns ==> Cells() == AddRows(old(Cells()), rows, columns, row, other, multiplier)
    {
      ghost var g := Cells();
      var i := 0;
      while i < columns
        invariant 0 <= i <= columns
        invariant forall r, c :: 0 <= r < rows && 0 <= c < columns ==>
          values[r, c] == if r == row && c < i then g[row][c] + Mul(multiplier, g[other][c]) else g[r][c]
      {
        values[row, i] := values[row, i] + Mul(multiplier, values[other, i]);
        i := i + 1;
      }
      if 0 < columns {
        SameCells(Cells(), AddRows(g, rows, columns, row, other, multiplier), rows, columns);
      } else {
        SameCells(Cells(), g, rows, columns);
      }
    }

    /** addColumn: column `column` gains multiplier times column `other`; with no rows any columns are accepted. */
    method AddColumn(column: int, other: int, multiplier: real)
      requires Shaped() && (rows == 0 || (0 <= column < columns && 0 <= other < columns))
      modifies values
      ensures rows == 0 ==> Cells() == old(Cells())
      ensures 0 < rows ==> Cells() == AddColumns(old(Cells()), rows, columns, column, other, multiplier)
    {
      ghost var g := Cells();
      var i := 0;
      while i < rows
        invariant 0 <= i <= rows
        invariant forall r, c :: 0 <= r < rows && 0 <= c < columns ==>
          values[r, c] == if c == column && r < i then g[r][column] + Mul(multiplier, g[r][other]) else g[r][c]
      {
        values[i, column] := values[i, column] + Mul(multiplier, values[i, other]);
        i := i + 1;
      }
      if 0 < rows {
        SameCells(Cells(), AddColumns(g, rows, columns, column, other, multiplier), rows, columns);
      } else {
        assert Cells() == [] == g;
      }
    }

    /** loadIdentity: 1 on the diagonal and 0 elsewhere, whatever the shape. */
    method LoadIdentity()
      requires Shaped()
      modifies values
      ensures Cells() == Identity(rows, columns)
    {
      var row := 0;
      while row < rows
        invariant 0 <= row <= rows
        invariant forall r, c :: 0 <= r < row && 0 <= c < columns ==>
          values[r, c] == if r == c then 1.0 else 0.0
      {
        var column := 0;
        while column < columns
          invariant 0 <= column <= columns
          invariant forall r, c :: 0 <= r < rows && 0 <= c < columns && (r < row || (r == row && c < column)) ==>
            values[r, c] == if r == c then 1.0 else 0.0
        {
          values[row, column] := if row == column then 1.0 else 0.0;
          column := column + 1;
        }
        row := row + 1;
      }
      SameCells(Cells(), Identity(rows, columns), rows, columns);
    }

    /** loadTranslation: the identity with dx, dy, dz added to the top of column 3. */
    method LoadTranslation(dx: real, dy: real, dz: real)
      requires Shaped() && rows >= 3 && columns >= 4
      modifies values
      ensures Cells() == Translation(rows, columns, dx, dy, dz)
    {
      LoadIdentity();
      Set(0, 3, values[0, 3] + dx);
      Set(1, 3, values[1, 3] + dy);
      Set(2, 3, values[2, 3] + dz);
    }

    /** loadScale: the identity with sx, sy, sz on the first three diagonal cells. */
    method LoadScale(sx: real, sy: real, sz: real)
      requires Shaped() && rows >= 3 && columns >= 3
      modifies values
      ensures Cells() == Scaling(rows, columns, sx, sy, sz)
    {
      LoadIdentity();
      Set(0, 0, sx);
      Set(1, 1, sy);
      Set(2, 2, sz);
    }

    /** loadOrtho: maps the box [left, right] x [bottom, top] x [-near, -far] to the unit cube. */
    method LoadOrtho(left: real, right: real, bottom: real, top: real, near: real, far: real)
      requires Shaped() && rows >= 3 && columns >= 4
      requires right != left && top != bottom && far != near
      modifies values
      ensures Cells() == Ortho(rows, columns, left, right, bottom, top, near, far)
    {
      var d0, d1, d2 := 2.0 / (right - left), 2.0 / (top - bottom), -2.0 / (far - near);
      var o0, o1, o2 := -(right + left) / (right - left), -(top + bottom) / (top - bottom), -(far + near) / (far - near);
      LoadDiagonalAndOffset(d0, d1, d2, o0, o1, o2);
    }

    /** The identity with d0, d1, d2 on the diagonal and o0, o1, o2 in the fourth column. */
    method LoadDiagonalAndOffset(d0: real, d1: real, d2: real, o0: real, o1: real, o2: real)
      requires Shaped() && rows >= 3 && columns >= 4
      modifies values
      ensures Cells() == DiagonalAndOffset(rows, columns, d0, d1, d2, o0, o1, o2)
    {
      LoadIdentity();
      Set(0, 0, d0);
      Set(1, 1, d1);
      Set(2, 2, d2);
      Set(0, 3, o0);
      Set(1, 3, o1);
      Set(2, 3, o2);
    }

    /** loadOrtho2D: loadOrtho with near -1 and far 1. */
    method LoadOrtho2D(left: real, right: real, bottom: real, top: real)
      requires Shaped() && rows >= 3 && columns >= 4
      requires right != left && top != bottom
      modifies values
      ensures Cells() == Ortho2D(rows, columns, left, right, bottom, top)
    {
      LoadOrtho(left, right, bottom, top, -1.0, 1.0);
    }

    /** loadRotationX for an angle whose cosine and sine are given. */
    method LoadRotationX(cos: real, sin: real)
      requires Shaped() && rows >= 3 && columns >= 3
      modifies values
      ensures Cells() == RotationX(rows, columns, cos, sin)
    {
      LoadIdentity();
      Set(1, 1, cos);
      Set(1, 2, -sin);
      Set(2, 1, sin);
      Set(2, 2, cos);
    }

    /** loadRotationY for an angle whose cosine and sine are given. */
    method LoadRotationY(cos: real, sin: real)
      requires Shaped() && rows >= 3 && columns >= 3
      modifies values
      ensures Cells() == RotationY(rows, columns, cos, sin)
    {
      LoadIdentity();
      Set(0, 0, cos);
      Set(0, 2, sin);
      Set(2, 0, -sin);
      Set(2, 2, cos);
    }

    /** loadRotationZ for an angle whose cosine and sine are given. */
    method LoadRotationZ(cos: real, sin: real)
      requires Shaped() && rows >= 3 && columns >= 3
      modifies values
      ensures Cells() == RotationZ(rows, columns, cos, sin)
    {
      LoadIdentity();
      Set(0, 0, cos);
      Set(0, 1, -sin);
      Set(1, 0, sin);
      Set(1, 1, cos);
    }

    // -------------------------------------------------------------------
    // Static operations on the matrices they are given
    // -------------------------------------------------------------------

    /**
     * multiply: throws unless first.columns == result.columns and
     * first.columns == second.rows; otherwise writes the product into the
     * upper-left first.rows x second.columns block of result. Result cells
     * are only written inside the loops, so when the product is empty (no
     * rows or no columns) result may be of any size.
     */
    static method Multiply(first: Matrix, second: Matrix, result: Matrix) returns (o: Outcome)
      requires first.Shaped() && second.Shaped() && result.Shaped()
      requires result.values != first.values && result.values != second.values
      requires first.columns == result.columns && first.columns == second.rows ==>
        first.rows == 0 || second.columns == 0 || (first.rows <= result.rows && second.columns <= result.columns)
      modifies result.values
      ensures o == Pass <==> first.columns == result.columns && first.columns == second.rows
      ensures o.Fail? ==> o.error == IllegalArgument && result.Cells() == old(result.Cells())
      ensures o.Pass? && second.columns == 0 ==> result.Cells() == old(result.Cells())
      ensures o.Pass? && first.rows <= result.rows && (first.rows == 0 || second.columns <= result.columns) ==>
        result.Cells() == Overlay(old(result.Cells()),
        Product(old(first.Cells()), old(second.Cells()), first.rows, first.columns, second.columns),
        first.rows, second.columns)
    {
      if first.columns != result.columns || first.columns != second.rows {
        return Fail(IllegalArgument);
      }
      o := Pass;
      var rows, columns, depth := first.rows, second.columns, first.columns;
      ghost var a, b := first.Cells(), second.Cells();
      ghost var p := Product(a, b, rows, depth, columns);
      var row := 0;
      while row < rows
        invariant 0 <= row <= rows
        invariant forall r, c :: 0 <= r < result.rows && 0 <= c < result.columns ==>
          result.values[r, c] == if r < row && c < columns then p[r][c] else old(result.values[r, c])
      {
        var column := 0;
        while column < columns
          invariant 0 <= column <= columns
          invariant forall r, c :: 0 <= r < result.rows && 0 <= c < result.columns ==>
            result.values[r, c] ==
              if (r < row || (r == row && c < column)) && c < columns then p[r][c] else old(result.values[r, c])
        {
          var value := 0.0;
          var k := 0;
          while k < depth
            invariant 0 <= k <= depth
            invariant value == Entry(a, b, row, column, k)
          {
            value := value + Mul(first.values[row, k], second.values[k, column]);
            k := k + 1;
          }
          result.values[row, column] := value;
          column := column + 1;
        }
        row := row + 1;
      }
      if rows <= result.rows && (rows == 0 || columns <= result.columns) {
        SameCells(result.Cells(), Overlay(old(result.Cells()), p, rows, columns), result.rows, result.columns);
      }
      if columns == 0 {
        SameCells(result.Cells(), old(result.Cells()), result.rows, result.columns);
      }
    }

    /** add: throws unless all three shapes agree; otherwise result = first + second, even when they share buffers. */
    static method Add(first: Matrix, second: Matrix, result: Matrix) returns (o: Outcome)
      requires first.Shaped() && second.Shaped() && result.Shaped()
      modifies result.values
      ensures o == Pass <==>
        first.rows == second.rows && first.columns == second.columns
        && first.rows == result.rows && first.columns == result.columns
      ensures o.Fail? ==> o.error == IllegalArgument && result.Cells() == old(result.Cells())
      ensures o.Pass? ==> result.Cells() == Plus(old(first.Cells()), old(second.Cells()), first.rows, first.columns)
    {
      if first.rows != second.rows || first.columns != second.columns
         || first.rows != result.rows || first.columns != result.columns {
        return Fail(IllegalArgument);
      }
      o := Pass;
      var rows, columns := first.rows, first.columns;
      ghost var a, b := first.Cells(), second.Cells();
      var row := 0;
      while row < rows
        invariant 0 <= row <= rows
        invariant forall r, c :: 0 <= r < rows && 0 <= c < columns ==>
          if r < row then result.values[r, c] == a[r][c] + b[r][c]
          else (result.values[r, c] == old(result.values[r, c])
                && first.values[r, c] == a[r][c] && second.values[r, c] == b[r][c])
      {
        var column := 0;
        while column < columns
          invariant 0 <= column <= columns
          invariant forall r, c :: 0 <= r < rows && 0 <= c < columns ==>
            if r < row || (r == row && c < column) then result.values[r, c] == a[r][c] + b[r][c]
            else (result.values[r, c] == old(result.values[r, c])
                  && first.values[r, c] == a[r][c] && second.values[r, c] == b[r][c])
        {
          result.values[row, column] := first.values[row, column] + second.values[row, column];
          column := column + 1;
        }
        row := row + 1;
      }
      SameCells(result.Cells(), Plus(a, b, rows, columns), rows, columns);
    }

    /** copy: throws unless the shapes agree; otherwise dest gets src's entries. */
    static method Copy(src: Matrix, dest: Matrix) returns (o: Outcome)
      requires src.Shaped() && dest.Shaped()
      modifies dest.values
      ensures o == Pass <==> src.rows == dest.rows && src.columns == dest.columns
      ensures o.Fail? ==> o.error == IllegalArgument && dest.Cells() == old(dest.Cells())
      ensures o.Pass? ==> dest.Cells() == old(src.Cells())
    {
      if src.rows != dest.rows || src.columns != dest.columns {
        return Fail(IllegalArgument);
      }
      o := Pass;
      ghost var s := src.Cells();
      var row := 0;
      while row < src.rows
        invariant 0 <= row <= src.rows
        invariant forall r, c :: 0 <= r < src.rows && 0 <= c < src.columns ==>
          src.values[r, c] == s[r][c]
          && dest.values[r, c] == if r < row then s[r][c] else old(dest.values[r, c])
      {
        var column := 0;
        while column < src.columns
          invariant 0 <= column <= src.columns
          invariant forall r, c :: 0 <= r < src.rows && 0 <= c < src.columns ==>
            src.values[r, c] == s[r][c]
            && dest.values[r, c] == if r < row || (r == row && c < column) then s[r][c] else old(dest.values[r, c])
        {
          dest.values[row, column] := src.values[row, column];
          column := column + 1;
        }
        row := row + 1;
      }
      SameCells(dest.Cells(), s, src.rows, src.columns);
    }

    /** swap: throws unless the shapes agree; otherwise the two matrices exchange buffers. */
    static method Swap(first: Matrix, second: Matrix) returns (o: Outcome)
      modifies first`values, second`values
      ensures o == Pass <==> first.rows == second.rows && first.columns == second.columns
      ensures o.Fail? ==>
        o.error == IllegalArgument && first.values == old(first.values) && second.values == old(second.values)
      ensures o.Pass? ==> first.values == old(second.values) && second.values == old(first.values)
    {
      if first.rows != second.rows || first.columns != second.columns {
        return Fail(IllegalArgument);
      }
      first.values, second.values := second.values, first.values;
      return Pass;
    }

    /**
     * Static transpose: throws unless dest is src.columns x src.rows;
     * otherwise dest[c][r] = src[r][c].
     */
    static method TransposeInto(src: Matrix, dest: Matrix) returns (o: Outcome)
      requires src.Shaped() && dest.Shaped() && src.values != dest.values
      modifies dest.values
      ensures o == Pass <==> src.rows == dest.columns && src.columns == dest.rows
      ensures o.Fail? ==> o.error == IllegalArgument && dest.Cells() == old(dest.Cells())
      ensures o.Pass? ==> dest.Cells() == Transposed(old(src.Cells()), src.rows, src.columns)
    {
      if src.rows != dest.columns || src.columns != dest.rows {
        return Fail(IllegalArgument);
      }
      o := Pass;
      ghost var s := src.Cells();
      var row := 0;
      while row < src.rows
        invariant 0 <= row <= src.rows
        invariant forall c, r :: 0 <= c < dest.rows && 0 <= r < dest.columns ==>
          dest.values[c, r] == if r < row then s[r][c] else old(dest.values[c, r])
      {
        var column := 0;
        while column < src.columns
          invariant 0 <= column <= src.columns
          invariant forall c, r :: 0 <= c < dest.rows && 0 <= r < dest.columns ==>
            dest.values[c, r] == if r < row || (r == row && c < column) then s[r][c] else old(dest.values[c, r])
        {
          dest.values[column, row] := src.values[row, column];
          column := column + 1;
        }
        row := row + 1;
      }
      SameCells(dest.Cells(), Transposed(s, src.rows, src.columns), dest.rows, dest.columns);
    }

    /**
     * Static inverse: throws unless the shapes agree and src has 3 rows, and
     * when the determinant is too small; otherwise writes the 3 x 3 block of
     * inverse3's result into dest. All entries are read before any is
     * written, so src and dest may be the same matrix.
     */
    static method InverseInto(src: Matrix, dest: Matrix) returns (o: Outcome)
      requires src.Shaped() && dest.Shaped()
      requires src.rows == dest.rows && src.columns == dest.columns && src.rows == 3 ==> src.columns >= 3
      modifies dest.values
      ensures src.rows != dest.rows || src.columns != dest.columns ==> o == Fail(IllegalArgument)
      ensures src.rows == dest.rows && src.columns == dest.columns && src.rows != 3 ==> o == Fail(UnsupportedOperation)
      ensures src.rows == dest.rows && src.columns == dest.columns && src.rows == 3 ==>
        && Has3x3(old(src.Cells()))
        && (o.Pass? <==> !(-INVERSE_EPSILON < Det3(old(src.Cells())) < INVERSE_EPSILON))
        && (o.Fail? ==> o.error == IllegalArgument)
      ensures o.Fail? ==> dest.Cells() == old(dest.Cells())
      ensures o.Pass? ==>
        && Has3x3(old(src.Cells())) && Det3(old(src.Cells())) != 0.0
        && dest.Cells() == Overlay(old(dest.Cells()), InverseAsWritten(old(src.Cells())), 3, 3)
    {
      if src.rows != dest.rows || src.columns != dest.columns {
        return Fail(IllegalArgument);
      }
      if src.rows != 3 {
        return Fail(UnsupportedOperation);
      }
      var s := src.Cells();
      var det := Det3(s);
      if -INVERSE_EPSILON < det < INVERSE_EPSILON {
        return Fail(IllegalArgument);
      }
      WriteBlock(dest, InverseAsWritten(s), 3, 3);
      return Pass;
    }

    /** Writes the rows x columns grid top into the upper-left block of dest. */
    static method WriteBlock(dest: Matrix, top: Grid, rows: nat, columns: nat)
      requires dest.Shaped() && rows <= dest.rows && columns <= dest.columns && IsShape(top, rows, columns)
      modifies dest.values
      ensures dest.Cells() == Overlay(old(dest.Cells()), top, rows, columns)
    {
      var row := 0;
      while row < rows
        invariant 0 <= row <= rows
        invariant forall r, c :: 0 <= r < dest.rows && 0 <= c < dest.columns ==>
          dest.values[r, c] == if r < row && c < columns then top[r][c] else old(dest.values[r, c])
      {
        var column := 0;
        while column < columns
          invariant 0 <= column <= columns
          invariant forall r, c :: 0 <= r < dest.rows && 0 <= c < dest.columns ==>
            dest.values[r, c] ==
              if (r < row || (r == row && c < column)) && c < columns then top[r][c] else old(dest.values[r, c])
        {
          dest.values[row, column] := top[row][column];
          column := column + 1;
        }
        row := row + 1;
      }
      SameCells(dest.Cells(), Overlay(old(dest.Cells()), top, rows, columns), dest.rows, dest.columns);
    }

    // -------------------------------------------------------------------
    // Operations through the scratch matrices
    // -------------------------------------------------------------------

    /** requestResult: allocates the result scratch, all zeros, on first use. */
    method RequestResult()
      requires Valid()
      modifies this`result, this`Repr
      ensures Valid() && result != null && fresh(Repr - old(Repr))
      ensures old(result) != null ==> result == old(result)
      ensures ScratchCells() == old(ScratchCells())
    {
      if result == null {
        result := new Matrix(rows, columns);
        Repr := Repr + {result, result.values};
      }
    }

    /** requestTransform: allocates the transformation scratch on first use. */
    method RequestTransform()
      requires Valid()
      modifies this`transformation, this`Repr
      ensures Valid() && transformation != null && fresh(Repr - old(Repr))
      ensures old(transformation) != null ==> transformation == old(transformation)
      ensures ScratchCells() == old(ScratchCells())
    {
      if transformation == null {
        transformation := new Matrix(rows, columns);
        Repr := Repr + {transformation, transformation.values};
      }
    }

    /**
     * transform: the receiver becomes old * t, computed into the result
     * scratch and swapped in, so t may be the receiver itself. When t has
     * fewer columns than the receiver, the columns the product does not
     * cover come from the scratch's previous contents.
     */
    method Transform(t: Matrix) returns (o: Outcome)
      requires Valid() && t.Shaped()
      requires t == this || t == transformation || t.values !in Repr
      requires t.rows == columns ==> rows == 0 || t.columns <= columns
      modifies Repr
      ensures Valid() && fresh(Repr - old(Repr)) && transformation == old(transformation)
      ensures o == Pass <==> t.rows == columns
      ensures o.Fail? ==> o.error == IllegalArgument && Cells() == old(Cells())
      ensures o.Pass? ==> Cells() == Overlay(old(ScratchCells()),
        Product(old(Cells()), old(t.Cells()), rows, columns, t.columns), rows, t.columns)
      ensures t != this ==> t.Cells() == old(t.Cells())
      ensures o.Pass? ==> ScratchCells() == old(Cells())
      ensures o.Fail? ==> ScratchCells() == old(ScratchCells())
    {
      RequestResult();
      o := Multiply(this, t, result);
      if o.Pass? {
        var swapped := Swap(this, result);
      }
    }

    /** transform by a square matrix of the receiver's size: the receiver becomes old * t. */
    method TransformSquare(t: Matrix) returns (o: Outcome)
      requires Valid() && t.Shaped() && t.rows == columns && t.columns == columns
      requires t == this || t == transformation || t.values !in Repr
      modifies Repr
      ensures Valid() && fresh(Repr - old(Repr)) && transformation == old(transformation)
      ensures o == Pass
      ensures Cells() == Product(old(Cells()), old(t.Cells()), rows, columns, columns)
      ensures t != this ==> t.Cells() == old(t.Cells())
      ensures old(t.values !in Repr) ==> t.values !in Repr && t !in Repr
      ensures ScratchCells() == old(Cells())
    {
      ghost var scratch := ScratchCells();
      ghost var p := Product(Cells(), t.Cells(), rows, columns, columns);
      o := Transform(t);
      OverlayWhole(scratch, p, rows, columns);
    }

    /** translate: the receiver becomes old * Translation(dx, dy, dz). */
    method Translate(dx: real, dy: real, dz: real) returns (o: Outcome)
      requires Valid() && rows >= 3 && columns >= 4
      modifies Repr
      ensures Valid() && fresh(Repr - old(Repr))
      ensures o == Pass <==> rows == columns
      ensures o.Fail? ==> o.error == IllegalArgument && Cells() == old(Cells())
      ensures o.Pass? ==> Cells() == Product(old(Cells()), Translation(rows, columns, dx, dy, dz), rows, columns, columns)
      ensures o.Pass? ==> ScratchCells() == old(Cells())
      ensures o.Fail? ==> ScratchCells() == old(ScratchCells())
    {
      RequestTransform();
      transformation.LoadTranslation(dx, dy, dz);
      if rows == columns {
        o := TransformSquare(transformation);
      } else {
        o := Transform(transformation);
      }
    }

    /** scale: the receiver becomes old * Scaling(sx, sy, sz). */
    method Scale(sx: real, sy: real, sz: real) returns (o: Outcome)
      requires Valid() && rows >= 3 && columns >= 3
      modifies Repr
      ensures Valid() && fresh(Repr - old(Repr))
      ensures o == Pass <==> rows == columns
      ensures o.Fail? ==> o.error == IllegalArgument && Cells() == old(Cells())
      ensures o.Pass? ==> Cells() == Product(old(Cells()), Scaling(rows, columns, sx, sy, sz), rows, columns, columns)
      ensures o.Pass? ==> ScratchCells() == old(Cells())
      ensures o.Fail? ==> ScratchCells() == old(ScratchCells())
    {
      RequestTransform();
      transformation.LoadScale(sx, sy, sz);
      if rows == columns {
        o := TransformSquare(transformation);
      } else {
        o := Transform(transformation);
      }
    }

    /** Instance transpose: only a square receiver fits its own-shaped scratch. */
    method Transpose() returns (o: Outcome)
      requires Valid()
      modifies Repr
      ensures Valid() && fresh(Repr - old(Repr))
      ensures o == Pass <==> rows == columns
      ensures o.Fail? ==> o.error == IllegalArgument && Cells() == old(Cells())
      ensures o.Pass? ==> Cells() == Transposed(old(Cells()), rows, columns)
      ensures o.Pass? ==> ScratchCells() == old(Cells())
      ensures o.Fail? ==> ScratchCells() == old(ScratchCells())
    {
      RequestResult();
      o := TransposeInto(this, result);
      if o.Pass? {
        var swapped := Swap(this, result);
      }
    }

    /**
     * Instance inverse: a non-square receiver is refused before anything
     * else; otherwise the static inverse computes into the scratch, which is
     * swapped in when it succeeds.
     */
    method Inverse() returns (o: Outcome)
      requires Valid()
      modifies Repr
      ensures Valid() && fresh(Repr - old(Repr))
      ensures rows != columns ==> o == Fail(IllegalState)
      ensures rows == columns && rows != 3 ==> o == Fail(UnsupportedOperation)
      ensures rows == columns && rows == 3 ==>
        && Has3x3(old(Cells()))
        && (o.Pass? <==> !(-INVERSE_EPSILON < Det3(old(Cells())) < INVERSE_EPSILON))
        && (o.Fail? ==> o.error == IllegalArgument)
      ensures o.Fail? ==> Cells() == old(Cells())
      ensures o.Pass? ==>
        && rows == 3 && columns == 3 && Det3(old(Cells())) != 0.0
        && Cells() == InverseAsWritten(old(Cells()))
      ensures o.Pass? ==> ScratchCells() == old(Cells())
      ensures o.Fail? ==> ScratchCells() == old(ScratchCells())
    {
      if rows != columns {
        return Fail(IllegalState);
      }
      RequestResult();
      ghost var scratch := result.Cells();
      o := InverseInto(this, result);
      if o.Pass? {
        OverlayWhole(scratch, InverseAsWritten(old(Cells())), 3, 3);
        var swapped := Swap(this, result);
      }
    }

    /**
     * loadCameraView: loads the identity, then transforms by the rotations
     * about z, x and y and the translation by minus the position, through a
     * fresh 4 x 4 matrix. cos and sin stand for the host's cosine and sine of
     * an angle in degrees, rounded to float.
     */
    method LoadCameraView(x: real, y: real, z: real, pitch: real, yaw: real, roll: real,
                          cos: real -> real, sin: real -> real) returns (o: Outcome)
      requires Valid()
      modifies Repr
      ensures Valid() && fresh(Repr - old(Repr))
      ensures o == Pass <==> columns == 4
      ensures o.Fail? ==> o.error == IllegalArgument && Cells() == Identity(rows, columns)
      ensures o.Pass? ==> Cells() == CameraView(rows, x, y, z, cos(pitch), sin(pitch), cos(yaw), sin(yaw), cos(roll), sin(roll))
    {
      var t := new Matrix.Square(4);
      LoadIdentity();
      if columns != 4 {
        t.LoadRotationZ(cos(roll), sin(roll));
        o := Transform(t);
        return;
      }
      o := CameraSteps(t, x, y, z, cos(pitch), sin(pitch), cos(yaw), sin(yaw), cos(roll), sin(roll));
    }

    /** The four transforms of loadCameraView on a receiver with 4 columns, through t. */
    method CameraSteps(t: Matrix, x: real, y: real, z: real, cosPitch: real, sinPitch: real,
                       cosYaw: real, sinYaw: real, cosRoll: real, sinRoll: real) returns (o: Outcome)
      requires Valid() && columns == 4 && Cells() == Identity(rows, 4)
      requires t.Shaped() && t.rows == 4 && t.columns == 4 && t.values !in Repr && t !in Repr
      modifies Repr, t.values
      ensures Valid() && fresh(Repr - old(Repr))
      ensures o == Pass && Cells() == CameraView(rows, x, y, z, cosPitch, sinPitch, cosYaw, sinYaw, cosRoll, sinRoll)
    {
      ghost var step0 := Cells();
      o := LoadAndTransform(t, RotateZ(cosRoll, sinRoll));
      ghost var step1 := Cells();
      o := LoadAndTransform(t, RotateX(cosPitch, sinPitch));
      ghost var step2 := Cells();
      o := LoadAndTransform(t, RotateY(cosYaw, sinYaw));
      ghost var step3 := Cells();
      o := LoadAndTransform(t, Move(-x, -y, -z));
      CameraViewSteps(rows, x, y, z, cosPitch, sinPitch, cosYaw, sinYaw, cosRoll, sinRoll,
                      step0, step1, step2, step3, Cells());
    }

    /** The four transforms of loadCameraView, applied to the identity, give the camera view. */
    static lemma CameraViewSteps(rows: nat, x: real, y: real, z: real, cosPitch: real, sinPitch: real,
                                 cosYaw: real, sinYaw: real, cosRoll: real, sinRoll: real,
                                 step0: Grid, step1: Grid, step2: Grid, step3: Grid, step4: Grid)
      requires step0 == Identity(rows, 4)
      requires step1 == Product(step0, BuilderGrid(RotateZ(cosRoll, sinRoll)), rows, 4, 4)
      requires step2 == Product(step1, BuilderGrid(RotateX(cosPitch, sinPitch)), rows, 4, 4)
      requires step3 == Product(step2, BuilderGrid(RotateY(cosYaw, sinYaw)), rows, 4, 4)
      requires step4 == Product(step3, BuilderGrid(Move(-x, -y, -z)), rows, 4, 4)
      ensures step4 == CameraView(rows, x, y, z, cosPitch, sinPitch, cosYaw, sinYaw, cosRoll, sinRoll)
    {
    }

    /** Loads a 4 x 4 builder into the separate matrix t and transforms the receiver by it. */
    method LoadAndTransform(t: Matrix, b: Builder) returns (o: Outcome)
      requires Valid() && columns == 4 && t.Shaped() && t.rows == 4 && t.columns == 4
      requires t.values !in Repr && t !in Repr
      modifies Repr, t.values
      ensures Valid() && fresh(Repr - old(Repr)) && t.values !in Repr && t !in Repr
      ensures o == Pass && Cells() == Product(old(Cells()), BuilderGrid(b), rows, 4, 4)
    {
      match b {
        case RotateX(c, s) => t.LoadRotationX(c, s);
        case RotateY(c, s) => t.LoadRotationY(c, s);
        case RotateZ(c, s) => t.LoadRotationZ(c, s);
        case Move(dx, dy, dz) => t.LoadTranslation(dx, dy, dz);
      }
      o := TransformSquare(t);
    }

    // -------------------------------------------------------------------
    // Column-major transfer through a FloatBuffer
    // -------------------------------------------------------------------

    /**
     * store: clears the buffer and puts the entries column by column; the
     * put that finds the buffer full throws, otherwise the buffer is flipped.
     */
    method Store(buffer: FloatBuffer) returns (o: Outcome)
      requires Shaped() && buffer.Valid()
      modifies buffer, buffer.data
      ensures buffer.Valid()
      ensures o == Pass <==> columns * rows <= buffer.data.Length
      ensures o.Fail? ==>
        o.error == BufferOverflow && buffer.position == buffer.data.Length && buffer.limit == buffer.data.Length
      ensures o.Pass? ==> buffer.position == 0 && buffer.limit == columns * rows
      ensures var n := Min(columns * rows, buffer.data.Length);
        buffer.data[..] == ColumnMajor(Cells(), rows, columns)[..n] + old(buffer.data[n..])
    {
      ghost var g := Cells();
      ghost var before := buffer.data[..];
      buffer.Clear();
      var column := 0;
      while column < columns
        invariant 0 <= column <= columns
        invariant buffer.Valid() && buffer.limit == buffer.data.Length
        invariant buffer.position == column * rows
        invariant buffer.data[..buffer.position] == ColumnMajor(g, rows, column)
        invariant buffer.data[buffer.position..] == before[buffer.position..]
      {
        o := StoreColumn(buffer, column, g, before);
        if o.Fail? {
          assert buffer.data[..] == buffer.data[..buffer.position];
          return;
        }
        column := column + 1;
      }
      buffer.Flip();
      o := Pass;
      assert buffer.data[..] == buffer.data[..column * rows] + buffer.data[column * rows..];
    }

    /** The inner loop of store: puts one column, stopping when the buffer is full. */
    method StoreColumn(buffer: FloatBuffer, column: nat, ghost g: Grid, ghost before: seq<real>) returns (o: Outcome)
      requires Shaped() && g == Cells() && column < columns && |before| == buffer.data.Length
      requires buffer.Valid() && buffer.limit == buffer.data.Length && buffer.position == column * rows
      requires buffer.data[..buffer.position] == ColumnMajor(g, rows, column)
      requires buffer.data[buffer.position..] == before[buffer.position..]
      modifies buffer, buffer.data
      ensures buffer.Valid() && buffer.limit == buffer.data.Length
      ensures buffer.data[buffer.position..] == before[buffer.position..]
      ensures o.Pass? ==>
        buffer.position == (column + 1) * rows && buffer.data[..buffer.position] == ColumnMajor(g, rows, column + 1)
      ensures o.Fail? ==>
        && o.error == BufferOverflow && buffer.position == buffer.data.Length && buffer.position < columns * rows
        && buffer.data[..buffer.position] == ColumnMajor(g, rows, columns)[..buffer.position]
    {
      var row := 0;
      while row < rows
        invariant 0 <= row <= rows
        invariant buffer.Valid() && buffer.limit == buffer.data.Length
        invariant buffer.position == column * rows + row
        invariant buffer.data[..buffer.position] == ColumnMajor(g, rows, column) + ColumnOf(g, column)[..row]
        invariant buffer.data[buffer.position..] == before[buffer.position..]
      {
        o := buffer.Put(values[row, column]);
        if o.Fail? {
          StoreStopsAtCapacity(g, rows, columns, column, row);
          return;
        }
        assert ColumnOf(g, column)[..row + 1] == ColumnOf(g, column)[..row] + [values[row, column]];
        row := row + 1;
      }
      assert ColumnOf(g, column)[..rows] == ColumnOf(g, column);
      o := Pass;
    }

    /** When the buffer fills up at cell (row, column), it holds a prefix of the whole layout. */
    static lemma StoreStopsAtCapacity(g: Grid, rows: nat, columns: nat, column: nat, row: nat)
      requires IsShape(g, rows, columns) && column < columns && row < rows
      ensures column * rows + row < columns * rows
      ensures ColumnMajor(g, rows, columns)[..column * rows + row]
           == ColumnMajor(g, rows, column) + ColumnOf(g, column)[..row]
    {
      FlatIndexBound(rows, columns, row, column);
      ColumnMajorPrefix(g, rows, columns, column + 1);
      var s := ColumnMajor(g, rows, columns);
      assert s[..(column + 1) * rows] == ColumnMajor(g, rows, column) + ColumnOf(g, column);
      assert column * rows + row <= (column + 1) * rows;
      assert s[..column * rows + row] == s[..(column + 1) * rows][..column * rows + row];
    }

    /**
     * load: reads the entries column by column with absolute gets; the get
     * at the first index past the limit throws, leaving the cells not yet
     * reached as they were.
     */
    method Load(buffer: FloatBuffer) returns (o: Outcome)
      requires Shaped() && buffer.Valid()
      modifies values
      ensures o == Pass <==> columns * rows <= buffer.limit
      ensures o.Fail? ==> o.error == IndexOutOfBounds
      ensures Cells() == Loaded(old(Cells()), buffer.data[..], rows, columns, buffer.limit)
    {
      ghost var g := Cells();
      ghost var data := buffer.data[..];
      var index := 0;
      var column := 0;
      while column < columns
        invariant 0 <= column <= columns && index == column * rows && index <= buffer.limit
        invariant LoadedUpTo(g, data, index)
      {
        o, index := LoadColumn(buffer, column, index, g, data);
        if o.Fail? {
          LoadedCells(g, data, index, buffer.limit);
          return;
        }
        column := column + 1;
      }
      o := Pass;
      LoadedCells(g, data, index, buffer.limit);
    }

    /**
     * The cells whose column-major index is below index hold the buffer's
     * entries there; the rest still hold their entries in g.
     */
    ghost predicate LoadedUpTo(g: Grid, data: seq<real>, index: nat)
      reads this, values
    {
      && Shaped() && IsShape(g, rows, columns) && index <= |data|
      && forall r, c :: 0 <= r < rows && 0 <= c < columns ==>
           values[r, c] == if c * rows + r < index then data[c * rows + r] else g[r][c]
    }

    /** The inner loop of load: reads one column, stopping at the limit. */
    method LoadColumn(buffer: FloatBuffer, column: nat, index: nat, ghost g: Grid, ghost data: seq<real>)
      returns (o: Outcome, next: nat)
      requires buffer.Valid() && data == buffer.data[..] && column < columns
      requires index == column * rows && index <= buffer.limit && LoadedUpTo(g, data, index)
      modifies values
      ensures LoadedUpTo(g, data, next) && next <= buffer.limit
      ensures o.Pass? ==> next == (column + 1) * rows
      ensures o.Fail? ==> o.error == IndexOutOfBounds && next == buffer.limit && next < columns * rows
    {
      next := index;
      var row := 0;
      while row < rows
        invariant 0 <= row <= rows && next == column * rows + row && next <= buffer.limit
        invariant LoadedUpTo(g, data, next)
      {
        var x := buffer.Get(next);
        if x.Err? {
          FlatIndexBound(rows, columns, row, column);
          return Fail(x.error), next;
        }
        values[row, column] := x.value;
        forall r, c | 0 <= r < rows && 0 <= c < columns
          ensures values[r, c] == if c * rows + r < next + 1 then data[c * rows + r] else g[r][c]
        {
          FlatIndexOrder(rows, r, c, row, column);
          FlatIndexOrder(rows, row, column, r, c);
        }
        next := next + 1;
        row := row + 1;
      }
      o := Pass;
    }

    /** Once load stops, the cells are those the specification of load describes. */
    lemma LoadedCells(g: Grid, data: seq<real>, index: nat, limit: nat)
      requires LoadedUpTo(g, data, index)
      requires limit <= |data| && (index == limit || (index == columns * rows && index <= limit))
      ensures Cells() == Loaded(g, data, rows, columns, limit)
    {
      forall r, c | 0 <= r < rows && 0 <= c < columns
        ensures values[r, c] == Loaded(g, data, rows, columns, limit)[r][c]
      {
        FlatIndexBound(rows, columns, r, c);
      }
      SameCells(Cells(), Loaded(g, data, rows, columns, limit), rows, columns);
    }
  }

  /**
   * The parts of java.nio.FloatBuffer that load and store use: a fixed
   * array with a position and a limit.
   */
  class FloatBuffer {
    const data: array<real>
    var position: nat
    var limit: nat

    ghost predicate Valid()
      reads this
    {
      position <= limit <= data.Length
    }

    /** FloatBuffer.allocate: position 0, limit at the capacity, all zeros. */
    constructor Allocate(capacity: nat)
      ensures Valid() && fresh(data) && data.Length == capacity
      ensures position == 0 && limit == capacity
      ensures data[..] == seq(capacity, i => 0.0)
    {
      data := new real[capacity](i => 0.0);
      position := 0;
      limit := capacity;
    }

    /** clear: position 0, limit at the capacity; the contents stay. */
    method Clear()
      modifies this
      ensures Valid() && position == 0 && limit == data.Length
    {
      position := 0;
      limit := data.Length;
    }

    /** flip: the limit moves to the position and the position to 0. */
    method Flip()
      requires Valid()
      modifies this
      ensures Valid() && limit == old(position) && position == 0
    {
      limit := position;
      position := 0;
    }

    /** Relative put: throws BufferOverflowException when the position has reached the limit. */
    method Put(x: real) returns (o: Outcome)
      requires Valid()
      modifies this, data
      ensures Valid() && limit == old(limit)
      ensures o == Pass <==> old(position) < limit
      ensures o.Fail? ==> o.error == BufferOverflow && position == old(position) && data[..] == old(data[..])
      ensures o.Pass? ==> position == old(position) + 1 && data[..] == old(data[..])[old(position) := x]
    {
      if position >= limit {
        return Fail(BufferOverflow);
      }
      data[position] := x;
      position := position + 1;
      return Pass;
    }

    /** Absolute get: throws IndexOutOfBoundsException for an index at or past the limit. */
    function Get(index: nat): (r: Result<real>)
      requires Valid()
      reads this, data
      ensures r.Ok? <==> index < limit
      ensures r.Ok? ==> r.value == data[index]
      ensures r.Err? ==> r.error == IndexOutOfBounds
    {
      if index < limit then Ok(data[index]) else Err(IndexOutOfBounds)
    }
  }
}
