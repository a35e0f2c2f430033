/**
 * The value types of the model package (VertexCoord, TextureCoord, Normal,
 * Material, Vertex) and the mutable VertexBuilder.
 *
 * Java compares materials by reference. A Material here carries an id that
 * the loader allocates from a counter, one per `new Material(...)`, so that
 * comparing two Material values compares the objects they stand for; a null
 * material is None.
 */
module MeshTypes {
  import opened Runtime

  datatype VertexCoord = VertexCoord(x: real, y: real, z: real)

  datatype TextureCoord = TextureCoord(u: real, v: real)

  datatype Normal = Normal(x: real, y: real, z: real)

  datatype Material = Material(id: nat, name: string, filename: Option<string>)

  /** A Material reference: None is null. */
  type MaterialRef = Option<Material>

  /** Vertex, with the fields of its nine-argument constructor in that order. */
  datatype Vertex = Vertex(x: real, y: real, z: real,
                           u: real, v: real,
                           nx: real, ny: real, nz: real,
                           material: MaterialRef)

  /** The position, texture coordinate and normal a vertex was built from. */
  function CoordOf(p: Vertex): VertexCoord { VertexCoord(p.x, p.y, p.z) }

  function TextureOf(p: Vertex): TextureCoord { TextureCoord(p.u, p.v) }

  function NormalOf(p: Vertex): Normal { Normal(p.nx, p.ny, p.nz) }

  /**
   * The four-argument Vertex constructor: a null position throws
   * NullPointerException, a null texture coordinate gives u = v = 0 and a
   * null normal gives the normal (0, 1, 0).
   */
  function VertexOf(vc: Option<VertexCoord>, tc: Option<TextureCoord>, n: Option<Normal>,
                    material: MaterialRef): (r: Result<Vertex>)
    ensures r.Ok? <==> vc.Some?
    ensures r.Err? ==> r.error == NullPointer
    ensures r.Ok? ==>
      && CoordOf(r.value) == vc.value && r.value.material == material
      && TextureOf(r.value) == (if tc.Some? then tc.value else TextureCoord(0.0, 0.0))
      && NormalOf(r.value) == (if n.Some? then n.value else Normal(0.0, 1.0, 0.0))
  {
    if vc.None? then Err(NullPointer)
    else
      var t := if tc.Some? then tc.value else TextureCoord(0.0, 0.0);
      var w := if n.Some? then n.value else Normal(0.0, 1.0, 0.0);
      Ok(Vertex(vc.value.x, vc.value.y, vc.value.z, t.u, t.v, w.x, w.y, w.z, material))
  }

  /** Building a vertex from its own parts gives it back: the two constructors agree. */
  lemma VertexOfParts(p: Vertex)
    ensures VertexOf(Some(CoordOf(p)), Some(TextureOf(p)), Some(NormalOf(p)), p.material) == Ok(p)
  {
  }

  /** A missing texture coordinate or normal is the same as passing the default. */
  lemma VertexOfDefaults(vc: VertexCoord, material: MaterialRef)
    ensures VertexOf(Some(vc), None, None, material)
         == VertexOf(Some(vc), Some(TextureCoord(0.0, 0.0)), Some(Normal(0.0, 1.0, 0.0)), material)
  {
  }

  /** A builder whose fields are set one by one and read off as a Vertex. */
  class VertexBuilder {
    var x: real
    var y: real
    var z: real
    var nx: real
    var ny: real
    var nz: real
    var u: real
    var v: real
    var material: MaterialRef

    /** A fresh builder: every coordinate 0, no material. */
    constructor()
      ensures ToVertex() == Vertex(0.0, 0.0, 0.0, 0.0, 0.0, 0.0, 0.0, 0.0, None)
    {
      x, y, z := 0.0, 0.0, 0.0;
      nx, ny, nz := 0.0, 0.0, 0.0;
      u, v := 0.0, 0.0;
      material := None;
    }

    /**
     * toVertex: the vertex whose getters equal this builder's, which is the
     * vertex the four-argument constructor builds from its parts.
     */
    function ToVertex(): (r: Vertex)
      reads this
      ensures r.x == x && r.y == y && r.z == z
      ensures r.u == u && r.v == v
      ensures r.nx == nx && r.ny == ny && r.nz == nz
      ensures r.material == material
      ensures VertexOf(Some(CoordOf(r)), Some(TextureOf(r)), Some(NormalOf(r)), material) == Ok(r)
    {
      Vertex(x, y, z, u, v, nx, ny, nz, material)
    }

    method SetX(x: real) returns (b: VertexBuilder)
      modifies this
      ensures b == this && ToVertex() == old(ToVertex()).(x := x)
    {
      this.x := x;
      b := this;
    }

    method SetY(y: real) returns (b: VertexBuilder)
      modifies this
      ensures b == this && ToVertex() == old(ToVertex()).(y := y)
    {
      this.y := y;
      b := this;
    }

    method SetZ(z: real) returns (b: VertexBuilder)
      modifies this
      ensures b == this && ToVertex() == old(ToVertex()).(z := z)
    {
      this.z := z;
      b := this;
    }

    method SetNX(nx: real) returns (b: VertexBuilder)
      modifies this
      ensures b == this && ToVertex() == old(ToVertex()).(nx := nx)
    {
      this.nx := nx;
      b := this;
    }

    method SetNY(ny: real) returns (b: VertexBuilder)
      modifies this
      ensures b == this && ToVertex() == old(ToVertex()).(ny := ny)
    {
      this.ny := ny;
      b := this;
    }

    method SetNZ(nz: real) returns (b: VertexBuilder)
      modifies this
      ensures b == this && ToVertex() == old(ToVertex()).(nz := nz)
    {
      this.nz := nz;
      b := this;
    }

    method SetU(u: real) returns (b: VertexBuilder)
      modifies this
      ensures b == this && ToVertex() == old(ToVertex()).(u := u)
    {
      this.u := u;
      b := this;
    }

    method SetV(v: real) returns (b: VertexBuilder)
      modifies this
      ensures b == this && ToVertex() == old(ToVertex()).(v := v)
    {
      this.v := v;
      b := this;
    }

    method SetMaterial(material: MaterialRef) returns (b: VertexBuilder)
      modifies this
      ensures b == this && ToVertex() == old(ToVertex()).(material := material)
    {
      this.material := material;
      b := this;
    }

    /** setVertexCoord(x, y, z): the position, through setX, setY and setZ. */
    method SetVertexCoord(x: real, y: real, z: real) returns (b: VertexBuilder)
      modifies this
      ensures b == this && ToVertex() == old(ToVertex()).(x := x, y := y, z := z)
    {
      var _ := SetX(x);
      var _ := SetY(y);
      var _ := SetZ(z);
      b := this;
    }

    /** setVertexCoord(x, y): the position in the plane z = 0. */
    method SetVertexCoordXY(x: real, y: real) returns (b: VertexBuilder)
      modifies this
      ensures b == this && ToVertex() == old(ToVertex()).(x := x, y := y, z := 0.0)
    {
      b := SetVertexCoord(x, y, 0.0);
    }

    /** setVertexCoord(VertexCoord): the position of a coordinate object. */
    method SetVertexCoordOf(vc: VertexCoord) returns (b: VertexBuilder)
      modifies this
      ensures b == this && CoordOf(ToVertex()) == vc
      ensures ToVertex() == old(ToVertex()).(x := vc.x, y := vc.y, z := vc.z)
    {
      b := SetVertexCoord(vc.x, vc.y, vc.z);
    }

    /** setTextureCoord(u, v), through setU and setV. */
    method SetTextureCoord(u: real, v: real) returns (b: VertexBuilder)
      modifies this
      ensures b == this && ToVertex() == old(ToVertex()).(u := u, v := v)
    {
      var _ := SetU(u);
      var _ := SetV(v);
      b := this;
    }

    /** setTextureCoord(TextureCoord). */
    method SetTextureCoordOf(tc: TextureCoord) returns (b: VertexBuilder)
      modifies this
      ensures b == this && TextureOf(ToVertex()) == tc
      ensures ToVertex() == old(ToVertex()).(u := tc.u, v := tc.v)
    {
      b := SetTextureCoord(tc.u, tc.v);
    }

    /** setNormal(nx, ny, nz), through setNX, setNY and setNZ. */
    method SetNormal(nx: real, ny: real, nz: real) returns (b: VertexBuilder)
      modifies this
      ensures b == this && ToVertex() == old(ToVertex()).(nx := nx, ny := ny, nz := nz)
    {
      var _ := SetNX(nx);
      var _ := SetNY(ny);
      var _ := SetNZ(nz);
      b := this;
    }

    /** setNormal(Normal). */
    method SetNormalOf(n: Normal) returns (b: VertexBuilder)
      modifies this
      ensures b == this && NormalOf(ToVertex()) == n
      ensures ToVertex() == old(ToVertex()).(nx := n.x, ny := n.y, nz := n.z)
    {
      b := SetNormal(n.x, n.y, n.z);
    }
  }
}
