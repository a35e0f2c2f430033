/**
 * Model and VertexGroup: vertices collected into groups, one group per
 * material, in the order the materials first appear.
 *
 * The pure part describes a model's groups as a sequence of buckets and
 * gives the reference definition of adding a vertex (AddTo) and of adding a
 * whole sequence of them (Build); the classes are proved against it.
 */
module Meshes {
  import opened Runtime
  import opened MeshTypes

  /** A group as a value: its material and its vertices in insertion order. */
  datatype Bucket = Bucket(material: MaterialRef, vertices: seq<Vertex>)

  /** No two groups share a material. */
  predicate DistinctMaterials(b: seq<Bucket>)
  {
    forall i, j :: 0 <= i < j < |b| ==> b[i].material != b[j].material
  }

  /** Every vertex of a group has the group's material, and no group is empty. */
  predicate Homogeneous(b: seq<Bucket>)
  {
    && (forall i :: 0 <= i < |b| ==> |b[i].vertices| > 0)
    && (forall i, k :: 0 <= i < |b| && 0 <= k < |b[i].vertices| ==> b[i].vertices[k].material == b[i].material)
  }

  /** The number of vertices over all groups. */
  function Total(b: seq<Bucket>): nat
  {
    if |b| == 0 then 0 else Total(b[..|b| - 1]) + |b[|b| - 1].vertices|
  }

  /** The index of the first group with material m, or |b| when there is none. */
  function FindGroup(b: seq<Bucket>, m: MaterialRef): (i: nat)
    ensures i <= |b|
    ensures i < |b| ==> b[i].material == m
    ensures forall j :: 0 <= j < i ==> b[j].material != m
  {
    if |b| == 0 then 0
    else if b[0].material == m then 0
    else 1 + FindGroup(b[1..], m)
  }

  /**
   * Model.add: the vertex goes to the end of the first group with its
   * material, or into a new group at the end when there is none.
   */
  function AddTo(b: seq<Bucket>, p: Vertex): (r: seq<Bucket>)
    ensures |r| == if FindGroup(b, p.material) < |b| then |b| else |b| + 1
    ensures forall j :: 0 <= j < |b| ==> r[j].material == b[j].material
  {
    var i := FindGroup(b, p.material);
    if i < |b| then b[i := Bucket(b[i].material, b[i].vertices + [p])]
    else b + [Bucket(p.material, [p])]
  }

  /** The groups after the vertices of ps are added to groups b, in order. */
  function AddAll(b: seq<Bucket>, ps: seq<Vertex>): (r: seq<Bucket>)
    ensures |b| <= |r| <= |b| + |ps|
  {
    if |ps| == 0 then b else AddTo(AddAll(b, ps[..|ps| - 1]), ps[|ps| - 1])
  }

  /** The groups of a new model to which the vertices of ps were added in order. */
  function Build(ps: seq<Vertex>): (r: seq<Bucket>)
    ensures |r| <= |ps|
  {
    AddAll([], ps)
  }

  /** Adding xs and then ys is adding xs + ys. */
  lemma {:induction false} AddAllConcat(b: seq<Bucket>, xs: seq<Vertex>, ys: seq<Vertex>)
    ensures AddAll(AddAll(b, xs), ys) == AddAll(b, xs + ys)
  {
    if |ys| > 0 {
      var n := |ys| - 1;
      AddAllConcat(b, xs, ys[..n]);
      assert (xs + ys)[..|xs + ys| - 1] == xs + ys[..n];
      assert (xs + ys)[|xs + ys| - 1] == ys[n];
    } else {
      assert xs + ys == xs;
    }
  }

  /** The vertices of ps with material m, in their order in ps. */
  function Only(ps: seq<Vertex>, m: MaterialRef): seq<Vertex>
  {
    if |ps| == 0 then []
    else Only(ps[..|ps| - 1], m) + (if ps[|ps| - 1].material == m then [ps[|ps| - 1]] else [])
  }

  /** Adding keeps the materials distinct and every group homogeneous and non-empty. */
  lemma AddKeepsInvariant(b: seq<Bucket>, p: Vertex)
    requires DistinctMaterials(b) && Homogeneous(b)
    ensures DistinctMaterials(AddTo(b, p)) && Homogeneous(AddTo(b, p))
  {
    var i := FindGroup(b, p.material);
    var r := AddTo(b, p);
    if i < |b| {
      forall j, k | 0 <= j < |r| && 0 <= k < |r[j].vertices|
        ensures r[j].vertices[k].material == r[j].material
      {
        if j == i && k == |b[i].vertices| {
          assert r[j].vertices[k] == p;
        }
      }
    }
  }

  /**
   * Adding neither removes nor reorders: every earlier group keeps its
   * material and its vertices as a prefix, at most one group is new, and the
   * vertex ends up last in the group of its material.
   */
  lemma AddExtends(b: seq<Bucket>, p: Vertex)
    ensures var r := AddTo(b, p);
      && |b| <= |r| <= |b| + 1
      && (forall i :: 0 <= i < |b| ==> r[i].material == b[i].material && b[i].vertices <= r[i].vertices)
      && (exists i :: 0 <= i < |r| && r[i].material == p.material && |r[i].vertices| > 0
                   && r[i].vertices[|r[i].vertices| - 1] == p)
  {
    var i := FindGroup(b, p.material);
    var r := AddTo(b, p);
    assert r[i].material == p.material && r[i].vertices[|r[i].vertices| - 1] == p;
  }

  /** The vertex count of a sequence of groups with one group replaced. */
  lemma {:induction false} TotalUpdate(b: seq<Bucket>, i: nat, x: Bucket)
    requires i < |b|
    ensures Total(b[i := x]) + |b[i].vertices| == Total(b) + |x.vertices|
    decreases |b|
  {
    var n := |b| - 1;
    if i < n {
      TotalUpdate(b[..n], i, x);
      assert b[i := x][..n] == b[..n][i := x];
    } else {
      assert b[i := x][..n] == b[..n];
    }
  }

  /** Adding a vertex adds exactly one to the vertex count. */
  lemma AddCountsOne(b: seq<Bucket>, p: Vertex)
    ensures Total(AddTo(b, p)) == Total(b) + 1
  {
    var i := FindGroup(b, p.material);
    if i < |b| {
      TotalUpdate(b, i, Bucket(b[i].material, b[i].vertices + [p]));
    } else {
      assert (b + [Bucket(p.material, [p])])[..|b|] == b;
    }
  }

  /** Adding vertices one by one keeps the materials distinct and the groups homogeneous. */
  lemma {:induction false} BuildKeepsInvariant(ps: seq<Vertex>)
    ensures DistinctMaterials(Build(ps)) && Homogeneous(Build(ps))
  {
    if |ps| > 0 {
      BuildKeepsInvariant(ps[..|ps| - 1]);
      AddKeepsInvariant(Build(ps[..|ps| - 1]), ps[|ps| - 1]);
    }
  }

  /** Adding the vertices of ps one by one gives a model of |ps| vertices. */
  lemma {:induction false} BuildCounts(ps: seq<Vertex>)
    ensures Total(Build(ps)) == |ps|
  {
    if |ps| > 0 {
      BuildCounts(ps[..|ps| - 1]);
      AddCountsOne(Build(ps[..|ps| - 1]), ps[|ps| - 1]);
    }
  }

  /** Every material of ps has a group once the vertices of ps are added. */
  lemma {:induction false} BuildCovers(ps: seq<Vertex>)
    ensures forall k :: 0 <= k < |ps| ==> FindGroup(Build(ps), ps[k].material) < |Build(ps)|
  {
    if |ps| > 0 {
      var n := |ps| - 1;
      var qs, p := ps[..n], ps[n];
      var b := Build(qs);
      var r := AddTo(b, p);
      assert r == Build(ps);
      BuildCovers(qs);
      forall k | 0 <= k < |ps|
        ensures FindGroup(r, ps[k].material) < |r|
      {
        if k < n {
          assert ps[k] == qs[k];
          FindKept(b, p, ps[k].material);
        } else {
          var j := FindGroup(b, p.material);
          assert r[j].material == p.material;
          FindFinds(r, j, p.material);
        }
      }
    }
  }

  /**
   * Adding the vertices of ps in order makes one group per material of ps,
   * each holding exactly the vertices of ps with that material, in their
   * order in ps.
   */
  lemma {:induction false} BuildGroupsByMaterial(ps: seq<Vertex>)
    ensures forall i :: 0 <= i < |Build(ps)| ==> Build(ps)[i].vertices == Only(ps, Build(ps)[i].material)
  {
    if |ps| > 0 {
      var n := |ps| - 1;
      var qs, p := ps[..n], ps[n];
      var b := Build(qs);
      assert AddTo(b, p) == Build(ps);
      assert ps == qs + [p];
      BuildGroupsByMaterial(qs);
      BuildKeepsInvariant(qs);
      if FindGroup(b, p.material) == |b| {
        BuildCovers(qs);
        forall k | 0 <= k < |qs|
          ensures qs[k].material != p.material
        {
          assert FindGroup(b, qs[k].material) < |b|;
        }
        NoneWithMaterial(qs, p.material);
      }
      AddToOnly(b, qs, p);
    }
  }

  /** When every group holds the vertices of qs with its material, so it does after adding p. */
  lemma AddToOnly(b: seq<Bucket>, qs: seq<Vertex>, p: Vertex)
    requires DistinctMaterials(b)
    requires forall i :: 0 <= i < |b| ==> b[i].vertices == Only(qs, b[i].material)
    requires FindGroup(b, p.material) == |b| ==> Only(qs, p.material) == []
    ensures var r := AddTo(b, p);
      forall i :: 0 <= i < |r| ==> r[i].vertices == Only(qs + [p], r[i].material)
  {
    var r := AddTo(b, p);
    assert (qs + [p])[..|qs|] == qs;
    forall i | 0 <= i < |r|
      ensures r[i].vertices == Only(qs + [p], r[i].material)
    {
      assert Only(qs + [p], r[i].material) == Only(qs, r[i].material) + (if p.material == r[i].material then [p] else []);
    }
  }

  /** A group with material m is found, at that index or an earlier one. */
  lemma FindFinds(b: seq<Bucket>, i: nat, m: MaterialRef)
    requires i < |b| && b[i].material == m
    ensures FindGroup(b, m) <= i
  {
  }

  /** A material that has a group keeps one when a vertex is added. */
  lemma FindKept(b: seq<Bucket>, p: Vertex, m: MaterialRef)
    requires FindGroup(b, m) < |b|
    ensures FindGroup(AddTo(b, p), m) < |AddTo(b, p)|
  {
    var i := FindGroup(b, m);
    assert AddTo(b, p)[i].material == m;
    FindFinds(AddTo(b, p), i, m);
  }

  /** A material that no vertex of ps has selects nothing from ps. */
  lemma {:induction false} NoneWithMaterial(ps: seq<Vertex>, m: MaterialRef)
    requires forall k :: 0 <= k < |ps| ==> ps[k].material != m
    ensures Only(ps, m) == []
  {
    if |ps| > 0 {
      var n := |ps| - 1;
      assert forall k :: 0 <= k < n ==> ps[..n][k] == ps[k];
      NoneWithMaterial(ps[..n], m);
    }
  }

  /** VertexGroup: the vertices of one material, in insertion order. */
  class VertexGroup {
    const material: MaterialRef
    var vertices: seq<Vertex>

    /** Every vertex has the group's material. */
    ghost predicate Valid()
      reads this
    {
      forall k :: 0 <= k < |vertices| ==> vertices[k].material == material
    }

    /** A new, empty group for the material, which never changes afterwards. */
    constructor(material: MaterialRef)
      ensures Valid() && this.material == material && vertices == []
    {
      this.material := material;
      vertices := [];
    }

    /** size: the number of vertices added. */
    function Size(): (n: nat)
      reads this
      ensures n == |vertices|
    {
      |vertices|
    }

    /** get: the index-th vertex added; ArrayList.get throws for an index out of range. */
    function Get(index: int): (r: Result<Vertex>)
      reads this
      ensures r.Ok? <==> 0 <= index < |vertices|
      ensures r.Ok? ==> r.value == vertices[index]
      ensures r.Err? ==> r.error == IndexOutOfBounds
    {
      if 0 <= index < |vertices| then Ok(vertices[index]) else Err(IndexOutOfBounds)
    }

    /**
     * add: a vertex of another material is refused with
     * IllegalArgumentException and the group stays as it was; otherwise the
     * vertex is appended.
     */
    method Add(p: Vertex) returns (o: Outcome)
      requires Valid()
      modifies this
      ensures Valid()
      ensures o.Pass? <==> p.material == material
      ensures o.Fail? ==> o.error == IllegalArgument && vertices == old(vertices)
      ensures o.Pass? ==> vertices == old(vertices) + [p]
    {
      if p.material != material {
        return Fail(IllegalArgument);
      }
      vertices := vertices + [p];
      o := Pass;
    }
  }

  /** Model: the vertex groups, one per material, in the order they were created. */
  class Model {
    var groups: seq<VertexGroup>
    /** The groups as values. */
    ghost var Contents: seq<Bucket>
    ghost var Repr: set<object>

    ghost predicate Valid()
      reads this, Repr
    {
      && Repr == (set g | g in groups)
      && (forall i, j :: 0 <= i < j < |groups| ==> groups[i] != groups[j])
      && |Contents| == |groups|
      && (forall i :: 0 <= i < |groups| ==>
            && groups[i].Valid() && |groups[i].vertices| > 0
            && Contents[i] == Bucket(groups[i].material, groups[i].vertices))
      && DistinctMaterials(Contents)
    }

    /** The homogeneity of the groups, as a property of the values. */
    lemma ValidContents()
      requires Valid()
      ensures DistinctMaterials(Contents) && Homogeneous(Contents)
    {
    }

    /** A new model has no groups. */
    constructor()
      ensures Valid() && fresh(Repr) && Contents == []
    {
      groups := [];
      Contents := [];
      Repr := {};
    }

    /**
     * size: the number of groups (not of vertices, as its documentation
     * says), which is at most the number of vertices since no group is empty.
     */
    function Size(): (n: nat)
      requires Valid()
      reads this, Repr
      ensures n == |Contents| && n <= Total(Contents)
    {
      GroupsAtMostVertices(Contents);
      |groups|
    }

    /** get: the index-th group; ArrayList.get throws for an index out of range. */
    function Get(index: int): (r: Result<VertexGroup>)
      reads this
      ensures r.Ok? <==> 0 <= index < |groups|
      ensures r.Ok? ==> r.value == groups[index]
      ensures r.Err? ==> r.error == IndexOutOfBounds
    {
      if 0 <= index < |groups| then Ok(groups[index]) else Err(IndexOutOfBounds)
    }

    /**
     * add: searches the groups in order for one with the vertex's material
     * (compared by reference) and appends there, or appends a new group.
     */
    method Add(p: Vertex)
      requires Valid()
      modifies this, Repr
      ensures Valid() && fresh(Repr - old(Repr))
      ensures Contents == AddTo(old(Contents), p)
    {
      var i := 0;
      while i < |groups|
        invariant 0 <= i <= |groups|
        invariant forall j :: 0 <= j < i ==> groups[j].material != p.material
      {
        if groups[i].material == p.material {
          assert FindGroup(Contents, p.material) == i;
          AddAt(i, p);
          return;
        }
        i := i + 1;
      }
      assert FindGroup(Contents, p.material) == |Contents|;
      AddGroup(p);
    }

    /** The group found by add takes the vertex. */
    method AddAt(i: nat, p: Vertex)
      requires Valid() && i < |groups| && groups[i].material == p.material
      modifies this, groups[i]
      ensures Valid() && Repr == old(Repr)
      ensures Contents == old(Contents)[i := Bucket(p.material, old(Contents)[i].vertices + [p])]
    {
      var group := groups[i];
      var o := group.Add(p);
      Contents := Contents[i := Bucket(group.material, group.vertices)];
      assert forall j :: 0 <= j < |groups| && j != i ==> groups[j] != group;
    }

    /** No group has the vertex's material: a new group holding it goes at the end. */
    method AddGroup(p: Vertex)
      requires Valid() && forall j :: 0 <= j < |groups| ==> groups[j].material != p.material
      modifies this
      ensures Valid() && fresh(Repr - old(Repr))
      ensures Contents == old(Contents) + [Bucket(p.material, [p])]
    {
      var group := new VertexGroup(p.material);
      var o := group.Add(p);
      groups := groups + [group];
      Contents := Contents + [Bucket(p.material, [p])];
      Repr := Repr + {group};
    }
  }

  /** Non-empty groups: there are at most as many groups as vertices. */
  lemma {:induction false} GroupsAtMostVertices(b: seq<Bucket>)
    requires forall i :: 0 <= i < |b| ==> |b[i].vertices| > 0
    ensures |b| <= Total(b)
  {
    if |b| > 0 {
      GroupsAtMostVertices(b[..|b| - 1]);
    }
  }
}
