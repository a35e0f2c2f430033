/**
 * OBJModelLoader: reads a Wavefront OBJ file line by line into a Model.
 *
 * The reader is replaced by the sequence of lines it returns, and the
 * material libraries named by `mtllib` by a map from file name to lines (a
 * name missing from it cannot be opened). Float.parseFloat and
 * Integer.parseInt are parameters: functions that either give a number or
 * fail with NumberFormatException.
 *
 * Any exception ends the load: the partly built model is never returned, so
 * a failing load is an error value and nothing else. An index into the
 * split line or into a list that is out of range (ArrayIndexOutOfBounds,
 * IndexOutOfBounds) is an error here too, because it depends on the file,
 * not on the caller.
 */
module ObjLoader {
  import opened Runtime
  import opened MeshTypes
  import opened Meshes

  // ---------------------------------------------------------------------
  // String.split with a one-character separator
  // ---------------------------------------------------------------------

  /** The pieces of s between occurrences of sep, empty ones included. */
  function Fields(s: string, sep: char): (r: seq<string>)
    ensures |r| > 0
    decreases |s|
  {
    if |s| == 0 then [""]
    else if s[0] == sep then [""] + Fields(s[1..], sep)
    else
      var rest := Fields(s[1..], sep);
      [[s[0]] + rest[0]] + rest[1..]
  }

  /** The pieces joined back together with sep between them. */
  function Join(parts: seq<string>, sep: char): string
  {
    if |parts| == 0 then ""
    else if |parts| == 1 then parts[0]
    else parts[0] + [sep] + Join(parts[1..], sep)
  }

  /** Drops the empty strings at the end. */
  function TrimEmpty(parts: seq<string>): (r: seq<string>)
    ensures r <= parts
    ensures |r| == 0 || r[|r| - 1] != ""
    ensures forall i :: |r| <= i < |parts| ==> parts[i] == ""
  {
    if |parts| > 0 && parts[|parts| - 1] == "" then TrimEmpty(parts[..|parts| - 1]) else parts
  }

  /**
   * String.split(regex) with limit 0, for a regex that is one ordinary
   * character: a string without the separator gives itself (even when
   * empty); otherwise the pieces, less the empty ones at the end.
   */
  function Split(s: string, sep: char): (r: seq<string>)
    ensures sep !in s ==> r == [s]
    ensures sep in s ==> r <= Fields(s, sep) && (|r| == 0 || r[|r| - 1] != "")
    ensures sep in s ==> forall i :: |r| <= i < |Fields(s, sep)| ==> Fields(s, sep)[i] == ""
  {
    if sep !in s then [s] else TrimEmpty(Fields(s, sep))
  }

  /** The fields of s contain no separator and join back to s. */
  lemma {:induction false} FieldsJoin(s: string, sep: char)
    ensures Join(Fields(s, sep), sep) == s
    ensures forall i :: 0 <= i < |Fields(s, sep)| ==> sep !in Fields(s, sep)[i]
    decreases |s|
  {
    if |s| > 0 {
      var rest := Fields(s[1..], sep);
      FieldsJoin(s[1..], sep);
      if s[0] == sep {
        assert Fields(s, sep) == [""] + rest;
        if |rest| == 1 {
          assert Join(Fields(s, sep), sep) == "" + [sep] + rest[0];
        } else {
          assert ([""] + rest)[1..] == rest;
        }
        assert s == [s[0]] + s[1..];
      } else {
        var r := Fields(s, sep);
        assert r == [[s[0]] + rest[0]] + rest[1..];
        if |rest| == 1 {
          assert Join(r, sep) == [s[0]] + rest[0];
        } else {
          assert r[1..] == rest[1..];
          assert Join(rest, sep) == rest[0] + [sep] + Join(rest[1..], sep);
        }
        assert s == [s[0]] + s[1..];
      }
    }
  }

  /**
   * Split keeps the pieces of s in order and drops only empty ones at the
   * end; each piece is free of the separator.
   */
  lemma SplitPieces(s: string, sep: char)
    ensures var r := Split(s, sep);
      && (forall i :: 0 <= i < |r| ==> sep !in r[i])
      && (sep in s ==> r <= Fields(s, sep) && (|r| == 0 || r[|r| - 1] != ""))
      && (sep !in s ==> r == [s] && Join(r, sep) == s)
  {
    FieldsJoin(s, sep);
  }

  /** A complete face token splits into its three indices. */
  lemma SplitFullToken()
    ensures Split("1/2/3", '/') == ["1", "2", "3"]
  {
    assert "1/2/3"[1..] == "/2/3" && "/2/3"[1..] == "2/3" && "2/3"[1..] == "/3" && "/3"[1..] == "3";
    assert "3"[1..] == "" && ['3'] + "" == "3" && ['2'] + "" == "2" && ['1'] + "" == "1";
    assert Fields("3", '/') == ["3"];
    assert Fields("/3", '/') == ["", "3"];
    assert Fields("2/3", '/') == ["2", "3"];
    assert Fields("/2/3", '/') == ["", "2", "3"];
  }

  /** A face token without a texture index keeps an empty middle piece. */
  lemma SplitEmptyMiddle()
    ensures Split("1//3", '/') == ["1", "", "3"]
  {
    assert "1//3"[1..] == "//3" && "//3"[1..] == "/3" && "/3"[1..] == "3" && "3"[1..] == "";
    assert ['3'] + "" == "3" && ['1'] + "" == "1";
    assert Fields("3", '/') == ["3"];
    assert Fields("/3", '/') == ["", "3"];
    assert Fields("//3", '/') == ["", "", "3"];
  }

  /** A trailing separator leaves no empty piece at the end. */
  lemma SplitTrailingSeparator()
    ensures Split("1/2/", '/') == ["1", "2"]
  {
    assert "1/2/"[1..] == "/2/" && "/2/"[1..] == "2/" && "2/"[1..] == "/" && "/"[1..] == "";
    assert ['2'] + "" == "2" && ['1'] + "" == "1";
    assert Fields("/", '/') == ["", ""];
    assert Fields("2/", '/') == ["2", ""];
    assert Fields("/2/", '/') == ["", "2", ""];
    assert Fields("1/2/", '/') == ["1", "2", ""];
    assert TrimEmpty(["1", "2", ""]) == ["1", "2"];
  }

  /** A string without the separator, even the empty one, is its own only piece. */
  lemma SplitWithoutSeparator()
    ensures Split("1", '/') == ["1"]
    ensures Split("", ' ') == [""]
  {
  }

  /** A line of nothing but one separator has no pieces at all. */
  lemma SplitOnlySeparator()
    ensures Split(" ", ' ') == []
  {
    assert " "[1..] == "";
    assert Fields(" ", ' ') == ["", ""];
    assert TrimEmpty(["", ""]) == [];
  }

  // ---------------------------------------------------------------------
  // Reading fields of a line
  // ---------------------------------------------------------------------

  /** parts[i], or ArrayIndexOutOfBoundsException. */
  function Token(parts: seq<string>, i: nat): (r: Result<string>)
    ensures r.Ok? <==> i < |parts|
    ensures r.Ok? ==> r.value == parts[i]
    ensures r.Err? ==> r.error == IndexOutOfBounds
  {
    if i < |parts| then Ok(parts[i]) else Err(IndexOutOfBounds)
  }

  /** Float.parseFloat(parts[i]). */
  function FloatAt(parts: seq<string>, i: nat, parseFloat: string -> Result<real>): Result<real>
  {
    var t :- Token(parts, i);
    parseFloat(t)
  }

  /** Integer.parseInt(parts[i]). */
  function IntAt(parts: seq<string>, i: nat, parseInt: string -> Result<int>): Result<int>
  {
    var t :- Token(parts, i);
    parseInt(t)
  }

  /** ArrayList.get(index), which throws for an index out of range. */
  function Element<T>(list: seq<T>, index: int): (r: Result<T>)
    ensures r.Ok? <==> 0 <= index < |list|
    ensures r.Ok? ==> r.value == list[index]
    ensures r.Err? ==> r.error == IndexOutOfBounds
  {
    if 0 <= index < |list| then Ok(list[index]) else Err(IndexOutOfBounds)
  }

  // ---------------------------------------------------------------------
  // The state of a load and the effect of one line
  // ---------------------------------------------------------------------

  /**
   * The local state of load: the three attribute lists, the material map,
   * the current material, the next material id, and every vertex handed to
   * Model.add so far, in order.
   */
  datatype Loader = Loader(coords: seq<VertexCoord>, texcoords: seq<TextureCoord>, normals: seq<Normal>,
                           materials: map<string, Material>, material: MaterialRef, nextId: nat,
                           added: seq<Vertex>)

  /**
   * A reader loop: each item in turn updates the state, and the first one
   * that throws ends the loop with that exception.
   */
  function Fold<S, T>(step: (S, T) -> Result<S>, start: S, items: seq<T>): Result<S>
  {
    if |items| == 0 then Ok(start)
    else
      var before :- Fold(step, start, items[..|items| - 1]);
      step(before, items[|items| - 1])
  }

  /** One more item: its step applied to the state after the ones before it. */
  lemma FoldNext<S, T>(step: (S, T) -> Result<S>, start: S, items: seq<T>, i: nat)
    requires i < |items| && Fold(step, start, items[..i]).Ok?
    ensures Fold(step, start, items[..i + 1]) == step(Fold(step, start, items[..i]).value, items[i])
  {
    assert items[..i + 1][..i] == items[..i];
  }

  /** Once a prefix of the items fails, the whole loop fails the same way. */
  lemma {:induction false} FoldStops<S, T>(step: (S, T) -> Result<S>, start: S, items: seq<T>, i: nat)
    requires i <= |items| && Fold(step, start, items[..i]).Err?
    ensures Fold(step, start, items) == Fold(step, start, items[..i])
    decreases |items| - i
  {
    if i < |items| {
      var n := |items| - 1;
      assert items[..n][..i] == items[..i];
      FoldStops(step, start, items[..n], i);
    } else {
      assert items[..i] == items;
    }
  }

  /** The material library state of loadMaterials: the map, the current material and the next id. */
  datatype Library = Library(materials: map<string, Material>, current: MaterialRef, nextId: nat)

  /** One face token a/b/c: 1-based indices into the position, texture and normal lists. */
  function FaceVertex(s: Loader, token: string, parseInt: string -> Result<int>): (r: Result<Vertex>)
    ensures |Split(token, '/')| < 3 ==> r.Err?
    ensures r.Ok? ==> r.value.material == s.material
    ensures r.Ok? ==> CoordOf(r.value) in s.coords && TextureOf(r.value) in s.texcoords && NormalOf(r.value) in s.normals
  {
    var temp := Split(token, '/');
    var vc :- IntAt(temp, 0, parseInt);
    var tc :- IntAt(temp, 1, parseInt);
    var n :- IntAt(temp, 2, parseInt);
    var c :- Element(s.coords, vc - 1);
    var t :- Element(s.texcoords, tc - 1);
    var w :- Element(s.normals, n - 1);
    VertexOf(Some(c), Some(t), Some(w), s.material)
  }

  /** The attribute loop's step: the vertex of one more token, after those before it. */
  function VertexStep(s: Loader, parseInt: string -> Result<int>): (seq<Vertex>, string) -> Result<seq<Vertex>>
  {
    (verts: seq<Vertex>, token: string) => WithVertex(s, parseInt, verts, token)
  }

  function WithVertex(s: Loader, parseInt: string -> Result<int>, verts: seq<Vertex>, token: string): Result<seq<Vertex>>
  {
    var v :- FaceVertex(s, token, parseInt);
    Ok(verts + [v])
  }

  /**
   * The vertices of the face tokens, one per token and in order, each with
   * the current material; the first failing token ends it.
   */
  function FaceVertices(s: Loader, tokens: seq<string>, parseInt: string -> Result<int>): (r: Result<seq<Vertex>>)
    ensures r.Ok? ==> |r.value| == |tokens|
    ensures r.Ok? ==> forall k :: 0 <= k < |tokens| ==> r.value[k].material == s.material
  {
    VertexFold(s, tokens, parseInt);
    Fold(VertexStep(s, parseInt), [], tokens)
  }

  /** Every step of the attribute loop adds one vertex with the current material. */
  lemma {:induction false} VertexFold(s: Loader, tokens: seq<string>, parseInt: string -> Result<int>)
    ensures var r := Fold(VertexStep(s, parseInt), [], tokens);
      r.Ok? ==> |r.value| == |tokens| && forall k :: 0 <= k < |tokens| ==> r.value[k].material == s.material
  {
    if |tokens| > 0 {
      var n := |tokens| - 1;
      VertexFold(s, tokens[..n], parseInt);
      var before := Fold(VertexStep(s, parseInt), [], tokens[..n]);
      if before.Ok? {
        var v := FaceVertex(s, tokens[n], parseInt);
        if v.Ok? {
          assert Fold(VertexStep(s, parseInt), [], tokens) == Ok(before.value + [v.value]);
        }
      }
    }
  }

  /** Fan triangulation: (v0, v1, v2), (v0, v2, v3), ..., nothing for fewer than 3 vertices. */
  function Fan(verts: seq<Vertex>): (r: seq<Vertex>)
    ensures |r| == if |verts| < 3 then 0 else 3 * (|verts| - 2)
    ensures |r| % 3 == 0
  {
    if |verts| < 3 then []
    else Fan(verts[..|verts| - 1]) + [verts[0], verts[|verts| - 2], verts[|verts| - 1]]
  }

  /** One line of a material library. */
  function MaterialLine(lib: Library, line: string): (r: Result<Library>)
    ensures Split(line, ' ') == [] ==> r == Err(IndexOutOfBounds)
    ensures r.Ok? ==> lib.materials.Keys <= r.value.materials.Keys
    ensures r.Ok? ==> r.value.nextId == lib.nextId || r.value.nextId == lib.nextId + 1
  {
    var parts := Split(line, ' ');
    if |parts| == 0 then Err(IndexOutOfBounds)
    else if parts[0] == "newmtl" then
      var name :- Token(parts, 1);
      var m := Material(lib.nextId, name, None);
      Ok(Library(lib.materials[name := m], Some(m), lib.nextId + 1))
    else if parts[0] == "map_Kd" then
      if lib.current.None? then Err(NullPointer)
      else
        var file :- Token(parts, 1);
        var m := Material(lib.nextId, lib.current.value.name, Some(file));
        Ok(Library(lib.materials[m.name := m], Some(m), lib.nextId + 1))
    else Ok(lib)
  }

  /** The lines of a material library, in order; the first failing line ends it. */
  function MaterialLines(lib: Library, lines: seq<string>): Result<Library>
  {
    Fold(MaterialLine, lib, lines)
  }

  /** loadMaterials: a library that cannot be opened fails with an IOException. */
  function LibraryOf(files: map<string, seq<string>>, name: string, materials: map<string, Material>,
                     nextId: nat): Result<Library>
  {
    if name !in files then Err(IO) else MaterialLines(Library(materials, None, nextId), files[name])
  }

  /** One line of an OBJ file: the line split at spaces, then the switch on its first token. */
  function Step(s: Loader, line: string, files: map<string, seq<string>>,
                parseFloat: string -> Result<real>, parseInt: string -> Result<int>): (r: Result<Loader>)
    ensures Split(line, ' ') == [] ==> r == Err(IndexOutOfBounds)
    ensures r.Ok? ==> s.coords <= r.value.coords && s.texcoords <= r.value.texcoords && s.normals <= r.value.normals
    ensures r.Ok? ==> s.added <= r.value.added && |r.value.added| % 3 == |s.added| % 3
  {
    Dispatch(s, Split(line, ' '), files, parseFloat, parseInt)
  }

  /** The switch on parts[0]; reading parts[0] of an empty array throws. */
  function Dispatch(s: Loader, parts: seq<string>, files: map<string, seq<string>>,
                    parseFloat: string -> Result<real>, parseInt: string -> Result<int>): (r: Result<Loader>)
    ensures parts == [] ==> r == Err(IndexOutOfBounds)
    ensures r.Ok? ==> s.coords <= r.value.coords && s.texcoords <= r.value.texcoords && s.normals <= r.value.normals
    ensures r.Ok? ==> s.added <= r.value.added && |r.value.added| % 3 == |s.added| % 3
  {
    if |parts| == 0 then Err(IndexOutOfBounds)
    else if parts[0] == "v" then ReadCoord(s, parts, parseFloat)
    else if parts[0] == "vt" then ReadTexCoord(s, parts, parseFloat)
    else if parts[0] == "vn" then ReadNormal(s, parts, parseFloat)
    else if parts[0] == "mtllib" then ReadLibrary(s, parts, files)
    else if parts[0] == "usemtl" then ReadUseMaterial(s, parts)
    else if parts[0] == "f" then ReadFace(s, parts, parseInt)
    else Ok(s)
  }

  /** v x y z: appends a position. */
  function ReadCoord(s: Loader, parts: seq<string>, parseFloat: string -> Result<real>): Result<Loader>
  {
    var x :- FloatAt(parts, 1, parseFloat);
    var y :- FloatAt(parts, 2, parseFloat);
    var z :- FloatAt(parts, 3, parseFloat);
    Ok(s.(coords := s.coords + [VertexCoord(x, y, z)]))
  }

  /** vt u v: appends a texture coordinate. */
  function ReadTexCoord(s: Loader, parts: seq<string>, parseFloat: string -> Result<real>): Result<Loader>
  {
    var u :- FloatAt(parts, 1, parseFloat);
    var v :- FloatAt(parts, 2, parseFloat);
    Ok(s.(texcoords := s.texcoords + [TextureCoord(u, v)]))
  }

  /** vn x y z: appends a normal. */
  function ReadNormal(s: Loader, parts: seq<string>, parseFloat: string -> Result<real>): Result<Loader>
  {
    var nx :- FloatAt(parts, 1, parseFloat);
    var ny :- FloatAt(parts, 2, parseFloat);
    var nz :- FloatAt(parts, 3, parseFloat);
    Ok(s.(normals := s.normals + [Normal(nx, ny, nz)]))
  }

  /** mtllib file: reads the library into the material map. */
  function ReadLibrary(s: Loader, parts: seq<string>, files: map<string, seq<string>>): Result<Loader>
  {
    var name :- Token(parts, 1);
    var lib :- LibraryOf(files, name, s.materials, s.nextId);
    Ok(s.(materials := lib.materials, nextId := lib.nextId))
  }

  /** usemtl name: HashMap.get, null for a name not in the map. */
  function ReadUseMaterial(s: Loader, parts: seq<string>): Result<Loader>
  {
    var name :- Token(parts, 1);
    Ok(s.(material := if name in s.materials then Some(s.materials[name]) else None))
  }

  /** f t1 t2 ...: the face's vertices, added as a fan of triangles. */
  function ReadFace(s: Loader, parts: seq<string>, parseInt: string -> Result<int>): (r: Result<Loader>)
    requires |parts| > 0
    ensures r.Ok? ==> r.value.(added := s.added) == s
    ensures r.Ok? ==> s.added <= r.value.added && |r.value.added| % 3 == |s.added| % 3
  {
    var verts :- FaceVertices(s, parts[1..], parseInt);
    Ok(s.(added := s.added + Fan(verts)))
  }

  /** The state before the first line. */
  function Initial(): Loader
  {
    Loader([], [], [], map[], None, 0, [])
  }

  /** Step with the library files and the two parsers fixed. */
  function StepOf(files: map<string, seq<string>>, parseFloat: string -> Result<real>,
                  parseInt: string -> Result<int>): (Loader, string) -> Result<Loader>
  {
    (s, line) => Step(s, line, files, parseFloat, parseInt)
  }

  /** The lines of an OBJ file, in order; the first failing line ends the load. */
  function Run(lines: seq<string>, files: map<string, seq<string>>,
               parseFloat: string -> Result<real>, parseInt: string -> Result<int>): (r: Result<Loader>)
    ensures r.Ok? ==> |r.value.added| % 3 == 0
  {
    StepsAddTriangles(files, parseFloat, parseInt, Initial(), lines);
    Fold(StepOf(files, parseFloat, parseInt), Initial(), lines)
  }

  /** Every line that goes through keeps what came before and adds whole triangles. */
  lemma {:induction false} StepsAddTriangles(files: map<string, seq<string>>, parseFloat: string -> Result<real>,
                                             parseInt: string -> Result<int>, start: Loader, lines: seq<string>)
    ensures var r := Fold(StepOf(files, parseFloat, parseInt), start, lines);
      r.Ok? ==> start.added <= r.value.added && |r.value.added| % 3 == |start.added| % 3
  {
    if |lines| > 0 {
      var n := |lines| - 1;
      StepsAddTriangles(files, parseFloat, parseInt, start, lines[..n]);
      var before := Fold(StepOf(files, parseFloat, parseInt), start, lines[..n]);
      if before.Ok? {
        var r := Step(before.value, lines[n], files, parseFloat, parseInt);
        assert Fold(StepOf(files, parseFloat, parseInt), start, lines) == r;
        if r.Ok? {
          var a, b, c := start.added, before.value.added, r.value.added;
          assert c[..|a|] == b[..|a|];
        }
      }
    }
  }

  // ---------------------------------------------------------------------
  // Properties of one line
  // ---------------------------------------------------------------------

  /**
   * A v, vt or vn line appends exactly one entry to its own list and
   * changes nothing else.
   */
  lemma AttributeLines(s: Loader, line: string, files: map<string, seq<string>>,
                       parseFloat: string -> Result<real>, parseInt: string -> Result<int>)
    requires var parts := Split(line, ' '); |parts| > 0 && parts[0] in {"v", "vt", "vn"}
    requires Step(s, line, files, parseFloat, parseInt).Ok?
    ensures var r := Step(s, line, files, parseFloat, parseInt).value;
      var key := Split(line, ' ')[0];
      && (key == "v" ==> |r.coords| == |s.coords| + 1 && r.coords[..|s.coords|] == s.coords && r.(coords := s.coords) == s)
      && (key == "vt" ==> |r.texcoords| == |s.texcoords| + 1 && r.texcoords[..|s.texcoords|] == s.texcoords
                          && r.(texcoords := s.texcoords) == s)
      && (key == "vn" ==> |r.normals| == |s.normals| + 1 && r.normals[..|s.normals|] == s.normals
                          && r.(normals := s.normals) == s)
  {
  }

  /** usemtl name makes the mapped material current, or null when the name is unknown. */
  lemma UseMaterialLine(s: Loader, line: string, files: map<string, seq<string>>,
                        parseFloat: string -> Result<real>, parseInt: string -> Result<int>)
    requires var parts := Split(line, ' '); |parts| >= 2 && parts[0] == "usemtl"
    ensures var name := Split(line, ' ')[1];
      Step(s, line, files, parseFloat, parseInt)
        == Ok(s.(material := if name in s.materials then Some(s.materials[name]) else None))
  {
  }

  /** A line whose first token is none of the six keywords changes nothing. */
  lemma OtherLines(s: Loader, line: string, files: map<string, seq<string>>,
                   parseFloat: string -> Result<real>, parseInt: string -> Result<int>)
    requires var parts := Split(line, ' '); |parts| > 0 && parts[0] !in {"v", "vt", "vn", "mtllib", "usemtl", "f"}
    ensures Step(s, line, files, parseFloat, parseInt) == Ok(s)
  {
  }

  /** Empty lines and comments are such lines. */
  lemma BlankAndCommentLines(s: Loader, text: string, files: map<string, seq<string>>,
                             parseFloat: string -> Result<real>, parseInt: string -> Result<int>)
    ensures Step(s, "", files, parseFloat, parseInt) == Ok(s)
    ensures Step(s, "#" + text, files, parseFloat, parseInt) == Ok(s)
  {
    assert ' ' !in "";
    var parts := Split("#" + text, ' ');
    assert ("#" + text)[0] == '#';
    if ' ' in "#" + text {
      var f := Fields("#" + text, ' ');
      assert f[0][0] == '#' by {
        FieldsHead("#" + text, ' ');
      }
      assert |parts| > 0 ==> parts[0] == f[0];
    }
  }

  /** The first field of a string that does not start with the separator starts with its first character. */
  lemma FieldsHead(s: string, sep: char)
    requires |s| > 0 && s[0] != sep
    ensures |Fields(s, sep)[0]| > 0 && Fields(s, sep)[0][0] == s[0]
  {
  }

  /** A face token with all three indices in range gives the vertex of those three list entries. */
  lemma FaceTokenResolves(s: Loader, token: string, parseInt: string -> Result<int>, a: int, b: int, c: int)
    requires var temp := Split(token, '/');
      |temp| >= 3 && parseInt(temp[0]) == Ok(a) && parseInt(temp[1]) == Ok(b) && parseInt(temp[2]) == Ok(c)
    requires 1 <= a <= |s.coords| && 1 <= b <= |s.texcoords| && 1 <= c <= |s.normals|
    ensures FaceVertex(s, token, parseInt)
         == Ok(Vertex(s.coords[a - 1].x, s.coords[a - 1].y, s.coords[a - 1].z,
                      s.texcoords[b - 1].u, s.texcoords[b - 1].v,
                      s.normals[c - 1].x, s.normals[c - 1].y, s.normals[c - 1].z,
                      s.material))
  {
  }

  /**
   * A face token with fewer than three components, or whose indices do not
   * name list entries, fails.
   */
  lemma FaceTokenFails(s: Loader, token: string, parseInt: string -> Result<int>)
    ensures |Split(token, '/')| < 3 ==> FaceVertex(s, token, parseInt).Err?
    ensures var temp := Split(token, '/');
      (|temp| >= 3 && parseInt(temp[0]).Ok? && parseInt(temp[1]).Ok? && parseInt(temp[2]).Ok?
       && !(1 <= parseInt(temp[0]).value <= |s.coords| && 1 <= parseInt(temp[1]).value <= |s.texcoords|
            && 1 <= parseInt(temp[2]).value <= |s.normals|))
      ==> FaceVertex(s, token, parseInt) == Err(IndexOutOfBounds)
  {
  }

  /** `1//3` and `1` are refused, the first because parseInt("") fails. */
  lemma MissingComponents(s: Loader, parseInt: string -> Result<int>)
    requires parseInt("").Err?
    ensures FaceVertex(s, "1//3", parseInt).Err?
    ensures FaceVertex(s, "1", parseInt).Err?
  {
    SplitEmptyMiddle();
    SplitWithoutSeparator();
  }

  /** A face of k >= 3 vertices makes 3 * (k - 2) vertices, triangle i being (v0, v(i+1), v(i+2)). */
  lemma {:induction false} FanTriangles(verts: seq<Vertex>)
    ensures |verts| < 3 ==> Fan(verts) == []
    ensures |verts| >= 3 ==> |Fan(verts)| == 3 * (|verts| - 2)
    ensures forall i :: 0 <= i < |verts| - 2 ==>
      Fan(verts)[3 * i] == verts[0] && Fan(verts)[3 * i + 1] == verts[i + 1] && Fan(verts)[3 * i + 2] == verts[i + 2]
  {
    if |verts| >= 3 {
      var n := |verts| - 1;
      FanTriangles(verts[..n]);
      forall i | 0 <= i < |verts| - 2
        ensures Fan(verts)[3 * i] == verts[0] && Fan(verts)[3 * i + 1] == verts[i + 1]
             && Fan(verts)[3 * i + 2] == verts[i + 2]
      {
        if i < |verts| - 3 {
          assert verts[..n][0] == verts[0] && verts[..n][i + 1] == verts[i + 1] && verts[..n][i + 2] == verts[i + 2];
        }
      }
    }
  }

  /** The vertices of a fan are vertices of the face. */
  lemma {:induction false} FanFromFace(verts: seq<Vertex>)
    ensures forall k :: 0 <= k < |Fan(verts)| ==> Fan(verts)[k] in verts
  {
    if |verts| >= 3 {
      var n := |verts| - 1;
      FanFromFace(verts[..n]);
      forall k | 0 <= k < |Fan(verts)|
        ensures Fan(verts)[k] in verts
      {
        if k < |Fan(verts[..n])| {
          assert Fan(verts[..n])[k] in verts[..n];
        }
      }
    }
  }

  /** An f line adds its fan, every vertex of which has the current material. */
  lemma FaceLine(s: Loader, line: string, files: map<string, seq<string>>,
                 parseFloat: string -> Result<real>, parseInt: string -> Result<int>)
    requires var parts := Split(line, ' '); |parts| > 0 && parts[0] == "f"
    requires Step(s, line, files, parseFloat, parseInt).Ok?
    ensures var r := Step(s, line, files, parseFloat, parseInt).value;
      var k := |Split(line, ' ')| - 1;
      && r.(added := s.added) == s
      && |r.added| == |s.added| + (if k >= 3 then 3 * (k - 2) else 0)
      && r.added[..|s.added|] == s.added
      && forall j :: |s.added| <= j < |r.added| ==> r.added[j].material == s.material
  {
    var parts := Split(line, ' ');
    var verts := FaceVertices(s, parts[1..], parseInt).value;
    FanTriangles(verts);
    FanFromFace(verts);
    var r := Step(s, line, files, parseFloat, parseInt).value;
    assert r.added == s.added + Fan(verts);
    forall j | |s.added| <= j < |r.added|
      ensures r.added[j].material == s.material
    {
      var v := Fan(verts)[j - |s.added|];
      assert v in verts;
      var k :| 0 <= k < |verts| && verts[k] == v;
    }
  }

  /** newmtl n maps n to a new material named n with no texture file and makes it current. */
  lemma NewMaterialLine(lib: Library, line: string)
    requires var parts := Split(line, ' '); |parts| >= 2 && parts[0] == "newmtl"
    ensures var name := Split(line, ' ')[1];
      var m := Material(lib.nextId, name, None);
      MaterialLine(lib, line) == Ok(Library(lib.materials[name := m], Some(m), lib.nextId + 1))
  {
  }

  /**
   * map_Kd f replaces the current material's entry by a new material of the
   * same name with texture file f; before any newmtl it dereferences null.
   */
  lemma TextureLine(lib: Library, line: string)
    requires var parts := Split(line, ' '); |parts| >= 1 && parts[0] == "map_Kd"
    ensures lib.current.None? ==> MaterialLine(lib, line) == Err(NullPointer)
    ensures lib.current.Some? && |Split(line, ' ')| >= 2 ==>
      var m := Material(lib.nextId, lib.current.value.name, Some(Split(line, ' ')[1]));
      MaterialLine(lib, line) == Ok(Library(lib.materials[m.name := m], Some(m), lib.nextId + 1))
  {
  }

  // ---------------------------------------------------------------------
  // Material identity
  // ---------------------------------------------------------------------

  /** Every material known to the state has an id below the next one handed out. */
  ghost predicate IdsBelow(materials: map<string, Material>, current: MaterialRef, nextId: nat)
  {
    && (forall name :: name in materials ==> materials[name].id < nextId)
    && (current.Some? ==> current.value.id < nextId)
  }

  /** A library line hands out fresh ids only. */
  lemma MaterialLineFresh(lib: Library, line: string)
    requires IdsBelow(lib.materials, lib.current, lib.nextId)
    ensures var r := MaterialLine(lib, line);
      r.Ok? ==> lib.nextId <= r.value.nextId && IdsBelow(r.value.materials, r.value.current, r.value.nextId)
  {
  }

  /** A whole library hands out fresh ids only. */
  lemma {:induction false} MaterialLinesFresh(lib: Library, lines: seq<string>)
    requires IdsBelow(lib.materials, lib.current, lib.nextId)
    ensures var r := MaterialLines(lib, lines);
      r.Ok? ==> lib.nextId <= r.value.nextId && IdsBelow(r.value.materials, r.value.current, r.value.nextId)
  {
    if |lines| > 0 {
      MaterialLinesFresh(lib, lines[..|lines| - 1]);
      var before := MaterialLines(lib, lines[..|lines| - 1]);
      if before.Ok? {
        MaterialLineFresh(before.value, lines[|lines| - 1]);
      }
    }
  }

  /**
   * Two materials created by one load are equal exactly when they have the
   * same id: every new Material gets an id no earlier one has, so the
   * comparison of Material values in Model.add agrees with the comparison
   * of references.
   */
  lemma StepFresh(s: Loader, line: string, files: map<string, seq<string>>,
                  parseFloat: string -> Result<real>, parseInt: string -> Result<int>)
    requires IdsBelow(s.materials, s.material, s.nextId)
    ensures var r := Step(s, line, files, parseFloat, parseInt);
      r.Ok? ==> s.nextId <= r.value.nextId && IdsBelow(r.value.materials, r.value.material, r.value.nextId)
  {
    var parts := Split(line, ' ');
    var r := Step(s, line, files, parseFloat, parseInt);
    assert r == Dispatch(s, parts, files, parseFloat, parseInt);
    if |parts| > 0 && parts[0] == "mtllib" {
      if |parts| > 1 && parts[1] in files {
        MaterialLinesFresh(Library(s.materials, None, s.nextId), files[parts[1]]);
      }
    } else if |parts| > 0 && parts[0] == "usemtl" {
      assert r.Ok? ==> r.value.materials == s.materials && r.value.nextId == s.nextId;
    } else {
      assert r.Ok? ==> r.value.materials == s.materials && r.value.nextId == s.nextId && r.value.material == s.material;
    }
  }

  // ---------------------------------------------------------------------
  // Stopping at the first error
  // ---------------------------------------------------------------------

  /** The state after one more line is the step of that line. */
  lemma RunNext(lines: seq<string>, i: nat, files: map<string, seq<string>>,
                parseFloat: string -> Result<real>, parseInt: string -> Result<int>)
    requires i < |lines| && Run(lines[..i], files, parseFloat, parseInt).Ok?
    ensures Run(lines[..i + 1], files, parseFloat, parseInt)
         == Step(Run(lines[..i], files, parseFloat, parseInt).value, lines[i], files, parseFloat, parseInt)
  {
    FoldNext(StepOf(files, parseFloat, parseInt), Initial(), lines, i);
  }

  /** A line that throws ends the load with its exception. */
  lemma RunStops(lines: seq<string>, i: nat, files: map<string, seq<string>>,
                 parseFloat: string -> Result<real>, parseInt: string -> Result<int>)
    requires i < |lines| && Run(lines[..i], files, parseFloat, parseInt).Ok?
    requires Step(Run(lines[..i], files, parseFloat, parseInt).value, lines[i], files, parseFloat, parseInt).Err?
    ensures Run(lines, files, parseFloat, parseInt)
         == Step(Run(lines[..i], files, parseFloat, parseInt).value, lines[i], files, parseFloat, parseInt)
  {
    RunNext(lines, i, files, parseFloat, parseInt);
    FoldStops(StepOf(files, parseFloat, parseInt), Initial(), lines, i + 1);
  }

  /** A library line that fails ends the library with its exception. */
  lemma MaterialLinesStop(lib: Library, lines: seq<string>, i: nat)
    requires i < |lines| && MaterialLines(lib, lines[..i]).Ok?
    requires MaterialLine(MaterialLines(lib, lines[..i]).value, lines[i]).Err?
    ensures MaterialLines(lib, lines) == MaterialLine(MaterialLines(lib, lines[..i]).value, lines[i])
  {
    FoldNext(MaterialLine, lib, lines, i);
    FoldStops(MaterialLine, lib, lines, i + 1);
  }

  /** A face token that fails ends the face with its exception. */
  lemma FaceVerticesStop(s: Loader, tokens: seq<string>, i: nat, parseInt: string -> Result<int>)
    requires i < |tokens| && FaceVertices(s, tokens[..i], parseInt).Ok?
    requires FaceVertex(s, tokens[i], parseInt).Err?
    ensures FaceVertices(s, tokens, parseInt) == Err(FaceVertex(s, tokens[i], parseInt).error)
  {
    FoldNext(VertexStep(s, parseInt), [], tokens, i);
    FoldStops(VertexStep(s, parseInt), [], tokens, i + 1);
  }

  // ---------------------------------------------------------------------
  // The loader
  // ---------------------------------------------------------------------

  /**
   * loadMaterials: reads the library line by line, updating the map and
   * the current material.
   */
  method LoadMaterials(materials: map<string, Material>, files: map<string, seq<string>>, name: string,
                       nextId: nat) returns (r: Result<Library>)
    ensures r == LibraryOf(files, name, materials, nextId)
  {
    if name !in files {
      return Err(IO);
    }
    var lines := files[name];
    var start := Library(materials, None, nextId);
    var lib := start;
    var i := 0;
    while i < |lines|
      invariant 0 <= i <= |lines|
      invariant MaterialLines(start, lines[..i]) == Ok(lib)
    {
      var next := MaterialLine(lib, lines[i]);
      if next.Err? {
        MaterialLinesStop(start, lines, i);
        return next;
      }
      FoldNext(MaterialLine, start, lines, i);
      lib := next.value;
      i := i + 1;
    }
    assert lines[..i] == lines;
    r := Ok(lib);
  }

  /** The attribute loop of an f line: one vertex per token, in order. */
  method ParseFace(s: Loader, tokens: seq<string>, parseInt: string -> Result<int>) returns (r: Result<seq<Vertex>>)
    ensures r == FaceVertices(s, tokens, parseInt)
  {
    var verts: seq<Vertex> := [];
    var i := 0;
    while i < |tokens|
      invariant 0 <= i <= |tokens|
      invariant FaceVertices(s, tokens[..i], parseInt) == Ok(verts)
    {
      var v := FaceVertex(s, tokens[i], parseInt);
      if v.Err? {
        FaceVerticesStop(s, tokens, i, parseInt);
        return Err(v.error);
      }
      FoldNext(VertexStep(s, parseInt), [], tokens, i);
      verts := verts + [v.value];
      i := i + 1;
    }
    assert tokens[..i] == tokens;
    r := Ok(verts);
  }

  /** The triangulation loop of an f line: adds the fan of the face to the model. */
  method Triangulate(model: Model, verts: seq<Vertex>)
    requires model.Valid()
    modifies model, model.Repr
    ensures model.Valid() && fresh(model.Repr - old(model.Repr))
    ensures model.Contents == AddAll(old(model.Contents), Fan(verts))
  {
    ghost var start := model.Contents;
    var count := |verts| - 2;
    var i := 0;
    while i < count
      invariant 0 <= i && (count > 0 ==> i <= count)
      invariant model.Valid() && fresh(model.Repr - old(model.Repr))
      invariant count > 0 ==> model.Contents == AddAll(start, Fan(verts[..i + 2]))
      invariant count <= 0 ==> model.Contents == start
    {
      ghost var fan := Fan(verts[..i + 2]);
      AddTriangle(model, verts[0], verts[1 + i], verts[2 + i]);
      FanStep(verts, i);
      AddAllThree(start, fan, verts[0], verts[1 + i], verts[2 + i]);
      i := i + 1;
    }
    if count > 0 {
      assert verts[..i + 2] == verts;
    }
  }

  /** The body of the triangulation loop: three calls to Model.add. */
  method AddTriangle(model: Model, a: Vertex, b: Vertex, c: Vertex)
    requires model.Valid()
    modifies model, model.Repr
    ensures model.Valid() && fresh(model.Repr - old(model.Repr))
    ensures model.Contents == AddTo(AddTo(AddTo(old(model.Contents), a), b), c)
  {
    ghost var c0 := model.Contents;
    model.Add(a);
    ghost var c1 := model.Contents;
    model.Add(b);
    ghost var c2 := model.Contents;
    model.Add(c);
    assert c1 == AddTo(c0, a) && c2 == AddTo(c1, b);
  }

  /** The fan of one more vertex adds the triangle (v0, v(i+1), v(i+2)). */
  lemma FanStep(verts: seq<Vertex>, i: nat)
    requires i + 3 <= |verts|
    ensures Fan(verts[..i + 3]) == Fan(verts[..i + 2]) + [verts[0], verts[1 + i], verts[2 + i]]
  {
    assert verts[..i + 3][..i + 2] == verts[..i + 2];
  }

  /** Adding three vertices after a sequence. */
  lemma AddAllThree(b: seq<Bucket>, ps: seq<Vertex>, x: Vertex, y: Vertex, z: Vertex)
    ensures AddAll(b, ps + [x, y, z]) == AddTo(AddTo(AddTo(AddAll(b, ps), x), y), z)
  {
    var p1, p2, p3 := ps + [x], ps + [x, y], ps + [x, y, z];
    assert p3[..|p3| - 1] == p2 && p3[|p3| - 1] == z;
    assert p2[..|p2| - 1] == p1 && p2[|p2| - 1] == y;
    assert p1[..|p1| - 1] == ps && p1[|p1| - 1] == x;
    assert AddAll(b, p1) == AddTo(AddAll(b, ps), x);
    assert AddAll(b, p2) == AddTo(AddAll(b, p1), y);
  }

  /** One line of load, with the model's groups extended by the vertices the line adds. */
  method LoadLine(model: Model, s: Loader, line: string, files: map<string, seq<string>>,
                  parseFloat: string -> Result<real>, parseInt: string -> Result<int>) returns (r: Result<Loader>)
    requires model.Valid() && model.Contents == Build(s.added)
    modifies model, model.Repr
    ensures model.Valid() && fresh(model.Repr - old(model.Repr))
    ensures r == Step(s, line, files, parseFloat, parseInt)
    ensures r.Ok? ==> model.Contents == Build(r.value.added)
  {
    var parts := Split(line, ' ');
    if |parts| > 0 && parts[0] == "mtllib" {
      r := LoadLibrary(s, parts, files);
    } else if |parts| > 0 && parts[0] == "f" {
      r := LoadFace(model, s, parts, parseInt);
    } else {
      // the other lines change only the attribute lists and the current material
      r := Dispatch(s, parts, files, parseFloat, parseInt);
      assert r.Ok? ==> r.value.added == s.added;
    }
  }

  /** An mtllib line: loadMaterials on the named file. */
  method LoadLibrary(s: Loader, parts: seq<string>, files: map<string, seq<string>>) returns (r: Result<Loader>)
    ensures r == ReadLibrary(s, parts, files)
    ensures r.Ok? ==> r.value.added == s.added
  {
    var name :- Token(parts, 1);
    var lib :- LoadMaterials(s.materials, files, name, s.nextId);
    r := Ok(s.(materials := lib.materials, nextId := lib.nextId));
  }

  /** An f line: the attribute loop, then the triangulation loop. */
  method LoadFace(model: Model, s: Loader, parts: seq<string>, parseInt: string -> Result<int>) returns (r: Result<Loader>)
    requires |parts| > 0
    requires model.Valid() && model.Contents == Build(s.added)
    modifies model, model.Repr
    ensures model.Valid() && fresh(model.Repr - old(model.Repr))
    ensures r == ReadFace(s, parts, parseInt)
    ensures r.Ok? ==> model.Contents == Build(r.value.added)
  {
    var verts :- ParseFace(s, parts[1..], parseInt);
    Triangulate(model, verts);
    AddAllConcat([], s.added, Fan(verts));
    r := Ok(s.(added := s.added + Fan(verts)));
  }

  /**
   * load: the model of an OBJ file, or the exception that ended the load.
   * The model's groups are those of adding, in order, the fan vertices of
   * every face line.
   */
  method Load(lines: seq<string>, files: map<string, seq<string>>,
              parseFloat: string -> Result<real>, parseInt: string -> Result<int>) returns (r: Result<Model>)
    ensures r.Ok? <==> Run(lines, files, parseFloat, parseInt).Ok?
    ensures r.Err? ==> r.error == Run(lines, files, parseFloat, parseInt).error
    ensures r.Ok? ==> && fresh(r.value) && r.value.Valid()
                      && r.value.Contents == Build(Run(lines, files, parseFloat, parseInt).value.added)
  {
    var model := new Model();
    var s := Initial();
    var i := 0;
    while i < |lines|
      invariant 0 <= i <= |lines|
      invariant Run(lines[..i], files, parseFloat, parseInt) == Ok(s)
      invariant fresh(model) && fresh(model.Repr) && model.Valid() && model.Contents == Build(s.added)
    {
      var next := LoadLine(model, s, lines[i], files, parseFloat, parseInt);
      if next.Err? {
        RunStops(lines, i, files, parseFloat, parseInt);
        return Err(next.error);
      }
      RunNext(lines, i, files, parseFloat, parseInt);
      s := next.value;
      i := i + 1;
    }
    assert lines[..i] == lines;
    r := Ok(model);
  }
}
