/** The text format of the embedded heart mesh, as `LoadHeart` reads it: the blob is split on
    `|`; the first field is a `/`-separated list of vertices, each a `,`-separated list of
    coordinates of which the first three are used; the second field is a `/`-separated list of
    integer triangle indices. Coordinates are kept as the tokens the float parser would receive. */
module HeartMesh {
  import opened Wrappers
  import opened Text

  /** The .NET exceptions the parse can raise. */
  datatype ParseError =
    | IndexOutOfRangeException   // a missing `|` field or a vertex with fewer than three components
    | FormatException            // a triangle index that is not an integer
    | OverflowException          // a triangle index outside the 32-bit range

  /** One vertex: the three coordinate tokens handed to `float.Parse`. */
  datatype Vertex = Vertex(x: string, y: string, z: string)

  /** The deserialized mesh: vertices in file order, then triangle indices in file order. */
  datatype Mesh = Mesh(vertices: seq<Vertex>, triangles: seq<int>)

  const Int32Min: int := -0x8000_0000
  const Int32Max: int := 0x7FFF_FFFF

  // ---------------------------------------------------------------------------
  // int.Parse with invariant formatting (NumberStyles.Integer)
  // ---------------------------------------------------------------------------

  /** The white space `int.Parse` skips around a number: U+0009 to U+000D and U+0020. */
  predicate IsWhite(c: char)
  {
    c == ' ' || ('\t' <= c <= '\r')
  }

  predicate IsDigit(c: char)
  {
    '0' <= c <= '9'
  }

  predicate AllDigits(s: string)
  {
    forall i :: 0 <= i < |s| ==> IsDigit(s[i])
  }

  function TrimStart(s: string): (t: string)
    ensures |t| <= |s| && t == s[|s| - |t|..] && (|t| > 0 ==> !IsWhite(t[0]))
    decreases |s|
  {
    if |s| > 0 && IsWhite(s[0]) then TrimStart(s[1..]) else s
  }

  function TrimEnd(s: string): (t: string)
    ensures t <= s && (|t| > 0 ==> !IsWhite(t[|t| - 1]))
    decreases |s|
  {
    if |s| > 0 && IsWhite(s[|s| - 1]) then TrimEnd(s[..|s| - 1]) else s
  }

  /** Decimal value of a digit string, most significant digit first. */
  function DigitsValue(ds: string): nat
    requires AllDigits(ds)
  {
    if ds == [] then 0
    else DigitsValue(ds[..|ds| - 1]) * 10 + (ds[|ds| - 1] as int - '0' as int)
  }

  /** `int.Parse(token, NUM_INV)`: optional surrounding white space, an optional sign, then at
      least one decimal digit; a well-formed number outside the 32-bit range overflows. */
  function ParseInt32(token: string): (r: Result<int, ParseError>)
    ensures r.Success? ==> Int32Min <= r.value <= Int32Max
    ensures TrimEnd(TrimStart(token)) == "" ==> r == Failure(FormatException)
  {
    var t := TrimEnd(TrimStart(token));
    var signed := |t| > 0 && (t[0] == '-' || t[0] == '+');
    var digits := if signed then t[1..] else t;
    if |digits| == 0 || !AllDigits(digits) then Failure(FormatException)
    else
      var magnitude: int := DigitsValue(digits);
      var value: int := if signed && t[0] == '-' then -magnitude else magnitude;
      if value < Int32Min || Int32Max < value then Failure(OverflowException) else Success(value)
  }

  /** The decimal rendering of a natural number, without leading zeros. */
  function ShowNat(n: nat): (s: string)
    ensures |s| >= 1 && AllDigits(s)
  {
    if n < 10 then [('0' as int + n) as char]
    else ShowNat(n / 10) + [('0' as int + n % 10) as char]
  }

  /** The decimal rendering of an integer, with a leading `-` when negative. */
  function ShowInt(n: int): (s: string)
    ensures |s| >= 1
  {
    if n < 0 then ['-'] + ShowNat(-n) else ShowNat(n)
  }

  lemma {:induction false} DigitsValueShowNat(n: nat)
    ensures DigitsValue(ShowNat(n)) == n
  {
    if n >= 10 {
      DigitsValueShowNat(n / 10);
      var s := ShowNat(n);
      assert s[..|s| - 1] == ShowNat(n / 10);
    }
  }

  /** Every 32-bit integer written in decimal parses back to itself. */
  lemma ParseShowInt(n: int)
    requires Int32Min <= n <= Int32Max
    ensures ParseInt32(ShowInt(n)) == Success(n)
  {
    var s := ShowInt(n);
    var magnitude: nat := if n < 0 then -n else n;
    DigitsValueShowNat(magnitude);
    assert !IsWhite(s[0]);
    assert !IsWhite(s[|s| - 1]);
    assert TrimStart(s) == s;
    assert TrimEnd(s) == s;
    if n < 0 {
      assert s[1..] == ShowNat(magnitude);
    }
  }

  // ---------------------------------------------------------------------------
  // The mesh blob
  // ---------------------------------------------------------------------------

  /** One vertex token: split on `,` and take components 0, 1 and 2; indexing a shorter
      array throws. */
  function ParseVertex(token: string): (r: Result<Vertex, ParseError>)
    ensures r.Failure? <==> |Split(token, ',')| < 3
    ensures r.Failure? ==> r.error == IndexOutOfRangeException
  {
    var components := Split(token, ',');
    if |components| < 3 then Failure(IndexOutOfRangeException)
    else Success(Vertex(components[0], components[1], components[2]))
  }

  /** Parse the tokens in order; the first failing token's exception aborts the whole list. */
  function ParseEach<T>(tokens: seq<string>, parse: string -> Result<T, ParseError>): (r: Result<seq<T>, ParseError>)
    ensures r.Success? <==> forall i :: 0 <= i < |tokens| ==> parse(tokens[i]).Success?
    ensures r.Success? ==> |r.value| == |tokens| && forall i :: 0 <= i < |tokens| ==> r.value[i] == parse(tokens[i]).value
    decreases |tokens|
  {
    if tokens == [] then Success([])
    else
      match ParseEach(tokens[..|tokens| - 1], parse)
      case Failure(e) => Failure(e)
      case Success(prior) =>
        match parse(tokens[|tokens| - 1])
        case Failure(e) => Failure(e)
        case Success(item) => Success(prior + [item])
  }

  /** A failure is the exception of the first token that fails. */
  lemma {:induction false} ParseEachFirstFailure<T>(tokens: seq<string>, parse: string -> Result<T, ParseError>)
    ensures var r := ParseEach(tokens, parse);
      r.Failure? ==>
        exists i :: 0 <= i < |tokens| && parse(tokens[i]) == Failure(r.error)
                    && forall j :: 0 <= j < i ==> parse(tokens[j]).Success?
  {
    if tokens != [] {
      var front := tokens[..|tokens| - 1];
      ParseEachFirstFailure(front, parse);
      if ParseEach(front, parse).Failure? {
        var i :| 0 <= i < |front| && parse(front[i]) == Failure(ParseEach(front, parse).error)
                 && forall j :: 0 <= j < i ==> parse(front[j]).Success?;
        assert front[i] == tokens[i];
        assert forall j :: 0 <= j < i ==> front[j] == tokens[j];
      } else if ParseEach(tokens, parse).Failure? {
        var last := |tokens| - 1;
        assert forall j :: 0 <= j < last ==> front[j] == tokens[j];
        assert parse(tokens[last]) == Failure(ParseEach(tokens, parse).error);
      }
    }
  }

  /** Once a prefix of the tokens fails, the rest of the list is never looked at. */
  lemma {:induction false} ParseEachPrefixFailure<T>(tokens: seq<string>, k: nat, parse: string -> Result<T, ParseError>)
    requires k <= |tokens|
    requires ParseEach(tokens[..k], parse).Failure?
    ensures ParseEach(tokens, parse) == ParseEach(tokens[..k], parse)
    decreases |tokens| - k
  {
    if k < |tokens| {
      var front := tokens[..|tokens| - 1];
      assert front[..k] == tokens[..k];
      ParseEachPrefixFailure(front, k, parse);
    } else {
      assert tokens[..k] == tokens;
    }
  }

  /** The whole deserialization of `LoadHeart`, in the order the source evaluates it: the
      second `|` field must exist, then every vertex is read, then every triangle index. A
      mesh comes out with one vertex per `/` piece of the first field, and every triangle index
      is a 32-bit integer. */
  function ParseHeart(meshfile: string): (r: Result<Mesh, ParseError>)
    ensures r.Success? ==>
      |Split(meshfile, '|')| >= 2 && |r.value.vertices| == |Split(Split(meshfile, '|')[0], '/')|
    ensures r.Success? ==> forall i :: 0 <= i < |r.value.triangles| ==> Int32Min <= r.value.triangles[i] <= Int32Max
  {
    var dimension1 := Split(meshfile, '|');
    if |dimension1| < 2 then Failure(IndexOutOfRangeException)
    else
      match ParseEach(Split(dimension1[0], '/'), ParseVertex)
      case Failure(e) => Failure(e)
      case Success(vertices) =>
        match ParseEach(Split(dimension1[1], '/'), ParseInt32)
        case Failure(e) => Failure(e)
        case Success(triangles) => Success(Mesh(vertices, triangles))
  }

  /** The first loop of `LoadHeart`: split every vertex token on `,` into `stringVector3s`,
      advancing a running index. */
  method SplitVertexTokens(vertexTokens: seq<string>) returns (stringVector3s: array<seq<string>>)
    ensures fresh(stringVector3s)
    ensures stringVector3s.Length == |vertexTokens|
    ensures forall j :: 0 <= j < |vertexTokens| ==> stringVector3s[j] == Split(vertexTokens[j], ',')
  {
    stringVector3s := new seq<string>[|vertexTokens|];
    var i := 0;
    while i < |vertexTokens|
      invariant 0 <= i <= |vertexTokens|
      invariant forall j :: 0 <= j < i ==> stringVector3s[j] == Split(vertexTokens[j], ',')
    {
      stringVector3s[i] := Split(vertexTokens[i], ',');
      i := i + 1;
    }
  }

  /** The second loop: read the first three components of each split vertex, in order. */
  method ReadVertices(stringVector3s: array<seq<string>>, ghost vertexTokens: seq<string>) returns (r: Result<seq<Vertex>, ParseError>)
    requires stringVector3s.Length == |vertexTokens|
    requires forall j :: 0 <= j < |vertexTokens| ==> stringVector3s[j] == Split(vertexTokens[j], ',')
    ensures r == ParseEach(vertexTokens, ParseVertex)
  {
    var vertices: seq<Vertex> := [];
    var k := 0;
    while k < stringVector3s.Length
      invariant 0 <= k <= stringVector3s.Length
      invariant ParseEach(vertexTokens[..k], ParseVertex) == Success(vertices)
    {
      var components := stringVector3s[k];
      assert vertexTokens[..k + 1][..k] == vertexTokens[..k];
      if |components| < 3 {
        ParseEachPrefixFailure(vertexTokens, k + 1, ParseVertex);
        return Failure(IndexOutOfRangeException);
      }
      vertices := vertices + [Vertex(components[0], components[1], components[2])];
      k := k + 1;
    }
    assert vertexTokens[..k] == vertexTokens;
    r := Success(vertices);
  }

  /** The third loop: parse each triangle token as an integer, in order. */
  method ReadTriangles(indexTokens: seq<string>) returns (r: Result<seq<int>, ParseError>)
    ensures r == ParseEach(indexTokens, ParseInt32)
  {
    var triangles: seq<int> := [];
    var k := 0;
    while k < |indexTokens|
      invariant 0 <= k <= |indexTokens|
      invariant ParseEach(indexTokens[..k], ParseInt32) == Success(triangles)
    {
      var index := ParseInt32(indexTokens[k]);
      assert indexTokens[..k + 1][..k] == indexTokens[..k];
      if index.Failure? {
        ParseEachPrefixFailure(indexTokens, k + 1, ParseInt32);
        return Failure(index.error);
      }
      triangles := triangles + [index.value];
      k := k + 1;
    }
    assert indexTokens[..k] == indexTokens;
    r := Success(triangles);
  }

  /** The text-parsing part of `LoadHeart`: split on `|`, then run the three loops. */
  method DeserializeHeartMesh(meshfile: string) returns (r: Result<Mesh, ParseError>)
    ensures r == ParseHeart(meshfile)
  {
    var dimension1 := Split(meshfile, '|');
    if |dimension1| < 2 {
      return Failure(IndexOutOfRangeException);
    }
    var vertexTokens := Split(dimension1[0], '/');
    var indexTokens := Split(dimension1[1], '/');
    var stringVector3s := SplitVertexTokens(vertexTokens);
    var vertices := ReadVertices(stringVector3s, vertexTokens);
    if vertices.Failure? {
      return Failure(vertices.error);
    }
    var triangles := ReadTriangles(indexTokens);
    if triangles.Failure? {
      return Failure(triangles.error);
    }
    r := Success(Mesh(vertices.value, triangles.value));
  }

  // ---------------------------------------------------------------------------
  // Properties of the format
  // ---------------------------------------------------------------------------

  /** A blob without `|` has no second field, and reading it throws. */
  lemma HeartWithoutBarFails(meshfile: string)
    requires '|' !in meshfile
    ensures ParseHeart(meshfile) == Failure(IndexOutOfRangeException)
  {
    SplitCount(meshfile, '|');
  }

  /** A successful parse has one vertex per `/`-separated piece of the text before the first
      `|`, and one triangle index per `/`-separated piece of the second field. */
  lemma HeartCounts(meshfile: string)
    requires ParseHeart(meshfile).Success?
    ensures var fields := Split(meshfile, '|');
      var mesh := ParseHeart(meshfile).value;
      && fields[0] <= meshfile && '|' !in fields[0]
      && |mesh.vertices| == CountChar(fields[0], '/') + 1
      && |mesh.triangles| == CountChar(fields[1], '/') + 1
  {
    var fields := Split(meshfile, '|');
    SplitFirstPiece(meshfile, '|');
    SplitCount(fields[0], '/');
    SplitCount(fields[1], '/');
  }

  /** Each vertex of a successful parse is the first three `,`-components of its piece. */
  lemma HeartVertexComponents(meshfile: string, i: nat)
    requires ParseHeart(meshfile).Success?
    requires i < |ParseHeart(meshfile).value.vertices|
    ensures var piece := Split(Split(meshfile, '|')[0], '/')[i];
      var components := Split(piece, ',');
      |components| >= 3 && ParseHeart(meshfile).value.vertices[i] == Vertex(components[0], components[1], components[2])
  {
  }

  /** A vertex with fewer than three components makes the whole parse throw, whatever the
      triangle field holds. */
  lemma HeartShortVertexFails(meshfile: string, i: nat)
    requires '|' in meshfile
    requires i < |Split(Split(meshfile, '|')[0], '/')|
    requires |Split(Split(Split(meshfile, '|')[0], '/')[i], ',')| < 3
    ensures ParseHeart(meshfile) == Failure(IndexOutOfRangeException)
  {
    SplitCount(meshfile, '|');
    var tokens := Split(Split(meshfile, '|')[0], '/');
    ParseEachFirstFailure(tokens, ParseVertex);
  }

  /** Three separator-free pieces, each followed by a comma, split off in order. */
  lemma SplitThreePieces(x: string, y: string, z: string, rest: string)
    requires ',' !in x && ',' !in y && ',' !in z
    ensures Split(x + [','] + (y + [','] + (z + [','] + rest)), ',') == [x, y, z] + Split(rest, ',')
  {
    SplitAfterPiece(z, rest, ',');
    SplitAfterPiece(y, z + [','] + rest, ',');
    SplitAfterPiece(x, y + [','] + (z + [','] + rest), ',');
  }

  /** Two separator-free pieces, each followed by a comma, and a final separator-free piece. */
  lemma SplitExactlyThree(x: string, y: string, z: string)
    requires ',' !in x && ',' !in y && ',' !in z
    ensures Split(x + [','] + (y + [','] + z), ',') == [x, y, z]
  {
    SplitAfterPiece(z, [], ',');
    SplitAfterPiece(y, z, ',');
    SplitAfterPiece(x, y + [','] + z, ',');
  }

  /** Components after the third are ignored. */
  lemma VertexIgnoresExtraComponents(x: string, y: string, z: string, rest: string)
    requires ',' !in x && ',' !in y && ',' !in z
    ensures ParseVertex(x + [','] + y + [','] + z) == Success(Vertex(x, y, z))
    ensures ParseVertex(x + [','] + y + [','] + z + [','] + rest) == Success(Vertex(x, y, z))
  {
    SplitThreePieces(x, y, z, rest);
    assert x + [','] + y + [','] + z + [','] + rest == x + [','] + (y + [','] + (z + [','] + rest));
    SplitExactlyThree(x, y, z);
    assert x + [','] + y + [','] + z == x + [','] + (y + [','] + z);
  }

  // ---------------------------------------------------------------------------
  // Writing a mesh in the format, and reading it back
  // ---------------------------------------------------------------------------

  /** A vertex written as its three coordinate tokens joined by commas. */
  function VertexToken(v: Vertex): string
  {
    v.x + [','] + v.y + [','] + v.z
  }

  /** A mesh the format can carry: at least one vertex and one index (an empty field reads as
      one empty token, which is not a vertex and not an integer), coordinate tokens free of the
      three separators, and indices in the 32-bit range. */
  predicate Encodable(mesh: Mesh)
  {
    && |mesh.vertices| >= 1 && |mesh.triangles| >= 1
    && (forall i :: 0 <= i < |mesh.vertices| ==> SeparatorFree(mesh.vertices[i].x) && SeparatorFree(mesh.vertices[i].y) && SeparatorFree(mesh.vertices[i].z))
    && (forall i :: 0 <= i < |mesh.triangles| ==> Int32Min <= mesh.triangles[i] <= Int32Max)
  }

  predicate SeparatorFree(token: string)
  {
    ',' !in token && '/' !in token && '|' !in token
  }

  function VertexTokens(vertices: seq<Vertex>): (tokens: seq<string>)
    ensures |tokens| == |vertices|
    ensures forall i :: 0 <= i < |vertices| ==> tokens[i] == VertexToken(vertices[i])
  {
    seq(|vertices|, i requires 0 <= i < |vertices| => VertexToken(vertices[i]))
  }

  function IndexTokens(triangles: seq<int>): (tokens: seq<string>)
    ensures |tokens| == |triangles|
    ensures forall i :: 0 <= i < |triangles| ==> tokens[i] == ShowInt(triangles[i])
  {
    seq(|triangles|, i requires 0 <= i < |triangles| => ShowInt(triangles[i]))
  }

  /** The blob that describes `mesh`: vertices joined by `/`, a `|`, indices joined by `/`. */
  function EncodeHeart(mesh: Mesh): string
    requires |mesh.vertices| >= 1 && |mesh.triangles| >= 1
  {
    Join(VertexTokens(mesh.vertices), '/') + ['|'] + Join(IndexTokens(mesh.triangles), '/')
  }

  /** A character that is neither the separator nor in any piece is not in the join. */
  lemma {:induction false} JoinOmits(pieces: seq<string>, sep: char, c: char)
    requires |pieces| >= 1 && c != sep
    requires forall i :: 0 <= i < |pieces| ==> c !in pieces[i]
    ensures c !in Join(pieces, sep)
  {
    if |pieces| > 1 {
      JoinOmits(pieces[1..], sep, c);
    }
  }

  /** Every token parses to the matching value, so the whole list does. */
  lemma ParseEachAllSucceed<T>(tokens: seq<string>, parse: string -> Result<T, ParseError>, values: seq<T>)
    requires |values| == |tokens|
    requires forall i :: 0 <= i < |tokens| ==> parse(tokens[i]) == Success(values[i])
    ensures ParseEach(tokens, parse) == Success(values)
  {
    assert ParseEach(tokens, parse).value == values;
  }

  lemma ShowIntHasNoSeparator(n: int)
    ensures SeparatorFree(ShowInt(n))
  {
    var s := ShowInt(n);
    var digits := ShowNat(if n < 0 then -n else n);
    assert forall i :: 0 <= i < |digits| ==> IsDigit(digits[i]);
    assert n < 0 ==> s == ['-'] + digits;
    assert forall i :: 0 <= i < |s| ==> s[i] == '-' || IsDigit(s[i]);
  }

  /** Reading back a written mesh gives the mesh: the parse is a left inverse of the writer
      on every mesh the format can carry. */
  lemma HeartRoundTrip(mesh: Mesh)
    requires Encodable(mesh)
    ensures ParseHeart(EncodeHeart(mesh)) == Success(mesh)
  {
    var vertexTokens := VertexTokens(mesh.vertices);
    var indexTokens := IndexTokens(mesh.triangles);
    var field0 := Join(vertexTokens, '/');
    var field1 := Join(indexTokens, '/');

    forall i | 0 <= i < |vertexTokens|
      ensures '/' !in vertexTokens[i] && '|' !in vertexTokens[i]
      ensures ParseVertex(vertexTokens[i]) == Success(mesh.vertices[i])
    {
      var v := mesh.vertices[i];
      VertexIgnoresExtraComponents(v.x, v.y, v.z, "");
    }
    forall i | 0 <= i < |indexTokens|
      ensures '/' !in indexTokens[i] && '|' !in indexTokens[i]
      ensures ParseInt32(indexTokens[i]) == Success(mesh.triangles[i])
    {
      ShowIntHasNoSeparator(mesh.triangles[i]);
      ParseShowInt(mesh.triangles[i]);
    }
    JoinOmits(vertexTokens, '/', '|');
    JoinOmits(indexTokens, '/', '|');
    SplitAfterPiece(field0, field1, '|');
    SplitAfterPiece(field1, [], '|');
    assert Split(EncodeHeart(mesh), '|') == [field0, field1];
    SplitJoin(vertexTokens, '/');
    SplitJoin(indexTokens, '/');
    ParseEachAllSucceed(vertexTokens, ParseVertex, mesh.vertices);
    ParseEachAllSucceed(indexTokens, ParseInt32, mesh.triangles);
  }

  // ---------------------------------------------------------------------------
  // A worked blob
  // ---------------------------------------------------------------------------

  lemma SampleFields()
    ensures Split("0,0,0/1,0,0/0,1,0|0,1,2", '|') == ["0,0,0/1,0,0/0,1,0", "0,1,2"]
  {
    assert "0,0,0/1,0,0/0,1,0|0,1,2" == Join(["0,0,0/1,0,0/0,1,0", "0,1,2"], '|');
    SplitJoin(["0,0,0/1,0,0/0,1,0", "0,1,2"], '|');
  }

  lemma SampleVertices()
    ensures ParseEach(Split("0,0,0/1,0,0/0,1,0", '/'), ParseVertex).Success?
  {
    var tokens := ["0,0,0", "1,0,0", "0,1,0"];
    assert "0,0,0/1,0,0/0,1,0" == Join(tokens, '/');
    SplitJoin(tokens, '/');
    VertexIgnoresExtraComponents("0", "0", "0", "");
    VertexIgnoresExtraComponents("1", "0", "0", "");
    VertexIgnoresExtraComponents("0", "1", "0", "");
    assert tokens[0] == "0" + [','] + "0" + [','] + "0";
    assert tokens[1] == "1" + [','] + "0" + [','] + "0";
    assert tokens[2] == "0" + [','] + "1" + [','] + "0";
    ParseEachAllSucceed(tokens, ParseVertex, [Vertex("0", "0", "0"), Vertex("1", "0", "0"), Vertex("0", "1", "0")]);
  }

  lemma CommaIndexRejected()
    ensures ParseEach(Split("0,1,2", '/'), ParseInt32) == Failure(FormatException)
  {
    SplitAfterPiece("0,1,2", [], '/');
    assert TrimStart("0,1,2") == "0,1,2";
    assert TrimEnd("0,1,2") == "0,1,2";
    assert !IsDigit("0,1,2"[1]);
    assert ParseInt32("0,1,2") == Failure(FormatException);
    ParseEachFirstFailure(["0,1,2"], ParseInt32);
  }

  /** A blob whose index field is written with commas, "0,1,2", holds a single index token
      that is not an integer: its three vertices are read, then the parse throws a format
      error. Only `/` separates triangle indices. */
  lemma CommaSeparatedIndicesFail()
    ensures ParseHeart("0,0,0/1,0,0/0,1,0|0,1,2") == Failure(FormatException)
  {
    SampleFields();
    SampleVertices();
    CommaIndexRejected();
  }

  /** The same three vertices with the indices written "0/1/2" read as one triangle. */
  lemma SlashSeparatedIndicesParse()
    ensures var mesh := Mesh([Vertex("0", "0", "0"), Vertex("1", "0", "0"), Vertex("0", "1", "0")], [0, 1, 2]);
      EncodeHeart(mesh) == "0,0,0/1,0,0/0,1,0|0/1/2" && ParseHeart(EncodeHeart(mesh)) == Success(mesh)
  {
    var mesh := Mesh([Vertex("0", "0", "0"), Vertex("1", "0", "0"), Vertex("0", "1", "0")], [0, 1, 2]);
    var vertexTokens := VertexTokens(mesh.vertices);
    assert vertexTokens[0] == "0,0,0" && vertexTokens[1] == "1,0,0" && vertexTokens[2] == "0,1,0";
    assert vertexTokens == ["0,0,0", "1,0,0", "0,1,0"];
    var indexTokens := IndexTokens(mesh.triangles);
    assert ShowInt(0) == "0" && ShowInt(1) == "1" && ShowInt(2) == "2";
    assert indexTokens == ["0", "1", "2"];
    assert Join(["0,0,0", "1,0,0", "0,1,0"], '/') == "0,0,0/1,0,0/0,1,0";
    assert Join(["0", "1", "2"], '/') == "0/1/2";
    assert EncodeHeart(mesh) == "0,0,0/1,0,0/0,1,0" + ['|'] + "0/1/2";
    assert "0,0,0/1,0,0/0,1,0" + ['|'] + "0/1/2" == "0,0,0/1,0,0/0,1,0|0/1/2";
    HeartRoundTrip(mesh);
  }
}
