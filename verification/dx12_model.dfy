/**
 * Primitive validation and vertex-structure selection of `Dx12Model`
 * (source/asset/dx12/Dx12Model.cpp) over abstract glTF accessor records.
 *
 * The source checks its inputs with `assert`; a failed assert is modelled
 * as an `Err` naming the first check that failed, in program order.
 * Attributes come from a `std::map`, so their names are distinct and the
 * loop visits them in the map's order, which is the sequence order here.
 */
module Models {
  import opened Results
  import VertexLayouts

  const Word: nat := 0x1_0000_0000_0000_0000

  datatype ComponentType = FloatComponent | UnsignedIntComponent | OtherComponent
  datatype AccessorType = Scalar | Vec2 | Vec3 | Vec4 | OtherType

  datatype Accessor = Accessor(componentType: ComponentType, shape: AccessorType, count: nat)

  datatype Attribute = Attribute(name: string, accessor: Accessor)

  datatype Primitive = Primitive(attributes: seq<Attribute>, indices: Accessor)

  datatype ModelError =
    | BadAttribute(index: nat)       // non-float component type, or the wrong vector shape
    | BadIndices                     // indices are not scalar 32-bit unsigned integers
    | MissingPositionOrNormal
    | MissingTangentOrTexcoord       // four attributes without both TANGENT and TEXCOORD_0
    | InvalidVertexData              // an attribute count other than 2, 3 or 4

  /** What the constructor builds for a valid primitive. */
  datatype PrimitiveBuild = PrimitiveBuild(
    format: VertexLayouts.VertexFormat,
    vertexCount: nat,
    vertexBufferSize: nat,
    indexCount: nat,
    indexBufferSize: nat)

  predicate DistinctNames(attrs: seq<Attribute>) {
    forall i, j :: 0 <= i < j < |attrs| ==> attrs[i].name != attrs[j].name
  }

  /** The shape each known semantic must have; other names are unconstrained. */
  predicate ShapeOk(name: string, shape: AccessorType) {
    && (name == "POSITION" ==> shape == Vec3)
    && (name == "NORMAL" ==> shape == Vec3)
    && (name == "TANGENT" ==> shape == Vec4)
    && (name == "TEXCOORD_0" ==> shape == Vec2)
  }

  /** The per-attribute assertions: float components and the right shape. */
  predicate AttributeOk(a: Attribute) {
    a.accessor.componentType == FloatComponent && ShapeOk(a.name, a.accessor.shape)
  }

  predicate IndicesOk(indices: Accessor) {
    indices.shape == Scalar && indices.componentType == UnsignedIntComponent
  }

  predicate HasName(attrs: seq<Attribute>, name: string) {
    exists i :: 0 <= i < |attrs| && attrs[i].name == name
  }

  /** Reference definition: every assertion of the constructor holds for `p`. */
  predicate WellFormed(p: Primitive) {
    && (forall i :: 0 <= i < |p.attributes| ==> AttributeOk(p.attributes[i]))
    && IndicesOk(p.indices)
    && HasName(p.attributes, "POSITION") && HasName(p.attributes, "NORMAL")
    && (|p.attributes| == 2 || |p.attributes| == 3 ||
        (|p.attributes| == 4 && HasName(p.attributes, "TANGENT") && HasName(p.attributes, "TEXCOORD_0")))
  }

  /** Presence of the four known semantics among the attributes scanned so far. */
  datatype Seen = Seen(position: bool, normal: bool, tangent: bool, texcoord: bool)

  /**
   * The attribute loop: check each attribute in turn, note which known
   * semantics occur, and keep the last accessor's count. An `Err` carries
   * the index of the first attribute that fails its check.
   */
  method ScanAttributes(attrs: seq<Attribute>) returns (r: Result<(Seen, nat), nat>)
    ensures r.Ok? <==> forall i :: 0 <= i < |attrs| ==> AttributeOk(attrs[i])
    ensures r.Ok? ==>
      && (r.value.0.position <==> HasName(attrs, "POSITION"))
      && (r.value.0.normal <==> HasName(attrs, "NORMAL"))
      && (r.value.0.tangent <==> HasName(attrs, "TANGENT"))
      && (r.value.0.texcoord <==> HasName(attrs, "TEXCOORD_0"))
      && r.value.1 == (if |attrs| == 0 then 0 else attrs[|attrs| - 1].accessor.count)
    ensures r.Err? ==>
      r.error < |attrs| && !AttributeOk(attrs[r.error]) && forall i :: 0 <= i < r.error ==> AttributeOk(attrs[i])
  {
    var seen := Seen(false, false, false, false);
    var vertexCount := 0;
    var i := 0;
    while i < |attrs|
      invariant i <= |attrs|
      invariant forall j :: 0 <= j < i ==> AttributeOk(attrs[j])
      invariant seen.position <==> HasName(attrs[..i], "POSITION")
      invariant seen.normal <==> HasName(attrs[..i], "NORMAL")
      invariant seen.tangent <==> HasName(attrs[..i], "TANGENT")
      invariant seen.texcoord <==> HasName(attrs[..i], "TEXCOORD_0")
      invariant vertexCount == (if i == 0 then 0 else attrs[i - 1].accessor.count)
    {
      var a := attrs[i];
      if !AttributeOk(a) {
        return Err(i);
      }
      assert attrs[..i + 1] == attrs[..i] + [a];
      seen := seen.(position := seen.position || a.name == "POSITION",
                    normal := seen.normal || a.name == "NORMAL",
                    tangent := seen.tangent || a.name == "TANGENT",
                    texcoord := seen.texcoord || a.name == "TEXCOORD_0");
      vertexCount := a.accessor.count;
      i := i + 1;
    }
    assert attrs[..i] == attrs;
    return Ok((seen, vertexCount));
  }

  /**
   * The constructor's work for one primitive: scan the attributes, size the
   * index buffer at four bytes per index, then pick the vertex structure
   * from the number of attributes and size the vertex buffer. Sizes are
   * `size_t` and wrap modulo 2^64.
   */
  method BuildPrimitive(p: Primitive) returns (r: Result<PrimitiveBuild, ModelError>)
    requires DistinctNames(p.attributes)
    ensures r.Ok? <==> WellFormed(p)
    ensures r.Ok? ==>
      && r.value.vertexCount == p.attributes[|p.attributes| - 1].accessor.count
      && r.value.indexCount == p.indices.count
      && r.value.indexBufferSize == (4 * p.indices.count) % Word
      && (r.value.format == VertexLayouts.Vertex0 <==> |p.attributes| <= 3)
      && r.value.vertexBufferSize == (VertexLayouts.StructSize(r.value.format) * r.value.vertexCount) % Word
    ensures r.Err? && r.error.BadAttribute? ==>
      r.error.index < |p.attributes| && !AttributeOk(p.attributes[r.error.index]) &&
      forall i :: 0 <= i < r.error.index ==> AttributeOk(p.attributes[i])
    ensures r.Err? && !r.error.BadAttribute? ==> forall i :: 0 <= i < |p.attributes| ==> AttributeOk(p.attributes[i])
    ensures r == Err(BadIndices) <==> (forall i :: 0 <= i < |p.attributes| ==> AttributeOk(p.attributes[i])) && !IndicesOk(p.indices)
    ensures r == Err(MissingPositionOrNormal) ==> !(HasName(p.attributes, "POSITION") && HasName(p.attributes, "NORMAL"))
    ensures r == Err(InvalidVertexData) ==> |p.attributes| > 4
    ensures r == Err(MissingTangentOrTexcoord) ==> |p.attributes| == 4
  {
    var scan := ScanAttributes(p.attributes);
    if scan.Err? {
      return Err(BadAttribute(scan.error));
    }
    var (seen, vertexCount) := scan.value;
    if !IndicesOk(p.indices) {
      return Err(BadIndices);
    }
    var indexBufferSize := (4 * p.indices.count) % Word;
    if !(seen.position && seen.normal) {
      return Err(MissingPositionOrNormal);
    }
    TwoRequiredNames(p.attributes);
    var n := |p.attributes|;
    if n == 2 || n == 3 {
      var size := (VertexLayouts.StructSize(VertexLayouts.Vertex0) * vertexCount) % Word;
      return Ok(PrimitiveBuild(VertexLayouts.Vertex0, vertexCount, size, p.indices.count, indexBufferSize));
    } else if n == 4 {
      if !(seen.tangent && seen.texcoord) {
        return Err(MissingTangentOrTexcoord);
      }
      var size := (VertexLayouts.StructSize(VertexLayouts.Vertex1) * vertexCount) % Word;
      return Ok(PrimitiveBuild(VertexLayouts.Vertex1, vertexCount, size, p.indices.count, indexBufferSize));
    } else {
      return Err(InvalidVertexData);
    }
  }

  /** With position and normal present and names distinct, there are at least two attributes. */
  lemma TwoRequiredNames(attrs: seq<Attribute>)
    requires HasName(attrs, "POSITION") && HasName(attrs, "NORMAL")
    ensures |attrs| >= 2
  {
    var i :| 0 <= i < |attrs| && attrs[i].name == "POSITION";
    var j :| 0 <= j < |attrs| && attrs[j].name == "NORMAL";
    assert "POSITION"[0] != "NORMAL"[0];
    assert i != j;
  }

  /** The four semantics the constructor copies. */
  function KnownNames(): (s: set<string>)
    ensures |s| == 4
  {
    assert "POSITION"[0] == 'P' && "NORMAL"[0] == 'N' && "TANGENT"[1] == 'A' && "TEXCOORD_0"[1] == 'E';
    {"POSITION", "NORMAL", "TANGENT", "TEXCOORD_0"}
  }

  /**
   * A well-formed primitive with four attributes has exactly the four known
   * semantics, so the `Vertex1` path copies every attribute it has.
   */
  lemma FourAttributesAreTheKnownOnes(p: Primitive)
    requires DistinctNames(p.attributes) && WellFormed(p) && |p.attributes| == 4
    ensures forall i :: 0 <= i < 4 ==> p.attributes[i].name in KnownNames()
  {
    var a := p.attributes;
    var all := {a[0].name, a[1].name, a[2].name, a[3].name};
    var known := KnownNames();
    assert a[0].name != a[1].name && a[0].name != a[2].name && a[0].name != a[3].name;
    assert a[1].name != a[2].name && a[1].name != a[3].name && a[2].name != a[3].name;
    assert |all| == 4;
    assert known <= all;
    assert all == known;
  }
}
