/**
 * The reflected vertex structures of source/asset/dx12/Dx12Struct.hpp.
 * Each member of `Vertex0` / `Vertex1` is a float vector with a semantic
 * name and semantic index; the input layout of a pipeline state and the
 * vertex-buffer views of a mesh are derived from these attribute lists.
 */
module VertexLayouts {

  /** The only scalar type the reflected vectors use. */
  datatype ScaleType = Float

  datatype Attribute = Attribute(semantic: string, semanticIndex: nat, scale: ScaleType, components: nat)

  /** The two reflected vertex structures. */
  datatype VertexFormat = Vertex0 | Vertex1

  /** `rtti::Var<Vector2f>`, `<Vector3f>`, `<Vector4f>`: Float with 2, 3 or 4 components. */
  function Vec2(semantic: string): Attribute { Attribute(semantic, 0, Float, 2) }
  function Vec3(semantic: string): Attribute { Attribute(semantic, 0, Float, 3) }
  function Vec4(semantic: string): Attribute { Attribute(semantic, 0, Float, 4) }

  /** The members of each structure, in declaration order. */
  function Attributes(f: VertexFormat): (attrs: seq<Attribute>)
    ensures f == Vertex0 ==> |attrs| == 2
    ensures f == Vertex1 ==> |attrs| == 4
    ensures forall i :: 0 <= i < |attrs| ==>
      attrs[i].scale == Float && attrs[i].semanticIndex == 0 && 2 <= attrs[i].components <= 4
    ensures attrs[0] == Attribute("POSITION", 0, Float, 3)
    ensures attrs[1] == Attribute("NORMAL", 0, Float, 3)
    ensures f == Vertex1 ==> attrs[2] == Attribute("TANGENT", 0, Float, 4)
    ensures f == Vertex1 ==> attrs[3] == Attribute("TEXCOORD", 0, Float, 2)
  {
    match f
    case Vertex0 => [Vec3("POSITION"), Vec3("NORMAL")]
    case Vertex1 => [Vec3("POSITION"), Vec3("NORMAL"), Vec4("TANGENT"), Vec2("TEXCOORD")]
  }

  /**
   * Byte size of one attribute: `components` floats of 4 bytes. The size
   * helper itself lives in ReflectableStruct.hpp, which is not part of
   * this model; this is the size of the reflected vector type.
   */
  function AttributeSize(a: Attribute): nat {
    4 * a.components
  }

  /** Byte sizes of the attributes of a structure, in declaration order. */
  function AttributeSizes(f: VertexFormat): (sizes: seq<nat>)
    ensures |sizes| == |Attributes(f)|
    ensures forall i :: 0 <= i < |sizes| ==> sizes[i] == AttributeSize(Attributes(f)[i])
  {
    var attrs := Attributes(f);
    seq(|attrs|, i requires 0 <= i < |attrs| => AttributeSize(attrs[i]))
  }

  function Sum(s: seq<nat>): nat {
    if |s| == 0 then 0 else Sum(s[..|s| - 1]) + s[|s| - 1]
  }

  /** Size of one packed vertex: the sum of its attribute sizes. */
  function StructSize(f: VertexFormat): nat {
    Sum(AttributeSizes(f))
  }

  /** `Vertex0` packs 24 bytes, `Vertex1` 48; `Vertex1` extends `Vertex0`. */
  lemma StructSizes()
    ensures StructSize(Vertex0) == 24
    ensures StructSize(Vertex1) == 48
    ensures Attributes(Vertex0) == Attributes(Vertex1)[..2]
  {
    var s0: seq<nat>, s1: seq<nat> := [12, 12], [12, 12, 16, 8];
    assert AttributeSizes(Vertex0) == s0;
    assert AttributeSizes(Vertex1) == s1;
    assert s1[..3][..2] == s0 && s0[..1] == [12];
    assert Sum(s0) == 24;
    assert Sum(s1) == 48;
  }
}
