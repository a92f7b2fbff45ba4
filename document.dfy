/** The glTF 2.0 document model of `src/paragen.rs`: one value type per record, the canonical
    instance each record's `new()` builds, the enumerations with their wire encodings, and the
    per-field default predicates that decide which fields are left out of the JSON. */
module Document {
  import opened Primitives

  // ---------------------------------------------------------------------------------------
  // Tuple-like value types. Each is default exactly when the whole value equals `New()`.
  // ---------------------------------------------------------------------------------------

  datatype Translation = Translation(x: F64, y: F64, z: F64) {
    static function New(): Translation { Translation(0.0, 0.0, 0.0) }

    /** The aggregate comparison with `New()` amounts to: every component is at the origin. */
    predicate IsDefault()
      ensures IsDefault() <==> x == 0.0 && y == 0.0 && z == 0.0
    {
      this == New()
    }
  }

  datatype Rotation = Rotation(x: F64, y: F64, z: F64, w: F64) {
    static function New(): Rotation { Rotation(0.0, 0.0, 0.0, 1.0) }

    /** Default exactly at the identity quaternion (0, 0, 0, 1). */
    predicate IsDefault()
      ensures IsDefault() <==> x == 0.0 && y == 0.0 && z == 0.0 && w == 1.0
    {
      this == New()
    }
  }

  datatype Scale = Scale(x: F64, y: F64, z: F64) {
    static function New(): Scale { Scale(1.0, 1.0, 1.0) }

    /** Default exactly at unit scale (1, 1, 1). */
    predicate IsDefault()
      ensures IsDefault() <==> x == 1.0 && y == 1.0 && z == 1.0
    {
      this == New()
    }
  }

  datatype Color4 = Color4(r: F64, g: F64, b: F64, a: F64) {
    static function New(): Color4 { Color4(1.0, 1.0, 1.0, 1.0) }

    /** Default exactly at opaque white (1, 1, 1, 1). */
    predicate IsDefault()
      ensures IsDefault() <==> r == 1.0 && g == 1.0 && b == 1.0 && a == 1.0
    {
      this == New()
    }
  }

  // ---------------------------------------------------------------------------------------
  // Enumerations. AlphaMode and Type are written as their variant names; Mode, ComponentType
  // and Target as their `repr` integer codes.
  // ---------------------------------------------------------------------------------------

  datatype AlphaMode = Opaque | Mask | Blend {
    /** The variant name serde writes. */
    function Tag(): (s: string)
      ensures AlphaModeOfTag(s) == Some(this)
    {
      match this
      case Opaque => "OPAQUE"
      case Mask => "MASK"
      case Blend => "BLEND"
    }
  }

  /** The inverse of `AlphaMode.Tag`. */
  function AlphaModeOfTag(s: string): Option<AlphaMode> {
    if s == "OPAQUE" then Some(Opaque)
    else if s == "MASK" then Some(Mask)
    else if s == "BLEND" then Some(Blend)
    else None
  }

  /** Primitive topology, `#[repr(u8)]`. */
  datatype Mode = Points | Lines | LineLoop | LineStrip | Triangles | TriangleStrip | TriangleFan {
    function Code(): (n: int)
      ensures 0 <= n <= 6
      ensures ModeOfCode(n) == Some(this)
    {
      match this
      case Points => 0
      case Lines => 1
      case LineLoop => 2
      case LineStrip => 3
      case Triangles => 4
      case TriangleStrip => 5
      case TriangleFan => 6
    }
  }

  /** The inverse of `Mode.Code`. */
  function ModeOfCode(n: int): Option<Mode> {
    if n == 0 then Some(Points)
    else if n == 1 then Some(Lines)
    else if n == 2 then Some(LineLoop)
    else if n == 3 then Some(LineStrip)
    else if n == 4 then Some(Triangles)
    else if n == 5 then Some(TriangleStrip)
    else if n == 6 then Some(TriangleFan)
    else None
  }

  /** Accessor component type, `#[repr(u16)]`; the code 5124 (a 32-bit signed integer in the
      glTF registry) has no variant. */
  datatype ComponentType = Byte | UnsignedByte | Short | UnsignedShort | UnsignedInt | Float {
    function Code(): (n: int)
      ensures n in {5120, 5121, 5122, 5123, 5125, 5126}
      ensures ComponentTypeOfCode(n) == Some(this)
    {
      match this
      case Byte => 5120
      case UnsignedByte => 5121
      case Short => 5122
      case UnsignedShort => 5123
      case UnsignedInt => 5125
      case Float => 5126
    }
  }

  /** The inverse of `ComponentType.Code`. */
  function ComponentTypeOfCode(n: int): Option<ComponentType> {
    if n == 5120 then Some(Byte)
    else if n == 5121 then Some(UnsignedByte)
    else if n == 5122 then Some(Short)
    else if n == 5123 then Some(UnsignedShort)
    else if n == 5125 then Some(UnsignedInt)
    else if n == 5126 then Some(Float)
    else None
  }

  /** The shape of an accessor's elements. */
  datatype Type = Scalar | Vec2 | Vec3 | Vec4 | Mat2 | Mat3 | Mat4 {
    /** The variant name serde writes. */
    function Tag(): (s: string)
      ensures TypeOfTag(s) == Some(this)
    {
      match this
      case Scalar => "SCALAR"
      case Vec2 => "VEC2"
      case Vec3 => "VEC3"
      case Vec4 => "VEC4"
      case Mat2 => "MAT2"
      case Mat3 => "MAT3"
      case Mat4 => "MAT4"
    }
  }

  /** The inverse of `Type.Tag`. */
  function TypeOfTag(s: string): Option<Type> {
    if s == "SCALAR" then Some(Scalar)
    else if s == "VEC2" then Some(Vec2)
    else if s == "VEC3" then Some(Vec3)
    else if s == "VEC4" then Some(Vec4)
    else if s == "MAT2" then Some(Mat2)
    else if s == "MAT3" then Some(Mat3)
    else if s == "MAT4" then Some(Mat4)
    else None
  }

  /** Buffer-view binding target, `#[repr(u16)]`. */
  datatype Target = ArrayBuffer | ElementArrayBuffer {
    function Code(): (n: int)
      ensures n in {34962, 34963}
      ensures TargetOfCode(n) == Some(this)
    {
      match this
      case ArrayBuffer => 34962
      case ElementArrayBuffer => 34963
    }
  }

  /** The inverse of `Target.Code`. */
  function TargetOfCode(n: int): Option<Target> {
    if n == 34962 then Some(ArrayBuffer)
    else if n == 34963 then Some(ElementArrayBuffer)
    else None
  }

  // ---------------------------------------------------------------------------------------
  // Each decoder accepts exactly the encodings, so distinct variants never share one.
  // ---------------------------------------------------------------------------------------

  lemma AlphaModeTags(s: string, m: AlphaMode)
    ensures AlphaModeOfTag(s) == Some(m) <==> m.Tag() == s
  {
  }

  lemma ModeCodes(n: int, m: Mode)
    ensures ModeOfCode(n) == Some(m) <==> m.Code() == n
  {
  }

  /** 5124 is not the code of any component type. */
  lemma ComponentTypeCodes(n: int, c: ComponentType)
    ensures ComponentTypeOfCode(n) == Some(c) <==> c.Code() == n
    ensures c.Code() != 5124
  {
  }

  lemma TypeTags(s: string, t: Type)
    ensures TypeOfTag(s) == Some(t) <==> t.Tag() == s
  {
  }

  lemma TargetCodes(n: int, t: Target)
    ensures TargetOfCode(n) == Some(t) <==> t.Code() == n
  {
  }

  // ---------------------------------------------------------------------------------------
  // Records and their `new()` instances.
  // ---------------------------------------------------------------------------------------

  datatype Asset =
    Asset(copyright: string, generator: string, version: string, minVersion: string) {
    static function New(): Asset { Asset("", "Paragen v0.1.0", "2.0", "2.0") }
  }

  datatype Scene = Scene(name: string, nodes: seq<u32>) {
    static function New(): Scene { Scene("", []) }
  }

  datatype Node = Node(name: string, mesh: Option<u32>, t: Translation, r: Rotation, s: Scale,
                       children: seq<u32>) {
    static function New(): Node {
      Node("", None, Translation.New(), Rotation.New(), Scale.New(), [])
    }
  }

  datatype PBRMetallicRoughness =
    PBRMetallicRoughness(baseColorFactor: Color4, metallicFactor: F64, roughnessFactor: F64) {
    static function New(): PBRMetallicRoughness {
      PBRMetallicRoughness(Color4.New(), 1.0, 1.0)
    }
  }

  datatype Material = Material(name: string, emissiveFactor: (F64, F64, F64), alphaMode: AlphaMode,
                               alphaCutoff: F64, doubleSided: bool,
                               pbrMetallicRoughness: PBRMetallicRoughness) {
    static function New(): Material {
      Material("", (0.0, 0.0, 0.0), Opaque, 0.5, false, PBRMetallicRoughness.New())
    }
  }

  /** The vertex attribute slots of a primitive, each an optional accessor index. */
  datatype Attributes = Attributes(color0: Option<u32>, joints0: Option<u32>, normal: Option<u32>,
                                   position: Option<u32>, tangent: Option<u32>,
                                   texcoord0: Option<u32>, texcoord1: Option<u32>,
                                   texcoord2: Option<u32>, texcoord3: Option<u32>,
                                   weights0: Option<u32>) {
    static function New(): Attributes {
      Attributes(None, None, None, None, None, None, None, None, None, None)
    }
  }

  datatype MeshPrimitive = MeshPrimitive(attributes: Attributes, indices: Option<u32>,
                                         material: Option<u32>, mode: Mode) {
    static function New(): MeshPrimitive {
      MeshPrimitive(Attributes.New(), None, None, Triangles)
    }
  }

  datatype Mesh = Mesh(name: string, primitives: seq<MeshPrimitive>, weights: seq<F64>) {
    static function New(): Mesh { Mesh("", [], []) }
  }

  datatype Accessor = Accessor(name: string, bufferView: Option<u32>, byteOffset: u32,
                               componentType: ComponentType, normalized: bool, count: u32,
                               type_: Type, max: seq<F64>, min: seq<F64>) {
    static function New(): Accessor {
      Accessor("", None, 0, Byte, false, 0, Scalar, [], [])
    }
  }

  datatype BufferView = BufferView(name: string, buffer: u32, byteLength: u32, byteOffset: u32,
                                   byteStride: Option<u32>, target: Option<Target>) {
    static function New(): BufferView { BufferView("", 0, 0, 0, None, None) }
  }

  datatype Buffer = Buffer(name: string, byteLength: u32, uri: string) {
    static function New(): Buffer { Buffer("", 0, "") }
  }

  /** The root of a glTF document. Indices stored anywhere in it are not checked against the
      lists they refer to. */
  datatype Gltf = Gltf(asset: Asset, scene: Option<u32>, scenes: seq<Scene>, nodes: seq<Node>,
                       materials: seq<Material>, meshes: seq<Mesh>, accessors: seq<Accessor>,
                       bufferViews: seq<BufferView>, buffers: seq<Buffer>) {
    static function New(): Gltf {
      Gltf(Asset.New(), None, [], [], [], [], [], [], [])
    }
  }

  // ---------------------------------------------------------------------------------------
  // Stand-alone default predicates. Each holds exactly at the value `new()` puts in its field.
  // ---------------------------------------------------------------------------------------

  predicate IsDefaultMetallicFactor(value: F64)
    ensures IsDefaultMetallicFactor(value) <==> value == PBRMetallicRoughness.New().metallicFactor
  {
    value == 1.0
  }

  predicate IsDefaultRoughnessFactor(value: F64)
    ensures IsDefaultRoughnessFactor(value) <==> value == PBRMetallicRoughness.New().roughnessFactor
  {
    value == 1.0
  }

  predicate IsDefaultEmissiveFactor(value: (F64, F64, F64))
    ensures IsDefaultEmissiveFactor(value) <==> value == Material.New().emissiveFactor
    ensures IsDefaultEmissiveFactor(value) <==> value.0 == 0.0 && value.1 == 0.0 && value.2 == 0.0
  {
    value == (0.0, 0.0, 0.0)
  }

  predicate IsDefaultAlphaMode(value: AlphaMode)
    ensures IsDefaultAlphaMode(value) <==> value == Material.New().alphaMode
    ensures IsDefaultAlphaMode(value) <==> value.Tag() == "OPAQUE"
  {
    value == Opaque
  }

  predicate IsDefaultAlphaCutoff(value: F64)
    ensures IsDefaultAlphaCutoff(value) <==> value == Material.New().alphaCutoff
  {
    value == 0.5
  }

  predicate IsDefaultDoubleSided(value: bool)
    ensures IsDefaultDoubleSided(value) <==> value == Material.New().doubleSided
  {
    value == false
  }

  /** Of the seven topologies only `Triangles` (code 4) is the default. */
  predicate IsDefaultMode(value: Mode)
    ensures IsDefaultMode(value) <==> value == MeshPrimitive.New().mode
    ensures IsDefaultMode(value) <==> value.Code() == 4
  {
    value == Triangles
  }

  predicate IsDefaultByteOffset(value: u32)
    ensures IsDefaultByteOffset(value) <==> value == Accessor.New().byteOffset
  {
    value == 0
  }

  predicate IsDefaultNormalized(value: bool)
    ensures IsDefaultNormalized(value) <==> value == Accessor.New().normalized
  {
    value == false
  }
}
