/** The JSON form of each record of the document, as serde's derived `Serialize` produces it from
    the field attributes in `src/paragen.rs`: one field table per record (key after `rename`, skip
    predicate from `skip_serializing_if`, encoding of the value), written by `Json.Emit`.
    Each record has a shape lemma that states, field by field against the glTF schema's default
    values, which keys appear, in which order, and how their values are encoded. */
module Serialize {
  import opened Primitives
  import opened Json
  import opened Document

  // ---------------------------------------------------------------------------------------
  // Encodings of field values.
  // ---------------------------------------------------------------------------------------

  /** An `Option<u32>` index; `None` would be written as `null`, but every such field skips it. */
  function IndexToJson(o: Option<u32>): Json {
    match o
    case None => Null
    case Some(v) => Int(v as int)
  }

  function TargetToJson(o: Option<Target>): Json {
    match o
    case None => Null
    case Some(t) => Int(t.Code())
  }

  /** A `Vec<u32>` of indices. */
  function Indices(s: seq<u32>): Json {
    Array(MapJson(s, (v: u32) => Int(v as int)))
  }

  /** A `Vec<f64>`. */
  function Floats(s: seq<F64>): Json {
    Array(MapJson(s, (x: F64) => Decimal(x)))
  }

  // Tuple structs are written as plain arrays of their components.

  function TranslationToJson(t: Translation): Json {
    Array([Decimal(t.x), Decimal(t.y), Decimal(t.z)])
  }

  function RotationToJson(r: Rotation): Json {
    Array([Decimal(r.x), Decimal(r.y), Decimal(r.z), Decimal(r.w)])
  }

  function ScaleToJson(s: Scale): Json {
    Array([Decimal(s.x), Decimal(s.y), Decimal(s.z)])
  }

  function Color4ToJson(c: Color4): Json {
    Array([Decimal(c.r), Decimal(c.g), Decimal(c.b), Decimal(c.a)])
  }

  function EmissiveToJson(e: (F64, F64, F64)): Json {
    Array([Decimal(e.0), Decimal(e.1), Decimal(e.2)])
  }

  /** The tuple encodings lose nothing: two values are written alike exactly when they are
      equal, so the component order of each encoding is fixed. */
  lemma TranslationEncoding(a: Translation, b: Translation)
    ensures TranslationToJson(a) == TranslationToJson(b) <==> a == b
  {
  }

  lemma RotationEncoding(a: Rotation, b: Rotation)
    ensures RotationToJson(a) == RotationToJson(b) <==> a == b
  {
  }

  lemma ScaleEncoding(a: Scale, b: Scale)
    ensures ScaleToJson(a) == ScaleToJson(b) <==> a == b
  {
  }

  lemma Color4Encoding(a: Color4, b: Color4)
    ensures Color4ToJson(a) == Color4ToJson(b) <==> a == b
  {
  }

  lemma EmissiveEncoding(a: (F64, F64, F64), b: (F64, F64, F64))
    ensures EmissiveToJson(a) == EmissiveToJson(b) <==> a == b
  {
  }

  // ---------------------------------------------------------------------------------------
  // Field tables, in declaration order, and the records' JSON.
  // ---------------------------------------------------------------------------------------

  function AssetFields(a: Asset): seq<Field> {
    [ Field("copyright", a.copyright == "", String(a.copyright)),
      Field("generator", a.generator == "", String(a.generator)),
      Field("version", false, String(a.version)),
      Field("minVersion", a.minVersion == "", String(a.minVersion)) ]
  }

  function AssetToJson(a: Asset): (j: Json)
    ensures Valid(j)
  {
    AssetValid(a);
    Object(Emit(AssetFields(a)))
  }

  function SceneFields(s: Scene): seq<Field> {
    [ Field("name", s.name == "", String(s.name)),
      Field("nodes", s.nodes == [], Indices(s.nodes)) ]
  }

  function SceneToJson(s: Scene): (j: Json)
    ensures Valid(j)
  {
    SceneValid(s);
    Object(Emit(SceneFields(s)))
  }

  function NodeFields(n: Node): seq<Field> {
    [ Field("name", n.name == "", String(n.name)),
      Field("mesh", n.mesh.None?, IndexToJson(n.mesh)),
      Field("translation", n.t.IsDefault(), TranslationToJson(n.t)),
      Field("rotation", n.r.IsDefault(), RotationToJson(n.r)),
      Field("scale", n.s.IsDefault(), ScaleToJson(n.s)),
      Field("children", n.children == [], Indices(n.children)) ]
  }

  function NodeToJson(n: Node): (j: Json)
    ensures Valid(j)
  {
    NodeValid(n);
    Object(Emit(NodeFields(n)))
  }

  function PbrFields(p: PBRMetallicRoughness): seq<Field> {
    [ Field("baseColorFactor", p.baseColorFactor.IsDefault(), Color4ToJson(p.baseColorFactor)),
      Field("metallicFactor", IsDefaultMetallicFactor(p.metallicFactor), Decimal(p.metallicFactor)),
      Field("roughnessFactor", IsDefaultRoughnessFactor(p.roughnessFactor),
            Decimal(p.roughnessFactor)) ]
  }

  function PbrToJson(p: PBRMetallicRoughness): (j: Json)
    ensures Valid(j)
  {
    PbrValid(p);
    Object(Emit(PbrFields(p)))
  }

  function MaterialFields(m: Material): seq<Field> {
    [ Field("name", m.name == "", String(m.name)),
      Field("emissiveFactor", IsDefaultEmissiveFactor(m.emissiveFactor),
            EmissiveToJson(m.emissiveFactor)),
      Field("alphaMode", IsDefaultAlphaMode(m.alphaMode), String(m.alphaMode.Tag())),
      Field("alphaCutoff", IsDefaultAlphaCutoff(m.alphaCutoff), Decimal(m.alphaCutoff)),
      Field("doubleSided", IsDefaultDoubleSided(m.doubleSided), Bool(m.doubleSided)),
      Field("pbrMetallicRoughness", false, PbrToJson(m.pbrMetallicRoughness)) ]
  }

  function MaterialToJson(m: Material): (j: Json)
    ensures Valid(j)
  {
    MaterialValid(m);
    Object(Emit(MaterialFields(m)))
  }

  function AttributesFields(a: Attributes): seq<Field> {
    [ Field("COLOR_0", a.color0.None?, IndexToJson(a.color0)),
      Field("JOINTS_0", a.joints0.None?, IndexToJson(a.joints0)),
      Field("NORMAL", a.normal.None?, IndexToJson(a.normal)),
      Field("POSITION", a.position.None?, IndexToJson(a.position)),
      Field("TANGENT", a.tangent.None?, IndexToJson(a.tangent)),
      Field("TEXCOORD_0", a.texcoord0.None?, IndexToJson(a.texcoord0)),
      Field("TEXCOORD_1", a.texcoord1.None?, IndexToJson(a.texcoord1)),
      Field("TEXCOORD_2", a.texcoord2.None?, IndexToJson(a.texcoord2)),
      Field("TEXCOORD_3", a.texcoord3.None?, IndexToJson(a.texcoord3)),
      Field("WEIGHTS_0", a.weights0.None?, IndexToJson(a.weights0)) ]
  }

  function AttributesToJson(a: Attributes): (j: Json)
    ensures Valid(j)
  {
    AttributesValid(a);
    Object(Emit(AttributesFields(a)))
  }

  function PrimitiveFields(p: MeshPrimitive): seq<Field> {
    [ Field("attributes", false, AttributesToJson(p.attributes)),
      Field("indices", p.indices.None?, IndexToJson(p.indices)),
      Field("material", p.material.None?, IndexToJson(p.material)),
      Field("mode", IsDefaultMode(p.mode), Int(p.mode.Code())) ]
  }

  function PrimitiveToJson(p: MeshPrimitive): (j: Json)
    ensures Valid(j)
  {
    PrimitiveValid(p);
    Object(Emit(PrimitiveFields(p)))
  }

  function MeshFields(m: Mesh): seq<Field> {
    [ Field("name", m.name == "", String(m.name)),
      Field("primitives", false, Array(MapJson(m.primitives, PrimitiveToJson))),
      Field("weights", m.weights == [], Floats(m.weights)) ]
  }

  function MeshToJson(m: Mesh): (j: Json)
    ensures Valid(j)
  {
    MeshValid(m);
    Object(Emit(MeshFields(m)))
  }

  function AccessorFields(a: Accessor): seq<Field> {
    [ Field("name", a.name == "", String(a.name)),
      Field("bufferView", a.bufferView.None?, IndexToJson(a.bufferView)),
      Field("byteOffset", IsDefaultByteOffset(a.byteOffset), Int(a.byteOffset as int)),
      Field("componentType", false, Int(a.componentType.Code())),
      Field("normalized", IsDefaultNormalized(a.normalized), Bool(a.normalized)),
      Field("count", false, Int(a.count as int)),
      Field("type", false, String(a.type_.Tag())),
      Field("max", a.max == [], Floats(a.max)),
      Field("min", a.min == [], Floats(a.min)) ]
  }

  function AccessorToJson(a: Accessor): (j: Json)
    ensures Valid(j)
  {
    AccessorValid(a);
    Object(Emit(AccessorFields(a)))
  }

  function BufferViewFields(v: BufferView): seq<Field> {
    [ Field("name", v.name == "", String(v.name)),
      Field("buffer", false, Int(v.buffer as int)),
      Field("byteLength", false, Int(v.byteLength as int)),
      Field("byteOffset", false, Int(v.byteOffset as int)),
      Field("byteStride", v.byteStride.None?, IndexToJson(v.byteStride)),
      Field("target", v.target.None?, TargetToJson(v.target)) ]
  }

  function BufferViewToJson(v: BufferView): (j: Json)
    ensures Valid(j)
  {
    BufferViewValid(v);
    Object(Emit(BufferViewFields(v)))
  }

  function BufferFields(b: Buffer): seq<Field> {
    [ Field("name", b.name == "", String(b.name)),
      Field("byteLength", false, Int(b.byteLength as int)),
      Field("uri", b.uri == "", String(b.uri)) ]
  }

  function BufferToJson(b: Buffer): (j: Json)
    ensures Valid(j)
  {
    BufferValid(b);
    Object(Emit(BufferFields(b)))
  }

  function GltfFields(g: Gltf): seq<Field> {
    [ Field("asset", false, AssetToJson(g.asset)),
      Field("scene", g.scene.None?, IndexToJson(g.scene)),
      Field("scenes", g.scenes == [], Array(MapJson(g.scenes, SceneToJson))),
      Field("nodes", g.nodes == [], Array(MapJson(g.nodes, NodeToJson))),
      Field("materials", g.materials == [], Array(MapJson(g.materials, MaterialToJson))),
      Field("meshes", g.meshes == [], Array(MapJson(g.meshes, MeshToJson))),
      Field("accessors", g.accessors == [], Array(MapJson(g.accessors, AccessorToJson))),
      Field("bufferViews", g.bufferViews == [], Array(MapJson(g.bufferViews, BufferViewToJson))),
      Field("buffers", g.buffers == [], Array(MapJson(g.buffers, BufferToJson))) ]
  }

  /** The whole document, as `serde_json::to_writer_pretty` is handed it. */
  function GltfToJson(g: Gltf): (j: Json)
    ensures Valid(j)
  {
    GltfValid(g);
    Object(Emit(GltfFields(g)))
  }

  // ---------------------------------------------------------------------------------------
  // Per record: the declared keys (distinct), the shape of the written object (which keys, in
  // which order, with which encoding), and its validity as a JSON tree.
  // ---------------------------------------------------------------------------------------

  lemma AssetKeys(a: Asset)
    ensures FieldKeys(AssetFields(a)) == ["copyright", "generator", "version", "minVersion"]
    ensures Distinct(FieldKeys(AssetFields(a)))
  {
    assert FieldKeys(AssetFields(a)) == ["copyright", "generator", "version", "minVersion"];
  }

  /** The keys of the written object appear in declaration order. */
  lemma AssetOrder(a: Asset)
    ensures SubsequenceOf(Keys(AssetToJson(a).members), ["copyright", "generator", "version",
                                                         "minVersion"])
  {
    AssetKeys(a);
    EmitInOrder(AssetFields(a));
  }

  /** `version` is always written, even when empty; the other three keys exactly when their
      string is non-empty. */
  lemma AssetShape(a: Asset)
    ensures Emitted(AssetToJson(a).members, "copyright", a.copyright != "", String(a.copyright))
    ensures Emitted(AssetToJson(a).members, "generator", a.generator != "", String(a.generator))
    ensures Emitted(AssetToJson(a).members, "version", true, String(a.version))
    ensures Emitted(AssetToJson(a).members, "minVersion", a.minVersion != "", String(a.minVersion))
  {
    var fs := AssetFields(a);
    AssetKeys(a);
    assert Emitted(AssetToJson(a).members, "copyright",
                   a.copyright != "", String(a.copyright)) by {
      EmitEntry(fs, 0);
    }
    assert Emitted(AssetToJson(a).members, "generator",
                   a.generator != "", String(a.generator)) by {
      EmitEntry(fs, 1);
    }
    assert Emitted(AssetToJson(a).members, "version", true, String(a.version)) by {
      EmitEntry(fs, 2);
    }
    assert Emitted(AssetToJson(a).members, "minVersion",
                   a.minVersion != "", String(a.minVersion)) by {
      EmitEntry(fs, 3);
    }
  }

  lemma AssetValues(a: Asset)
    ensures forall i :: 0 <= i < |AssetFields(a)| ==> Valid(AssetFields(a)[i].value)
  {
  }

  /** The proof behind the validity contract of the record's `ToJson`. */
  lemma AssetValid(a: Asset)
    ensures Valid(Object(Emit(AssetFields(a))))
  {
    AssetKeys(a);
    AssetValues(a);
    EmitValid(AssetFields(a));
  }

  lemma SceneKeys(s: Scene)
    ensures FieldKeys(SceneFields(s)) == ["name", "nodes"]
    ensures Distinct(FieldKeys(SceneFields(s)))
  {
    assert FieldKeys(SceneFields(s)) == ["name", "nodes"];
  }

  /** The keys of the written object appear in declaration order. */
  lemma SceneOrder(s: Scene)
    ensures SubsequenceOf(Keys(SceneToJson(s).members), ["name", "nodes"])
  {
    SceneKeys(s);
    EmitInOrder(SceneFields(s));
  }

  /** A scene's name and node list are written exactly when non-empty. */
  lemma SceneShape(s: Scene)
    ensures Emitted(SceneToJson(s).members, "name", s.name != "", String(s.name))
    ensures Emitted(SceneToJson(s).members, "nodes", s.nodes != [], Indices(s.nodes))
  {
    var fs := SceneFields(s);
    SceneKeys(s);
    assert Emitted(SceneToJson(s).members, "name", s.name != "", String(s.name)) by {
      EmitEntry(fs, 0);
    }
    assert Emitted(SceneToJson(s).members, "nodes", s.nodes != [], Indices(s.nodes)) by {
      EmitEntry(fs, 1);
    }
  }

  lemma SceneValues(s: Scene)
    ensures forall i :: 0 <= i < |SceneFields(s)| ==> Valid(SceneFields(s)[i].value)
  {
  }

  /** The proof behind the validity contract of the record's `ToJson`. */
  lemma SceneValid(s: Scene)
    ensures Valid(Object(Emit(SceneFields(s))))
  {
    SceneKeys(s);
    SceneValues(s);
    EmitValid(SceneFields(s));
  }

  lemma NodeKeys(n: Node)
    ensures FieldKeys(NodeFields(n)) == ["name", "mesh", "translation", "rotation", "scale",
                                         "children"]
    ensures Distinct(FieldKeys(NodeFields(n)))
  {
    assert FieldKeys(NodeFields(n)) == ["name", "mesh", "translation", "rotation", "scale",
                                        "children"];
  }

  /** The keys of the written object appear in declaration order. */
  lemma NodeOrder(n: Node)
    ensures SubsequenceOf(Keys(NodeToJson(n).members), ["name", "mesh", "translation", "rotation",
                                                        "scale", "children"])
  {
    NodeKeys(n);
    EmitInOrder(NodeFields(n));
  }

  /** A node's keys are exactly its non-default fields, in the order name, mesh, translation,
      rotation, scale, children; the transform defaults are the origin, the identity quaternion
      and unit scale. */
  lemma NodeShape(n: Node)
    ensures Emitted(NodeToJson(n).members, "name", n.name != "", String(n.name))
    ensures Emitted(NodeToJson(n).members, "mesh", n.mesh.Some?, IndexToJson(n.mesh))
    ensures Emitted(NodeToJson(n).members, "translation",
                    n.t != Translation(0.0, 0.0, 0.0), TranslationToJson(n.t))
    ensures Emitted(NodeToJson(n).members, "rotation",
                    n.r != Rotation(0.0, 0.0, 0.0, 1.0), RotationToJson(n.r))
    ensures Emitted(NodeToJson(n).members, "scale", n.s != Scale(1.0, 1.0, 1.0), ScaleToJson(n.s))
    ensures Emitted(NodeToJson(n).members, "children", n.children != [], Indices(n.children))
  {
    var fs := NodeFields(n);
    NodeKeys(n);
    assert Emitted(NodeToJson(n).members, "name", n.name != "", String(n.name)) by {
      EmitEntry(fs, 0);
    }
    assert Emitted(NodeToJson(n).members, "mesh", n.mesh.Some?, IndexToJson(n.mesh)) by {
      EmitEntry(fs, 1);
    }
    assert Emitted(NodeToJson(n).members, "translation",
                   n.t != Translation(0.0, 0.0, 0.0), TranslationToJson(n.t)) by {
      EmitEntry(fs, 2);
    }
    assert Emitted(NodeToJson(n).members, "rotation",
                   n.r != Rotation(0.0, 0.0, 0.0, 1.0), RotationToJson(n.r)) by {
      EmitEntry(fs, 3);
    }
    assert Emitted(NodeToJson(n).members, "scale",
                   n.s != Scale(1.0, 1.0, 1.0), ScaleToJson(n.s)) by {
      EmitEntry(fs, 4);
    }
    assert Emitted(NodeToJson(n).members, "children", n.children != [], Indices(n.children)) by {
      EmitEntry(fs, 5);
    }
  }

  lemma NodeValues(n: Node)
    ensures forall i :: 0 <= i < |NodeFields(n)| ==> Valid(NodeFields(n)[i].value)
  {
  }

  /** The proof behind the validity contract of the record's `ToJson`. */
  lemma NodeValid(n: Node)
    ensures Valid(Object(Emit(NodeFields(n))))
  {
    NodeKeys(n);
    NodeValues(n);
    EmitValid(NodeFields(n));
  }

  lemma PbrKeys(p: PBRMetallicRoughness)
    ensures FieldKeys(PbrFields(p)) == ["baseColorFactor", "metallicFactor", "roughnessFactor"]
    ensures Distinct(FieldKeys(PbrFields(p)))
  {
    assert FieldKeys(PbrFields(p)) == ["baseColorFactor", "metallicFactor", "roughnessFactor"];
  }

  /** The keys of the written object appear in declaration order. */
  lemma PbrOrder(p: PBRMetallicRoughness)
    ensures SubsequenceOf(Keys(PbrToJson(p).members), ["baseColorFactor", "metallicFactor",
                                                       "roughnessFactor"])
  {
    PbrKeys(p);
    EmitInOrder(PbrFields(p));
  }

  /** Each factor is written exactly when it differs from the schema default: opaque white and
      1.0 for both scalars. */
  lemma PbrShape(p: PBRMetallicRoughness)
    ensures Emitted(PbrToJson(p).members, "baseColorFactor",
                    p.baseColorFactor != Color4(1.0, 1.0, 1.0, 1.0), Color4ToJson(p.baseColorFactor))
    ensures Emitted(PbrToJson(p).members, "metallicFactor",
                    p.metallicFactor != 1.0, Decimal(p.metallicFactor))
    ensures Emitted(PbrToJson(p).members, "roughnessFactor",
                    p.roughnessFactor != 1.0, Decimal(p.roughnessFactor))
  {
    var fs := PbrFields(p);
    PbrKeys(p);
    assert Emitted(PbrToJson(p).members, "baseColorFactor",
                   p.baseColorFactor != Color4(1.0, 1.0, 1.0, 1.0), Color4ToJson(p.baseColorFactor)) by {
      EmitEntry(fs, 0);
    }
    assert Emitted(PbrToJson(p).members, "metallicFactor",
                   p.metallicFactor != 1.0, Decimal(p.metallicFactor)) by {
      EmitEntry(fs, 1);
    }
    assert Emitted(PbrToJson(p).members, "roughnessFactor",
                   p.roughnessFactor != 1.0, Decimal(p.roughnessFactor)) by {
      EmitEntry(fs, 2);
    }
  }

  lemma PbrValues(p: PBRMetallicRoughness)
    ensures forall i :: 0 <= i < |PbrFields(p)| ==> Valid(PbrFields(p)[i].value)
  {
  }

  /** The proof behind the validity contract of the record's `ToJson`. */
  lemma PbrValid(p: PBRMetallicRoughness)
    ensures Valid(Object(Emit(PbrFields(p))))
  {
    PbrKeys(p);
    PbrValues(p);
    EmitValid(PbrFields(p));
  }

  lemma MaterialKeys(mat: Material)
    ensures FieldKeys(MaterialFields(mat)) == ["name", "emissiveFactor", "alphaMode", "alphaCutoff",
                                               "doubleSided", "pbrMetallicRoughness"]
    ensures Distinct(FieldKeys(MaterialFields(mat)))
  {
    assert FieldKeys(MaterialFields(mat)) == ["name", "emissiveFactor", "alphaMode", "alphaCutoff",
                                              "doubleSided", "pbrMetallicRoughness"];
  }

  /** The keys of the written object appear in declaration order. */
  lemma MaterialOrder(mat: Material)
    ensures SubsequenceOf(Keys(MaterialToJson(mat).members), ["name", "emissiveFactor", "alphaMode",
                                                              "alphaCutoff", "doubleSided",
                                                              "pbrMetallicRoughness"])
  {
    MaterialKeys(mat);
    EmitInOrder(MaterialFields(mat));
  }

  /** `pbrMetallicRoughness` is always written, even when all of its own fields are skipped; the
      other keys exactly when they differ from black emission, `OPAQUE`, a cutoff of 0.5 and
      single-sidedness. */
  lemma MaterialShape(mat: Material)
    ensures Emitted(MaterialToJson(mat).members, "name", mat.name != "", String(mat.name))
    ensures Emitted(MaterialToJson(mat).members, "emissiveFactor",
                    mat.emissiveFactor != (0.0, 0.0, 0.0), EmissiveToJson(mat.emissiveFactor))
    ensures Emitted(MaterialToJson(mat).members, "alphaMode",
                    mat.alphaMode != Opaque, String(mat.alphaMode.Tag()))
    ensures Emitted(MaterialToJson(mat).members, "alphaCutoff",
                    mat.alphaCutoff != 0.5, Decimal(mat.alphaCutoff))
    ensures Emitted(MaterialToJson(mat).members, "doubleSided",
                    mat.doubleSided, Bool(mat.doubleSided))
    ensures Emitted(MaterialToJson(mat).members, "pbrMetallicRoughness",
                    true, PbrToJson(mat.pbrMetallicRoughness))
  {
    var fs := MaterialFields(mat);
    MaterialKeys(mat);
    assert Emitted(MaterialToJson(mat).members, "name", mat.name != "", String(mat.name)) by {
      EmitEntry(fs, 0);
    }
    assert Emitted(MaterialToJson(mat).members, "emissiveFactor",
                   mat.emissiveFactor != (0.0, 0.0, 0.0), EmissiveToJson(mat.emissiveFactor)) by {
      EmitEntry(fs, 1);
    }
    assert Emitted(MaterialToJson(mat).members, "alphaMode",
                   mat.alphaMode != Opaque, String(mat.alphaMode.Tag())) by {
      EmitEntry(fs, 2);
    }
    assert Emitted(MaterialToJson(mat).members, "alphaCutoff",
                   mat.alphaCutoff != 0.5, Decimal(mat.alphaCutoff)) by {
      EmitEntry(fs, 3);
    }
    assert Emitted(MaterialToJson(mat).members, "doubleSided",
                   mat.doubleSided, Bool(mat.doubleSided)) by {
      EmitEntry(fs, 4);
    }
    assert Emitted(MaterialToJson(mat).members, "pbrMetallicRoughness",
                   true, PbrToJson(mat.pbrMetallicRoughness)) by {
      EmitEntry(fs, 5);
    }
  }

  lemma MaterialValues(mat: Material)
    ensures forall i :: 0 <= i < |MaterialFields(mat)| ==> Valid(MaterialFields(mat)[i].value)
  {
  }

  /** The proof behind the validity contract of the record's `ToJson`. */
  lemma MaterialValid(mat: Material)
    ensures Valid(Object(Emit(MaterialFields(mat))))
  {
    MaterialKeys(mat);
    MaterialValues(mat);
    EmitValid(MaterialFields(mat));
  }

  lemma AttributesKeys(a: Attributes)
    ensures FieldKeys(AttributesFields(a)) == ["COLOR_0", "JOINTS_0", "NORMAL", "POSITION",
                                               "TANGENT", "TEXCOORD_0", "TEXCOORD_1", "TEXCOORD_2",
                                               "TEXCOORD_3", "WEIGHTS_0"]
    ensures Distinct(FieldKeys(AttributesFields(a)))
  {
    assert FieldKeys(AttributesFields(a)) == ["COLOR_0", "JOINTS_0", "NORMAL", "POSITION",
                                              "TANGENT", "TEXCOORD_0", "TEXCOORD_1", "TEXCOORD_2",
                                              "TEXCOORD_3", "WEIGHTS_0"];
  }

  /** The keys of the written object appear in declaration order. */
  lemma AttributesOrder(a: Attributes)
    ensures SubsequenceOf(Keys(AttributesToJson(a).members), ["COLOR_0", "JOINTS_0", "NORMAL",
                                                              "POSITION", "TANGENT", "TEXCOORD_0",
                                                              "TEXCOORD_1", "TEXCOORD_2",
                                                              "TEXCOORD_3", "WEIGHTS_0"])
  {
    AttributesKeys(a);
    EmitInOrder(AttributesFields(a));
  }

  /** Each vertex attribute is written, under its upper-case glTF semantic name, exactly when it
      refers to an accessor. */
  lemma AttributesShape(a: Attributes)
    ensures Emitted(AttributesToJson(a).members, "COLOR_0", a.color0.Some?, IndexToJson(a.color0))
    ensures Emitted(AttributesToJson(a).members, "JOINTS_0",
                    a.joints0.Some?, IndexToJson(a.joints0))
    ensures Emitted(AttributesToJson(a).members, "NORMAL", a.normal.Some?, IndexToJson(a.normal))
    ensures Emitted(AttributesToJson(a).members, "POSITION",
                    a.position.Some?, IndexToJson(a.position))
    ensures Emitted(AttributesToJson(a).members, "TANGENT", a.tangent.Some?, IndexToJson(a.tangent))
    ensures Emitted(AttributesToJson(a).members, "TEXCOORD_0",
                    a.texcoord0.Some?, IndexToJson(a.texcoord0))
    ensures Emitted(AttributesToJson(a).members, "TEXCOORD_1",
                    a.texcoord1.Some?, IndexToJson(a.texcoord1))
    ensures Emitted(AttributesToJson(a).members, "TEXCOORD_2",
                    a.texcoord2.Some?, IndexToJson(a.texcoord2))
    ensures Emitted(AttributesToJson(a).members, "TEXCOORD_3",
                    a.texcoord3.Some?, IndexToJson(a.texcoord3))
    ensures Emitted(AttributesToJson(a).members, "WEIGHTS_0",
                    a.weights0.Some?, IndexToJson(a.weights0))
  {
    var fs := AttributesFields(a);
    AttributesKeys(a);
    assert Emitted(AttributesToJson(a).members, "COLOR_0",
                   a.color0.Some?, IndexToJson(a.color0)) by {
      EmitEntry(fs, 0);
    }
    assert Emitted(AttributesToJson(a).members, "JOINTS_0",
                   a.joints0.Some?, IndexToJson(a.joints0)) by {
      EmitEntry(fs, 1);
    }
    assert Emitted(AttributesToJson(a).members, "NORMAL",
                   a.normal.Some?, IndexToJson(a.normal)) by {
      EmitEntry(fs, 2);
    }
    assert Emitted(AttributesToJson(a).members, "POSITION",
                   a.position.Some?, IndexToJson(a.position)) by {
      EmitEntry(fs, 3);
    }
    assert Emitted(AttributesToJson(a).members, "TANGENT",
                   a.tangent.Some?, IndexToJson(a.tangent)) by {
      EmitEntry(fs, 4);
    }
    assert Emitted(AttributesToJson(a).members, "TEXCOORD_0",
                   a.texcoord0.Some?, IndexToJson(a.texcoord0)) by {
      EmitEntry(fs, 5);
    }
    assert Emitted(AttributesToJson(a).members, "TEXCOORD_1",
                   a.texcoord1.Some?, IndexToJson(a.texcoord1)) by {
      EmitEntry(fs, 6);
    }
    assert Emitted(AttributesToJson(a).members, "TEXCOORD_2",
                   a.texcoord2.Some?, IndexToJson(a.texcoord2)) by {
      EmitEntry(fs, 7);
    }
    assert Emitted(AttributesToJson(a).members, "TEXCOORD_3",
                   a.texcoord3.Some?, IndexToJson(a.texcoord3)) by {
      EmitEntry(fs, 8);
    }
    assert Emitted(AttributesToJson(a).members, "WEIGHTS_0",
                   a.weights0.Some?, IndexToJson(a.weights0)) by {
      EmitEntry(fs, 9);
    }
  }

  lemma AttributesValues(a: Attributes)
    ensures forall i :: 0 <= i < |AttributesFields(a)| ==> Valid(AttributesFields(a)[i].value)
  {
  }

  /** The proof behind the validity contract of the record's `ToJson`. */
  lemma AttributesValid(a: Attributes)
    ensures Valid(Object(Emit(AttributesFields(a))))
  {
    AttributesKeys(a);
    AttributesValues(a);
    EmitValid(AttributesFields(a));
  }

  lemma PrimitiveKeys(p: MeshPrimitive)
    ensures FieldKeys(PrimitiveFields(p)) == ["attributes", "indices", "material", "mode"]
    ensures Distinct(FieldKeys(PrimitiveFields(p)))
  {
    assert FieldKeys(PrimitiveFields(p)) == ["attributes", "indices", "material", "mode"];
  }

  /** The keys of the written object appear in declaration order. */
  lemma PrimitiveOrder(p: MeshPrimitive)
    ensures SubsequenceOf(Keys(PrimitiveToJson(p).members), ["attributes", "indices", "material",
                                                             "mode"])
  {
    PrimitiveKeys(p);
    EmitInOrder(PrimitiveFields(p));
  }

  /** `attributes` is always written; `mode` exactly when it is not `Triangles` (code 4). */
  lemma PrimitiveShape(p: MeshPrimitive)
    ensures Emitted(PrimitiveToJson(p).members, "attributes", true, AttributesToJson(p.attributes))
    ensures Emitted(PrimitiveToJson(p).members, "indices", p.indices.Some?, IndexToJson(p.indices))
    ensures Emitted(PrimitiveToJson(p).members, "material",
                    p.material.Some?, IndexToJson(p.material))
    ensures Emitted(PrimitiveToJson(p).members, "mode", p.mode != Triangles, Int(p.mode.Code()))
  {
    var fs := PrimitiveFields(p);
    PrimitiveKeys(p);
    assert Emitted(PrimitiveToJson(p).members, "attributes",
                   true, AttributesToJson(p.attributes)) by {
      EmitEntry(fs, 0);
    }
    assert Emitted(PrimitiveToJson(p).members, "indices",
                   p.indices.Some?, IndexToJson(p.indices)) by {
      EmitEntry(fs, 1);
    }
    assert Emitted(PrimitiveToJson(p).members, "material",
                   p.material.Some?, IndexToJson(p.material)) by {
      EmitEntry(fs, 2);
    }
    assert Emitted(PrimitiveToJson(p).members, "mode",
                   p.mode != Triangles, Int(p.mode.Code())) by {
      EmitEntry(fs, 3);
    }
  }

  lemma PrimitiveValues(p: MeshPrimitive)
    ensures forall i :: 0 <= i < |PrimitiveFields(p)| ==> Valid(PrimitiveFields(p)[i].value)
  {
  }

  /** The proof behind the validity contract of the record's `ToJson`. */
  lemma PrimitiveValid(p: MeshPrimitive)
    ensures Valid(Object(Emit(PrimitiveFields(p))))
  {
    PrimitiveKeys(p);
    PrimitiveValues(p);
    EmitValid(PrimitiveFields(p));
  }

  lemma MeshKeys(mesh: Mesh)
    ensures FieldKeys(MeshFields(mesh)) == ["name", "primitives", "weights"]
    ensures Distinct(FieldKeys(MeshFields(mesh)))
  {
    assert FieldKeys(MeshFields(mesh)) == ["name", "primitives", "weights"];
  }

  /** The keys of the written object appear in declaration order. */
  lemma MeshOrder(mesh: Mesh)
    ensures SubsequenceOf(Keys(MeshToJson(mesh).members), ["name", "primitives", "weights"])
  {
    MeshKeys(mesh);
    EmitInOrder(MeshFields(mesh));
  }

  /** `primitives` is always written, even when empty; `weights` exactly when non-empty. */
  lemma MeshShape(mesh: Mesh)
    ensures Emitted(MeshToJson(mesh).members, "name", mesh.name != "", String(mesh.name))
    ensures Emitted(MeshToJson(mesh).members, "primitives",
                    true, Array(MapJson(mesh.primitives, PrimitiveToJson)))
    ensures Emitted(MeshToJson(mesh).members, "weights", mesh.weights != [], Floats(mesh.weights))
  {
    var fs := MeshFields(mesh);
    MeshKeys(mesh);
    assert Emitted(MeshToJson(mesh).members, "name", mesh.name != "", String(mesh.name)) by {
      EmitEntry(fs, 0);
    }
    assert Emitted(MeshToJson(mesh).members, "primitives",
                   true, Array(MapJson(mesh.primitives, PrimitiveToJson))) by {
      EmitEntry(fs, 1);
    }
    assert Emitted(MeshToJson(mesh).members, "weights",
                   mesh.weights != [], Floats(mesh.weights)) by {
      EmitEntry(fs, 2);
    }
  }

  lemma MeshValues(mesh: Mesh)
    ensures forall i :: 0 <= i < |MeshFields(mesh)| ==> Valid(MeshFields(mesh)[i].value)
  {
    PrimitivesValid(mesh.primitives);
  }

  /** The proof behind the validity contract of the record's `ToJson`. */
  lemma MeshValid(mesh: Mesh)
    ensures Valid(Object(Emit(MeshFields(mesh))))
  {
    MeshKeys(mesh);
    MeshValues(mesh);
    EmitValid(MeshFields(mesh));
  }

  lemma AccessorKeys(a: Accessor)
    ensures FieldKeys(AccessorFields(a)) == ["name", "bufferView", "byteOffset", "componentType",
                                             "normalized", "count", "type", "max", "min"]
    ensures Distinct(FieldKeys(AccessorFields(a)))
  {
    assert FieldKeys(AccessorFields(a)) == ["name", "bufferView", "byteOffset", "componentType",
                                            "normalized", "count", "type", "max", "min"];
  }

  /** The keys of the written object appear in declaration order. */
  lemma AccessorOrder(a: Accessor)
    ensures SubsequenceOf(Keys(AccessorToJson(a).members), ["name", "bufferView", "byteOffset",
                                                            "componentType", "normalized", "count",
                                                            "type", "max", "min"])
  {
    AccessorKeys(a);
    EmitInOrder(AccessorFields(a));
  }

  /** `componentType`, `count` and `type` are always written; `byteOffset` exactly when it is not
      0 and `normalized` exactly when it is true. */
  lemma AccessorShape(a: Accessor)
    ensures Emitted(AccessorToJson(a).members, "name", a.name != "", String(a.name))
    ensures Emitted(AccessorToJson(a).members, "bufferView",
                    a.bufferView.Some?, IndexToJson(a.bufferView))
    ensures Emitted(AccessorToJson(a).members, "byteOffset",
                    a.byteOffset != 0, Int(a.byteOffset as int))
    ensures Emitted(AccessorToJson(a).members, "componentType", true, Int(a.componentType.Code()))
    ensures Emitted(AccessorToJson(a).members, "normalized", a.normalized, Bool(a.normalized))
    ensures Emitted(AccessorToJson(a).members, "count", true, Int(a.count as int))
    ensures Emitted(AccessorToJson(a).members, "type", true, String(a.type_.Tag()))
    ensures Emitted(AccessorToJson(a).members, "max", a.max != [], Floats(a.max))
    ensures Emitted(AccessorToJson(a).members, "min", a.min != [], Floats(a.min))
  {
    var fs := AccessorFields(a);
    AccessorKeys(a);
    assert Emitted(AccessorToJson(a).members, "name", a.name != "", String(a.name)) by {
      EmitEntry(fs, 0);
    }
    assert Emitted(AccessorToJson(a).members, "bufferView",
                   a.bufferView.Some?, IndexToJson(a.bufferView)) by {
      EmitEntry(fs, 1);
    }
    assert Emitted(AccessorToJson(a).members, "byteOffset",
                   a.byteOffset != 0, Int(a.byteOffset as int)) by {
      EmitEntry(fs, 2);
    }
    assert Emitted(AccessorToJson(a).members, "componentType",
                   true, Int(a.componentType.Code())) by {
      EmitEntry(fs, 3);
    }
    assert Emitted(AccessorToJson(a).members, "normalized", a.normalized, Bool(a.normalized)) by {
      EmitEntry(fs, 4);
    }
    assert Emitted(AccessorToJson(a).members, "count", true, Int(a.count as int)) by {
      EmitEntry(fs, 5);
    }
    assert Emitted(AccessorToJson(a).members, "type", true, String(a.type_.Tag())) by {
      EmitEntry(fs, 6);
    }
    assert Emitted(AccessorToJson(a).members, "max", a.max != [], Floats(a.max)) by {
      EmitEntry(fs, 7);
    }
    assert Emitted(AccessorToJson(a).members, "min", a.min != [], Floats(a.min)) by {
      EmitEntry(fs, 8);
    }
  }

  lemma AccessorValues(a: Accessor)
    ensures forall i :: 0 <= i < |AccessorFields(a)| ==> Valid(AccessorFields(a)[i].value)
  {
  }

  /** The proof behind the validity contract of the record's `ToJson`. */
  lemma AccessorValid(a: Accessor)
    ensures Valid(Object(Emit(AccessorFields(a))))
  {
    AccessorKeys(a);
    AccessorValues(a);
    EmitValid(AccessorFields(a));
  }

  lemma BufferViewKeys(v: BufferView)
    ensures FieldKeys(BufferViewFields(v)) == ["name", "buffer", "byteLength", "byteOffset",
                                               "byteStride", "target"]
    ensures Distinct(FieldKeys(BufferViewFields(v)))
  {
    assert FieldKeys(BufferViewFields(v)) == ["name", "buffer", "byteLength", "byteOffset",
                                              "byteStride", "target"];
  }

  /** The keys of the written object appear in declaration order. */
  lemma BufferViewOrder(v: BufferView)
    ensures SubsequenceOf(Keys(BufferViewToJson(v).members), ["name", "buffer", "byteLength",
                                                              "byteOffset", "byteStride", "target"])
  {
    BufferViewKeys(v);
    EmitInOrder(BufferViewFields(v));
  }

  /** `buffer`, `byteLength` and `byteOffset` are always written, `byteOffset` even at 0. */
  lemma BufferViewShape(v: BufferView)
    ensures Emitted(BufferViewToJson(v).members, "name", v.name != "", String(v.name))
    ensures Emitted(BufferViewToJson(v).members, "buffer", true, Int(v.buffer as int))
    ensures Emitted(BufferViewToJson(v).members, "byteLength", true, Int(v.byteLength as int))
    ensures Emitted(BufferViewToJson(v).members, "byteOffset", true, Int(v.byteOffset as int))
    ensures Emitted(BufferViewToJson(v).members, "byteStride",
                    v.byteStride.Some?, IndexToJson(v.byteStride))
    ensures Emitted(BufferViewToJson(v).members, "target", v.target.Some?, TargetToJson(v.target))
  {
    var fs := BufferViewFields(v);
    BufferViewKeys(v);
    assert Emitted(BufferViewToJson(v).members, "name", v.name != "", String(v.name)) by {
      EmitEntry(fs, 0);
    }
    assert Emitted(BufferViewToJson(v).members, "buffer", true, Int(v.buffer as int)) by {
      EmitEntry(fs, 1);
    }
    assert Emitted(BufferViewToJson(v).members, "byteLength", true, Int(v.byteLength as int)) by {
      EmitEntry(fs, 2);
    }
    assert Emitted(BufferViewToJson(v).members, "byteOffset", true, Int(v.byteOffset as int)) by {
      EmitEntry(fs, 3);
    }
    assert Emitted(BufferViewToJson(v).members, "byteStride",
                   v.byteStride.Some?, IndexToJson(v.byteStride)) by {
      EmitEntry(fs, 4);
    }
    assert Emitted(BufferViewToJson(v).members, "target",
                   v.target.Some?, TargetToJson(v.target)) by {
      EmitEntry(fs, 5);
    }
  }

  lemma BufferViewValues(v: BufferView)
    ensures forall i :: 0 <= i < |BufferViewFields(v)| ==> Valid(BufferViewFields(v)[i].value)
  {
  }

  /** The proof behind the validity contract of the record's `ToJson`. */
  lemma BufferViewValid(v: BufferView)
    ensures Valid(Object(Emit(BufferViewFields(v))))
  {
    BufferViewKeys(v);
    BufferViewValues(v);
    EmitValid(BufferViewFields(v));
  }

  lemma BufferKeys(b: Buffer)
    ensures FieldKeys(BufferFields(b)) == ["name", "byteLength", "uri"]
    ensures Distinct(FieldKeys(BufferFields(b)))
  {
    assert FieldKeys(BufferFields(b)) == ["name", "byteLength", "uri"];
  }

  /** The keys of the written object appear in declaration order. */
  lemma BufferOrder(b: Buffer)
    ensures SubsequenceOf(Keys(BufferToJson(b).members), ["name", "byteLength", "uri"])
  {
    BufferKeys(b);
    EmitInOrder(BufferFields(b));
  }

  /** `byteLength` is always written; `name` and `uri` exactly when non-empty. */
  lemma BufferShape(b: Buffer)
    ensures Emitted(BufferToJson(b).members, "name", b.name != "", String(b.name))
    ensures Emitted(BufferToJson(b).members, "byteLength", true, Int(b.byteLength as int))
    ensures Emitted(BufferToJson(b).members, "uri", b.uri != "", String(b.uri))
  {
    var fs := BufferFields(b);
    BufferKeys(b);
    assert Emitted(BufferToJson(b).members, "name", b.name != "", String(b.name)) by {
      EmitEntry(fs, 0);
    }
    assert Emitted(BufferToJson(b).members, "byteLength", true, Int(b.byteLength as int)) by {
      EmitEntry(fs, 1);
    }
    assert Emitted(BufferToJson(b).members, "uri", b.uri != "", String(b.uri)) by {
      EmitEntry(fs, 2);
    }
  }

  lemma BufferValues(b: Buffer)
    ensures forall i :: 0 <= i < |BufferFields(b)| ==> Valid(BufferFields(b)[i].value)
  {
  }

  /** The proof behind the validity contract of the record's `ToJson`. */
  lemma BufferValid(b: Buffer)
    ensures Valid(Object(Emit(BufferFields(b))))
  {
    BufferKeys(b);
    BufferValues(b);
    EmitValid(BufferFields(b));
  }

  lemma GltfKeys(g: Gltf)
    ensures FieldKeys(GltfFields(g)) == ["asset", "scene", "scenes", "nodes", "materials", "meshes",
                                         "accessors", "bufferViews", "buffers"]
    ensures Distinct(FieldKeys(GltfFields(g)))
  {
    assert FieldKeys(GltfFields(g)) == ["asset", "scene", "scenes", "nodes", "materials", "meshes",
                                        "accessors", "bufferViews", "buffers"];
  }

  /** The keys of the written object appear in declaration order. */
  lemma GltfOrder(g: Gltf)
    ensures SubsequenceOf(Keys(GltfToJson(g).members), ["asset", "scene", "scenes", "nodes",
                                                        "materials", "meshes", "accessors",
                                                        "bufferViews", "buffers"])
  {
    GltfKeys(g);
    EmitInOrder(GltfFields(g));
  }

  /** `asset` is always written; `scene` when set; each list exactly when non-empty. */
  lemma GltfShape(g: Gltf)
    ensures Emitted(GltfToJson(g).members, "asset", true, AssetToJson(g.asset))
    ensures Emitted(GltfToJson(g).members, "scene", g.scene.Some?, IndexToJson(g.scene))
    ensures Emitted(GltfToJson(g).members, "scenes",
                    g.scenes != [], Array(MapJson(g.scenes, SceneToJson)))
    ensures Emitted(GltfToJson(g).members, "nodes",
                    g.nodes != [], Array(MapJson(g.nodes, NodeToJson)))
    ensures Emitted(GltfToJson(g).members, "materials",
                    g.materials != [], Array(MapJson(g.materials, MaterialToJson)))
    ensures Emitted(GltfToJson(g).members, "meshes",
                    g.meshes != [], Array(MapJson(g.meshes, MeshToJson)))
    ensures Emitted(GltfToJson(g).members, "accessors",
                    g.accessors != [], Array(MapJson(g.accessors, AccessorToJson)))
    ensures Emitted(GltfToJson(g).members, "bufferViews",
                    g.bufferViews != [], Array(MapJson(g.bufferViews, BufferViewToJson)))
    ensures Emitted(GltfToJson(g).members, "buffers",
                    g.buffers != [], Array(MapJson(g.buffers, BufferToJson)))
  {
    var fs := GltfFields(g);
    GltfKeys(g);
    assert Emitted(GltfToJson(g).members, "asset", true, AssetToJson(g.asset)) by {
      EmitEntry(fs, 0);
    }
    assert Emitted(GltfToJson(g).members, "scene", g.scene.Some?, IndexToJson(g.scene)) by {
      EmitEntry(fs, 1);
    }
    assert Emitted(GltfToJson(g).members, "scenes",
                   g.scenes != [], Array(MapJson(g.scenes, SceneToJson))) by {
      EmitEntry(fs, 2);
    }
    assert Emitted(GltfToJson(g).members, "nodes",
                   g.nodes != [], Array(MapJson(g.nodes, NodeToJson))) by {
      EmitEntry(fs, 3);
    }
    assert Emitted(GltfToJson(g).members, "materials",
                   g.materials != [], Array(MapJson(g.materials, MaterialToJson))) by {
      EmitEntry(fs, 4);
    }
    assert Emitted(GltfToJson(g).members, "meshes",
                   g.meshes != [], Array(MapJson(g.meshes, MeshToJson))) by {
      EmitEntry(fs, 5);
    }
    assert Emitted(GltfToJson(g).members, "accessors",
                   g.accessors != [], Array(MapJson(g.accessors, AccessorToJson))) by {
      EmitEntry(fs, 6);
    }
    assert Emitted(GltfToJson(g).members, "bufferViews",
                   g.bufferViews != [], Array(MapJson(g.bufferViews, BufferViewToJson))) by {
      EmitEntry(fs, 7);
    }
    assert Emitted(GltfToJson(g).members, "buffers",
                   g.buffers != [], Array(MapJson(g.buffers, BufferToJson))) by {
      EmitEntry(fs, 8);
    }
  }

  lemma GltfValues(g: Gltf)
    ensures forall i :: 0 <= i < |GltfFields(g)| ==> Valid(GltfFields(g)[i].value)
  {
    ScenesValid(g.scenes);
    NodesValid(g.nodes);
    MaterialsValid(g.materials);
    MeshsValid(g.meshes);
    AccessorsValid(g.accessors);
    BufferViewsValid(g.bufferViews);
    BuffersValid(g.buffers);
  }

  /** The proof behind the validity contract of the record's `ToJson`. */
  lemma GltfValid(g: Gltf)
    ensures Valid(Object(Emit(GltfFields(g))))
  {
    GltfKeys(g);
    GltfValues(g);
    EmitValid(GltfFields(g));
  }

  lemma ScenesValid(xs: seq<Scene>)
    ensures Valid(Array(MapJson(xs, SceneToJson)))
  {
    MapJsonValid(xs, SceneToJson);
  }

  lemma NodesValid(xs: seq<Node>)
    ensures Valid(Array(MapJson(xs, NodeToJson)))
  {
    MapJsonValid(xs, NodeToJson);
  }

  lemma MaterialsValid(xs: seq<Material>)
    ensures Valid(Array(MapJson(xs, MaterialToJson)))
  {
    MapJsonValid(xs, MaterialToJson);
  }

  lemma PrimitivesValid(xs: seq<MeshPrimitive>)
    ensures Valid(Array(MapJson(xs, PrimitiveToJson)))
  {
    MapJsonValid(xs, PrimitiveToJson);
  }

  lemma MeshsValid(xs: seq<Mesh>)
    ensures Valid(Array(MapJson(xs, MeshToJson)))
  {
    MapJsonValid(xs, MeshToJson);
  }

  lemma AccessorsValid(xs: seq<Accessor>)
    ensures Valid(Array(MapJson(xs, AccessorToJson)))
  {
    MapJsonValid(xs, AccessorToJson);
  }

  lemma BufferViewsValid(xs: seq<BufferView>)
    ensures Valid(Array(MapJson(xs, BufferViewToJson)))
  {
    MapJsonValid(xs, BufferViewToJson);
  }

  lemma BuffersValid(xs: seq<Buffer>)
    ensures Valid(Array(MapJson(xs, BufferToJson)))
  {
    MapJsonValid(xs, BufferToJson);
  }
}
