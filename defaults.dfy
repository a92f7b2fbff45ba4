/** What the serialiser writes for records fresh from their `new()` constructors, and the two
    ways a byte offset of 0 is treated. */
module Defaults {
  import opened Primitives
  import opened Json
  import opened Document
  import opened Serialize

  /** A fresh node has every field at its default and is written as `{}`. */
  lemma NewNodeJson()
    ensures NodeToJson(Node.New()) == Object([])
  {
    var fs := NodeFields(Node.New());
    assert forall i :: 0 <= i < |fs| ==> fs[i].omit;
    EmitAllOmitted(fs);
  }

  /** Moving a fresh node writes its translation and nothing else. */
  lemma TranslatedNodeJson(x: F64)
    requires x != 0.0
    ensures NodeToJson(Node.New().(t := Translation(x, 0.0, 0.0)))
         == Object([("translation", Array([Decimal(x), Decimal(0.0), Decimal(0.0)]))])
  {
    var fs := NodeFields(Node.New().(t := Translation(x, 0.0, 0.0)));
    assert !fs[2].omit && forall j :: 0 <= j < |fs| && j != 2 ==> fs[j].omit;
    EmitSingle(fs, 2);
  }

  lemma NewSceneJson()
    ensures SceneToJson(Scene.New()) == Object([])
  {
    var fs := SceneFields(Scene.New());
    assert forall i :: 0 <= i < |fs| ==> fs[i].omit;
    EmitAllOmitted(fs);
  }

  lemma NewAttributesJson()
    ensures AttributesToJson(Attributes.New()) == Object([])
  {
    var fs := AttributesFields(Attributes.New());
    assert forall i :: 0 <= i < |fs| ==> fs[i].omit;
    EmitAllOmitted(fs);
  }

  lemma NewPbrJson()
    ensures PbrToJson(PBRMetallicRoughness.New()) == Object([])
  {
    var fs := PbrFields(PBRMetallicRoughness.New());
    assert forall i :: 0 <= i < |fs| ==> fs[i].omit;
    EmitAllOmitted(fs);
  }

  /** A primitive without indices or material and with the default mode writes its attributes
      alone. */
  lemma BarePrimitiveJson(p: MeshPrimitive)
    requires p.indices.None? && p.material.None? && p.mode == Triangles
    ensures PrimitiveToJson(p) == Object([("attributes", AttributesToJson(p.attributes))])
  {
    var fs := PrimitiveFields(p);
    assert !fs[0].omit && forall j :: 0 <= j < |fs| && j != 0 ==> fs[j].omit;
    EmitSingle(fs, 0);
  }

  /** A fresh primitive still writes its (empty) attributes: `{"attributes": {}}`. */
  lemma NewPrimitiveJson()
    ensures PrimitiveToJson(MeshPrimitive.New()) == Object([("attributes", Object([]))])
  {
    BarePrimitiveJson(MeshPrimitive.New());
    NewAttributesJson();
  }

  /** A fresh mesh still writes its (empty) primitive list: `{"primitives": []}`. */
  lemma NewMeshJson()
    ensures MeshToJson(Mesh.New()) == Object([("primitives", Array([]))])
  {
    var fs := MeshFields(Mesh.New());
    assert !fs[1].omit && forall j :: 0 <= j < |fs| && j != 1 ==> fs[j].omit;
    EmitSingle(fs, 1);
  }

  /** A fresh material still writes its (empty) PBR block: `{"pbrMetallicRoughness": {}}`. */
  lemma NewMaterialJson()
    ensures MaterialToJson(Material.New()) == Object([("pbrMetallicRoughness", Object([]))])
  {
    NewPbrJson();
    var fs := MaterialFields(Material.New());
    assert !fs[5].omit && forall j :: 0 <= j < |fs| && j != 5 ==> fs[j].omit;
    EmitSingle(fs, 5);
  }

  /** An accessor whose optional fields are all at their defaults writes its three mandatory
      keys alone. */
  lemma BareAccessorJson(a: Accessor)
    requires a.name == "" && a.bufferView.None? && a.byteOffset == 0 && !a.normalized
    requires a.max == [] && a.min == []
    ensures AccessorToJson(a)
         == Object([("componentType", Int(a.componentType.Code())), ("count", Int(a.count as int)),
                    ("type", String(a.type_.Tag()))])
  {
    var fs := AccessorFields(a);
    assert Emit(fs[7..]) == [] by {
      assert forall i :: 0 <= i < |fs[7..]| ==> fs[7..][i].omit;
      EmitAllOmitted(fs[7..]);
    }
    assert Emit(fs[6..]) == [("type", String(a.type_.Tag()))] + Emit(fs[7..]);
    assert Emit(fs[5..]) == [("count", Int(a.count as int))] + Emit(fs[6..]);
    assert Emit(fs[4..]) == Emit(fs[5..]);
    assert Emit(fs[3..]) == [("componentType", Int(a.componentType.Code()))] + Emit(fs[4..]);
    assert Emit(fs[2..]) == Emit(fs[3..]);
    assert Emit(fs[1..]) == Emit(fs[2..]);
  }

  /** A fresh accessor writes only its three mandatory keys: `{"componentType": 5120,
      "count": 0, "type": "SCALAR"}`. */
  lemma NewAccessorJson()
    ensures AccessorToJson(Accessor.New())
         == Object([("componentType", Int(5120)), ("count", Int(0)), ("type", String("SCALAR"))])
  {
    BareAccessorJson(Accessor.New());
  }

  /** A buffer view without name, stride or target writes its buffer, length and offset, the
      offset even when it is 0. */
  lemma BareBufferViewJson(v: BufferView)
    requires v.name == "" && v.byteStride.None? && v.target.None?
    ensures BufferViewToJson(v)
         == Object([("buffer", Int(v.buffer as int)), ("byteLength", Int(v.byteLength as int)),
                    ("byteOffset", Int(v.byteOffset as int))])
  {
    var fs := BufferViewFields(v);
    assert Emit(fs[4..]) == [] by {
      assert forall i :: 0 <= i < |fs[4..]| ==> fs[4..][i].omit;
      EmitAllOmitted(fs[4..]);
    }
    assert Emit(fs[3..]) == [("byteOffset", Int(v.byteOffset as int))] + Emit(fs[4..]);
    assert Emit(fs[2..]) == [("byteLength", Int(v.byteLength as int))] + Emit(fs[3..]);
    assert Emit(fs[1..]) == [("buffer", Int(v.buffer as int))] + Emit(fs[2..]);
  }

  /** A fresh buffer view: `{"buffer": 0, "byteLength": 0, "byteOffset": 0}`. */
  lemma NewBufferViewJson()
    ensures BufferViewToJson(BufferView.New())
         == Object([("buffer", Int(0)), ("byteLength", Int(0)), ("byteOffset", Int(0))])
  {
    BareBufferViewJson(BufferView.New());
  }

  lemma NewBufferJson()
    ensures BufferToJson(Buffer.New()) == Object([("byteLength", Int(0))])
  {
    var fs := BufferFields(Buffer.New());
    assert !fs[1].omit && forall j :: 0 <= j < |fs| && j != 1 ==> fs[j].omit;
    EmitSingle(fs, 1);
  }

  /** A fresh asset writes the generator string and both versions, and not the empty
      copyright. */
  lemma NewAssetJson()
    ensures AssetToJson(Asset.New())
         == Object([("generator", String("Paragen v0.1.0")), ("version", String("2.0")),
                    ("minVersion", String("2.0"))])
  {
    var fs := AssetFields(Asset.New());
    assert Emit(fs[3..]) == [("minVersion", String("2.0"))] + Emit(fs[4..]);
    assert Emit(fs[2..]) == [("version", String("2.0"))] + Emit(fs[3..]);
    assert Emit(fs[1..]) == [("generator", String("Paragen v0.1.0"))] + Emit(fs[2..]);
  }

  /** A fresh document is written as its asset alone. */
  lemma NewGltfJson()
    ensures GltfToJson(Gltf.New()) == Object([("asset", AssetToJson(Asset.New()))])
  {
    var fs := GltfFields(Gltf.New());
    assert !fs[0].omit && forall j :: 0 <= j < |fs| && j != 0 ==> fs[j].omit;
    EmitSingle(fs, 0);
  }

  /** A byte offset of 0 is left out of an accessor but written for a buffer view. */
  lemma ByteOffsetAsymmetry(a: Accessor, v: BufferView)
    requires a.byteOffset == 0 && v.byteOffset == 0
    ensures "byteOffset" !in Keys(AccessorToJson(a).members)
    ensures ("byteOffset", Int(0)) in BufferViewToJson(v).members
  {
    AccessorShape(a);
    BufferViewShape(v);
  }

  /** An empty version string is still written, unlike every other empty string field. */
  lemma EmptyVersionWritten(a: Asset)
    requires a.version == ""
    ensures ("version", String("")) in AssetToJson(a).members
    ensures a.copyright == "" ==> "copyright" !in Keys(AssetToJson(a).members)
  {
    AssetShape(a);
  }
}
