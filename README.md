# paragen: glTF document model, default omission and two-pass export

This project models the core of paragen's `src/paragen.rs`, a Rust library that builds glTF 2.0
documents and exports them as JSON into a byte buffer. A WebAssembly host then reads the buffer
through two exported `u32` cells. The model has three parts:

- **Document model** (`document.dfy`, module `Document`). It has one datatype per record:
  `Asset`, `Gltf`, `Scene`, `Node`, `PBRMetallicRoughness`, `Material`, `Attributes`,
  `MeshPrimitive`, `Mesh`, `Accessor`, `BufferView` and `Buffer`. Each has its `new()` instance
  as `New()`.
  - The tuple types `Translation`, `Rotation`, `Scale` and `Color4` each have an `IsDefault`
    predicate.
  - The five enumerations come with their wire encodings, and each encoding has an inverse
    decoder.
  - The nine stand-alone `is_default_*` predicates are included.
- **Serialisation** (`json.dfy` and `serialize.dfy`, modules `Json` and `Serialize`). This models
  what serde's derived `Serialize` produces, as an abstract JSON tree in which an object is an
  ordered list of members.
  - Each record has a *field table*, written from its serde attributes. A row of the table holds
    the key after `rename`, whether the row's `skip_serializing_if` predicate holds, and the
    encoding of the value.
  - `Json.Emit` writes the rows of a table in declaration order and drops the skipped ones.
  - For each record, lemmas state which keys appear, in which order, with which encoding, and
    that the tree is valid, meaning every object in it has distinct keys.
  - `defaults.dfy` (module `Defaults`) evaluates the serialisation of every fresh record. It also
    states the two asymmetries: a `byteOffset` of 0, and an empty `version`.
- **Export** (`export.dfy`, module `Export`). `DryRunWriter` is a class that counts bytes, and
  `VecWriter` is the growing `Vec<u8>`. `ExportCells` holds the exported address and size.
  `WriteGltf` is the two-pass `write_gltf`: a counting pass, then a writing pass, then the two
  cell stores.
  - The serialiser's byte output is a parameter, `render: Json -> seq<seq<u8>>`. It is the list
    of chunks that the serialiser hands to the writer, one write per chunk. Because `render` is
    a function, both passes see the same chunks.

`Primitives` (`primitives.dfy`) holds `u32`, `u8`, `Option` and `F64`. `F64` is `f64` modelled
as an exact `real`, since the code only compares floats with `==` against literals.

## Model

| member | source | states |
|---|---|---|
| Document.Translation.IsDefault | src/paragen.rs:178-181 | the whole-value comparison with `new()` holds exactly when the translation is (0, 0, 0) |
| Document.Rotation.IsDefault | src/paragen.rs:192-195 | holds exactly at the identity quaternion (0, 0, 0, 1) |
| Document.Scale.IsDefault | src/paragen.rs:205-208 | holds exactly at unit scale (1, 1, 1) |
| Document.Color4.IsDefault | src/paragen.rs:273-276 | holds exactly at opaque white (1, 1, 1, 1) |
| Document.IsDefaultMetallicFactor | src/paragen.rs:311-313 | holds exactly at the metallic factor `PBRMetallicRoughness::new()` uses |
| Document.IsDefaultRoughnessFactor | src/paragen.rs:315-317 | holds exactly at the roughness factor `PBRMetallicRoughness::new()` uses |
| Document.IsDefaultEmissiveFactor | src/paragen.rs:319-321 | holds exactly at `Material::new()`'s emissive factor, i.e. when all three components are 0 |
| Document.IsDefaultAlphaMode | src/paragen.rs:323-325 | holds exactly at `Material::new()`'s alpha mode, i.e. the mode whose tag is `OPAQUE` |
| Document.IsDefaultAlphaCutoff | src/paragen.rs:327-329 | holds exactly at `Material::new()`'s cutoff |
| Document.IsDefaultDoubleSided | src/paragen.rs:331-333 | holds exactly at `Material::new()`'s `false` |
| Document.IsDefaultMode | src/paragen.rs:456-458 | holds exactly at `MeshPrimitive::new()`'s mode, i.e. the mode with code 4 |
| Document.IsDefaultByteOffset | src/paragen.rs:598-600 | holds exactly at `Accessor::new()`'s byte offset |
| Document.IsDefaultNormalized | src/paragen.rs:602-604 | holds exactly at `Accessor::new()`'s `false` |
| Document.AlphaMode.Tag | src/paragen.rs:257-262 | each alpha mode is written as its variant name, which decodes back to it |
| Document.AlphaModeTags | src/paragen.rs:257-262 | a string decodes to an alpha mode exactly when it is that mode's tag |
| Document.Mode.Code | src/paragen.rs:444-454 | each topology is written as a code in 0..6 that decodes back to it |
| Document.ModeCodes | src/paragen.rs:444-454 | an integer decodes to a topology exactly when it is that topology's code |
| Document.ComponentType.Code | src/paragen.rs:518-527 | each component type is written as one of 5120, 5121, 5122, 5123, 5125, 5126, which decodes back to it |
| Document.ComponentTypeCodes | src/paragen.rs:518-527 | an integer decodes to a component type exactly when it is its code; no component type has code 5124 |
| Document.Type.Tag | src/paragen.rs:529-538 | each element type is written as its variant name, which decodes back to it |
| Document.TypeTags | src/paragen.rs:529-538 | a string decodes to an element type exactly when it is that type's tag |
| Document.Target.Code | src/paragen.rs:606-611 | each target is written as 34962 or 34963, which decodes back to it |
| Document.TargetCodes | src/paragen.rs:606-611 | an integer decodes to a target exactly when it is that target's code |
| Serialize.TranslationEncoding | src/paragen.rs:170-176 | two translations are written as the same array exactly when they are equal |
| Serialize.RotationEncoding | src/paragen.rs:183-190 | two rotations are written as the same array exactly when they are equal |
| Serialize.ScaleEncoding | src/paragen.rs:197-203 | two scales are written as the same array exactly when they are equal |
| Serialize.Color4Encoding | src/paragen.rs:264-271 | two colours are written as the same array exactly when they are equal |
| Serialize.EmissiveEncoding | src/paragen.rs:340-342 | two emissive factors are written as the same array exactly when they are equal |
| Json.EmitInOrder | src/paragen.rs:58-77 | serde writes a struct's keys in field declaration order, and only declared keys |
| Json.EmitEntry | src/paragen.rs:58-77 | with distinct keys, a field is written exactly when its skip predicate fails, and then under its key with its encoding |
| Json.EmitAllOmitted | src/paragen.rs:58-77 | a struct all of whose fields are at their skip value is written as `{}` |
| Json.EmitSingle | src/paragen.rs:58-77 | a struct with one field not at its skip value is written as that one member |
| Json.EmitValid | src/paragen.rs:58-77 | a struct with distinct keys whose written values are valid is written as a valid object |
| Json.SubsequenceDistinct | src/paragen.rs:58-77 | dropping skipped fields keeps the written keys distinct |
| Serialize.AssetKeys | src/paragen.rs:58-77 | the declared keys of the record's field table are pairwise distinct, which the shape and validity lemmas rely on |
| Serialize.AssetOrder | src/paragen.rs:58-77 | an asset's keys appear in the order copyright, generator, version, minVersion |
| Serialize.AssetShape | src/paragen.rs:58-77 | `version` is always written, even when empty; the other three keys exactly when their string is non-empty; every value is written as a string |
| Serialize.AssetToJson | src/paragen.rs:58-77 | the derived `Serialize` output, i.e. the record's field table written by `Json.Emit`; an asset is written as an object with distinct keys |
| Serialize.GltfKeys | src/paragen.rs:90-132 | the declared keys of the record's field table are pairwise distinct, which the shape and validity lemmas rely on |
| Serialize.GltfOrder | src/paragen.rs:90-132 | the document's keys appear in the order asset, scene, scenes, nodes, materials, meshes, accessors, bufferViews, buffers |
| Serialize.GltfShape | src/paragen.rs:90-132 | `asset` is always written; `scene` exactly when set; each list exactly when non-empty, as the array of its elements' encodings |
| Serialize.GltfToJson | src/paragen.rs:90-132 | the derived `Serialize` output, i.e. the record's field table written by `Json.Emit`; every object in the written document has distinct keys |
| Serialize.SceneKeys | src/paragen.rs:150-162 | the declared keys of the record's field table are pairwise distinct, which the shape and validity lemmas rely on |
| Serialize.SceneOrder | src/paragen.rs:150-162 | a scene's keys appear in the order name, nodes |
| Serialize.SceneShape | src/paragen.rs:150-162 | name and node list are written exactly when non-empty |
| Serialize.SceneToJson | src/paragen.rs:150-162 | the derived `Serialize` output, i.e. the record's field table written by `Json.Emit`; a scene is written as an object with distinct keys |
| Serialize.NodeKeys | src/paragen.rs:210-242 | the declared keys of the record's field table are pairwise distinct, which the shape and validity lemmas rely on |
| Serialize.NodeOrder | src/paragen.rs:210-242 | a node's keys appear in the order name, mesh, translation, rotation, scale, children |
| Serialize.NodeShape | src/paragen.rs:210-242 | each node field is written exactly when it differs from its default (empty, none, origin, identity rotation, unit scale); the renamed transform keys are written as plain arrays |
| Serialize.NodeToJson | src/paragen.rs:210-242 | the derived `Serialize` output, i.e. the record's field table written by `Json.Emit`; a node is written as an object with distinct keys |
| Serialize.PbrKeys | src/paragen.rs:278-299 | the declared keys of the record's field table are pairwise distinct, which the shape and validity lemmas rely on |
| Serialize.PbrOrder | src/paragen.rs:278-299 | the PBR block's keys appear in the order baseColorFactor, metallicFactor, roughnessFactor |
| Serialize.PbrShape | src/paragen.rs:278-299 | each factor is written exactly when it differs from opaque white or 1.0 |
| Serialize.PbrToJson | src/paragen.rs:278-299 | the derived `Serialize` output, i.e. the record's field table written by `Json.Emit`; the PBR block is written as an object with distinct keys |
| Serialize.MaterialKeys | src/paragen.rs:335-367 | the declared keys of the record's field table are pairwise distinct, which the shape and validity lemmas rely on |
| Serialize.MaterialOrder | src/paragen.rs:335-367 | a material's keys appear in declaration order |
| Serialize.MaterialShape | src/paragen.rs:335-367 | `pbrMetallicRoughness` is always written; the other fields exactly when they differ from black emission, `OPAQUE`, 0.5 and single-sided; the alpha mode is written as its tag |
| Serialize.MaterialToJson | src/paragen.rs:335-367 | the derived `Serialize` output, i.e. the record's field table written by `Json.Emit`; a material, with its nested PBR block, is written with distinct keys |
| Serialize.AttributesKeys | src/paragen.rs:384-425 | the declared keys of the record's field table are pairwise distinct, which the shape and validity lemmas rely on |
| Serialize.AttributesOrder | src/paragen.rs:384-425 | the attribute keys appear in the order COLOR_0, JOINTS_0, NORMAL, POSITION, TANGENT, TEXCOORD_0..3, WEIGHTS_0 |
| Serialize.AttributesShape | src/paragen.rs:384-425 | each attribute is written under its upper-case name exactly when it holds an accessor index, and is written as that index |
| Serialize.AttributesToJson | src/paragen.rs:384-425 | the derived `Serialize` output, i.e. the record's field table written by `Json.Emit`; the attributes are written as an object with distinct keys |
| Serialize.PrimitiveKeys | src/paragen.rs:460-478 | the declared keys of the record's field table are pairwise distinct, which the shape and validity lemmas rely on |
| Serialize.PrimitiveOrder | src/paragen.rs:460-478 | a primitive's keys appear in the order attributes, indices, material, mode |
| Serialize.PrimitiveShape | src/paragen.rs:460-478 | `attributes` is always written; `mode` exactly when it is not `Triangles`, as its integer code |
| Serialize.PrimitiveToJson | src/paragen.rs:460-478 | the derived `Serialize` output, i.e. the record's field table written by `Json.Emit`; a primitive, with its attributes, is written with distinct keys |
| Serialize.MeshKeys | src/paragen.rs:491-506 | the declared keys of the record's field table are pairwise distinct, which the shape and validity lemmas rely on |
| Serialize.MeshOrder | src/paragen.rs:491-506 | a mesh's keys appear in the order name, primitives, weights |
| Serialize.MeshShape | src/paragen.rs:491-506 | `primitives` is always written, even when empty; `weights` exactly when non-empty |
| Serialize.MeshToJson | src/paragen.rs:491-506 | the derived `Serialize` output, i.e. the record's field table written by `Json.Emit`; a mesh, with all its primitives, is written with distinct keys |
| Serialize.AccessorKeys | src/paragen.rs:540-580 | the declared keys of the record's field table are pairwise distinct, which the shape and validity lemmas rely on |
| Serialize.AccessorOrder | src/paragen.rs:540-580 | an accessor's keys appear in declaration order |
| Serialize.AccessorShape | src/paragen.rs:540-580 | `componentType`, `count` and `type` are always written; `byteOffset` exactly when non-zero; `normalized` exactly when true; the enums are written as their code and tag |
| Serialize.AccessorToJson | src/paragen.rs:540-580 | the derived `Serialize` output, i.e. the record's field table written by `Json.Emit`; an accessor is written as an object with distinct keys |
| Serialize.BufferViewKeys | src/paragen.rs:613-637 | the declared keys of the record's field table are pairwise distinct, which the shape and validity lemmas rely on |
| Serialize.BufferViewOrder | src/paragen.rs:613-637 | a buffer view's keys appear in declaration order |
| Serialize.BufferViewShape | src/paragen.rs:613-637 | `buffer`, `byteLength` and `byteOffset` are always written; stride and target exactly when set, the target as its code |
| Serialize.BufferViewToJson | src/paragen.rs:613-637 | the derived `Serialize` output, i.e. the record's field table written by `Json.Emit`; a buffer view is written as an object with distinct keys |
| Serialize.BufferKeys | src/paragen.rs:652-667 | the declared keys of the record's field table are pairwise distinct, which the shape and validity lemmas rely on |
| Serialize.BufferOrder | src/paragen.rs:652-667 | a buffer's keys appear in the order name, byteLength, uri |
| Serialize.BufferShape | src/paragen.rs:652-667 | `byteLength` is always written; `name` and `uri` exactly when non-empty |
| Serialize.BufferToJson | src/paragen.rs:652-667 | the derived `Serialize` output, i.e. the record's field table written by `Json.Emit`; a buffer is written as an object with distinct keys |
| Defaults.NewNodeJson | src/paragen.rs:244-254 | `Node::new()` is written as `{}` |
| Defaults.TranslatedNodeJson | src/paragen.rs:210-231 | a fresh node moved along x is written as its translation array alone |
| Defaults.NewSceneJson | src/paragen.rs:164-167 | `Scene::new()` is written as `{}` |
| Defaults.NewAttributesJson | src/paragen.rs:427-441 | `Attributes::new()` is written as `{}` |
| Defaults.NewPbrJson | src/paragen.rs:301-309 | `PBRMetallicRoughness::new()` is written as `{}` |
| Defaults.BarePrimitiveJson | src/paragen.rs:460-478 | a primitive whose optional fields are at their defaults is written as its attributes alone |
| Defaults.NewPrimitiveJson | src/paragen.rs:480-488 | `MeshPrimitive::new()` is written as `{"attributes": {}}` |
| Defaults.NewMeshJson | src/paragen.rs:508-515 | `Mesh::new()` is written as `{"primitives": []}` |
| Defaults.NewMaterialJson | src/paragen.rs:369-379 | `Material::new()` is written as `{"pbrMetallicRoughness": {}}` |
| Defaults.BareAccessorJson | src/paragen.rs:540-580 | an accessor whose optional fields are at their defaults is written as its componentType, count and type, in that order |
| Defaults.NewAccessorJson | src/paragen.rs:582-595 | `Accessor::new()` is written as `{"componentType": 5120, "count": 0, "type": "SCALAR"}` |
| Defaults.BareBufferViewJson | src/paragen.rs:613-637 | a buffer view without name, stride or target is written as its buffer, byteLength and byteOffset, even when the offset is 0 |
| Defaults.NewBufferViewJson | src/paragen.rs:639-649 | `BufferView::new()` is written as `{"buffer": 0, "byteLength": 0, "byteOffset": 0}` |
| Defaults.NewBufferJson | src/paragen.rs:669-676 | `Buffer::new()` is written as `{"byteLength": 0}` |
| Defaults.NewAssetJson | src/paragen.rs:79-88 | `Asset::new()` is written with generator, version and minVersion, and without the empty copyright |
| Defaults.NewGltfJson | src/paragen.rs:134-147 | `GLTF::new()` is written as its asset alone |
| Defaults.ByteOffsetAsymmetry | src/paragen.rs:552-624 | a byte offset of 0 is left out of an accessor but written for a buffer view |
| Defaults.EmptyVersionWritten | src/paragen.rs:66-67 | an empty `version` is still written, while an empty `copyright` is not |
| Export.ConcatLength | src/paragen.rs:679-685 | the count of a pass over the chunks equals the length of the bytes the other pass appends |
| Export.TruncateToU32 | src/paragen.rs:689 | `as u32` gives the `u32` that differs from the length by a multiple of 2^32, and the length itself when it fits |
| Export.DryRunWriter.constructor | src/paragen.rs:41-45 | a new dry-run writer has counted nothing |
| Export.DryRunWriter.Write | src/paragen.rs:48-51 | a write adds the buffer's length to the count and reports the whole buffer written |
| Export.DryRunWriter.Receive | src/paragen.rs:681 | after a serialisation pass the count has grown by the total length of the chunks |
| Export.VecWriter.constructor | src/paragen.rs:679 | the writer starts from the caller's buffer contents |
| Export.VecWriter.Write | src/paragen.rs:685 | a write appends the whole buffer to the vector and reports it all written |
| Export.VecWriter.Receive | src/paragen.rs:685 | after a serialisation pass the buffer is its old contents followed by the chunks, in order |
| Export.ExportCells.constructor | src/paragen.rs:13-14 | both exported cells start at 0 |
| Export.WriteGltf | src/paragen.rs:679-690 | the buffer becomes its old contents followed by the serialised document; the dry-run count is the total length of the serialiser's chunks and equals the number of bytes appended; the address cell holds the buffer's address; the size cell holds the final length modulo 2^32, which is the exact length when it fits; from an empty buffer, the size equals the dry-run count |

## Left out

- JSON text: indentation, escaping and float printing by `serde_json::to_writer_pretty` are not modelled. The bytes are the uninterpreted `render` chunks, so no lemma relates them to the JSON tree or parses them back.
- `f64` semantics: floats are exact reals, so NaN (never equal to its default) and −0.0 (equal to 0.0 in Rust) are not captured.
- `buffer.as_ptr() as u32` (src/paragen.rs:688): the data address is a parameter of `WriteGltf`, since allocation is not modelled.
- The extern `pointer()` and `size()` getters and their `as i32` casts (src/paragen.rs:16-26) are not part of this model. They only read the cells.
- `reserve_exact` and `shrink_to_fit` (src/paragen.rs:684-686) change capacity only, and capacity is not modelled.
- `MUTEX_TEST`, the atomics' memory ordering (src/paragen.rs:12-14) and `ErrorCode` (src/paragen.rs:30-35) are left out. The code never locks `MUTEX_TEST`, never returns an `ErrorCode`, and `unwrap`s the serialiser's result. The model follows the code: `WriteGltf` has no error path.
- Export.DryRunWriter.Write: `bytes_written` is a `usize`, and the model's count is unbounded. Overflow, which would panic in a debug build, is not modelled.
- `DryRunWriter::flush` (src/paragen.rs:53-55) does nothing and is not modelled.
- `std::io::Write::write_all`'s retry loop is not modelled. Both writers accept every buffer whole, so each chunk takes exactly one write.
- The `prelude` re-exports and the procedural macro (src/paragen.rs:4-10) are not part of this model.
- Indices stored in a document (`scene`, `mesh`, `children`, `buffer`, …) are not checked against the lists they refer to, and neither does the code check them.
- `Clone` and `PartialEq` derives do nothing beyond the datatypes' structural equality.
