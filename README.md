# LoadingScreenMod asset decoding and used-asset bookkeeping, in Dafny

This project models two parts of LoadingScreenMod, a Cities: Skylines mod
that replaces the game's asset loading:

* **AssetDeserializer** (`LoadingScreenMod/AssetDeserializer.cs`). This
  decoder turns the serialized stream of one package asset into objects:
  GameObjects and their components, meshes, materials, textures,
  ScriptableObjects and plain objects filled field by field.
  - Type names resolve in stages: the name itself, then one legacy remap,
    then the host's unknown-type handler, which either skips the value or
    aborts the decode.
  - Field names may be remapped once through the legacy member hook.
  - ScriptableObjects, plain objects, and single values other than float
    and Vector2 are first offered to the installed custom deserializer.
    Top-level GameObject, Mesh, Material and Texture entries, the
    components themselves and Package.Asset values never reach it.
  - A Package.Asset value is a checksum that the decoder's own
    `CustomDeserialize` looks up in the package. When the package does not
    find it, `CustomDeserialize` returns null and the single value falls
    through to `ReadUnityType`, which reads the value again.
* **UsedAssets** (`LoadingScreenMod/UsedAssets.cs`). This records which
  custom assets (`package.asset` names) the loaded city uses, per category:
  buildings, props, trees and vehicles.
  - It answers the loader's package and asset queries.
  - It looks an asset up by its full name, keeping a cached asset list.
  - It installs a custom deserializer that reads a building's props and
    trees and a vehicle's trailers, loading any referenced prefab that is
    missing.

The model has six modules:

| module | file | what it holds |
|---|---|---|
| `Stream` | `stream.dfy` | The reader: a sequence of typed tokens and a cursor. It has one class, `PackageReader`, whose read methods are proved against the read functions. |
| `Session` | `session.dfy` | The decoded values and `Env`, the record of the decoder's collaborators: the package, `Type.GetType`, `Type.GetField`, the legacy hooks, the custom deserializer, and the decode of a referenced asset. |
| `Decoding` | `decoding.dfy` | One pure function per decoder operation, `XAt(env, tokens, pos)`. Each yields the decoded value and the cursor after it, or the error that ends the decode. A `...From` function is the rest of a loop from iteration `i`. |
| `Deserializer` | `deserializer.dfy` | The `AssetDeserializer` class. Each method is proved to return what its `Decoding` function yields from where the reader stood, and to leave the reader where that function says. |
| `DecodingFacts` | `decoding_facts.dfy` | Lemmas that relate several decodes: alignment of the stream, hooks that are never consulted, and the layout of float arrays. |
| `Bookkeeping` | `bookkeeping.dfy` | The `UsedAssets` class, its name and lookup functions, and the custom deserializer's layouts. |

An exception in the source is an `Err` result that every caller passes on
unchanged. Calls into the game are parameters of the model: the two
`Env` and `Game` records, and the prefab names handed to the lookups.

## Model

| member | source | states |
|---|---|---|
| Stream.ReadBytesAt | LoadingScreenMod/AssetDeserializer.cs:195 | A byte block read succeeds exactly when the count is not negative. It returns the next `count` tokens, or fewer at the end of the stream. |
| Stream.PackageReader.ReadBytes | LoadingScreenMod/AssetDeserializer.cs:401 | The reader's ReadBytes returns what ReadBytesAt gives and moves the cursor to the end of the block. |
| Stream.PackageReader.Advance | LoadingScreenMod/AssetDeserializer.cs:431 | Skipping what a host hook read succeeds exactly when that many tokens remain. The cursor then moves by exactly that many; otherwise the error is EndOfStream. |
| Decoding.UnknownTypeAt | LoadingScreenMod/AssetDeserializer.cs:393-405 | HandleUnknownType: the result is positive exactly when the host handler's count is. It is then that count, and the cursor skips that many tokens, capped at the end. Otherwise the result is -1 and nothing is skipped. |
| Decoding.ResolveAt | LoadingScreenMod/AssetDeserializer.cs:340-353 | A type name resolves directly if it can, else through exactly one legacy remap. An unresolvable name fails with UnknownType exactly when the handler does not skip it, and is skipped otherwise. |
| Decoding.HeaderAt | LoadingScreenMod/AssetDeserializer.cs:331-356 | A true is-null flag is a one-token absent header; a false flag is followed by a type name that is resolved. |
| Decoding.NamedHeaderAt | LoadingScreenMod/AssetDeserializer.cs:364-391 | The field name follows the type name and is read before the type is resolved. A present header is exactly flag, type name and field name, with the type resolved. Conversely, a well-formed header whose type resolves is a present header with that type and name. |
| Decoding.ReadAssetAt | LoadingScreenMod/AssetDeserializer.cs:358-362 | ReadAsset succeeds exactly on a string token. It is the package's lookup of that checksum. |
| Decoding.InstantiatedAt | LoadingScreenMod/AssetDeserializer.cs:82-84 | `Instantiate(ReadAsset())` succeeds exactly when the next token is a checksum string whose asset can be instantiated. It then takes that one token and gives the instantiated value. |
| Decoding.CustomAt | LoadingScreenMod/AssetDeserializer.cs:424-432 | A Package.Asset is read as a checksum, and a checksum that is not found gives "not handled". Any other type is offered to the custom deserializer: the result is Ok exactly when the hook succeeds without reading past the end. Its value is used (null meaning "not handled"), and the cursor moves by exactly what the hook read. |
| Decoding.ScalarAt | LoadingScreenMod/AssetDeserializer.cs:73 | A fixed-layout read succeeds exactly on a token of that kind and takes one token. |
| Decoding.SingleAt | LoadingScreenMod/AssetDeserializer.cs:66-92 | float and Vector2 are read directly without consulting any hook. A custom result is used as it is, and a custom deserializer that throws ends the decode. A ScriptableObject or GameObject that the hook leaves unhandled is the instantiated asset the next checksum names. |
| Decoding.VersionGate | LoadingScreenMod/AssetDeserializer.cs:86-91 | A value that no hook handled and that is no ScriptableObject or GameObject is read with ReadUnityType. Packages before version 3 read it as a Package.Asset when that was expected. |
| Decoding.ElementsFrom | LoadingScreenMod/AssetDeserializer.cs:131-135 | An array field's element loop yields exactly n elements, keeping those read so far in order. Once n elements are read it stops where it stands. |
| Decoding.ElementsFromStep | LoadingScreenMod/AssetDeserializer.cs:131-135 | An element read in one iteration of the element loop is appended and the loop continues after it. An element that fails ends the loop with its error. |
| Decoding.FieldValueAt | LoadingScreenMod/AssetDeserializer.cs:129-143 | An array field is a non-negative count and that many elements; a negative count fails. Any other field is one single value. |
| Decoding.ResolveField | LoadingScreenMod/AssetDeserializer.cs:122-125 | A field name that does not resolve directly, and does not resolve after the remap (when remapping is on), gives no field. |
| Decoding.ResolvedIsFieldName | LoadingScreenMod/AssetDeserializer.cs:122-125 | A resolved field, direct or remapped, is a field of the type. |
| Decoding.FieldEntryAt | LoadingScreenMod/AssetDeserializer.cs:122-143 | A present entry's value ends at or after where it starts and within the stream. What it stores, and where, is proved in DecodingFacts.ResolvedFieldIsStored and DecodingFacts.UnresolvedFieldIsDropped. |
| Decoding.FieldAt | LoadingScreenMod/AssetDeserializer.cs:117-144 | Each entry of a field list takes at least one token. |
| Decoding.FieldsFrom | LoadingScreenMod/AssetDeserializer.cs:115-145 | The field loop ends within the stream. |
| Decoding.FieldsAt | LoadingScreenMod/AssetDeserializer.cs:109-148 | A zero or negative count is one token and assigns nothing. |
| Decoding.FieldsFromStep | LoadingScreenMod/AssetDeserializer.cs:115-145 | One iteration of the field loop is one entry, then the rest of the loop; an error ends it. |
| Decoding.FieldWritesSlot | LoadingScreenMod/AssetDeserializer.cs:120-143 | One entry keeps every slot. It adds or changes a slot only if that slot belongs to a field of the type. |
| Decoding.FieldEntryWritesSlot | LoadingScreenMod/AssetDeserializer.cs:137-142 | `field?.SetValue` writes only the resolved field's slot. |
| Decoding.FieldsWriteSlot | LoadingScreenMod/AssetDeserializer.cs:115-145 | However many entries the loop reads, every slot is kept. Only slots of fields of the type are added or changed. |
| Decoding.FieldListWritesOnlyFields | LoadingScreenMod/AssetDeserializer.cs:109-148 | DeserializeFields adds or changes only slots of fields of the target type. |
| Decoding.ObjectAt | LoadingScreenMod/AssetDeserializer.cs:281-294 | A custom result is returned as it is, and a failing hook ends the decode. Otherwise the decode succeeds exactly when a legacy string is followed by a field list that decodes with the legacy member remap on. The value is then a new instance of the type with exactly those slots. |
| Decoding.ScriptableAt | LoadingScreenMod/AssetDeserializer.cs:94-107 | A custom result is returned as it is, and a failing hook ends the decode. Otherwise the decode succeeds exactly when a name string is followed by a field list that decodes with the legacy member remap off. The value is then an instance with that name and exactly those slots. |
| Decoding.MaterialsFrom | LoadingScreenMod/AssetDeserializer.cs:302-303 | The renderer's loop reads exactly one checksum per material and yields exactly n materials. Every checksum names an asset that can be instantiated, and material k is the instantiation of the k-th checksum. |
| Decoding.MaterialsSucceed | LoadingScreenMod/AssetDeserializer.cs:301-302 | The renderer's loop succeeds when every checksum it reads names an asset that can be instantiated. |
| Decoding.ComponentAt | LoadingScreenMod/AssetDeserializer.cs:171-180 | Any type other than Transform, MeshFilter, MeshRenderer or a MonoBehaviour fails with UnknownComponent. A Transform is exactly position, rotation and scale. A MeshFilter's mesh is the instantiated asset of its checksum. A renderer is a non-negative count and exactly the materials MaterialsFrom reads. A behaviour is exactly the slots of its field list read with the remap off, and fills only field slots. |
| Decoding.ComponentsFrom | LoadingScreenMod/AssetDeserializer.cs:162-181 | The component loop only appends, and never adds more components than the tokens it reads. Past the last iteration it yields the components read so far, where it stands. |
| Decoding.ComponentsFromFirst | LoadingScreenMod/AssetDeserializer.cs:162-181 | One iteration of the component loop: an absent or skipped entry adds nothing, and a type a GameObject does not accept fails the loop with UnknownComponent. An accepted component is appended and the loop continues after it. A header that fails ends the loop with its error. |
| Decoding.GameObjectAt | LoadingScreenMod/AssetDeserializer.cs:150-185 | A GameObject takes its name, tag, layer and active flag from the first four tokens. It succeeds exactly when that layout is followed by a component loop that succeeds, whose components and end it takes. |
| Decoding.PropertyAt | LoadingScreenMod/AssetDeserializer.cs:228-252 | Kinds 0, 1 and 2 succeed exactly on a name and a colour, vector or float, and give SetColor, SetVector or SetFloat with that value. Kind 3 is a name and a flag; a true flag clears the texture. A false flag is followed by a checksum, and the property is SetTexture with the instantiated asset, failing exactly when that fails. Any other kind is one token and sets nothing. |
| Decoding.PropertiesFrom | LoadingScreenMod/AssetDeserializer.cs:226-253 | The property loop only appends, at most once per iteration, and each iteration takes at least one token. A property that fails ends the loop, and a property read is the next one of the list. Past the last iteration it yields the properties read so far, where it stands. |
| Decoding.PropertiesFromStep | LoadingScreenMod/AssetDeserializer.cs:226-253 | A property read in one iteration of the property loop is appended when it sets something, and the loop continues after it. |
| Decoding.MaterialAt | LoadingScreenMod/AssetDeserializer.cs:215-257 | A material is a name and a shader name, then at most `count` properties. It succeeds exactly when that layout is followed by a property loop that succeeds, whose properties and end it takes. |
| Decoding.SubmeshesFrom | LoadingScreenMod/AssetDeserializer.cs:323-324 | The submesh loop reads exactly one Int32 array per submesh and keeps them in order. It succeeds exactly when that many Int32 arrays follow. |
| Decoding.VertexDataAt | LoadingScreenMod/AssetDeserializer.cs:313-320 | The vertex data is exactly seven arrays, of the kinds and in the order the mesh writes them. It succeeds exactly when those seven arrays are there. |
| Decoding.MeshAt | LoadingScreenMod/AssetDeserializer.cs:308-329 | A mesh is its name, its vertex data, a submesh count and exactly that many triangle arrays (none for a negative count). It succeeds exactly when that layout is in the stream. |
| Decoding.TextureAt | LoadingScreenMod/AssetDeserializer.cs:187-213 | A texture is its name, its linear flag, a non-negative byte count and that many bytes, or fewer at the end of the stream. It succeeds exactly when a name, a flag and a non-negative count are there. |
| Decoding.EntryAt | LoadingScreenMod/AssetDeserializer.cs:42-64 | An absent entry, or one whose unknown type was skipped, decodes to null, and a header error ends the decode. Otherwise the entry is dispatched by its type: GameObject, Mesh, Material, Texture2D or Image, a ScriptableObject, and any other type as a plain object. |
| DecodingFacts.Scalars | LoadingScreenMod/AssetDeserializer.cs:131-135 | A run of float tokens decodes to one value per token. |
| DecodingFacts.SkippedEntryAssignsNothing | LoadingScreenMod/AssetDeserializer.cs:120 | An absent field entry, or one whose unknown type was skipped, assigns nothing. |
| DecodingFacts.UnresolvedFieldIsDropped | LoadingScreenMod/AssetDeserializer.cs:127-143 | A field that does not resolve is still decoded with no expected type, so the stream stays in step. Its value is then dropped. |
| DecodingFacts.ResolvedFieldIsStored | LoadingScreenMod/AssetDeserializer.cs:122-143 | A resolved field is decoded with its declared type as the expected type and stored in its own slot; no other slot changes. |
| DecodingFacts.AbsentFieldsAreSkipped | LoadingScreenMod/AssetDeserializer.cs:115-145 | A field list of absent entries is one token per entry and assigns nothing. |
| DecodingFacts.ScalarsCons | LoadingScreenMod/AssetDeserializer.cs:134-135 | Decoding one more float appends its value in stream order. |
| DecodingFacts.FloatElementsInOrder | LoadingScreenMod/AssetDeserializer.cs:131-135 | A float array's elements are the float tokens in stream order, one token each. |
| DecodingFacts.FloatArrayField | LoadingScreenMod/AssetDeserializer.cs:129-137 | A float[] field is its length and that many floats. It decodes to exactly those values, and no hook is consulted. |
| DecodingFacts.SingleAligned | LoadingScreenMod/AssetDeserializer.cs:66-92 | From version 3 on, where a single value ends does not depend on the expected type or on field lookup. |
| DecodingFacts.ElementsAligned | LoadingScreenMod/AssetDeserializer.cs:131-135 | The same holds for an array's elements. |
| DecodingFacts.FieldValueAligned | LoadingScreenMod/AssetDeserializer.cs:129-143 | The same holds for one field's value, array or not. |
| DecodingFacts.FieldAligned | LoadingScreenMod/AssetDeserializer.cs:120-143 | The same holds for one field entry, whatever the field resolves to and whether remapping is on. |
| DecodingFacts.FieldEntryAligned | LoadingScreenMod/AssetDeserializer.cs:122-143 | The same holds for a present entry once its header is read. |
| DecodingFacts.FieldsStayAligned | LoadingScreenMod/AssetDeserializer.cs:109-148 | From version 3 on, where a field list ends does not depend on which fields the type declares, on the member hook, or on what was assigned before. |
| DecodingFacts.SingleSameHooks | LoadingScreenMod/AssetDeserializer.cs:66-92 | A single value never consults field lookup or the member hook. |
| DecodingFacts.ElementsSameHooks | LoadingScreenMod/AssetDeserializer.cs:131-135 | An array's elements never consult them either. |
| DecodingFacts.FieldValueSameHooks | LoadingScreenMod/AssetDeserializer.cs:129-143 | Neither does one field's value. |
| DecodingFacts.FieldWithoutMemberRemap | LoadingScreenMod/AssetDeserializer.cs:120-125 | With remapping off, a field entry decodes the same whatever the member hook answers. |
| DecodingFacts.FieldEntryWithoutMemberRemap | LoadingScreenMod/AssetDeserializer.cs:122-143 | The same holds for a present entry once its header is read. |
| DecodingFacts.FieldsWithoutMemberRemap | LoadingScreenMod/AssetDeserializer.cs:115-145 | The same holds for the whole field loop. |
| DecodingFacts.FieldListWithoutMemberRemap | LoadingScreenMod/AssetDeserializer.cs:109-148 | The same holds for a field list read from an empty object. |
| DecodingFacts.CustomSameHooks | LoadingScreenMod/AssetDeserializer.cs:424-432 | CustomDeserialize never consults field lookup or the member hook. |
| DecodingFacts.ScriptableSameHooks | LoadingScreenMod/AssetDeserializer.cs:94-107 | A ScriptableObject decodes the same under any field-lookup-equal environments. |
| DecodingFacts.ScriptableIgnoresMemberHook | LoadingScreenMod/AssetDeserializer.cs:105 | A ScriptableObject decodes the same whatever the legacy member hook answers. |
| DecodingFacts.BehaviourIgnoresMemberHook | LoadingScreenMod/AssetDeserializer.cs:274-279 | A MonoBehaviour component decodes the same whatever the legacy member hook answers. |
| Deserializer.AssetDeserializer.constructor | LoadingScreenMod/AssetDeserializer.cs:36-40 | A decoder holds its package environment and its reader, at the given depth. |
| Deserializer.AssetDeserializer.Instantiate | LoadingScreenMod/AssetDeserializer.cs:22-34 | Instantiating an asset decodes its stream's one entry from the start: Ok exactly when EntryAt is, with the same value or error. |
| Deserializer.AssetDeserializer.Deserialize | LoadingScreenMod/AssetDeserializer.cs:42-64 | Returns EntryAt's value and cursor, and deepens the depth by one. |
| Deserializer.AssetDeserializer.DeserializeSingleObject | LoadingScreenMod/AssetDeserializer.cs:66-92 | Returns SingleAt's value and cursor. |
| Deserializer.AssetDeserializer.DeserializeScriptableObject | LoadingScreenMod/AssetDeserializer.cs:94-107 | Returns ScriptableAt's value and cursor; on success the depth is back where it was. |
| Deserializer.AssetDeserializer.DeserializeFieldValue | LoadingScreenMod/AssetDeserializer.cs:129-143 | Fills an array of exactly n elements in a loop and returns FieldValueAt's value and cursor. |
| Deserializer.AssetDeserializer.DeserializeField | LoadingScreenMod/AssetDeserializer.cs:120-144 | Returns FieldAt's slots and cursor for one entry. |
| Deserializer.AssetDeserializer.DeserializeFieldEntry | LoadingScreenMod/AssetDeserializer.cs:122-143 | Resolves the name, decodes the value and stores it, as FieldEntryAt says. |
| Deserializer.AssetDeserializer.DeserializeFields | LoadingScreenMod/AssetDeserializer.cs:109-148 | Loops over the entries and returns FieldsAt's slots and cursor; on success the depth is back where it was. |
| Deserializer.AssetDeserializer.DeserializeGameObject | LoadingScreenMod/AssetDeserializer.cs:150-185 | Returns GameObjectAt's value and cursor. |
| Deserializer.AssetDeserializer.DeserializeComponents | LoadingScreenMod/AssetDeserializer.cs:161-183 | Runs the component loop as ComponentsFrom says, with the depth restored on success. |
| Deserializer.AssetDeserializer.DeserializeComponent | LoadingScreenMod/AssetDeserializer.cs:171-180 | Dispatches one component as ComponentAt says, including the UnknownComponent error. |
| Deserializer.AssetDeserializer.DeserializeTexture | LoadingScreenMod/AssetDeserializer.cs:187-213 | Returns TextureAt's value and cursor. |
| Deserializer.AssetDeserializer.DeserializeMaterialProperty | LoadingScreenMod/AssetDeserializer.cs:228-252 | Reads one property as PropertyAt says. |
| Deserializer.AssetDeserializer.DeserializeMaterial | LoadingScreenMod/AssetDeserializer.cs:215-257 | Loops over the properties and returns MaterialAt's value and cursor. |
| Deserializer.AssetDeserializer.DeserializeTransform | LoadingScreenMod/AssetDeserializer.cs:259-266 | Reads a Transform component as ComponentAt says. |
| Deserializer.AssetDeserializer.DeserializeMeshFilter | LoadingScreenMod/AssetDeserializer.cs:268-272 | Reads a MeshFilter component as ComponentAt says. |
| Deserializer.AssetDeserializer.DeserializeMonoBehaviour | LoadingScreenMod/AssetDeserializer.cs:274-279 | Reads a MonoBehaviour component as ComponentAt says. |
| Deserializer.AssetDeserializer.DeserializeObject | LoadingScreenMod/AssetDeserializer.cs:281-294 | Returns ObjectAt's value and cursor. |
| Deserializer.AssetDeserializer.DeserializeMeshRenderer | LoadingScreenMod/AssetDeserializer.cs:296-306 | Fills the material array in a loop as ComponentAt says. |
| Deserializer.AssetDeserializer.ReadVertexData | LoadingScreenMod/AssetDeserializer.cs:313-320 | Reads the seven vertex arrays as VertexDataAt says. |
| Deserializer.AssetDeserializer.DeserializeMesh | LoadingScreenMod/AssetDeserializer.cs:308-329 | Loops over the submeshes and returns MeshAt's value and cursor. |
| Deserializer.AssetDeserializer.DeserializeHeader | LoadingScreenMod/AssetDeserializer.cs:331-356 | Returns HeaderAt's type and cursor. |
| Deserializer.AssetDeserializer.ReadAsset | LoadingScreenMod/AssetDeserializer.cs:358-362 | Returns ReadAssetAt's asset and cursor. |
| Deserializer.AssetDeserializer.DeserializeNamedHeader | LoadingScreenMod/AssetDeserializer.cs:364-391 | Returns NamedHeaderAt's header and cursor. |
| Deserializer.AssetDeserializer.HandleUnknownType | LoadingScreenMod/AssetDeserializer.cs:393-405 | Returns UnknownTypeAt's count and skips what it says. |
| Deserializer.AssetDeserializer.CustomDeserialize | LoadingScreenMod/AssetDeserializer.cs:424-432 | Returns CustomAt's value and cursor, advancing past what the hook read. |
| Bookkeeping.IndexOfDot | LoadingScreenMod/UsedAssets.cs:145 | `IndexOf('.')` is -1 exactly when there is no dot. Otherwise it is the index of a dot with no dot before it. |
| Bookkeeping.PackageName | LoadingScreenMod/UsedAssets.cs:147 | The package of a custom name is the dot-free prefix before its first dot; that prefix, the dot and the rest give back the name. |
| Bookkeeping.RecordOneMore | LoadingScreenMod/UsedAssets.cs:140-150 | Recording one more name adds it and its package exactly when it is a custom name. |
| Bookkeeping.CustomNamesAre | LoadingScreenMod/UsedAssets.cs:145-148 | The recorded assets are exactly the custom names among the names seen. |
| Bookkeeping.PackagesOfAre | LoadingScreenMod/UsedAssets.cs:145-147 | The recorded packages are exactly the packages of the custom names seen. |
| Bookkeeping.RecordingOneMore | LoadingScreenMod/UsedAssets.cs:140-150 | A category's record after one more name is what Add makes of it. |
| Bookkeeping.RecordingKeepsConsistent | LoadingScreenMod/UsedAssets.cs:140-150 | Recording names keeps every recorded asset's package recorded in the same category. |
| Bookkeeping.PlacedNames | LoadingScreenMod/UsedAssets.cs:127-132 | The buildings looked up are exactly the prefab names of the used slots from slot 1 on. |
| Bookkeeping.PlacedStep | LoadingScreenMod/UsedAssets.cs:130-132 | One more slot adds its prefab name exactly when the slot is used. |
| Bookkeeping.FirstMatchIndex | LoadingScreenMod/UsedAssets.cs:233-235 | The scan stops at the first asset whose full or bare name is the query, and finds none exactly when no asset matches. |
| Bookkeeping.FindAssetIn | LoadingScreenMod/UsedAssets.cs:210-243 | A workshop hit wins. Otherwise an asset is found exactly when some asset of the list matches, and it is the first match. |
| Bookkeeping.PropTreeLoad | LoadingScreenMod/UsedAssets.cs:245-264 | Loading a prop or tree succeeds exactly when the name finds an asset whose load does not fail; that asset is the one loaded. |
| Bookkeeping.PrefabFor | LoadingScreenMod/UsedAssets.cs:165-172 | A prefab that is already loaded, or an empty name, is used as it is. Otherwise the named asset is loaded and its prefab is found by the asset's full name. |
| Bookkeeping.LoadsTrailer | LoadingScreenMod/UsedAssets.cs:266-284 | A trailer loads exactly when the vehicle's own package has the bare name and its load does not fail. |
| Bookkeeping.TrailerKey | LoadingScreenMod/UsedAssets.cs:190 | A trailer's prefab key is the package name, a dot and the trailer name. |
| Bookkeeping.TrailerFor | LoadingScreenMod/UsedAssets.cs:189-194 | A loaded trailer is used as it is. A missing one is looked up again exactly when its load succeeded, and is otherwise left missing. |
| Bookkeeping.PropAt | LoadingScreenMod/UsedAssets.cs:161-183 | A building's prop reads exactly when the stream holds two names, a position, an angle, a probability and a flag. It takes six tokens and refers to the prefabs PrefabFor gives. |
| Bookkeeping.TrailerAt | LoadingScreenMod/UsedAssets.cs:187-201 | A trailer reads exactly when the stream holds a name and two probabilities. It takes three tokens and refers to the prefab TrailerFor gives. |
| Bookkeeping.DefaultAt | LoadingScreenMod/UsedAssets.cs:203 | A value no case above handles is what the previously installed handler returns. That read succeeds exactly when the handler succeeds without reading past the end, and the cursor moves by exactly what it read. |
| Bookkeeping.UsedAssetsAt | LoadingScreenMod/UsedAssets.cs:152-204 | float and Vector2 are read directly, a building's prop and a vehicle's trailer by their layouts, and every other type by the earlier handler. |
| Bookkeeping.HandlerSlot.constructor | LoadingScreenMod/UsedAssets.cs:12 | The handler slot starts with the given handler. |
| Bookkeeping.UsedAssets.constructor | LoadingScreenMod/UsedAssets.cs:13-24 | A new record is empty in every category and has no cached asset list. |
| Bookkeeping.UsedAssets.Add | LoadingScreenMod/UsedAssets.cs:140-150 | A custom name is recorded with its package; any other name leaves the record as it was. |
| Bookkeeping.UsedAssets.LookupSimulationBuildings | LoadingScreenMod/UsedAssets.cs:123-138 | The building record after the loop is the record of exactly the placed buildings' names. |
| Bookkeeping.UsedAssets.LookupSimulationAssets | LoadingScreenMod/UsedAssets.cs:105-118 | A collection's record after the loop is the record of all its prefab names. |
| Bookkeeping.UsedAssets.LookupUsed | LoadingScreenMod/UsedAssets.cs:32-38 | Each category records its own names, the cached list is unchanged and consistency is kept. |
| Bookkeeping.UsedAssets.Setup | LoadingScreenMod/UsedAssets.cs:26-30 | Records what the city uses and installs the UsedAssets handler. |
| Bookkeeping.UsedAssets.Dispose | LoadingScreenMod/UsedAssets.cs:40-46 | Reinstalls the earlier handler and forgets every record and the cached list. |
| Bookkeeping.UsedAssets.GotPropTreeTrailerPackage | LoadingScreenMod/UsedAssets.cs:48-52 | True exactly for a recorded prop, tree or vehicle package, or any dotted name. |
| Bookkeeping.UsedAssets.GotBuildingVehiclePackage | LoadingScreenMod/UsedAssets.cs:54-58 | True exactly for a recorded building or vehicle package, or any dotted name. |
| Bookkeeping.UsedAssets.GotProp | LoadingScreenMod/UsedAssets.cs:60 | A recorded prop is a custom name whose package passes the prop/tree/trailer package query. |
| Bookkeeping.UsedAssets.GotTree | LoadingScreenMod/UsedAssets.cs:61 | A recorded tree is a custom name whose package passes the prop/tree/trailer package query. |
| Bookkeeping.UsedAssets.GotBuilding | LoadingScreenMod/UsedAssets.cs:62 | A recorded building is a custom name whose package passes the building/vehicle package query. |
| Bookkeeping.UsedAssets.GotVehicle | LoadingScreenMod/UsedAssets.cs:63 | A recorded vehicle is a custom name whose package passes both package queries. |
| Bookkeeping.UsedAssets.AnyMissingIn | LoadingScreenMod/UsedAssets.cs:93-100 | True exactly when some name of the set is neither ignored nor loaded. |
| Bookkeeping.UsedAssets.AnyMissing | LoadingScreenMod/UsedAssets.cs:87-91 | True exactly when some recorded asset of some category is neither ignored nor loaded. |
| Bookkeeping.UsedAssets.FindAsset | LoadingScreenMod/UsedAssets.cs:210-243 | Returns FindAssetIn over the cached list. A workshop hit leaves the cache as it was; otherwise the scan stores the filtered asset list the first time and never replaces a cache that is already set. |
| Bookkeeping.UsedAssets.LoadPropTree | LoadingScreenMod/UsedAssets.cs:245-264 | Succeeds exactly when PropTreeLoad does; the name then becomes the loaded asset's full name. The list FindAsset scans stays the same, and a cache already set is kept. |
| Bookkeeping.UsedAssets.ResolvePrefab | LoadingScreenMod/UsedAssets.cs:165-172 | Returns the prefab PrefabFor gives. The list FindAsset scans stays the same, and a cache already set is kept. |
| Bookkeeping.UsedAssets.DeserializeProp | LoadingScreenMod/UsedAssets.cs:161-183 | Returns PropAt's value and cursor. The list FindAsset scans stays the same, so a later prop of the same building is read against the same list, and a cache already set is kept. |
| Bookkeeping.UsedAssets.DeserializeTrailer | LoadingScreenMod/UsedAssets.cs:187-201 | Returns TrailerAt's value and cursor. |
| Bookkeeping.UsedAssets.CustomDeserialize | LoadingScreenMod/UsedAssets.cs:152-204 | Returns UsedAssetsAt's value and cursor. The list FindAsset scans stays the same from one call to the next, and a cache already set is kept. |
| Bookkeeping.UsedAssets.DeserializeByDefault | LoadingScreenMod/UsedAssets.cs:203 | Returns DefaultAt's value and cursor. |

## Left out

- Tracing, profiling and log warnings (`Trace`, `Profiling`, `CODebugBase.Warn`, `Debug.LogException`) have no effect on the decode and are not modelled.
- Unity object construction is not modelled: `new GameObject`, `AddComponent`, `Shader.Find`, `Image`/`CreateTexture`, `Activator.CreateInstance`, `ScriptableObject.CreateInstance`. Objects are values: a GameObject is its fields and its list of components in stream order, and a plain object is the map of slots the stream assigned. So aliasing and in-place updates of Unity objects are not captured.
- A GameObject with several Transform entries keeps all of them in its component list. The source overwrites the one transform, so the model does not say that the last one wins.
- The `as` casts in `Instantiate<T>` and after `AddComponent`, and the cast in DeserializeScriptableObject, are not modelled, and neither is a failing `Activator.CreateInstance`.
- Decoding.FieldEntryAt: a decoded value whose type does not fit the field or the array element is stored anyway. The source's `SetValue` throws ArgumentException or InvalidCastException there (AssetDeserializer.cs:135-142), which ends the decode; the model does not capture that error.
- Deserializer.AssetDeserializer.Instantiate: `Sharing.GetStream`/`GetReader` are not modelled. The model decodes a given token sequence, and a nested asset decode is the `Env.instantiate` parameter.
- Deserializer.AssetDeserializer.Deserialize: the tracing depth `ind` is specified on success only. After an exception the source leaves it raised, and the model says nothing about it.
- Decoding.MeshAt: Unity's `subMeshCount` setter is taken to store the count as read. A negative count reads no triangle arrays, where Unity would reject it.
- The byte layout inside a token is not modelled: one token is one value the writer emitted, and one byte inside a skipped block.
- The static `UsedAssets.instance` pointer is not modelled: the methods are instance methods of the one record. The nulling of the sets in Dispose is modelled as emptying them.
- ReportMissingAssets (UsedAssets.cs:65-85) and the `AssetLoader.NotFound`/`Failed` reports in LoadPropTree and LoadTrailer are diagnostics, and are left out.
- The exceptions LookupSimulationAssets, LookupSimulationBuildings and FindAsset catch and log are not modelled: the game queries are total parameters of the model.
- Bookkeeping.WorkshopHit: `ulong.TryParse`, `PackageManager.FindPackageBy` and `Package.Find` together are one `Game.workshopFind` parameter.
- AssetLoader.PropTreeTrailerImpl is not part of this model. Whether it throws is the `Game.loadSucceeds` parameter, and `PrefabCollection.FindLoaded` after a load is `Game.findLoadedAfterLoad`.
- The eight HashSets are modelled as one pair of sets per category (the `Usage` datatype).
- LoadingScreenMod/Mod.cs (the mod's entry point) is not part of this model.
