/*
 * AssetDeserializer (LoadingScreenMod/AssetDeserializer.cs): the decoder
 * object that reads one asset's stream through a PackageReader. Every
 * method is proved against the function of module Decoding that specifies
 * it: its result, and where it leaves the reader, are what that function
 * yields from where the reader stood. A thrown exception is an Err result
 * that the callers pass on unchanged.
 */
module Deserializer {
  import opened Stream
  import opened Session
  import opened Decoding

  class AssetDeserializer {
    const env: Env
    const reader: PackageReader
    /** The nesting depth used for tracing. */
    var ind: int

    constructor (env: Env, reader: PackageReader, ind: int)
      ensures this.env == env && this.reader == reader && this.ind == ind
    {
      this.env := env;
      this.reader := reader;
      this.ind := ind;
    }

    /** The static Instantiate: a fresh decoder at depth ind over the stream
        of an asset decodes that stream's one entry from its start. */
    static method Instantiate(env: Env, tokens: seq<Token>, ind: int) returns (r: Result<Value>)
      ensures r.Ok? <==> EntryAt(env, tokens, 0).Ok?
      ensures r.Ok? ==> r.value == EntryAt(env, tokens, 0).value.value
      ensures r.Err? ==> r.error == EntryAt(env, tokens, 0).error
    {
      var reader := new PackageReader(tokens);
      var d := new AssetDeserializer(env, reader, ind);
      r := d.Deserialize();
    }

    /** Deserialize: one entry, dispatched on its header's type. */
    method Deserialize() returns (r: Result<Value>)
      requires reader.Valid()
      modifies this, reader
      ensures reader.Valid()
      ensures AtCursor(r, reader.pos) == EntryAt(env, reader.tokens, old(reader.pos))
      ensures r.Ok? ==> ind == old(ind) + 1
    {
      ind := ind + 1;
      var header :- DeserializeHeader();
      if header.None? {
        return Ok(Null);
      }
      var t := header.value;
      if t == GameObjectType {
        r := DeserializeGameObject();
      } else if t == MeshType {
        r := DeserializeMesh();
      } else if t == MaterialType {
        r := DeserializeMaterial();
      } else if t == Texture2DType || t == ImageType {
        r := DeserializeTexture();
      } else if t.IsScriptableObject() {
        r := DeserializeScriptableObject(t);
      } else {
        r := DeserializeObject(t);
      }
    }

    /** DeserializeSingleObject: a value of a type known from context. */
    method DeserializeSingleObject(t: Type, expected: Option<Type>) returns (r: Result<Value>)
      requires reader.Valid()
      modifies reader
      ensures reader.Valid()
      ensures AtCursor(r, reader.pos) == SingleAt(env, t, expected, reader.tokens, old(reader.pos))
    {
      if t == SingleType {
        var v :- reader.ReadValue(Single);
        return Ok(Scalar(v));
      }
      if t == Vector2Type {
        var v :- reader.ReadValue(Vector2);
        return Ok(Scalar(v));
      }
      ghost var p0 := reader.pos;
      var obj :- CustomDeserialize(t);
      assert CustomAt(env, t, reader.tokens, p0) == Ok(Step(obj, reader.pos));
      if obj.Some? {
        return Ok(obj.value);
      }
      if t.IsScriptableObject() || t.IsGameObject() {
        var asset :- ReadAsset();
        r := env.instantiate(asset);
        return;
      }
      if env.version < 3 && expected == Some(AssetType) {
        var v :- reader.ReadValue(UnityValue(AssetType));
        return Ok(Scalar(v));
      }
      var v :- reader.ReadValue(UnityValue(t));
      return Ok(Scalar(v));
    }

    /** DeserializeScriptableObject */
    method DeserializeScriptableObject(t: Type) returns (r: Result<Value>)
      requires reader.Valid()
      modifies this, reader
      ensures reader.Valid()
      ensures AtCursor(r, reader.pos) == ScriptableAt(env, t, reader.tokens, old(reader.pos))
      ensures r.Ok? ==> ind == old(ind)
    {
      var obj :- CustomDeserialize(t);
      if obj.Some? {
        return Ok(obj.value);
      }
      var name :- reader.ReadString();
      var slots :- DeserializeFields(t, map[], false);
      return Ok(Record(t, Some(name), slots));
    }

    /** Lines 129-143: the value of one field, an array element by element. */
    method DeserializeFieldValue(ft: Type, expected: Option<Type>) returns (r: Result<Value>)
      requires reader.Valid()
      modifies reader
      ensures reader.Valid()
      ensures AtCursor(r, reader.pos) == FieldValueAt(env, ft, expected, reader.tokens, old(reader.pos))
    {
      if !ft.ArrayType? {
        r := DeserializeSingleObject(ft, expected);
        return;
      }
      var n :- reader.ReadInt32();
      if n < 0 {
        return Err(NegativeCount(n));
      }
      var elements := new Value[n];
      ghost var p1 := reader.pos;
      var j := 0;
      while j < n
        invariant reader.Valid() && 0 <= j <= n
        invariant ElementsFrom(env, ft.element, expected, n, [], reader.tokens, p1) ==
                  ElementsFrom(env, ft.element, expected, n, elements[..j], reader.tokens, reader.pos)
      {
        var v :- DeserializeSingleObject(ft.element, expected);
        elements[j] := v;
        assert elements[..j + 1] == elements[..j] + [v];
        j := j + 1;
      }
      assert elements[..] == elements[..j];
      return Ok(ArrayValue(ft.element, elements[..]));
    }

    /** Lines 120-143: one entry of a field list. The value of a field that
        does not resolve is still read, and then dropped. */
    method DeserializeField(t: Type, obj: map<string, Value>, resolveMember: bool)
      returns (r: Result<map<string, Value>>)
      requires reader.Valid()
      modifies reader
      ensures reader.Valid()
      ensures AtCursor(r, reader.pos) == FieldAt(env, t, resolveMember, obj, reader.tokens, old(reader.pos))
    {
      var header :- DeserializeNamedHeader();
      if header.None? {
        return Ok(obj);
      }
      r := DeserializeFieldEntry(t, obj, header.value, resolveMember);
    }

    /** The rest of a present field entry: resolve the name, decode the
        value and store it if the name resolved. */
    method DeserializeFieldEntry(t: Type, obj: map<string, Value>, header: FieldHeader, resolveMember: bool)
      returns (r: Result<map<string, Value>>)
      requires reader.Valid()
      modifies reader
      ensures reader.Valid()
      ensures AtCursor(r, reader.pos) == FieldEntryAt(env, t, resolveMember, obj, header, reader.tokens, old(reader.pos))
    {
      var field := env.getField(t, header.name);
      if field.None? && resolveMember {
        field := env.getField(t, env.resolveLegacyMember(t, header.name));
      }
      assert field == ResolveField(env, t, header.name, resolveMember);
      var expected := if field.Some? then Some(field.value.fieldType) else None;
      var value :- DeserializeFieldValue(header.t, expected);
      if field.Some? {
        return Ok(obj[field.value.name := value]);
      }
      return Ok(obj);
    }

    /** DeserializeFields: fills the slots of an object from a field list;
        when resolveMember holds, an unknown field name is remapped once
        through the legacy member hook. */
    method DeserializeFields(t: Type, slots: map<string, Value>, resolveMember: bool)
      returns (r: Result<map<string, Value>>)
      requires reader.Valid()
      modifies this, reader
      ensures reader.Valid()
      ensures AtCursor(r, reader.pos) == FieldsAt(env, t, slots, resolveMember, reader.tokens, old(reader.pos))
      ensures r.Ok? ==> ind == old(ind)
    {
      var count :- reader.ReadInt32();
      ind := ind + 1;
      ghost var p1 := reader.pos;
      var obj := slots;
      var i: int := 0;
      while i < count
        invariant reader.Valid() && 0 <= i
        invariant FieldsFrom(env, t, resolveMember, count, 0, slots, reader.tokens, p1) ==
                  FieldsFrom(env, t, resolveMember, count, i, obj, reader.tokens, reader.pos)
        invariant ind == old(ind) + 1
        decreases count - i
      {
        obj :- DeserializeField(t, obj, resolveMember);
        i := i + 1;
      }
      ind := ind - 1;
      return Ok(obj);
    }

    /** DeserializeGameObject */
    method DeserializeGameObject() returns (r: Result<Value>)
      requires reader.Valid()
      modifies this, reader
      ensures reader.Valid()
      ensures AtCursor(r, reader.pos) == GameObjectAt(env, reader.tokens, old(reader.pos))
      ensures r.Ok? ==> ind == old(ind)
    {
      var name :- reader.ReadString();
      var tag :- reader.ReadString();
      var layer :- reader.ReadInt32();
      var active :- reader.ReadBoolean();
      var count :- reader.ReadInt32();
      var components :- DeserializeComponents(count);
      return Ok(GameObjectValue(name, tag, layer, active, components));
    }

    /** The component loop of DeserializeGameObject: count entries, each a
        header and, unless the header is null, a component. */
    method DeserializeComponents(count: int32) returns (r: Result<seq<Component>>)
      requires reader.Valid()
      modifies this, reader
      ensures reader.Valid()
      ensures AtCursor(r, reader.pos) == ComponentsFrom(env, count, 0, [], reader.tokens, old(reader.pos))
      ensures r.Ok? ==> ind == old(ind)
    {
      ind := ind + 1;
      ghost var p1 := reader.pos;
      var components: seq<Component> := [];
      var i: int := 0;
      while i < count
        invariant reader.Valid() && 0 <= i
        invariant ComponentsFrom(env, count, 0, [], reader.tokens, p1) ==
                  ComponentsFrom(env, count, i, components, reader.tokens, reader.pos)
        invariant ind == old(ind) + 1
        decreases count - i
      {
        ghost var p := reader.pos;
        ghost var before := components;
        var header :- DeserializeHeader();
        if header.Some? {
          var c :- DeserializeComponent(header.value);
          components := components + [c];
        }
        assert ComponentsFrom(env, count, i, before, reader.tokens, p) ==
               ComponentsFrom(env, count, i + 1, components, reader.tokens, reader.pos);
        i := i + 1;
      }
      ind := ind - 1;
      return Ok(components);
    }

    /** Lines 171-180: the component a header introduces. */
    method DeserializeComponent(t: Type) returns (r: Result<Component>)
      requires reader.Valid()
      modifies this, reader
      ensures reader.Valid()
      ensures AtCursor(r, reader.pos) == ComponentAt(env, t, reader.tokens, old(reader.pos))
      ensures r.Ok? ==> ind == old(ind)
    {
      if t == TransformType {
        r := DeserializeTransform();
      } else if t == MeshFilterType {
        r := DeserializeMeshFilter();
      } else if t == MeshRendererType {
        r := DeserializeMeshRenderer();
      } else if t.IsMonoBehaviour() {
        r := DeserializeMonoBehaviour(t);
      } else {
        r := Err(UnknownComponent(t));
      }
    }

    /** DeserializeTexture */
    method DeserializeTexture() returns (r: Result<Value>)
      requires reader.Valid()
      modifies reader
      ensures reader.Valid()
      ensures AtCursor(r, reader.pos) == TextureAt(reader.tokens, old(reader.pos))
    {
      var name :- reader.ReadString();
      var linear :- reader.ReadBoolean();
      var count :- reader.ReadInt32();
      var bytes :- reader.ReadBytes(count);
      return Ok(TextureValue(name, linear, bytes));
    }

    /** Lines 228-252: one material property. */
    method DeserializeMaterialProperty() returns (r: Result<Option<MaterialProperty>>)
      requires reader.Valid()
      modifies reader
      ensures reader.Valid()
      ensures AtCursor(r, reader.pos) == PropertyAt(env, reader.tokens, old(reader.pos))
    {
      var kind :- reader.ReadInt32();
      if kind == 0 {
        var name :- reader.ReadString();
        var color :- reader.ReadValue(Color);
        return Ok(Some(ColorProperty(name, color)));
      } else if kind == 1 {
        var name :- reader.ReadString();
        var vector :- reader.ReadValue(Vector4);
        return Ok(Some(VectorProperty(name, vector)));
      } else if kind == 2 {
        var name :- reader.ReadString();
        var number :- reader.ReadValue(Single);
        return Ok(Some(FloatProperty(name, number)));
      } else if kind == 3 {
        var name :- reader.ReadString();
        var isNull :- reader.ReadBoolean();
        if !isNull {
          var asset :- ReadAsset();
          var texture :- env.instantiate(asset);
          return Ok(Some(TextureProperty(name, texture)));
        }
        return Ok(Some(TextureProperty(name, Null)));
      }
      return Ok(None);
    }

    /** DeserializeMaterial */
    method DeserializeMaterial() returns (r: Result<Value>)
      requires reader.Valid()
      modifies this, reader
      ensures reader.Valid()
      ensures AtCursor(r, reader.pos) == MaterialAt(env, reader.tokens, old(reader.pos))
      ensures r.Ok? ==> ind == old(ind)
    {
      var name :- reader.ReadString();
      var shader :- reader.ReadString();
      var count :- reader.ReadInt32();
      ind := ind + 1;
      ghost var p1 := reader.pos;
      var properties: seq<MaterialProperty> := [];
      var i: int := 0;
      while i < count
        invariant reader.Valid() && 0 <= i
        invariant PropertiesFrom(env, count, 0, [], reader.tokens, p1) ==
                  PropertiesFrom(env, count, i, properties, reader.tokens, reader.pos)
        invariant ind == old(ind) + 1
        decreases count - i
      {
        ghost var q := reader.pos;
        ghost var before := properties;
        var property :- DeserializeMaterialProperty();
        if property.Some? {
          properties := properties + [property.value];
        }
        PropertiesFromStep(env, count, i, before, reader.tokens, q);
        i := i + 1;
      }
      assert PropertiesFrom(env, count, i, properties, reader.tokens, reader.pos) == Ok(Step(properties, reader.pos));
      ind := ind - 1;
      return Ok(MaterialValue(name, shader, properties));
    }

    /** DeserializeTransform */
    method DeserializeTransform() returns (r: Result<Component>)
      requires reader.Valid()
      modifies reader
      ensures reader.Valid()
      ensures AtCursor(r, reader.pos) == ComponentAt(env, TransformType, reader.tokens, old(reader.pos))
    {
      var position :- reader.ReadValue(Vector3);
      var rotation :- reader.ReadValue(Quaternion);
      var scale :- reader.ReadValue(Vector3);
      return Ok(TransformData(position, rotation, scale));
    }

    /** DeserializeMeshFilter */
    method DeserializeMeshFilter() returns (r: Result<Component>)
      requires reader.Valid()
      modifies reader
      ensures reader.Valid()
      ensures AtCursor(r, reader.pos) == ComponentAt(env, MeshFilterType, reader.tokens, old(reader.pos))
    {
      var asset :- ReadAsset();
      var mesh :- env.instantiate(asset);
      return Ok(MeshFilterData(mesh));
    }

    /** DeserializeMonoBehaviour */
    method DeserializeMonoBehaviour(t: Type) returns (r: Result<Component>)
      requires reader.Valid() && t.IsMonoBehaviour()
      modifies this, reader
      ensures reader.Valid()
      ensures AtCursor(r, reader.pos) == ComponentAt(env, t, reader.tokens, old(reader.pos))
      ensures r.Ok? ==> ind == old(ind)
    {
      var slots :- DeserializeFields(t, map[], false);
      return Ok(BehaviourData(t, slots));
    }

    /** DeserializeObject */
    method DeserializeObject(t: Type) returns (r: Result<Value>)
      requires reader.Valid()
      modifies this, reader
      ensures reader.Valid()
      ensures AtCursor(r, reader.pos) == ObjectAt(env, t, reader.tokens, old(reader.pos))
      ensures r.Ok? ==> ind == old(ind)
    {
      var obj :- CustomDeserialize(t);
      if obj.Some? {
        return Ok(obj.value);
      }
      var legacy :- reader.ReadString();
      var slots :- DeserializeFields(t, map[], true);
      return Ok(Record(t, None, slots));
    }

    /** DeserializeMeshRenderer */
    method DeserializeMeshRenderer() returns (r: Result<Component>)
      requires reader.Valid()
      modifies reader
      ensures reader.Valid()
      ensures AtCursor(r, reader.pos) == ComponentAt(env, MeshRendererType, reader.tokens, old(reader.pos))
    {
      var num :- reader.ReadInt32();
      if num < 0 {
        return Err(NegativeCount(num));
      }
      var materials := new Value[num];
      ghost var p1 := reader.pos;
      var i := 0;
      while i < num
        invariant reader.Valid() && 0 <= i <= num
        invariant MaterialsFrom(env, num, [], reader.tokens, p1) ==
                  MaterialsFrom(env, num, materials[..i], reader.tokens, reader.pos)
      {
        var asset :- ReadAsset();
        var material :- env.instantiate(asset);
        materials[i] := material;
        assert materials[..i + 1] == materials[..i] + [material];
        i := i + 1;
      }
      assert materials[..] == materials[..i];
      return Ok(MeshRendererData(materials[..]));
    }

    /** Lines 314-320: the vertex data of a mesh. */
    method ReadVertexData() returns (r: Result<VertexData>)
      requires reader.Valid()
      modifies reader
      ensures reader.Valid()
      ensures AtCursor(r, reader.pos) == VertexDataAt(reader.tokens, old(reader.pos))
    {
      var vertices :- reader.ReadValue(Vector3Array);
      var colors :- reader.ReadValue(ColorArray);
      var uv :- reader.ReadValue(Vector2Array);
      var normals :- reader.ReadValue(Vector3Array);
      var tangents :- reader.ReadValue(Vector4Array);
      var boneWeights :- reader.ReadValue(BoneWeightsArray);
      var bindposes :- reader.ReadValue(Matrix4x4Array);
      return Ok(VertexData(vertices, colors, uv, normals, tangents, boneWeights, bindposes));
    }

    /** DeserializeMesh */
    method DeserializeMesh() returns (r: Result<Value>)
      requires reader.Valid()
      modifies reader
      ensures reader.Valid()
      ensures AtCursor(r, reader.pos) == MeshAt(reader.tokens, old(reader.pos))
    {
      var name :- reader.ReadString();
      var data :- ReadVertexData();
      var subMeshCount :- reader.ReadInt32();
      ghost var p9 := reader.pos;
      var triangles: seq<Token> := [];
      var i: int := 0;
      while i < subMeshCount
        invariant reader.Valid() && 0 <= i
        invariant SubmeshesFrom(subMeshCount, 0, [], reader.tokens, p9) ==
                  SubmeshesFrom(subMeshCount, i, triangles, reader.tokens, reader.pos)
        decreases subMeshCount - i
      {
        ghost var q := reader.pos;
        ghost var before := triangles;
        var submesh :- reader.ReadValue(Int32Array);
        triangles := triangles + [submesh];
        assert SubmeshesFrom(subMeshCount, i, before, reader.tokens, q) ==
               SubmeshesFrom(subMeshCount, i + 1, triangles, reader.tokens, reader.pos);
        i := i + 1;
      }
      assert SubmeshesFrom(subMeshCount, i, triangles, reader.tokens, reader.pos) == Ok(Step(triangles, reader.pos));
      return Ok(MeshValue(name, data, triangles));
    }

    /** DeserializeHeader(out Type): None when the entry is absent or its
        unknown type was skipped. */
    method DeserializeHeader() returns (r: Result<Option<Type>>)
      requires reader.Valid()
      modifies reader
      ensures reader.Valid()
      ensures AtCursor(r, reader.pos) == HeaderAt(env, reader.tokens, old(reader.pos))
    {
      var isNull :- reader.ReadBoolean();
      if isNull {
        return Ok(None);
      }
      var text :- reader.ReadString();
      var t := env.getType(text);
      if t.None? {
        t := env.getType(env.resolveLegacyType(text));
        if t.None? {
          var num := HandleUnknownType(text);
          if num < 0 {
            return Err(UnknownType(text));
          }
          return Ok(None);
        }
      }
      return Ok(t);
    }

    /** ReadAsset */
    method ReadAsset() returns (r: Result<Option<Asset>>)
      requires reader.Valid()
      modifies reader
      ensures reader.Valid()
      ensures AtCursor(r, reader.pos) == ReadAssetAt(env, reader.tokens, old(reader.pos))
    {
      var checksum :- reader.ReadString();
      return Ok(env.findByChecksum(checksum));
    }

    /** DeserializeHeader(out Type, out string) */
    method DeserializeNamedHeader() returns (r: Result<Option<FieldHeader>>)
      requires reader.Valid()
      modifies reader
      ensures reader.Valid()
      ensures AtCursor(r, reader.pos) == NamedHeaderAt(env, reader.tokens, old(reader.pos))
    {
      var isNull :- reader.ReadBoolean();
      if isNull {
        return Ok(None);
      }
      var text :- reader.ReadString();
      var t := env.getType(text);
      var name :- reader.ReadString();
      if t.None? {
        t := env.getType(env.resolveLegacyType(text));
        if t.None? {
          var num := HandleUnknownType(text);
          if num < 0 {
            return Err(UnknownType(text));
          }
          return Ok(None);
        }
      }
      return Ok(Some(FieldHeader(t.value, name)));
    }

    /** HandleUnknownType: skips the byte count the host handler reports. */
    method HandleUnknownType(text: string) returns (num: int)
      requires reader.Valid()
      modifies reader
      ensures reader.Valid()
      ensures Step(num, reader.pos) == UnknownTypeAt(env, text, reader.tokens, old(reader.pos))
    {
      num := env.unknownTypeHandler(text);
      if num > 0 {
        var skipped := reader.ReadBytes(num);
        return;
      }
      return -1;
    }

    /** CustomDeserialize: a Package.Asset is read here; any other type is
        offered to the installed custom deserializer, which reads what it
        handles from this reader. */
    method CustomDeserialize(t: Type) returns (r: Result<Option<Value>>)
      requires reader.Valid()
      modifies reader
      ensures reader.Valid()
      ensures AtCursor(r, reader.pos) == CustomAt(env, t, reader.tokens, old(reader.pos))
    {
      if t == AssetType {
        var asset :- ReadAsset();
        if asset.Some? {
          return Ok(Some(AssetRef(asset.value)));
        }
        return Ok(None);
      }
      var hooked :- env.customDeserialize(t, reader.tokens[reader.pos..]);
      var advanced :- reader.Advance(hooked.used);
      if hooked.value.Null? {
        return Ok(None);
      }
      return Ok(Some(hooked.value));
    }
  }
}
