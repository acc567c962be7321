/*
 * What one decode works with: the decoded values it produces and the
 * collaborators it consults (the package, reflection, the legacy hooks of
 * PackageHelper, the installed custom deserializer, and the decode of a
 * referenced asset from its own stream).
 */
module Session {
  import opened Stream

  /** Package.Asset: an entry of a package, found by its checksum. */
  datatype Asset = Asset(fullName: string, name: string, checksum: string)

  /** FieldInfo: the storage slot a field name resolves to. */
  datatype Field = Field(name: string, fieldType: Type)

  /** The components DeserializeGameObject configures, in stream order; a
      TransformData entry sets the GameObject's own transform. */
  datatype Component =
    | TransformData(localPosition: Token, localRotation: Token, localScale: Token)
    | MeshFilterData(sharedMesh: Value)
    | MeshRendererData(sharedMaterials: seq<Value>)
    | BehaviourData(t: Type, slots: map<string, Value>)

  /** One Material.SetColor / SetVector / SetFloat / SetTexture call. */
  datatype MaterialProperty =
    | ColorProperty(name: string, color: Token)
    | VectorProperty(name: string, vector: Token)
    | FloatProperty(name: string, number: Token)
    | TextureProperty(name: string, texture: Value)

  /** The per-vertex arrays of a Mesh and its bind poses, in stream order. */
  datatype VertexData = VertexData(vertices: Token, colors: Token, uv: Token, normals: Token,
                                   tangents: Token, boneWeights: Token, bindposes: Token)

  /** The objects a decode produces. A generic object is its type and the
      slots the stream assigned (a slot not in the map keeps its default). */
  datatype Value =
    | Null
    | Scalar(token: Token)
    | AssetRef(asset: Asset)
    | ArrayValue(elementType: Type, elements: seq<Value>)
    | Record(t: Type, objectName: Option<string>, slots: map<string, Value>)
    | GameObjectValue(name: string, tag: string, layer: int32, active: bool,
                      components: seq<Component>)
    | MeshValue(name: string, data: VertexData, triangles: seq<Token>)
    | MaterialValue(name: string, shader: string, properties: seq<MaterialProperty>)
    | TextureValue(name: string, linear: bool, bytes: seq<Token>)
    | PropValue(prop: Option<string>, tree: Option<string>, position: Token, angle: Token,
                probability: int32, fixedHeight: bool)
    | TrailerValue(info: Option<string>, probability: int32, invertProbability: int32)

  /** What a custom deserializer returns: a value (Null when it does not
      handle the type) and how many tokens it read from the reader. */
  datatype Hooked = Hooked(value: Value, used: nat)

  /** The collaborators of one decode. */
  datatype Env = Env(
    version: nat,                                          // package.version
    findByChecksum: string -> Option<Asset>,               // package.FindByChecksum
    getType: string -> Option<Type>,                       // Type.GetType
    resolveLegacyType: string -> string,                   // PackageHelper.ResolveLegacyTypeHandler
    unknownTypeHandler: string -> int32,                   // PackageHelper.UnknownTypeHandler
    getField: (Type, string) -> Option<Field>,             // Type.GetField
    resolveLegacyMember: (Type, string) -> string,         // PackageHelper.ResolveLegacyMemberHandler
    customDeserialize: (Type, seq<Token>) -> Result<Hooked>, // PackageHelper.CustomDeserialize, given the unread tokens
    instantiate: Option<Asset> -> Result<Value>            // AssetDeserializer.Instantiate on a referenced asset
  )
}
