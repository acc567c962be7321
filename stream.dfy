/*
 * The primitive reader the asset decoder consumes (ColossalFramework's
 * PackageReader), seen as a sequence of typed tokens and a cursor.
 *
 * One token stands for one value the writer emitted: a boolean, a 32-bit
 * integer, a length-prefixed string, or a fixed-layout Unity value (a float,
 * a vector, a colour, an array of those, or a value written by
 * WriteUnityType). A read of the wrong kind of token is a malformed stream.
 * ReadBytes(n) takes n tokens: inside a skipped or raw byte region one token
 * stands for one byte.
 */
module Stream {

  /** C#'s `int`. */
  type int32 = x: int | -0x8000_0000 <= x < 0x8000_0000

  datatype Option<+T> = None | Some(value: T)

  /** The runtime types (System.Type) the decoder tells apart. */
  datatype Type =
    | GameObjectType                 // UnityEngine.GameObject
    | MeshType                       // UnityEngine.Mesh
    | MaterialType                   // UnityEngine.Material
    | Texture2DType                  // UnityEngine.Texture2D
    | ImageType                      // ColossalFramework.Importers.Image
    | TransformType                  // UnityEngine.Transform
    | MeshFilterType                 // UnityEngine.MeshFilter
    | MeshRendererType               // UnityEngine.MeshRenderer
    | SingleType                     // float
    | Vector2Type                    // UnityEngine.Vector2
    | AssetType                      // Package.Asset
    | BuildingPropType               // BuildingInfo.Prop
    | VehicleTrailerType             // VehicleInfo.VehicleTrailer
    | ScriptableType(name: string)   // a type derived from ScriptableObject
    | BehaviourType(name: string)    // a type derived from MonoBehaviour
    | ArrayType(element: Type)       // T[]
    | ClassType(name: string)        // any other class or struct
  {
    /** typeof(ScriptableObject).IsAssignableFrom(this) */
    predicate IsScriptableObject() { ScriptableType? }

    /** typeof(MonoBehaviour).IsAssignableFrom(this) */
    predicate IsMonoBehaviour() { BehaviourType? }

    /** typeof(GameObject).IsAssignableFrom(this); GameObject is sealed */
    predicate IsGameObject() { GameObjectType? }
  }

  /** The fixed-layout values the reader decodes in one call. */
  datatype Kind =
    | Single | Vector2 | Vector3 | Vector4 | Quaternion | Color
    | Vector2Array | Vector3Array | Vector4Array | ColorArray
    | BoneWeightsArray | Matrix4x4Array | Int32Array
    | UnityValue(t: Type)            // what ReadUnityType(t) reads

  datatype Token =
    | TBool(flag: bool)
    | TInt(number: int32)
    | TStr(text: string)
    | TValue(kind: Kind, payload: nat)

  /** The exceptions that end a decode. */
  datatype Error =
    | EndOfStream                    // the reader ran past the end of the stream
    | WrongToken(at: nat)            // the token at `at` is not what the read expects
    | NegativeCount(count: int)      // a negative length for an array or a byte block
    | UnknownType(name: string)      // InvalidDataException from DeserializeHeader
    | UnknownComponent(t: Type)      // InvalidDataException from DeserializeGameObject
    | HookFailure(reason: string)    // an exception thrown by a host hook

  datatype Result<+T> = Ok(value: T) | Err(error: Error) {
    predicate IsFailure() { Err? }

    function PropagateFailure<U>(): Result<U>
      requires Err?
    {
      Err(error)
    }

    function Extract(): T
      requires Ok?
    {
      value
    }
  }

  /** A decoded value together with the cursor position after it. */
  datatype Step<+T> = Step(value: T, next: nat)

  /** The outcome of a method that advanced a reader to `pos`, as a step. */
  function AtCursor<T>(r: Result<T>, pos: nat): Result<Step<T>> {
    match r
    case Ok(v) => Ok(Step(v, pos))
    case Err(e) => Err(e)
  }

  /** Where a decode leaves the cursor, or why it failed. */
  function Cursor<T>(r: Result<Step<T>>): Result<nat> {
    match r
    case Ok(st) => Ok(st.next)
    case Err(e) => Err(e)
  }

  function Min(a: int, b: int): int { if a <= b then a else b }

  // The reads, as functions of the stream and the cursor.

  function ReadBoolAt(s: seq<Token>, p: nat): Result<Step<bool>>
    requires p <= |s|
  {
    if p == |s| then Err(EndOfStream)
    else if s[p].TBool? then Ok(Step(s[p].flag, p + 1))
    else Err(WrongToken(p))
  }

  function ReadIntAt(s: seq<Token>, p: nat): Result<Step<int32>>
    requires p <= |s|
  {
    if p == |s| then Err(EndOfStream)
    else if s[p].TInt? then Ok(Step(s[p].number, p + 1))
    else Err(WrongToken(p))
  }

  function ReadStringAt(s: seq<Token>, p: nat): Result<Step<string>>
    requires p <= |s|
  {
    if p == |s| then Err(EndOfStream)
    else if s[p].TStr? then Ok(Step(s[p].text, p + 1))
    else Err(WrongToken(p))
  }

  function ReadValueAt(s: seq<Token>, p: nat, k: Kind): Result<Step<Token>>
    requires p <= |s|
  {
    if p == |s| then Err(EndOfStream)
    else if s[p].TValue? && s[p].kind == k then Ok(Step(s[p], p + 1))
    else Err(WrongToken(p))
  }

  /** BinaryReader.ReadBytes: a negative count throws; at the end of the
      stream it returns fewer tokens than asked for. */
  function ReadBytesAt(s: seq<Token>, p: nat, n: int): (r: Result<Step<seq<Token>>>)
    requires p <= |s|
    ensures n >= 0 <==> r.Ok?
    ensures r.Ok? ==> r.value.next == Min(p + n, |s|) && r.value.value == s[p..r.value.next]
  {
    if n < 0 then Err(NegativeCount(n))
    else
      var e := Min(p + n, |s|);
      Ok(Step(s[p..e], e))
  }

  /** The reader: a stream of tokens and a cursor into it. */
  class PackageReader {
    const tokens: seq<Token>
    var pos: nat

    ghost predicate Valid()
      reads this
    {
      pos <= |tokens|
    }

    constructor (tokens: seq<Token>)
      ensures this.tokens == tokens && pos == 0 && Valid()
    {
      this.tokens := tokens;
      pos := 0;
    }

    method ReadBoolean() returns (r: Result<bool>)
      requires Valid()
      modifies this
      ensures Valid() && AtCursor(r, pos) == ReadBoolAt(tokens, old(pos))
    {
      if pos == |tokens| {
        return Err(EndOfStream);
      }
      match tokens[pos]
      case TBool(b) =>
        r := Ok(b);
        pos := pos + 1;
      case _ =>
        r := Err(WrongToken(pos));
    }

    method ReadInt32() returns (r: Result<int32>)
      requires Valid()
      modifies this
      ensures Valid() && AtCursor(r, pos) == ReadIntAt(tokens, old(pos))
    {
      if pos == |tokens| {
        return Err(EndOfStream);
      }
      match tokens[pos]
      case TInt(n) =>
        r := Ok(n);
        pos := pos + 1;
      case _ =>
        r := Err(WrongToken(pos));
    }

    method ReadString() returns (r: Result<string>)
      requires Valid()
      modifies this
      ensures Valid() && AtCursor(r, pos) == ReadStringAt(tokens, old(pos))
    {
      if pos == |tokens| {
        return Err(EndOfStream);
      }
      match tokens[pos]
      case TStr(text) =>
        r := Ok(text);
        pos := pos + 1;
      case _ =>
        r := Err(WrongToken(pos));
    }

    /** ReadSingle, ReadVector2, ..., ReadInt32Array and ReadUnityType(t). */
    method ReadValue(k: Kind) returns (r: Result<Token>)
      requires Valid()
      modifies this
      ensures Valid() && AtCursor(r, pos) == ReadValueAt(tokens, old(pos), k)
    {
      if pos == |tokens| {
        return Err(EndOfStream);
      }
      var t := tokens[pos];
      if t.TValue? && t.kind == k {
        r := Ok(t);
        pos := pos + 1;
      } else {
        r := Err(WrongToken(pos));
      }
    }

    method ReadBytes(n: int) returns (r: Result<seq<Token>>)
      requires Valid()
      modifies this
      ensures Valid() && AtCursor(r, pos) == ReadBytesAt(tokens, old(pos), n)
    {
      if n < 0 {
        return Err(NegativeCount(n));
      }
      var e := Min(pos + n, |tokens|);
      r := Ok(tokens[pos..e]);
      pos := e;
    }

    /** Skips tokens a host hook consumed on this reader. */
    method Advance(used: nat) returns (r: Result<()>)
      requires Valid()
      modifies this
      ensures Valid()
      ensures r.Ok? <==> used <= |tokens| - old(pos)
      ensures r.Ok? ==> pos == old(pos) + used
      ensures r.Err? ==> r.error == EndOfStream
    {
      if used > |tokens| - pos {
        return Err(EndOfStream);
      }
      pos := pos + used;
      r := Ok(());
    }
  }
}
