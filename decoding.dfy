/*
 * The decoding of one asset stream by AssetDeserializer
 * (LoadingScreenMod/AssetDeserializer.cs), as functions of the environment,
 * the token stream and the cursor. Each function is the specification of
 * the method of the same role in module Deserializer; a `...From` function
 * is the remainder of a loop from iteration i with the loop's state so far.
 */
module Decoding {
  import opened Stream
  import opened Session

  // ---------------------------------------------------------------------
  // Headers and type resolution (DeserializeHeader, HandleUnknownType)
  // ---------------------------------------------------------------------

  /** Neither the type name nor its one legacy remap names a type. */
  predicate Unresolvable(env: Env, text: string) {
    env.getType(text).None? && env.getType(env.resolveLegacyType(text)).None?
  }

  /** HandleUnknownType: a positive byte count from the host handler is
      skipped and returned; anything else skips nothing and returns -1. */
  function UnknownTypeAt(env: Env, text: string, s: seq<Token>, p: nat): (r: Step<int>)
    requires p <= |s|
    ensures r.value > 0 <==> env.unknownTypeHandler(text) > 0
    ensures r.value > 0 ==> r.value == env.unknownTypeHandler(text) as int
    ensures r.value > 0 ==> r.next == Min(p + r.value, |s|)
    ensures r.value <= 0 ==> r == Step(-1, p)
  {
    var num := env.unknownTypeHandler(text);
    if num > 0 then
      var skipped := ReadBytesAt(s, p, num);
      Step(num as int, skipped.value.next)
    else
      Step(-1, p)
  }

  /** The resolution step shared by both DeserializeHeader overloads: the
      name itself, then exactly one legacy remap, then the unknown-type
      handler, which either skips the value or makes the decode fail. */
  function ResolveAt(env: Env, text: string, s: seq<Token>, p: nat): (r: Result<Step<Option<Type>>>)
    requires p <= |s|
    ensures r.Ok? ==> p <= r.value.next <= |s|
    ensures (r.Ok? && r.value.value.Some?) <==> !Unresolvable(env, text)
    ensures env.getType(text).Some? ==> r == Ok(Step(env.getType(text), p))
    ensures env.getType(text).None? && !Unresolvable(env, text) ==>
      r == Ok(Step(env.getType(env.resolveLegacyType(text)), p))
    ensures r.Err? <==> Unresolvable(env, text) && env.unknownTypeHandler(text) <= 0
    ensures r.Err? ==> r.error == UnknownType(text)
    ensures r.Ok? && r.value.value.None? ==> r.value.next == UnknownTypeAt(env, text, s, p).next
  {
    var direct := env.getType(text);
    if direct.Some? then Ok(Step(direct, p))
    else
      var legacy := env.getType(env.resolveLegacyType(text));
      if legacy.Some? then Ok(Step(legacy, p))
      else
        var skipped := UnknownTypeAt(env, text, s, p);
        if skipped.value < 0 then Err(UnknownType(text))
        else Ok(Step(None, skipped.next))
  }

  /** DeserializeHeader(out Type): an is-null flag, then a type name. */
  function HeaderAt(env: Env, s: seq<Token>, p: nat): (r: Result<Step<Option<Type>>>)
    requires p <= |s|
    ensures r.Ok? ==> p < r.value.next <= |s|
    ensures p < |s| && s[p] == TBool(true) ==> r == Ok(Step(None, p + 1))
    ensures p + 1 < |s| && s[p] == TBool(false) && s[p + 1].TStr? ==>
      r == ResolveAt(env, s[p + 1].text, s, p + 2)
  {
    var isNull :- ReadBoolAt(s, p);
    if isNull.value then Ok(Step(None, isNull.next))
    else
      var text :- ReadStringAt(s, isNull.next);
      ResolveAt(env, text.value, s, text.next)
  }

  /** The header of one field of a field list. */
  datatype FieldHeader = FieldHeader(t: Type, name: string)

  /** DeserializeHeader(out Type, out string): the field name follows the
      type name and is read before the type is resolved. */
  function NamedHeaderAt(env: Env, s: seq<Token>, p: nat): (r: Result<Step<Option<FieldHeader>>>)
    requires p <= |s|
    ensures r.Ok? ==> p < r.value.next <= |s|
    ensures p < |s| && s[p] == TBool(true) ==> r == Ok(Step(None, p + 1))
    ensures p + 2 < |s| && s[p] == TBool(false) && s[p + 1].TStr? && s[p + 2].TStr? ==>
      Cursor(r) == Cursor(ResolveAt(env, s[p + 1].text, s, p + 3))
    ensures r.Ok? && r.value.value.Some? ==>
      p + 2 < |s| && s[p] == TBool(false) && s[p + 1].TStr? &&
      s[p + 2] == TStr(r.value.value.value.name) && r.value.next == p + 3 &&
      ResolveAt(env, s[p + 1].text, s, p + 3) == Ok(Step(Some(r.value.value.value.t), p + 3))
    ensures p + 2 < |s| && s[p] == TBool(false) && s[p + 1].TStr? && s[p + 2].TStr? &&
            ResolveAt(env, s[p + 1].text, s, p + 3).Ok? && ResolveAt(env, s[p + 1].text, s, p + 3).value.value.Some? ==>
      r == Ok(Step(Some(FieldHeader(ResolveAt(env, s[p + 1].text, s, p + 3).value.value.value, s[p + 2].text)), p + 3))
  {
    var isNull :- ReadBoolAt(s, p);
    if isNull.value then Ok(Step(None, isNull.next))
    else
      var text :- ReadStringAt(s, isNull.next);
      var name :- ReadStringAt(s, text.next);
      var t :- ResolveAt(env, text.value, s, name.next);
      match t.value
      case Some(ty) => Ok(Step(Some(FieldHeader(ty, name.value)), t.next))
      case None => Ok(Step(None, t.next))
  }

  // ---------------------------------------------------------------------
  // Single values (ReadAsset, CustomDeserialize, DeserializeSingleObject)
  // ---------------------------------------------------------------------

  /** ReadAsset: a checksum string, looked up in the package. */
  function ReadAssetAt(env: Env, s: seq<Token>, p: nat): (r: Result<Step<Option<Asset>>>)
    requires p <= |s|
    ensures r.Ok? <==> p < |s| && s[p].TStr?
    ensures r.Ok? ==> r.value == Step(env.findByChecksum(s[p].text), p + 1)
  {
    var checksum :- ReadStringAt(s, p);
    Ok(Step(env.findByChecksum(checksum.value), checksum.next))
  }

  /** Instantiate(ReadAsset()): the asset a checksum names, decoded from
      its own stream. */
  function InstantiatedAt(env: Env, s: seq<Token>, p: nat): (r: Result<Step<Value>>)
    requires p <= |s|
    ensures r.Ok? <==> p < |s| && s[p].TStr? && env.instantiate(env.findByChecksum(s[p].text)).Ok?
    ensures r.Ok? ==> r.value == Step(env.instantiate(env.findByChecksum(s[p].text)).value, p + 1)
  {
    var a :- ReadAssetAt(env, s, p);
    var v :- env.instantiate(a.value);
    Ok(Step(v, a.next))
  }

  /** CustomDeserialize: a Package.Asset is read here; every other type is
      offered to the installed custom deserializer. None means null, that
      is, not handled. */
  function CustomAt(env: Env, t: Type, s: seq<Token>, p: nat): (r: Result<Step<Option<Value>>>)
    requires p <= |s|
    ensures r.Ok? ==> p <= r.value.next <= |s|
    ensures r.Ok? && r.value.value.Some? ==> !r.value.value.value.Null?
    ensures t == AssetType ==> (r.Ok? <==> p < |s| && s[p].TStr?)
    ensures t == AssetType && r.Ok? ==>
      r.value.next == p + 1 &&
      r.value.value == (if env.findByChecksum(s[p].text).Some?
                        then Some(AssetRef(env.findByChecksum(s[p].text).value)) else None)
    // any other type is offered to the custom deserializer, and the reader
    // moves past what it read
    ensures t != AssetType ==>
      (r.Ok? <==> env.customDeserialize(t, s[p..]).Ok? && env.customDeserialize(t, s[p..]).value.used <= |s| - p)
    ensures t != AssetType && r.Ok? ==>
      var h := env.customDeserialize(t, s[p..]).value;
      r.value == Step(if h.value.Null? then None else Some(h.value), p + h.used)
  {
    if t == AssetType then
      var a :- ReadAssetAt(env, s, p);
      Ok(Step(if a.value.Some? then Some(AssetRef(a.value.value)) else None, a.next))
    else
      var h :- env.customDeserialize(t, s[p..]);
      if h.used > |s| - p then Err(EndOfStream)
      else Ok(Step(if h.value.Null? then None else Some(h.value), p + h.used))
  }

  /** A fixed-layout value read by the reader itself. */
  function ScalarAt(s: seq<Token>, p: nat, k: Kind): (r: Result<Step<Value>>)
    requires p <= |s|
    ensures r.Ok? <==> p < |s| && s[p].TValue? && s[p].kind == k
    ensures r.Ok? ==> r.value == Step(Scalar(s[p]), p + 1)
  {
    var v :- ReadValueAt(s, p, k);
    Ok(Step(Scalar(v.value), v.next))
  }

  /** The custom deserializer did not handle t and t is neither float nor
      Vector2, a ScriptableObject nor a GameObject: the value is read with
      ReadUnityType, starting at q. */
  predicate ReadsUnityTypeAt(env: Env, t: Type, s: seq<Token>, p: nat, q: nat)
    requires p <= |s|
  {
    t != SingleType && t != Vector2Type && !t.IsScriptableObject() && !t.IsGameObject() &&
    CustomAt(env, t, s, p) == Ok(Step(None, q))
  }

  /** DeserializeSingleObject: a value whose type is known from context. */
  function SingleAt(env: Env, t: Type, expected: Option<Type>, s: seq<Token>, p: nat): (r: Result<Step<Value>>)
    requires p <= |s|
    ensures r.Ok? ==> p <= r.value.next <= |s|
    // float and Vector2 are read directly, without consulting any hook
    ensures t == SingleType ==> r == ScalarAt(s, p, Single)
    ensures t == Vector2Type ==> r == ScalarAt(s, p, Vector2)
    // what a custom deserializer returns is used verbatim
    ensures t != SingleType && t != Vector2Type && CustomAt(env, t, s, p).Ok? &&
            CustomAt(env, t, s, p).value.value.Some? ==>
      r == Ok(Step(CustomAt(env, t, s, p).value.value.value, CustomAt(env, t, s, p).value.next))
    // a custom deserializer that throws ends the decode (line 77)
    ensures t != SingleType && t != Vector2Type && CustomAt(env, t, s, p).Err? ==>
      r == Err(CustomAt(env, t, s, p).error)
    // an unhandled ScriptableObject or GameObject is a reference to another
    // asset of the package (lines 81-84)
    ensures (t.IsScriptableObject() || t.IsGameObject()) && CustomAt(env, t, s, p).Ok? &&
            CustomAt(env, t, s, p).value.value.None? ==>
      r == InstantiatedAt(env, s, CustomAt(env, t, s, p).value.next)
  {
    if t == SingleType then ScalarAt(s, p, Single)
    else if t == Vector2Type then ScalarAt(s, p, Vector2)
    else
      var c :- CustomAt(env, t, s, p);
      if c.value.Some? then Ok(Step(c.value.value, c.next))
      else if t.IsScriptableObject() || t.IsGameObject() then
        InstantiatedAt(env, s, c.next)
      else if env.version < 3 && expected == Some(AssetType) then
        ScalarAt(s, c.next, UnityValue(AssetType))
      else
        ScalarAt(s, c.next, UnityValue(t))
  }

  /** The version gate (lines 88-91): packages before version 3 read a
      value expected to be a Package.Asset as one, whatever its own type. */
  lemma VersionGate(env: Env, t: Type, expected: Option<Type>, s: seq<Token>, p: nat, q: nat)
    requires p <= |s| && q <= |s| && ReadsUnityTypeAt(env, t, s, p, q)
    ensures SingleAt(env, t, expected, s, p) ==
      ScalarAt(s, q, UnityValue(if env.version < 3 && expected == Some(AssetType) then AssetType else t))
  {
  }

  // ---------------------------------------------------------------------
  // Field lists (DeserializeFields)
  // ---------------------------------------------------------------------

  /** Lines 131-135: the elements of an array-typed field, from element |acc|. */
  function ElementsFrom(env: Env, et: Type, expected: Option<Type>, n: nat, acc: seq<Value>,
                        s: seq<Token>, p: nat): (r: Result<Step<seq<Value>>>)
    requires |acc| <= n && p <= |s|
    ensures r.Ok? ==> p <= r.value.next <= |s|
    ensures r.Ok? ==> |r.value.value| == n && r.value.value[..|acc|] == acc
    ensures |acc| == n ==> r == Ok(Step(acc, p))
    decreases n - |acc|
  {
    if |acc| == n then Ok(Step(acc, p))
    else
      var v :- SingleAt(env, et, expected, s, p);
      ElementsFrom(env, et, expected, n, acc + [v.value], s, v.next)
  }

  /** One iteration of the element loop (line 135): the next single value
      read is the next element, and the loop goes on after it; a value that
      fails ends the loop. */
  lemma ElementsFromStep(env: Env, et: Type, expected: Option<Type>, n: nat, acc: seq<Value>,
                         s: seq<Token>, p: nat)
    requires |acc| < n && p <= |s|
    ensures SingleAt(env, et, expected, s, p).Ok? ==>
      var v := SingleAt(env, et, expected, s, p).value;
      ElementsFrom(env, et, expected, n, acc, s, p) == ElementsFrom(env, et, expected, n, acc + [v.value], s, v.next)
    ensures SingleAt(env, et, expected, s, p).Err? ==>
      ElementsFrom(env, et, expected, n, acc, s, p) == Err(SingleAt(env, et, expected, s, p).error)
  {
  }

  /** Lines 129-143: an array-typed field is a count and that many
      elements; any other field is one single value. */
  function FieldValueAt(env: Env, ft: Type, expected: Option<Type>, s: seq<Token>, p: nat): (r: Result<Step<Value>>)
    requires p <= |s|
    ensures r.Ok? ==> p <= r.value.next <= |s|
    ensures !ft.ArrayType? ==> r == SingleAt(env, ft, expected, s, p)
    ensures ft.ArrayType? && r.Ok? ==>
      p < |s| && s[p].TInt? && s[p].number >= 0 &&
      r.value.value.ArrayValue? && r.value.value.elementType == ft.element &&
      |r.value.value.elements| == s[p].number
    ensures ft.ArrayType? && p < |s| && s[p].TInt? && s[p].number < 0 ==>
      r == Err(NegativeCount(s[p].number))
  {
    if ft.ArrayType? then
      var n :- ReadIntAt(s, p);
      if n.value < 0 then Err(NegativeCount(n.value))
      else
        var elems :- ElementsFrom(env, ft.element, expected, n.value, [], s, n.next);
        Ok(Step(ArrayValue(ft.element, elems.value), elems.next))
    else
      SingleAt(env, ft, expected, s, p)
  }

  /** Lines 122-125: the field named in the stream, and when the caller asks
      for it and that fails, the field named by one legacy member remap. */
  function ResolveField(env: Env, t: Type, name: string, resolveMember: bool): (f: Option<Field>)
    ensures env.getField(t, name).Some? ==> f == env.getField(t, name)
    ensures f.Some? ==>
      f == env.getField(t, name) ||
      (resolveMember && f == env.getField(t, env.resolveLegacyMember(t, name)))
    ensures f.None? <==>
      env.getField(t, name).None? &&
      (!resolveMember || env.getField(t, env.resolveLegacyMember(t, name)).None?)
  {
    var f := env.getField(t, name);
    if f.None? && resolveMember then env.getField(t, env.resolveLegacyMember(t, name)) else f
  }

  /** Some field of t, under some name, stores into the slot k. */
  ghost predicate IsFieldName(env: Env, t: Type, k: string) {
    exists n :: env.getField(t, n).Some? && env.getField(t, n).value.name == k
  }

  /** after keeps every slot of before, and every slot it added or
      changed belongs to a field of t. */
  ghost predicate WritesOnlyFields(env: Env, t: Type, before: map<string, Value>, after: map<string, Value>) {
    before.Keys <= after.Keys &&
    forall k :: k in after && (k !in before || after[k] != before[k]) ==> IsFieldName(env, t, k)
  }

  lemma ResolvedIsFieldName(env: Env, t: Type, name: string, resolveMember: bool)
    ensures ResolveField(env, t, name, resolveMember).Some? ==>
      IsFieldName(env, t, ResolveField(env, t, name, resolveMember).value.name)
  {
    if env.getField(t, name).None? && resolveMember {
      var legacy := env.resolveLegacyMember(t, name);
      assert env.getField(t, legacy) == ResolveField(env, t, name, resolveMember);
    }
  }

  /** field?.SetValue(obj, value) */
  function Stored(slots: map<string, Value>, field: Option<Field>, v: Value): map<string, Value> {
    if field.Some? then slots[field.value.name := v] else slots
  }

  /** The value of a present field entry, decoded with the resolved
      field's type as the expected type, and stored in that field's slot
      if the name resolved. */
  function FieldEntryAt(env: Env, t: Type, resolveMember: bool, slots: map<string, Value>,
                        header: FieldHeader, s: seq<Token>, p: nat): (r: Result<Step<map<string, Value>>>)
    requires p <= |s|
    ensures r.Ok? ==> p <= r.value.next <= |s|
  {
    var field := ResolveField(env, t, header.name, resolveMember);
    var expected := if field.Some? then Some(field.value.fieldType) else None;
    var v :- FieldValueAt(env, header.t, expected, s, p);
    Ok(Step(Stored(slots, field, v.value), v.next))
  }

  /** One iteration of the loop of DeserializeFields (lines 117-144). */
  function FieldAt(env: Env, t: Type, resolveMember: bool, slots: map<string, Value>,
                   s: seq<Token>, p: nat): (r: Result<Step<map<string, Value>>>)
    requires p <= |s|
    ensures r.Ok? ==> p < r.value.next <= |s|
  {
    var h :- NamedHeaderAt(env, s, p);
    match h.value
    case None => Ok(Step(slots, h.next))
    case Some(header) => FieldEntryAt(env, t, resolveMember, slots, header, s, h.next)
  }

  /** The loop of DeserializeFields from iteration i: count iterations in
      all, each one entry, whatever the entry holds. */
  function FieldsFrom(env: Env, t: Type, resolveMember: bool, count: int32, i: nat,
                      slots: map<string, Value>, s: seq<Token>, p: nat): (r: Result<Step<map<string, Value>>>)
    requires p <= |s|
    ensures r.Ok? ==> p <= r.value.next <= |s|
    decreases count - i
  {
    if i >= count then Ok(Step(slots, p))
    else
      var f :- FieldAt(env, t, resolveMember, slots, s, p);
      FieldsFrom(env, t, resolveMember, count, i + 1, f.value, s, f.next)
  }

  /** DeserializeFields: a count, then that many field entries. */
  function FieldsAt(env: Env, t: Type, slots: map<string, Value>, resolveMember: bool,
                    s: seq<Token>, p: nat): (r: Result<Step<map<string, Value>>>)
    requires p <= |s|
    ensures r.Ok? ==> p < r.value.next <= |s|
    // an empty (or negative) count leaves the instance untouched
    ensures p < |s| && s[p].TInt? && s[p].number <= 0 ==> r == Ok(Step(slots, p + 1))
  {
    var count :- ReadIntAt(s, p);
    FieldsFrom(env, t, resolveMember, count.value, 0, slots, s, count.next)
  }

  /** One iteration of the field loop, unfolded. */
  lemma FieldsFromStep(env: Env, t: Type, r: bool, count: int32, i: nat,
                       slots: map<string, Value>, s: seq<Token>, p: nat)
    requires i < count && p <= |s|
    ensures var f := FieldAt(env, t, r, slots, s, p);
      FieldsFrom(env, t, r, count, i, slots, s, p) ==
      if f.Err? then Err(f.error) else FieldsFrom(env, t, r, count, i + 1, f.value.value, s, f.value.next)
  {
  }

  /** The slot k after a step, compared with before: kept if it was
      there, and added or changed only if it belongs to a field of t. */
  ghost predicate SlotWritten(env: Env, t: Type, k: string, before: map<string, Value>,
                              after: map<string, Value>) {
    (k in before ==> k in after) &&
    (k in after && (k !in before || after[k] != before[k]) ==> IsFieldName(env, t, k))
  }

  /** One field entry adds or changes only the slot of a field of t. */
  lemma FieldWritesSlot(env: Env, t: Type, resolveMember: bool, slots: map<string, Value>,
                        s: seq<Token>, p: nat, k: string)
    requires p <= |s|
    ensures FieldAt(env, t, resolveMember, slots, s, p).Ok? ==>
      SlotWritten(env, t, k, slots, FieldAt(env, t, resolveMember, slots, s, p).value.value)
  {
    var h := NamedHeaderAt(env, s, p);
    if h.Ok? && h.value.value.Some? {
      FieldEntryWritesSlot(env, t, resolveMember, slots, h.value.value.value, s, h.value.next, k);
    }
  }

  lemma FieldEntryWritesSlot(env: Env, t: Type, resolveMember: bool, slots: map<string, Value>,
                             header: FieldHeader, s: seq<Token>, p: nat, k: string)
    requires p <= |s|
    ensures FieldEntryAt(env, t, resolveMember, slots, header, s, p).Ok? ==>
      SlotWritten(env, t, k, slots, FieldEntryAt(env, t, resolveMember, slots, header, s, p).value.value)
  {
    var field := ResolveField(env, t, header.name, resolveMember);
    ResolvedIsFieldName(env, t, header.name, resolveMember);
    var r := FieldEntryAt(env, t, resolveMember, slots, header, s, p);
    if r.Ok? {
      var expected := if field.Some? then Some(field.value.fieldType) else None;
      assert r.value.value == Stored(slots, field, FieldValueAt(env, header.t, expected, s, p).value.value);
    }
  }

  /** However many entries the loop of DeserializeFields reads, only
      slots of fields of t are added or changed. */
  lemma {:induction false} FieldsWriteSlot(env: Env, t: Type, resolveMember: bool, count: int32, i: nat,
                                           slots: map<string, Value>, s: seq<Token>, p: nat, k: string)
    requires p <= |s|
    ensures FieldsFrom(env, t, resolveMember, count, i, slots, s, p).Ok? ==>
      SlotWritten(env, t, k, slots, FieldsFrom(env, t, resolveMember, count, i, slots, s, p).value.value)
    decreases count - i
  {
    if i < count {
      FieldsFromStep(env, t, resolveMember, count, i, slots, s, p);
      var f := FieldAt(env, t, resolveMember, slots, s, p);
      if f.Ok? {
        FieldWritesSlot(env, t, resolveMember, slots, s, p, k);
        FieldsWriteSlot(env, t, resolveMember, count, i + 1, f.value.value, s, f.value.next, k);
      }
    }
  }

  /** DeserializeFields adds or changes only slots of fields of t. */
  lemma FieldListWritesOnlyFields(env: Env, t: Type, slots: map<string, Value>, resolveMember: bool,
                                  s: seq<Token>, p: nat)
    requires p <= |s|
    ensures FieldsAt(env, t, slots, resolveMember, s, p).Ok? ==>
      WritesOnlyFields(env, t, slots, FieldsAt(env, t, slots, resolveMember, s, p).value.value)
  {
    var r := FieldsAt(env, t, slots, resolveMember, s, p);
    if r.Ok? {
      assert r == FieldsFrom(env, t, resolveMember, s[p].number, 0, slots, s, p + 1);
      var after := r.value.value;
      forall k | k in slots ensures k in after {
        FieldsWriteSlot(env, t, resolveMember, s[p].number, 0, slots, s, p + 1, k);
      }
      forall k | k in after && (k !in slots || after[k] != slots[k]) ensures IsFieldName(env, t, k) {
        FieldsWriteSlot(env, t, resolveMember, s[p].number, 0, slots, s, p + 1, k);
      }
    }
  }

  // ---------------------------------------------------------------------
  // Generic objects and ScriptableObjects
  // ---------------------------------------------------------------------

  /** DeserializeObject: a custom result, or a new instance whose legacy
      string is skipped and whose fields follow, with legacy member remap. */
  function ObjectAt(env: Env, t: Type, s: seq<Token>, p: nat): (r: Result<Step<Value>>)
    requires p <= |s|
    ensures r.Ok? ==> p <= r.value.next <= |s|
    ensures CustomAt(env, t, s, p).Ok? && CustomAt(env, t, s, p).value.value.Some? ==>
      r == Ok(Step(CustomAt(env, t, s, p).value.value.value, CustomAt(env, t, s, p).value.next))
    ensures CustomAt(env, t, s, p).Ok? && CustomAt(env, t, s, p).value.value.None? && r.Ok? ==>
      var q := CustomAt(env, t, s, p).value.next;
      q < |s| && s[q].TStr? &&
      r.value.value.Record? && r.value.value.t == t && r.value.value.objectName.None? &&
      WritesOnlyFields(env, t, map[], r.value.value.slots)
    // otherwise the legacy string is skipped and the fields are read with
    // the legacy member remap on (line 292)
    ensures CustomAt(env, t, s, p).Ok? && CustomAt(env, t, s, p).value.value.None? ==>
      var q := CustomAt(env, t, s, p).value.next;
      (r.Ok? <==> q < |s| && s[q].TStr? && FieldsAt(env, t, map[], true, s, q + 1).Ok?) &&
      (r.Ok? ==> r.value == Step(Record(t, None, FieldsAt(env, t, map[], true, s, q + 1).value.value),
                                 FieldsAt(env, t, map[], true, s, q + 1).value.next))
    ensures CustomAt(env, t, s, p).Err? ==> r == Err(CustomAt(env, t, s, p).error)
  {
    var c :- CustomAt(env, t, s, p);
    if c.value.Some? then Ok(Step(c.value.value, c.next))
    else
      var legacy :- ReadStringAt(s, c.next);
      FieldListWritesOnlyFields(env, t, map[], true, s, legacy.next);
      var f :- FieldsAt(env, t, map[], true, s, legacy.next);
      Ok(Step(Record(t, None, f.value), f.next))
  }

  /** DeserializeScriptableObject: a custom result, or a new instance named
      by the next string, whose fields follow without legacy member remap. */
  function ScriptableAt(env: Env, t: Type, s: seq<Token>, p: nat): (r: Result<Step<Value>>)
    requires p <= |s|
    ensures r.Ok? ==> p <= r.value.next <= |s|
    ensures CustomAt(env, t, s, p).Ok? && CustomAt(env, t, s, p).value.value.Some? ==>
      r == Ok(Step(CustomAt(env, t, s, p).value.value.value, CustomAt(env, t, s, p).value.next))
    ensures CustomAt(env, t, s, p).Ok? && CustomAt(env, t, s, p).value.value.None? && r.Ok? ==>
      var q := CustomAt(env, t, s, p).value.next;
      q < |s| && s[q].TStr? &&
      r.value.value.Record? && r.value.value.t == t && r.value.value.objectName == Some(s[q].text) &&
      WritesOnlyFields(env, t, map[], r.value.value.slots)
    // otherwise the name is read and the fields follow with the legacy
    // member remap off (line 105)
    ensures CustomAt(env, t, s, p).Ok? && CustomAt(env, t, s, p).value.value.None? ==>
      var q := CustomAt(env, t, s, p).value.next;
      (r.Ok? <==> q < |s| && s[q].TStr? && FieldsAt(env, t, map[], false, s, q + 1).Ok?) &&
      (r.Ok? ==> r.value == Step(Record(t, Some(s[q].text), FieldsAt(env, t, map[], false, s, q + 1).value.value),
                                 FieldsAt(env, t, map[], false, s, q + 1).value.next))
    ensures CustomAt(env, t, s, p).Err? ==> r == Err(CustomAt(env, t, s, p).error)
  {
    var c :- CustomAt(env, t, s, p);
    if c.value.Some? then Ok(Step(c.value.value, c.next))
    else
      var name :- ReadStringAt(s, c.next);
      FieldListWritesOnlyFields(env, t, map[], false, s, name.next);
      var f :- FieldsAt(env, t, map[], false, s, name.next);
      Ok(Step(Record(t, Some(name.value), f.value), f.next))
  }

  // ---------------------------------------------------------------------
  // GameObjects and their components
  // ---------------------------------------------------------------------

  /** The component types a GameObject accepts (lines 171-178). */
  predicate IsComponentType(t: Type) {
    t == TransformType || t == MeshFilterType || t == MeshRendererType || t.IsMonoBehaviour()
  }

  /** DeserializeMeshRenderer's loop: one checksum per material, from
      material |acc| on. */
  function MaterialsFrom(env: Env, n: nat, acc: seq<Value>, s: seq<Token>, p: nat): (r: Result<Step<seq<Value>>>)
    requires |acc| <= n && p <= |s|
    ensures r.Ok? ==> r.value.next == p + (n - |acc|) <= |s|
    ensures r.Ok? ==> |r.value.value| == n && r.value.value[..|acc|] == acc
    // every checksum names an asset that can be instantiated, and
    // material k is the k-th of those (MaterialsSucceed is the converse)
    ensures r.Ok? ==> forall q :: p <= q < p + (n - |acc|) ==> q < |s| && InstantiatedAt(env, s, q).Ok?
    ensures r.Ok? ==> forall k :: |acc| <= k < n ==>
      InstantiatedAt(env, s, p + k - |acc|) == Ok(Step(r.value.value[k], p + k - |acc| + 1))
    decreases n - |acc|
  {
    if |acc| == n then Ok(Step(acc, p))
    else
      var m :- InstantiatedAt(env, s, p);
      MaterialsFrom(env, n, acc + [m.value], s, m.next)
  }

  /** The material loop succeeds when every checksum it reads names an
      asset that can be instantiated. */
  lemma {:induction false} MaterialsSucceed(env: Env, n: nat, acc: seq<Value>, s: seq<Token>, p: nat)
    requires |acc| <= n && p <= |s|
    requires forall q :: p <= q < p + (n - |acc|) ==> q < |s| && InstantiatedAt(env, s, q).Ok?
    ensures MaterialsFrom(env, n, acc, s, p).Ok?
    decreases n - |acc|
  {
    if |acc| < n {
      var m := InstantiatedAt(env, s, p).value;
      MaterialsSucceed(env, n, acc + [m.value], s, m.next);
    }
  }

  /** One component of a GameObject: DeserializeTransform,
      DeserializeMeshFilter, DeserializeMeshRenderer or
      DeserializeMonoBehaviour; any other type is invalid data. */
  function ComponentAt(env: Env, t: Type, s: seq<Token>, p: nat): (r: Result<Step<Component>>)
    requires p <= |s|
    ensures r.Ok? ==> p < r.value.next <= |s|
    ensures !IsComponentType(t) ==> r == Err(UnknownComponent(t))
    ensures t == TransformType ==>
      (r.Ok? <==> p + 3 <= |s| && s[p].TValue? && s[p].kind == Vector3 &&
                  s[p + 1].TValue? && s[p + 1].kind == Quaternion &&
                  s[p + 2].TValue? && s[p + 2].kind == Vector3)
    ensures t == TransformType && r.Ok? ==> r.value == Step(TransformData(s[p], s[p + 1], s[p + 2]), p + 3)
    ensures t == MeshRendererType && r.Ok? ==>
      s[p].TInt? && s[p].number >= 0 && r.value.next == p + 1 + s[p].number &&
      r.value.value.MeshRendererData? && |r.value.value.sharedMaterials| == s[p].number
    ensures t.IsMonoBehaviour() && r.Ok? ==>
      r.value.value.BehaviourData? && r.value.value.t == t &&
      WritesOnlyFields(env, t, map[], r.value.value.slots)
    ensures t == MeshFilterType ==>
      (r.Ok? <==> InstantiatedAt(env, s, p).Ok?) &&
      (r.Ok? ==> r.value == Step(MeshFilterData(InstantiatedAt(env, s, p).value.value), p + 1))
    ensures t == MeshRendererType ==>
      (r.Ok? <==> p < |s| && s[p].TInt? && s[p].number >= 0 && MaterialsFrom(env, s[p].number, [], s, p + 1).Ok?) &&
      (r.Ok? ==> r.value == Step(MeshRendererData(MaterialsFrom(env, s[p].number, [], s, p + 1).value.value),
                                 MaterialsFrom(env, s[p].number, [], s, p + 1).value.next))
    ensures t.IsMonoBehaviour() ==>
      (r.Ok? <==> FieldsAt(env, t, map[], false, s, p).Ok?) &&
      (r.Ok? ==> r.value == Step(BehaviourData(t, FieldsAt(env, t, map[], false, s, p).value.value),
                                 FieldsAt(env, t, map[], false, s, p).value.next))
  {
    if t == TransformType then
      var position :- ReadValueAt(s, p, Vector3);
      var rotation :- ReadValueAt(s, position.next, Quaternion);
      var scale :- ReadValueAt(s, rotation.next, Vector3);
      Ok(Step(TransformData(position.value, rotation.value, scale.value), scale.next))
    else if t == MeshFilterType then
      var mesh :- InstantiatedAt(env, s, p);
      Ok(Step(MeshFilterData(mesh.value), mesh.next))
    else if t == MeshRendererType then
      var n :- ReadIntAt(s, p);
      if n.value < 0 then Err(NegativeCount(n.value))
      else
        var materials :- MaterialsFrom(env, n.value, [], s, n.next);
        Ok(Step(MeshRendererData(materials.value), materials.next))
    else if t.IsMonoBehaviour() then
      FieldListWritesOnlyFields(env, t, map[], false, s, p);
      var f :- FieldsAt(env, t, map[], false, s, p);
      Ok(Step(BehaviourData(t, f.value), f.next))
    else
      Err(UnknownComponent(t))
  }

  /** The component loop of DeserializeGameObject from iteration i: an
      absent or skipped entry adds nothing. */
  function ComponentsFrom(env: Env, count: int32, i: nat, acc: seq<Component>,
                          s: seq<Token>, p: nat): (r: Result<Step<seq<Component>>>)
    requires p <= |s|
    ensures r.Ok? ==> p <= r.value.next <= |s|
    ensures r.Ok? ==> |acc| <= |r.value.value| && r.value.value[..|acc|] == acc
    ensures r.Ok? ==> |r.value.value| - |acc| <= r.value.next - p
    // the loop ends after count entries
    ensures i >= count ==> r == Ok(Step(acc, p))
    decreases count - i
  {
    if i >= count then Ok(Step(acc, p))
    else
      var h :- HeaderAt(env, s, p);
      match h.value
      case None => ComponentsFrom(env, count, i + 1, acc, s, h.next)
      case Some(t) =>
        var c :- ComponentAt(env, t, s, h.next);
        ComponentsFrom(env, count, i + 1, acc + [c.value], s, c.next)
  }

  /** The first iteration of the component loop: an absent or skipped
      entry adds nothing, a type a GameObject does not accept fails the
      loop (lines 179-180), and an accepted one is the next component. */
  lemma ComponentsFromFirst(env: Env, count: int32, i: nat, acc: seq<Component>, s: seq<Token>, p: nat)
    requires i < count && p <= |s|
    ensures var h := HeaderAt(env, s, p);
      h.Ok? && h.value.value.None? ==>
        ComponentsFrom(env, count, i, acc, s, p) == ComponentsFrom(env, count, i + 1, acc, s, h.value.next)
    ensures var h := HeaderAt(env, s, p);
      h.Ok? && h.value.value.Some? && !IsComponentType(h.value.value.value) ==>
        ComponentsFrom(env, count, i, acc, s, p) == Err(UnknownComponent(h.value.value.value))
    ensures var h := HeaderAt(env, s, p); var r := ComponentsFrom(env, count, i, acc, s, p);
      h.Ok? && h.value.value.Some? && r.Ok? ==>
        var c := ComponentAt(env, h.value.value.value, s, h.value.next);
        c.Ok? && |acc| < |r.value.value| && r.value.value[|acc|] == c.value.value
    ensures var h := HeaderAt(env, s, p);
      h.Ok? && h.value.value.Some? && ComponentAt(env, h.value.value.value, s, h.value.next).Ok? ==>
        var c := ComponentAt(env, h.value.value.value, s, h.value.next).value;
        ComponentsFrom(env, count, i, acc, s, p) == ComponentsFrom(env, count, i + 1, acc + [c.value], s, c.next)
    ensures HeaderAt(env, s, p).Err? ==> ComponentsFrom(env, count, i, acc, s, p) == Err(HeaderAt(env, s, p).error)
  {
  }

  /** The fixed part of a GameObject: name, tag, layer, active flag and
      the component count. */
  predicate GameObjectLayoutAt(s: seq<Token>, p: nat) {
    p + 5 <= |s| && s[p].TStr? && s[p + 1].TStr? && s[p + 2].TInt? && s[p + 3].TBool? && s[p + 4].TInt?
  }

  /** DeserializeGameObject: name, tag, layer, active flag, then a count of
      header-introduced components. */
  function GameObjectAt(env: Env, s: seq<Token>, p: nat): (r: Result<Step<Value>>)
    requires p <= |s|
    ensures r.Ok? ==> p + 5 <= r.value.next <= |s|
    ensures r.Ok? ==>
      s[p].TStr? && s[p + 1].TStr? && s[p + 2].TInt? && s[p + 3].TBool? && s[p + 4].TInt? &&
      r.value.value.GameObjectValue? &&
      r.value.value.name == s[p].text && r.value.value.tag == s[p + 1].text &&
      r.value.value.layer == s[p + 2].number && r.value.value.active == s[p + 3].flag
    ensures r.Ok? <==> GameObjectLayoutAt(s, p) && ComponentsFrom(env, s[p + 4].number, 0, [], s, p + 5).Ok?
    ensures r.Ok? ==>
      var c := ComponentsFrom(env, s[p + 4].number, 0, [], s, p + 5).value;
      r.value == Step(GameObjectValue(s[p].text, s[p + 1].text, s[p + 2].number, s[p + 3].flag, c.value), c.next)
  {
    var name :- ReadStringAt(s, p);
    var tag :- ReadStringAt(s, name.next);
    var layer :- ReadIntAt(s, tag.next);
    var active :- ReadBoolAt(s, layer.next);
    var count :- ReadIntAt(s, active.next);
    var components :- ComponentsFrom(env, count.value, 0, [], s, count.next);
    Ok(Step(GameObjectValue(name.value, tag.value, layer.value, active.value, components.value),
            components.next))
  }

  // ---------------------------------------------------------------------
  // Materials, meshes and textures
  // ---------------------------------------------------------------------

  /** One material property (lines 228-252): kinds 0, 1 and 2 are a name
      and a colour, vector or float; kind 3 is a name, an is-null flag and,
      when the flag is false, a texture checksum; any other kind is only its
      number. */
  function PropertyAt(env: Env, s: seq<Token>, p: nat): (r: Result<Step<Option<MaterialProperty>>>)
    requires p <= |s|
    ensures r.Ok? ==> p < r.value.next <= |s| && s[p].TInt?
    ensures r.Ok? && 0 <= s[p].number <= 2 ==>
      r.value.next == p + 3 && s[p + 1].TStr? && r.value.value.Some? &&
      r.value.value.value.name == s[p + 1].text
    ensures r.Ok? && s[p].number == 0 ==> s[p + 2].TValue? && s[p + 2].kind == Color
    ensures r.Ok? && s[p].number == 1 ==> s[p + 2].TValue? && s[p + 2].kind == Vector4
    ensures r.Ok? && s[p].number == 2 ==> s[p + 2].TValue? && s[p + 2].kind == Single
    ensures r.Ok? && s[p].number == 3 ==>
      p + 2 < |s| && s[p + 1].TStr? && s[p + 2].TBool? &&
      r.value.next == (if s[p + 2].flag then p + 3 else p + 4) &&
      r.value.value.Some? && r.value.value.value.TextureProperty? &&
      r.value.value.value.name == s[p + 1].text &&
      (s[p + 2].flag ==> r.value.value.value.texture == Null)
    ensures p < |s| && s[p].TInt? && (s[p].number < 0 || s[p].number > 3) ==> r == Ok(Step(None, p + 1))
    // kinds 0-2: SetColor, SetVector or SetFloat with the value read
    ensures p < |s| && s[p].TInt? && 0 <= s[p].number <= 2 ==>
      (r.Ok? <==> p + 2 < |s| && s[p + 1].TStr? && s[p + 2].TValue? &&
                  s[p + 2].kind == (if s[p].number == 0 then Color else if s[p].number == 1 then Vector4 else Single))
    ensures r.Ok? && s[p].number == 0 ==> r.value.value == Some(ColorProperty(s[p + 1].text, s[p + 2]))
    ensures r.Ok? && s[p].number == 1 ==> r.value.value == Some(VectorProperty(s[p + 1].text, s[p + 2]))
    ensures r.Ok? && s[p].number == 2 ==> r.value.value == Some(FloatProperty(s[p + 1].text, s[p + 2]))
    // kind 3 with a false flag: SetTexture with the referenced texture
    ensures p + 2 < |s| && s[p] == TInt(3) && s[p + 1].TStr? && s[p + 2] == TBool(false) ==>
      (r.Ok? <==> InstantiatedAt(env, s, p + 3).Ok?) &&
      (r.Ok? ==> r.value.value == Some(TextureProperty(s[p + 1].text, InstantiatedAt(env, s, p + 3).value.value)))
    // kind 3 with a true flag clears the texture
    ensures p + 2 < |s| && s[p] == TInt(3) && s[p + 1].TStr? && s[p + 2] == TBool(true) ==>
      r == Ok(Step(Some(TextureProperty(s[p + 1].text, Null)), p + 3))
  {
    var kind :- ReadIntAt(s, p);
    if kind.value == 0 then
      var name :- ReadStringAt(s, kind.next);
      var color :- ReadValueAt(s, name.next, Color);
      Ok(Step(Some(ColorProperty(name.value, color.value)), color.next))
    else if kind.value == 1 then
      var name :- ReadStringAt(s, kind.next);
      var vector :- ReadValueAt(s, name.next, Vector4);
      Ok(Step(Some(VectorProperty(name.value, vector.value)), vector.next))
    else if kind.value == 2 then
      var name :- ReadStringAt(s, kind.next);
      var number :- ReadValueAt(s, name.next, Single);
      Ok(Step(Some(FloatProperty(name.value, number.value)), number.next))
    else if kind.value == 3 then
      var name :- ReadStringAt(s, kind.next);
      var isNull :- ReadBoolAt(s, name.next);
      if !isNull.value then
        var texture :- InstantiatedAt(env, s, isNull.next);
        Ok(Step(Some(TextureProperty(name.value, texture.value)), texture.next))
      else
        Ok(Step(Some(TextureProperty(name.value, Null)), isNull.next))
    else
      Ok(Step(None, kind.next))
  }

  /** The property loop of DeserializeMaterial from iteration i. */
  function PropertiesFrom(env: Env, count: int32, i: nat, acc: seq<MaterialProperty>,
                          s: seq<Token>, p: nat): (r: Result<Step<seq<MaterialProperty>>>)
    requires p <= |s|
    ensures r.Ok? ==> p <= r.value.next <= |s|
    ensures r.Ok? ==> |acc| <= |r.value.value| && r.value.value[..|acc|] == acc
    ensures r.Ok? && i < count ==> |r.value.value| - |acc| <= count - i <= r.value.next - p
    // the first property read is the next one of the list, unless its
    // kind is unknown; a property that fails ends the loop
    ensures i < count && PropertyAt(env, s, p).Err? ==> r == Err(PropertyAt(env, s, p).error)
    ensures i >= count ==> r == Ok(Step(acc, p))
    ensures i < count && PropertyAt(env, s, p).Ok? && PropertyAt(env, s, p).value.value.Some? && r.Ok? ==>
      |acc| < |r.value.value| && r.value.value[|acc|] == PropertyAt(env, s, p).value.value.value
    decreases count - i
  {
    if i >= count then Ok(Step(acc, p))
    else
      var prop :- PropertyAt(env, s, p);
      PropertiesFrom(env, count, i + 1, if prop.value.Some? then acc + [prop.value.value] else acc,
                     s, prop.next)
  }

  /** One iteration of the property loop: a property that decodes is
      appended, unless its kind is unknown, and the loop goes on after it. */
  lemma PropertiesFromStep(env: Env, count: int32, i: nat, acc: seq<MaterialProperty>, s: seq<Token>, p: nat)
    requires i < count && p <= |s|
    ensures PropertyAt(env, s, p).Ok? ==>
      var prop := PropertyAt(env, s, p).value;
      PropertiesFrom(env, count, i, acc, s, p) ==
        PropertiesFrom(env, count, i + 1, if prop.value.Some? then acc + [prop.value.value] else acc, s, prop.next)
  {
  }

  /** DeserializeMaterial: name, shader name, then a count of properties. */
  function MaterialAt(env: Env, s: seq<Token>, p: nat): (r: Result<Step<Value>>)
    requires p <= |s|
    ensures r.Ok? ==> p + 3 <= r.value.next <= |s|
    ensures r.Ok? ==>
      s[p].TStr? && s[p + 1].TStr? && s[p + 2].TInt? &&
      r.value.value.MaterialValue? && r.value.value.name == s[p].text &&
      r.value.value.shader == s[p + 1].text &&
      |r.value.value.properties| <= (if s[p + 2].number < 0 then 0 else s[p + 2].number)
    ensures r.Ok? <==>
      p + 3 <= |s| && s[p].TStr? && s[p + 1].TStr? && s[p + 2].TInt? &&
      PropertiesFrom(env, s[p + 2].number, 0, [], s, p + 3).Ok?
    ensures r.Ok? ==>
      var props := PropertiesFrom(env, s[p + 2].number, 0, [], s, p + 3).value;
      r.value == Step(MaterialValue(s[p].text, s[p + 1].text, props.value), props.next)
  {
    var name :- ReadStringAt(s, p);
    var shader :- ReadStringAt(s, name.next);
    var count :- ReadIntAt(s, shader.next);
    var props :- PropertiesFrom(env, count.value, 0, [], s, count.next);
    Ok(Step(MaterialValue(name.value, shader.value, props.value), props.next))
  }

  /** n Int32 arrays from p on. */
  predicate Int32ArraysAt(s: seq<Token>, p: nat, n: nat) {
    p + n <= |s| && forall k :: p <= k < p + n ==> s[k].TValue? && s[k].kind == Int32Array
  }

  /** The triangle loop of DeserializeMesh from submesh i: one Int32 array
      per submesh. */
  function SubmeshesFrom(count: int32, i: nat, acc: seq<Token>, s: seq<Token>, p: nat): (r: Result<Step<seq<Token>>>)
    requires p <= |s|
    ensures r.Ok? ==> r.value.next == p + (if i < count then count - i else 0) <= |s|
    ensures r.Ok? ==> r.value.value == acc + s[p..r.value.next]
    ensures r.Ok? ==> forall k :: p <= k < r.value.next ==> s[k].TValue? && s[k].kind == Int32Array
    ensures r.Ok? <==> Int32ArraysAt(s, p, if i < count then count - i else 0)
    decreases count - i
  {
    if i >= count then Ok(Step(acc, p))
    else
      var triangles :- ReadValueAt(s, p, Int32Array);
      SubmeshesFrom(count, i + 1, acc + [triangles.value], s, triangles.next)
  }

  /** The seven arrays of ReadVertexData, of the kinds it reads. */
  predicate VertexLayoutAt(s: seq<Token>, p: nat) {
    p + 7 <= |s| &&
    s[p].TValue? && s[p].kind == Vector3Array && s[p + 1].TValue? && s[p + 1].kind == ColorArray &&
    s[p + 2].TValue? && s[p + 2].kind == Vector2Array && s[p + 3].TValue? && s[p + 3].kind == Vector3Array &&
    s[p + 4].TValue? && s[p + 4].kind == Vector4Array && s[p + 5].TValue? && s[p + 5].kind == BoneWeightsArray &&
    s[p + 6].TValue? && s[p + 6].kind == Matrix4x4Array
  }

  /** Lines 313-319: vertices, colours, uv, normals, tangents, bone weights
      and bind poses. */
  function VertexDataAt(s: seq<Token>, p: nat): (r: Result<Step<VertexData>>)
    requires p <= |s|
    ensures r.Ok? ==> r.value.next == p + 7 <= |s|
    ensures r.Ok? ==>
      r.value.value == VertexData(s[p], s[p + 1], s[p + 2], s[p + 3], s[p + 4], s[p + 5], s[p + 6])
    ensures r.Ok? ==>
      s[p].TValue? && s[p].kind == Vector3Array && s[p + 1].TValue? && s[p + 1].kind == ColorArray &&
      s[p + 2].TValue? && s[p + 2].kind == Vector2Array && s[p + 3].TValue? && s[p + 3].kind == Vector3Array &&
      s[p + 4].TValue? && s[p + 4].kind == Vector4Array && s[p + 5].TValue? && s[p + 5].kind == BoneWeightsArray &&
      s[p + 6].TValue? && s[p + 6].kind == Matrix4x4Array
    ensures r.Ok? <==> VertexLayoutAt(s, p)
  {
    var vertices :- ReadValueAt(s, p, Vector3Array);
    var colors :- ReadValueAt(s, vertices.next, ColorArray);
    var uv :- ReadValueAt(s, colors.next, Vector2Array);
    var normals :- ReadValueAt(s, uv.next, Vector3Array);
    var tangents :- ReadValueAt(s, normals.next, Vector4Array);
    var boneWeights :- ReadValueAt(s, tangents.next, BoneWeightsArray);
    var bindposes :- ReadValueAt(s, boneWeights.next, Matrix4x4Array);
    Ok(Step(VertexData(vertices.value, colors.value, uv.value, normals.value,
                       tangents.value, boneWeights.value, bindposes.value), bindposes.next))
  }

  /** The number of iterations of a `for (i = 0; i < n; i++)` loop. */
  function Iterations(n: int): nat {
    if n < 0 then 0 else n
  }

  /** DeserializeMesh: a name, the vertex data, a submesh count and one
      triangle array per submesh. */
  function MeshAt(s: seq<Token>, p: nat): (r: Result<Step<Value>>)
    requires p <= |s|
    ensures r.Ok? ==> p + 9 <= |s| && s[p].TStr? && VertexDataAt(s, p + 1).Ok? && s[p + 8].TInt?
    ensures r.Ok? ==> r.value.next == p + 9 + Iterations(s[p + 8].number) <= |s|
    ensures r.Ok? ==>
      r.value.value == MeshValue(s[p].text, VertexDataAt(s, p + 1).value.value, s[p + 9..r.value.next])
    // a well-formed mesh decodes
    ensures r.Ok? <==>
      p + 9 <= |s| && s[p].TStr? && VertexLayoutAt(s, p + 1) && s[p + 8].TInt? &&
      Int32ArraysAt(s, p + 9, Iterations(s[p + 8].number))
  {
    var name :- ReadStringAt(s, p);
    assert name == Step(s[p].text, p + 1);
    var data :- VertexDataAt(s, name.next);
    var count :- ReadIntAt(s, data.next);
    assert count == Step(s[p + 8].number, p + 9);
    var triangles :- SubmeshesFrom(count.value, 0, [], s, count.next);
    assert triangles.value == s[p + 9..triangles.next];
    Ok(Step(MeshValue(name.value, data.value, triangles.value), triangles.next))
  }

  /** DeserializeTexture: name, linear flag, byte count and the bytes. */
  function TextureAt(s: seq<Token>, p: nat): (r: Result<Step<Value>>)
    requires p <= |s|
    ensures r.Ok? ==>
      p + 3 <= |s| && s[p].TStr? && s[p + 1].TBool? && s[p + 2].TInt? && s[p + 2].number >= 0 &&
      r.value.next == Min(p + 3 + s[p + 2].number, |s|) &&
      r.value.value == TextureValue(s[p].text, s[p + 1].flag, s[p + 3..r.value.next])
    ensures r.Ok? <==> p + 3 <= |s| && s[p].TStr? && s[p + 1].TBool? && s[p + 2].TInt? && s[p + 2].number >= 0
  {
    var name :- ReadStringAt(s, p);
    var linear :- ReadBoolAt(s, name.next);
    var count :- ReadIntAt(s, linear.next);
    var bytes :- ReadBytesAt(s, count.next, count.value);
    Ok(Step(TextureValue(name.value, linear.value, bytes.value), bytes.next))
  }

  // ---------------------------------------------------------------------
  // One entry (Deserialize)
  // ---------------------------------------------------------------------

  /** Deserialize: a header, then the body its type calls for. */
  function EntryAt(env: Env, s: seq<Token>, p: nat): (r: Result<Step<Value>>)
    requires p <= |s|
    ensures r.Ok? ==> p < r.value.next <= |s|
    // an absent value is one token and decodes to null
    ensures p < |s| && s[p] == TBool(true) ==> r == Ok(Step(Null, p + 1))
    // so is an entry whose unknown type the handler skipped
    ensures HeaderAt(env, s, p).Ok? && HeaderAt(env, s, p).value.value.None? ==>
      r == Ok(Step(Null, HeaderAt(env, s, p).value.next))
    ensures HeaderAt(env, s, p).Err? ==> r == Err(HeaderAt(env, s, p).error)
    ensures HeaderAt(env, s, p).Ok? && HeaderAt(env, s, p).value.value == Some(GameObjectType) ==>
      r == GameObjectAt(env, s, HeaderAt(env, s, p).value.next)
    ensures var h := HeaderAt(env, s, p);
      h.Ok? && h.value.value == Some(MeshType) ==> r == MeshAt(s, h.value.next)
    ensures var h := HeaderAt(env, s, p);
      h.Ok? && h.value.value == Some(MaterialType) ==> r == MaterialAt(env, s, h.value.next)
    ensures var h := HeaderAt(env, s, p);
      h.Ok? && (h.value.value == Some(Texture2DType) || h.value.value == Some(ImageType)) ==>
        r == TextureAt(s, h.value.next)
    ensures var h := HeaderAt(env, s, p);
      h.Ok? && h.value.value.Some? && h.value.value.value.IsScriptableObject() ==>
        r == ScriptableAt(env, h.value.value.value, s, h.value.next)
    // any other type is a plain object filled field by field
    ensures var h := HeaderAt(env, s, p);
      h.Ok? && h.value.value.Some? && !h.value.value.value.IsScriptableObject() &&
      h.value.value.value !in {GameObjectType, MeshType, MaterialType, Texture2DType, ImageType} ==>
        r == ObjectAt(env, h.value.value.value, s, h.value.next)
  {
    var h :- HeaderAt(env, s, p);
    match h.value
    case None => Ok(Step(Null, h.next))
    case Some(t) =>
      if t == GameObjectType then GameObjectAt(env, s, h.next)
      else if t == MeshType then MeshAt(s, h.next)
      else if t == MaterialType then MaterialAt(env, s, h.next)
      else if t == Texture2DType || t == ImageType then TextureAt(s, h.next)
      else if t.IsScriptableObject() then ScriptableAt(env, t, s, h.next)
      else ObjectAt(env, t, s, h.next)
  }
}
