/*
 * Properties of the decoding that relate several calls: how many tokens a
 * field list occupies, that an unresolvable field does not knock the
 * stream out of step, and which hooks a decode consults.
 */
module DecodingFacts {
  import opened Stream
  import opened Session
  import opened Decoding

  /** Two environments that differ at most in how field names are looked up
      (Type.GetField and the legacy member hook). */
  ghost predicate SameValueHooks(e1: Env, e2: Env) {
    e1.version == e2.version &&
    e1.findByChecksum == e2.findByChecksum &&
    e1.getType == e2.getType &&
    e1.resolveLegacyType == e2.resolveLegacyType &&
    e1.unknownTypeHandler == e2.unknownTypeHandler &&
    e1.customDeserialize == e2.customDeserialize &&
    e1.instantiate == e2.instantiate
  }

  /** The values a run of float tokens decodes to, in stream order. */
  function Scalars(ts: seq<Token>): (vs: seq<Value>)
    ensures |vs| == |ts|
  {
    if |ts| == 0 then [] else [Scalar(ts[0])] + Scalars(ts[1..])
  }

  // ---------------------------------------------------------------------
  // One field entry
  // ---------------------------------------------------------------------

  /** An absent entry, or one whose unknown type the handler skipped,
      assigns nothing. */
  lemma SkippedEntryAssignsNothing(env: Env, t: Type, resolveMember: bool, slots: map<string, Value>,
                                   s: seq<Token>, p: nat)
    requires p <= |s|
    requires NamedHeaderAt(env, s, p).Ok? && NamedHeaderAt(env, s, p).value.value.None?
    ensures FieldAt(env, t, resolveMember, slots, s, p) == Ok(Step(slots, NamedHeaderAt(env, s, p).value.next))
  {
  }

  /** A field that resolves neither directly nor through the remap is still
      decoded, so the stream stays in step, and then dropped. */
  lemma UnresolvedFieldIsDropped(env: Env, t: Type, resolveMember: bool, slots: map<string, Value>,
                                 s: seq<Token>, p: nat)
    requires p <= |s|
    requires NamedHeaderAt(env, s, p).Ok? && NamedHeaderAt(env, s, p).value.value.Some?
    requires ResolveField(env, t, NamedHeaderAt(env, s, p).value.value.value.name, resolveMember).None?
    ensures var h := NamedHeaderAt(env, s, p).value;
      Cursor(FieldAt(env, t, resolveMember, slots, s, p)) == Cursor(FieldValueAt(env, h.value.value.t, None, s, h.next))
    ensures FieldAt(env, t, resolveMember, slots, s, p).Ok? ==>
      FieldAt(env, t, resolveMember, slots, s, p).value.value == slots
  {
  }

  /** A resolved field is decoded with its declared type as the expected
      type and stored in its own slot; no other slot changes. */
  lemma ResolvedFieldIsStored(env: Env, t: Type, resolveMember: bool, slots: map<string, Value>,
                              s: seq<Token>, p: nat)
    requires p <= |s|
    requires NamedHeaderAt(env, s, p).Ok? && NamedHeaderAt(env, s, p).value.value.Some?
    requires ResolveField(env, t, NamedHeaderAt(env, s, p).value.value.value.name, resolveMember).Some?
    ensures var h := NamedHeaderAt(env, s, p).value;
      var f := ResolveField(env, t, h.value.value.name, resolveMember).value;
      var v := FieldValueAt(env, h.value.value.t, Some(f.fieldType), s, h.next);
      Cursor(FieldAt(env, t, resolveMember, slots, s, p)) == Cursor(v) &&
      (v.Ok? ==> FieldAt(env, t, resolveMember, slots, s, p).value.value == slots[f.name := v.value.value])
  {
  }

  // ---------------------------------------------------------------------
  // Field lists of absent entries
  // ---------------------------------------------------------------------

  /** A field list whose entries are all absent (a true is-null flag each)
      is one token per entry and assigns nothing. */
  lemma {:induction false} AbsentFieldsAreSkipped(env: Env, t: Type, resolveMember: bool, count: int32,
                                                  i: nat, slots: map<string, Value>, s: seq<Token>, p: nat)
    requires i <= count && p + (count - i) <= |s|
    requires forall k :: p <= k < p + (count - i) ==> s[k] == TBool(true)
    ensures FieldsFrom(env, t, resolveMember, count, i, slots, s, p) == Ok(Step(slots, p + (count - i)))
    decreases count - i
  {
    if i < count {
      assert FieldAt(env, t, resolveMember, slots, s, p) == Ok(Step(slots, p + 1));
      AbsentFieldsAreSkipped(env, t, resolveMember, count, i + 1, slots, s, p + 1);
    }
  }

  // ---------------------------------------------------------------------
  // Float arrays
  // ---------------------------------------------------------------------

  lemma ScalarsCons(acc: seq<Value>, s: seq<Token>, p: nat, e: nat)
    requires p < e <= |s|
    ensures acc + [Scalar(s[p])] + Scalars(s[p + 1..e]) == acc + Scalars(s[p..e])
  {
    assert s[p..e][1..] == s[p + 1..e];
  }

  lemma {:induction false} FloatElementsInOrder(env: Env, expected: Option<Type>, n: nat, acc: seq<Value>,
                                                s: seq<Token>, p: nat)
    requires |acc| <= n && p + (n - |acc|) <= |s|
    requires forall k :: p <= k < p + (n - |acc|) ==> s[k].TValue? && s[k].kind == Single
    ensures ElementsFrom(env, SingleType, expected, n, acc, s, p) ==
            Ok(Step(acc + Scalars(s[p..p + (n - |acc|)]), p + (n - |acc|)))
    decreases n - |acc|
  {
    if |acc| < n {
      var e := p + (n - |acc|);
      assert ScalarAt(s, p, Single) == Ok(Step(Scalar(s[p]), p + 1));
      assert SingleAt(env, SingleType, expected, s, p) == Ok(Step(Scalar(s[p]), p + 1));
      assert ElementsFrom(env, SingleType, expected, n, acc, s, p) ==
             ElementsFrom(env, SingleType, expected, n, acc + [Scalar(s[p])], s, p + 1);
      var acc' := acc + [Scalar(s[p])];
      FloatElementsInOrder(env, expected, n, acc', s, p + 1);
      assert p + 1 + (n - |acc'|) == e;
      ScalarsCons(acc, s, p, e);
    } else {
      assert acc + Scalars(s[p..p]) == acc;
    }
  }

  /** A float[] field is its length and then that many floats, decoded in
      stream order, and no hook is consulted. */
  lemma FloatArrayField(env: Env, expected: Option<Type>, s: seq<Token>, p: nat)
    requires p < |s| && s[p].TInt? && s[p].number >= 0 && p + 1 + s[p].number <= |s|
    requires forall k :: p + 1 <= k < p + 1 + s[p].number ==> s[k].TValue? && s[k].kind == Single
    ensures FieldValueAt(env, ArrayType(SingleType), expected, s, p) ==
            Ok(Step(ArrayValue(SingleType, Scalars(s[p + 1..p + 1 + s[p].number])), p + 1 + s[p].number))
  {
    FloatElementsInOrder(env, expected, s[p].number, [], s, p + 1);
  }

  // ---------------------------------------------------------------------
  // The stream stays aligned whatever the fields resolve to
  // ---------------------------------------------------------------------

  lemma SingleAligned(e1: Env, e2: Env, t: Type, x1: Option<Type>, x2: Option<Type>, s: seq<Token>, p: nat)
    requires SameValueHooks(e1, e2) && e1.version >= 3 && p <= |s|
    ensures Cursor(SingleAt(e1, t, x1, s, p)) == Cursor(SingleAt(e2, t, x2, s, p))
  {
  }

  lemma {:induction false} ElementsAligned(e1: Env, e2: Env, et: Type, x1: Option<Type>, x2: Option<Type>,
                                           n: nat, acc1: seq<Value>, acc2: seq<Value>, s: seq<Token>, p: nat)
    requires SameValueHooks(e1, e2) && e1.version >= 3
    requires |acc1| == |acc2| <= n && p <= |s|
    ensures Cursor(ElementsFrom(e1, et, x1, n, acc1, s, p)) == Cursor(ElementsFrom(e2, et, x2, n, acc2, s, p))
    decreases n - |acc1|
  {
    if |acc1| < n {
      SingleAligned(e1, e2, et, x1, x2, s, p);
      var v1 := SingleAt(e1, et, x1, s, p);
      var v2 := SingleAt(e2, et, x2, s, p);
      if v1.Ok? {
        ElementsAligned(e1, e2, et, x1, x2, n, acc1 + [v1.value.value], acc2 + [v2.value.value], s, v1.value.next);
      }
    }
  }

  lemma FieldValueAligned(e1: Env, e2: Env, ft: Type, x1: Option<Type>, x2: Option<Type>, s: seq<Token>, p: nat)
    requires SameValueHooks(e1, e2) && e1.version >= 3 && p <= |s|
    ensures Cursor(FieldValueAt(e1, ft, x1, s, p)) == Cursor(FieldValueAt(e2, ft, x2, s, p))
  {
    if ft.ArrayType? {
      if p < |s| && s[p].TInt? && s[p].number >= 0 {
        ElementsAligned(e1, e2, ft.element, x1, x2, s[p].number, [], [], s, p + 1);
      }
    } else {
      SingleAligned(e1, e2, ft, x1, x2, s, p);
    }
  }

  lemma FieldAligned(e1: Env, e2: Env, t: Type, r1: bool, r2: bool,
                     slots1: map<string, Value>, slots2: map<string, Value>, s: seq<Token>, p: nat)
    requires SameValueHooks(e1, e2) && e1.version >= 3 && p <= |s|
    ensures Cursor(FieldAt(e1, t, r1, slots1, s, p)) == Cursor(FieldAt(e2, t, r2, slots2, s, p))
  {
    var h := NamedHeaderAt(e1, s, p);
    assert h == NamedHeaderAt(e2, s, p);
    if h.Ok? && h.value.value.Some? {
      FieldEntryAligned(e1, e2, t, r1, r2, slots1, slots2, h.value.value.value, s, h.value.next);
    }
  }

  lemma FieldEntryAligned(e1: Env, e2: Env, t: Type, r1: bool, r2: bool, slots1: map<string, Value>,
                          slots2: map<string, Value>, header: FieldHeader, s: seq<Token>, p: nat)
    requires SameValueHooks(e1, e2) && e1.version >= 3 && p <= |s|
    ensures Cursor(FieldEntryAt(e1, t, r1, slots1, header, s, p)) ==
            Cursor(FieldEntryAt(e2, t, r2, slots2, header, s, p))
  {
    var f1 := ResolveField(e1, t, header.name, r1);
    var f2 := ResolveField(e2, t, header.name, r2);
    FieldValueAligned(e1, e2, header.t, if f1.Some? then Some(f1.value.fieldType) else None,
                      if f2.Some? then Some(f2.value.fieldType) else None, s, p);
  }

  /** From package version 3 on, where a field list ends does not depend on
      which fields the target type declares, on the legacy member hook, on
      whether that hook is consulted, nor on what was assigned before: a
      field that does not resolve is still decoded in full. */
  lemma {:induction false} FieldsStayAligned(e1: Env, e2: Env, t: Type, r1: bool, r2: bool, count: int32, i: nat,
                                             slots1: map<string, Value>, slots2: map<string, Value>,
                                             s: seq<Token>, p: nat)
    requires SameValueHooks(e1, e2) && e1.version >= 3 && p <= |s|
    ensures Cursor(FieldsFrom(e1, t, r1, count, i, slots1, s, p)) ==
            Cursor(FieldsFrom(e2, t, r2, count, i, slots2, s, p))
    decreases count - i
  {
    if i < count {
      var f1 := FieldAt(e1, t, r1, slots1, s, p);
      var f2 := FieldAt(e2, t, r2, slots2, s, p);
      FieldAligned(e1, e2, t, r1, r2, slots1, slots2, s, p);
      FieldsFromStep(e1, t, r1, count, i, slots1, s, p);
      FieldsFromStep(e2, t, r2, count, i, slots2, s, p);
      match Cursor(f1)
      case Ok(next) =>
        assert f1 == Ok(Step(f1.value.value, next)) && f2 == Ok(Step(f2.value.value, next));
        FieldsStayAligned(e1, e2, t, r1, r2, count, i + 1, f1.value.value, f2.value.value, s, next);
      case Err(e) =>
        assert f1 == Err(e) && f2 == Err(e);
    }
  }

  // ---------------------------------------------------------------------
  // ScriptableObjects and MonoBehaviours never consult the member hook
  // ---------------------------------------------------------------------

  lemma SingleSameHooks(e1: Env, e2: Env, et: Type, x: Option<Type>, s: seq<Token>, p: nat)
    requires SameValueHooks(e1, e2) && p <= |s|
    ensures SingleAt(e1, et, x, s, p) == SingleAt(e2, et, x, s, p)
  {
  }

  lemma {:induction false} ElementsSameHooks(e1: Env, e2: Env, et: Type, x: Option<Type>, n: nat,
                                             acc: seq<Value>, s: seq<Token>, p: nat)
    requires SameValueHooks(e1, e2) && |acc| <= n && p <= |s|
    ensures ElementsFrom(e1, et, x, n, acc, s, p) == ElementsFrom(e2, et, x, n, acc, s, p)
    decreases n - |acc|
  {
    if |acc| < n {
      SingleSameHooks(e1, e2, et, x, s, p);
      var v := SingleAt(e1, et, x, s, p);
      if v.Ok? {
        ElementsSameHooks(e1, e2, et, x, n, acc + [v.value.value], s, v.value.next);
      }
    }
  }

  lemma FieldValueSameHooks(e1: Env, e2: Env, ft: Type, x: Option<Type>, s: seq<Token>, p: nat)
    requires SameValueHooks(e1, e2) && p <= |s|
    ensures FieldValueAt(e1, ft, x, s, p) == FieldValueAt(e2, ft, x, s, p)
  {
    if !ft.ArrayType? {
      SingleSameHooks(e1, e2, ft, x, s, p);
    } else if p < |s| && s[p].TInt? && s[p].number >= 0 {
      ElementsSameHooks(e1, e2, ft.element, x, s[p].number, [], s, p + 1);
    }
  }

  lemma FieldWithoutMemberRemap(e1: Env, e2: Env, t: Type, slots: map<string, Value>, s: seq<Token>, p: nat)
    requires SameValueHooks(e1, e2) && e1.getField == e2.getField && p <= |s|
    ensures FieldAt(e1, t, false, slots, s, p) == FieldAt(e2, t, false, slots, s, p)
  {
    var h := NamedHeaderAt(e1, s, p);
    assert h == NamedHeaderAt(e2, s, p);
    if h.Ok? && h.value.value.Some? {
      FieldEntryWithoutMemberRemap(e1, e2, t, slots, h.value.value.value, s, h.value.next);
    }
  }

  lemma FieldEntryWithoutMemberRemap(e1: Env, e2: Env, t: Type, slots: map<string, Value>,
                                     header: FieldHeader, s: seq<Token>, p: nat)
    requires SameValueHooks(e1, e2) && e1.getField == e2.getField && p <= |s|
    ensures FieldEntryAt(e1, t, false, slots, header, s, p) == FieldEntryAt(e2, t, false, slots, header, s, p)
  {
    var f := ResolveField(e1, t, header.name, false);
    assert f == ResolveField(e2, t, header.name, false);
    FieldValueSameHooks(e1, e2, header.t, if f.Some? then Some(f.value.fieldType) else None, s, p);
  }

  lemma {:induction false} FieldsWithoutMemberRemap(e1: Env, e2: Env, t: Type, count: int32, i: nat,
                                                    slots: map<string, Value>, s: seq<Token>, p: nat)
    requires SameValueHooks(e1, e2) && e1.getField == e2.getField && p <= |s|
    ensures FieldsFrom(e1, t, false, count, i, slots, s, p) == FieldsFrom(e2, t, false, count, i, slots, s, p)
    decreases count - i
  {
    if i < count {
      FieldsFromStep(e1, t, false, count, i, slots, s, p);
      FieldsFromStep(e2, t, false, count, i, slots, s, p);
      FieldWithoutMemberRemap(e1, e2, t, slots, s, p);
      var r := FieldAt(e1, t, false, slots, s, p);
      if r.Ok? {
        FieldsWithoutMemberRemap(e1, e2, t, count, i + 1, r.value.value, s, r.value.next);
      }
    }
  }

  lemma FieldListWithoutMemberRemap(e1: Env, e2: Env, t: Type, s: seq<Token>, p: nat)
    requires SameValueHooks(e1, e2) && e1.getField == e2.getField && p <= |s|
    ensures FieldsAt(e1, t, map[], false, s, p) == FieldsAt(e2, t, map[], false, s, p)
  {
    if p < |s| && s[p].TInt? {
      FieldsWithoutMemberRemap(e1, e2, t, s[p].number, 0, map[], s, p + 1);
    }
  }

  lemma CustomSameHooks(e1: Env, e2: Env, t: Type, s: seq<Token>, p: nat)
    requires SameValueHooks(e1, e2) && p <= |s|
    ensures CustomAt(e1, t, s, p) == CustomAt(e2, t, s, p)
  {
  }

  lemma ScriptableSameHooks(e1: Env, e2: Env, t: Type, s: seq<Token>, p: nat)
    requires SameValueHooks(e1, e2) && e1.getField == e2.getField && p <= |s|
    ensures ScriptableAt(e1, t, s, p) == ScriptableAt(e2, t, s, p)
  {
    CustomSameHooks(e1, e2, t, s, p);
    var c := CustomAt(e1, t, s, p);
    if c.Ok? && c.value.value.None? {
      var q := c.value.next;
      if q < |s| && s[q].TStr? {
        FieldListWithoutMemberRemap(e1, e2, t, s, q + 1);
        var f := FieldsAt(e1, t, map[], false, s, q + 1);
        var named := if f.Err? then Err(f.error) else Ok(Step(Record(t, Some(s[q].text), f.value.value), f.value.next));
        assert ScriptableAt(e1, t, s, p) == named;
        assert ScriptableAt(e2, t, s, p) == named;
      } else {
        assert ScriptableAt(e1, t, s, p) == Err(ReadStringAt(s, q).error);
        assert ScriptableAt(e2, t, s, p) == Err(ReadStringAt(s, q).error);
      }
    }
  }

  /** A ScriptableObject decodes the same whatever the legacy member hook
      answers: DeserializeScriptableObject never asks it. */
  lemma ScriptableIgnoresMemberHook(env: Env, m: (Type, string) -> string, t: Type, s: seq<Token>, p: nat)
    requires p <= |s|
    ensures ScriptableAt(env, t, s, p) == ScriptableAt(env.(resolveLegacyMember := m), t, s, p)
  {
    ScriptableSameHooks(env, env.(resolveLegacyMember := m), t, s, p);
  }

  /** The same for a MonoBehaviour component of a GameObject. */
  lemma BehaviourIgnoresMemberHook(env: Env, m: (Type, string) -> string, t: Type, s: seq<Token>, p: nat)
    requires t.IsMonoBehaviour() && p <= |s|
    ensures ComponentAt(env, t, s, p) == ComponentAt(env.(resolveLegacyMember := m), t, s, p)
  {
    FieldListWithoutMemberRemap(env, env.(resolveLegacyMember := m), t, s, p);
  }
}
