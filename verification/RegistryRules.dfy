/** Which commands can be registered (acbcjson/register.go), kind by kind and rule by rule,
as the documentation of RegisterCmd lists them. */
module RegistryRules {

  import opened Options
  import opened Registry

  /** Kinds a parameter may have: all but channels, functions, complex numbers and
      interfaces. */
  predicate KindAllowed(k: Kind)
  {
    match k
    case Chan => false
    case Func => false
    case Complex64 => false
    case Complex128 => false
    case Interface => false
    case Bool => true
    case Int => true
    case Int8 => true
    case Int16 => true
    case Int32 => true
    case Int64 => true
    case Uint => true
    case Uint8 => true
    case Uint16 => true
    case Uint32 => true
    case Uint64 => true
    case Float32 => true
    case Float64 => true
    case String => true
    case Array => true
    case Slice => true
    case Map => true
    case Struct => true
    case Uintptr => true
    case UnsafePointer => true
    case Invalid => true
  }

  /** A value of an allowed kind, or one pointer to such a value. */
  predicate TypeAllowed(t: GoType)
  {
    match t
    case Plain(k, _, _) => KindAllowed(k)
    case Ptr(Plain(k, _, _)) => KindAllowed(k)
    case Ptr(Ptr(_)) => false
  }

  /** The default of a field is JSON text for null or for a value of the type pointed to. */
  predicate DefaultAllowed<V, J(==)>(c: Codec<V, J>, f: Field)
    requires f.typ.Ptr?
  {
    var j := c.parse(f.defaultTag);
    j.Some? && (j.value == c.nullValue || c.decode(f.typ.elem, j.value).Some?)
  }

  /** Field i by itself and behind the fields in front of it. */
  predicate FieldAllowed<V, J(==)>(c: Codec<V, J>, fs: seq<Field>, i: nat)
    requires i < |fs|
  {
    && !fs[i].anonymous && fs[i].pkgPath == "" && TypeAllowed(fs[i].typ)
    && (fs[i].typ.Plain? ==> fs[i].defaultTag == "" && forall k | 0 <= k < i :: fs[k].typ.Plain?)
    && (fs[i].typ.Ptr? && fs[i].defaultTag != "" ==> DefaultAllowed(c, fs[i]))
  }

  /** The rule that a field breaks first. */
  function BrokenRule<V, J(==)>(c: Codec<V, J>, fs: seq<Field>, i: nat): ErrorCode
    requires i < |fs| && !FieldAllowed(c, fs, i)
  {
    if fs[i].anonymous then ErrEmbeddedType
    else if fs[i].pkgPath != "" then ErrUnexportedField
    else if !TypeAllowed(fs[i].typ) then ErrUnsupportedFieldType
    else if fs[i].typ.Ptr? then ErrMismatchedDefault
    else if exists k :: 0 <= k < i && fs[k].typ.Ptr? then ErrNonOptionalField
    else ErrNonOptionalDefault
  }

  lemma FieldFaultIsRule<V, J>(c: Codec<V, J>, fs: seq<Field>, i: nat)
    requires i < |fs|
    ensures FieldFault(c, fs, i) == if FieldAllowed(c, fs, i) then None else Some(BrokenRule(c, fs, i))
  {
    AcceptableIsAllowed(fs[i].typ);
    hide IsAcceptable, TypeAllowed;
    assert (forall k | 0 <= k < i :: fs[k].typ.Plain?) <==> !exists k :: 0 <= k < i && IsOptional(fs[k]);
  }

  lemma AcceptableIsAllowed(t: GoType)
    ensures TypeAllowed(t) <==> IsAcceptable(if t.Ptr? then t.elem else t)
  {
  }

  /** The fields of a struct pass exactly when each is allowed, and otherwise the first that
      is not says why. */
  lemma FieldsExactly<V, J>(c: Codec<V, J>, fs: seq<Field>)
    ensures FieldsFault(c, fs, |fs|).None? <==> forall i | 0 <= i < |fs| :: FieldAllowed(c, fs, i)
    ensures forall i: nat | i < |fs| && !FieldAllowed(c, fs, i) && (forall k | 0 <= k < i :: FieldAllowed(c, fs, k)) ::
              FieldsFault(c, fs, |fs|) == Some(BrokenRule(c, fs, i))
  {
    forall i | 0 <= i < |fs|
      ensures FieldFault(c, fs, i) == if FieldAllowed(c, fs, i) then None else Some(BrokenRule(c, fs, i))
    {
      FieldFaultIsRule(c, fs, i);
    }
    hide FieldFault, FieldAllowed, BrokenRule;
    FaultlessPrefix(c, fs, |fs|);
    forall i: nat | i < |fs| && !FieldAllowed(c, fs, i) && (forall k | 0 <= k < i :: FieldAllowed(c, fs, k))
      ensures FieldsFault(c, fs, |fs|) == Some(BrokenRule(c, fs, i))
    {
      FaultlessPrefix(c, fs, i);
      FaultIsFirst(c, fs, i);
    }
  }

  /** A registration is accepted exactly when its method is new, its flags are among the
      three that exist, its type is a pointer to a struct and each field is allowed; and it
      is refused for the first of these that fails. */
  lemma AcceptedExactly<V, J>(
    c: Codec<V, J>, r: Registrations<V>, methodName: string, cmd: GoType, flags: UsageFlag)
    ensures var fault := Fault(c, r, methodName, cmd, flags);
      && (fault == Some(ErrDuplicateMethod) <==> methodName in r.types)
      && (fault == Some(ErrInvalidUsageFlags) <==> methodName !in r.types && flags >= 8)
      && (methodName !in r.types && flags < 8 ==>
            match cmd
            case Ptr(Plain(Struct, _, fs)) =>
              && (fault == None <==> forall i | 0 <= i < |fs| :: FieldAllowed(c, fs, i))
              && (forall i: nat | i < |fs| && !FieldAllowed(c, fs, i) && (forall k | 0 <= k < i :: FieldAllowed(c, fs, k)) ::
                    fault == Some(BrokenRule(c, fs, i)))
            case _ => fault == Some(ErrInvalidType))
  {
    if IsStructPointer(cmd) {
      FieldsExactly(c, cmd.elem.fields);
      FaultsOfFields(c, cmd.elem.fields);
    }
    hide FieldsFault, FieldAllowed, BrokenRule;
  }

  lemma FaultsOfFields<V, J>(c: Codec<V, J>, fs: seq<Field>)
    ensures FieldsFault(c, fs, |fs|) != Some(ErrDuplicateMethod) && FieldsFault(c, fs, |fs|) != Some(ErrInvalidUsageFlags)
  {
    FieldsExactly(c, fs);
    if FieldsFault(c, fs, |fs|).Some? {
      var i := FirstFault(c, fs);
    }
  }

  lemma FirstFault<V, J>(c: Codec<V, J>, fs: seq<Field>) returns (i: nat)
    requires FieldsFault(c, fs, |fs|).Some?
    ensures i < |fs| && !FieldAllowed(c, fs, i) && forall k | 0 <= k < i :: FieldAllowed(c, fs, k)
  {
    FieldsExactly(c, fs);
    i := 0;
    while FieldAllowed(c, fs, i)
      invariant i < |fs| && forall k | 0 <= k < i :: FieldAllowed(c, fs, k)
      invariant exists k :: i <= k < |fs| && !FieldAllowed(c, fs, k)
      decreases |fs| - i
    {
      i := i + 1;
    }
  }

  /** A struct with one exported field without a default registers exactly when its kind is
      allowed, by value or behind one pointer. */
  lemma OneFieldExactly<V, J>(c: Codec<V, J>, methodName: string, structName: string, fieldName: string, t: GoType)
    ensures var cmd := Ptr(Plain(Struct, structName, [Field(fieldName, false, "", t, "")]));
            (Fault(c, RegisteredAll(c, []), methodName, cmd, 0)
             == if TypeAllowed(t) then None else Some(ErrUnsupportedFieldType))
  {
    var fs := [Field(fieldName, false, "", t, "")];
    hide TypeAllowed;
    assert FieldAllowed(c, fs, 0) <==> TypeAllowed(t);
    AcceptedExactly(c, RegisteredAll(c, []), methodName, Ptr(Plain(Struct, structName, fs)), 0);
  }

  /** The command the repository registers: one required int64, nothing optional. */
  lemma GetBlockHashRegisters<V, J>(c: Codec<V, J>)
    ensures var cmd := Ptr(Plain(Struct, "GetBlockHashCmd", [Field("Index", false, "", Plain(Int64, "int64", []), "")]));
            && RegisteredAll(c, [Registration("getblockhash", cmd, 0)])
               == Registrations(map["getblockhash" := cmd], map["getblockhash" := MethodInfo(1, 1, 0, map[], 0)],
                                map[cmd := "getblockhash"])
  {
    var f := Field("Index", false, "", Plain(Int64, "int64", []), "");
    var cmd := Ptr(Plain(Struct, "GetBlockHashCmd", [f]));
    var call := Registration("getblockhash", cmd, 0);
    assert [call][..0] == [];
    OneFieldExactly(c, "getblockhash", "GetBlockHashCmd", "Index", f.typ);
    assert [f][..0] == [];
    assert InfoOf(c, [f], 0) == MethodInfo(1, 1, 0, map[], 0);
  }
}
