/** The registry of JSON-RPC commands (acbcjson/register.go): which Go types may stand for
a command, and the three maps that RegisterCmd keeps. Reflection appears as a description
of types, JSON encoding as a codec given from outside. */
module Registry {

  import opened Options

  /** reflect.Kind, except that pointers are a constructor of GoType. */
  datatype Kind =
    | Invalid | Bool | Int | Int8 | Int16 | Int32 | Int64 | Uint | Uint8 | Uint16 | Uint32 | Uint64 | Uintptr
    | Float32 | Float64 | Complex64 | Complex128 | Array | Chan | Func | Interface | Map | Slice | String
    | Struct | UnsafePointer

  /** A Go type as far as it is looked at: pointers are followed, struct fields listed. */
  datatype GoType = Ptr(elem: GoType) | Plain(kind: Kind, name: string, fields: seq<Field>)

  datatype Field = Field(name: string, anonymous: bool, pkgPath: string, typ: GoType, defaultTag: string)

  /** isAcceptableKind, for the kind of a type. */
  predicate IsAcceptable(t: GoType)
  {
    t.Plain? && t.kind !in {Chan, Complex64, Complex128, Func, Interface}
  }

  /** encoding/json for values V of plain types and JSON values J. A value may have no
      encoding; null decodes to the zero value of any type. */
  datatype Codec<!V, !J> = Codec(
    nullValue: J, zero: GoType -> V, encode: V -> Option<J>, decode: (GoType, J) -> Option<V>,
    parse: string -> Option<J>)

  function Decoded<V, J(==)>(c: Codec<V, J>, t: GoType, j: J): Option<V>
  {
    if j == c.nullValue then Some(c.zero(t)) else c.decode(t, j)
  }

  type UsageFlag = bv32

  const HIGHEST_USAGE_FLAG_BIT: UsageFlag := 8

  datatype ErrorCode =
    | ErrDuplicateMethod | ErrInvalidUsageFlags | ErrInvalidType | ErrEmbeddedType | ErrUnexportedField
    | ErrUnsupportedFieldType | ErrNonOptionalField | ErrNonOptionalDefault | ErrMismatchedDefault
    | ErrUnregisteredMethod | ErrNumParams | ErrJson

  datatype MethodInfo<V> = MethodInfo(
    maxParams: nat, numReqParams: nat, numOptParams: nat, defaults: map<nat, V>, flags: UsageFlag)

  // ---------- Which types are accepted ----------

  predicate IsOptional(f: Field) { f.typ.Ptr? }

  /** The type of a parameter, without the pointer that makes it optional. */
  function ParamType(f: Field): GoType
  {
    if f.typ.Ptr? then f.typ.elem else f.typ
  }

  function DefaultOf<V, J(==)>(c: Codec<V, J>, f: Field): Option<V>
  {
    match c.parse(f.defaultTag)
    case None => None
    case Some(j) => Decoded(c, ParamType(f), j)
  }

  function OptionalCount(fs: seq<Field>): (n: nat)
    ensures n <= |fs|
  {
    if fs == [] then 0 else OptionalCount(fs[..|fs| - 1]) + if IsOptional(fs[|fs| - 1]) then 1 else 0
  }

  /** What is wrong with field i, the first of several faults; the fields before it are
      taken as they are. */
  function FieldFault<V, J(==)>(c: Codec<V, J>, fs: seq<Field>, i: nat): Option<ErrorCode>
    requires i < |fs|
  {
    var f := fs[i];
    if f.anonymous then Some(ErrEmbeddedType)
    else if f.pkgPath != "" then Some(ErrUnexportedField)
    else if !IsAcceptable(ParamType(f)) then Some(ErrUnsupportedFieldType)
    else if !IsOptional(f) && exists k :: 0 <= k < i && IsOptional(fs[k]) then Some(ErrNonOptionalField)
    else if f.defaultTag != "" && !IsOptional(f) then Some(ErrNonOptionalDefault)
    else if f.defaultTag != "" && DefaultOf(c, f).None? then Some(ErrMismatchedDefault)
    else None
  }

  /** The error RegisterCmd reports for the fields of a struct, if any. */
  function FieldsFault<V, J(==)>(c: Codec<V, J>, fs: seq<Field>, n: nat): Option<ErrorCode>
    requires n <= |fs|
  {
    if n == 0 then None
    else
      var earlier := FieldsFault(c, fs, n - 1);
      if earlier.Some? then earlier else FieldFault(c, fs, n - 1)
  }

  /** The positional parameters fit: optional ones come last and only they have defaults. */
  ghost predicate Positional<V, J>(c: Codec<V, J>, fs: seq<Field>)
  {
    && (forall i | 0 <= i < |fs| :: !fs[i].anonymous && fs[i].pkgPath == "" && IsAcceptable(ParamType(fs[i])))
    && (forall i, k | 0 <= k < i < |fs| && IsOptional(fs[k]) :: IsOptional(fs[i]))
    && (forall i | 0 <= i < |fs| && fs[i].defaultTag != "" :: IsOptional(fs[i]) && DefaultOf(c, fs[i]).Some?)
  }

  lemma {:induction false} FaultlessPrefix<V, J>(c: Codec<V, J>, fs: seq<Field>, n: nat)
    requires n <= |fs|
    ensures FieldsFault(c, fs, n).None? <==> forall i | 0 <= i < n :: FieldFault(c, fs, i).None?
  {
    if n > 0 {
      FaultlessPrefix(c, fs, n - 1);
    }
  }

  /** A struct passes exactly when its parameters fit. */
  lemma FaultlessIsPositional<V, J>(c: Codec<V, J>, fs: seq<Field>)
    ensures FieldsFault(c, fs, |fs|).None? <==> Positional(c, fs)
  {
    FaultlessPrefix(c, fs, |fs|);
    if Positional(c, fs) {
      forall i | 0 <= i < |fs| ensures FieldFault(c, fs, i).None? {}
    }
    if forall i | 0 <= i < |fs| :: FieldFault(c, fs, i).None? {
      forall i, k | 0 <= k < i < |fs| && IsOptional(fs[k]) ensures IsOptional(fs[i]) {
        assert FieldFault(c, fs, i).None?;
      }
      forall i | 0 <= i < |fs|
        ensures !fs[i].anonymous && fs[i].pkgPath == "" && IsAcceptable(ParamType(fs[i]))
        ensures fs[i].defaultTag != "" ==> IsOptional(fs[i]) && DefaultOf(c, fs[i]).Some?
      {
        assert FieldFault(c, fs, i).None?;
      }
    }
  }

  // ---------- The three maps ----------

  datatype Registrations<V> = Registrations(
    types: map<string, GoType>,          // methodToConcreteType
    infos: map<string, MethodInfo<V>>,   // methodToInfo
    methods: map<GoType, string>)        // concreteTypeToMethod

  function Defaults<V, J(==)>(c: Codec<V, J>, fs: seq<Field>, n: nat): map<nat, V>
    requires n <= |fs|
  {
    map i: nat | i < n && fs[i].defaultTag != "" && DefaultOf(c, fs[i]).Some? :: DefaultOf(c, fs[i]).value
  }

  function InfoOf<V, J(==)>(c: Codec<V, J>, fs: seq<Field>, flags: UsageFlag): MethodInfo<V>
  {
    var opt := OptionalCount(fs);
    MethodInfo(|fs|, |fs| - opt, opt, Defaults(c, fs, |fs|), flags)
  }

  predicate IsStructPointer(t: GoType) { t.Ptr? && t.elem.Plain? && t.elem.kind.Struct? }

  /** Why a registration is refused, if it is. */
  function Fault<V, J(==)>(
    c: Codec<V, J>, r: Registrations<V>, methodName: string, cmd: GoType, flags: UsageFlag): Option<ErrorCode>
  {
    if methodName in r.types then Some(ErrDuplicateMethod)
    else if flags >= HIGHEST_USAGE_FLAG_BIT then Some(ErrInvalidUsageFlags)
    else if !IsStructPointer(cmd) then Some(ErrInvalidType)
    else FieldsFault(c, cmd.elem.fields, |cmd.elem.fields|)
  }

  lemma {:induction false} CountedOptionals(fs: seq<Field>, n: nat)
    requires n <= |fs|
    requires forall i, k | 0 <= k < i < |fs| && IsOptional(fs[k]) :: IsOptional(fs[i])
    ensures OptionalCount(fs[..n]) <= n
    ensures forall i | 0 <= i < n :: IsOptional(fs[i]) <==> n - OptionalCount(fs[..n]) <= i
  {
    if n > 0 {
      CountedOptionals(fs, n - 1);
      assert fs[..n][..n - 1] == fs[..n - 1];
    }
  }

  function Registered<V, J(==)>(
    c: Codec<V, J>, r: Registrations<V>, methodName: string, cmd: GoType, flags: UsageFlag): Registrations<V>
    requires IsStructPointer(cmd)
  {
    Registrations(
      r.types[methodName := cmd],
      r.infos[methodName := InfoOf(c, cmd.elem.fields, flags)],
      r.methods[cmd := methodName])
  }

  // ---------- What holds of every registry ----------

  /** The info of a method tells the truth about its type: parameters up to numReqParams
      are required, those from there on optional, and exactly the tagged ones have
      defaults. */
  ghost predicate Describes<V, J>(c: Codec<V, J>, info: MethodInfo<V>, fs: seq<Field>)
  {
    && info.maxParams == |fs| && info.numReqParams + info.numOptParams == info.maxParams
    && (forall i | 0 <= i < |fs| :: IsOptional(fs[i]) <==> info.numReqParams <= i)
    && (forall i | 0 <= i < |fs| :: i in info.defaults <==> fs[i].defaultTag != "")
    && (forall i | i in info.defaults :: i < |fs| && IsOptional(fs[i]) && DefaultOf(c, fs[i]) == Some(info.defaults[i]))
    && info.flags < HIGHEST_USAGE_FLAG_BIT
  }

  /** The three maps agree: every method has a type and a matching info, every such type
      leads back to a method, and that method has this type. */
  ghost predicate Consistent<V, J>(c: Codec<V, J>, r: Registrations<V>)
  {
    && r.infos.Keys == r.types.Keys
    && (forall m | m in r.types ::
          && IsStructPointer(r.types[m])
          && Positional(c, r.types[m].elem.fields)
          && Describes(c, r.infos[m], r.types[m].elem.fields)
          && r.types[m] in r.methods)
    && (forall t | t in r.methods :: r.methods[t] in r.types && r.types[r.methods[t]] == t)
  }

  lemma InfoDescribes<V, J>(c: Codec<V, J>, fs: seq<Field>, flags: UsageFlag)
    requires Positional(c, fs) && flags < HIGHEST_USAGE_FLAG_BIT
    ensures Describes(c, InfoOf(c, fs, flags), fs)
  {
    CountedOptionals(fs, |fs|);
    assert fs[..|fs|] == fs;
  }

  lemma RegisterKeepsConsistent<V, J>(
    c: Codec<V, J>, r: Registrations<V>, methodName: string, cmd: GoType, flags: UsageFlag)
    requires Consistent(c, r) && Fault(c, r, methodName, cmd, flags).None?
    ensures Consistent(c, Registered(c, r, methodName, cmd, flags))
  {
    FaultlessIsPositional(c, cmd.elem.fields);
    InfoDescribes(c, cmd.elem.fields, flags);
    hide Describes, Positional, InfoOf;
  }

  datatype Registration = Registration(methodName: string, cmd: GoType, flags: UsageFlag)

  /** The registry after a series of calls of RegisterCmd, accepted or not. */
  function RegisteredAll<V, J(==)>(c: Codec<V, J>, calls: seq<Registration>): Registrations<V>
  {
    if calls == [] then Registrations(map[], map[], map[])
    else
      var r := RegisteredAll(c, calls[..|calls| - 1]);
      var last := calls[|calls| - 1];
      if Fault(c, r, last.methodName, last.cmd, last.flags).Some? then r
      else Registered(c, r, last.methodName, last.cmd, last.flags)
  }

  lemma {:induction false} EveryRegistryIsConsistent<V, J>(c: Codec<V, J>, calls: seq<Registration>)
    ensures Consistent(c, RegisteredAll(c, calls))
  {
    if calls != [] {
      EveryRegistryIsConsistent(c, calls[..|calls| - 1]);
      var r := RegisteredAll(c, calls[..|calls| - 1]);
      var last := calls[|calls| - 1];
      if Fault(c, r, last.methodName, last.cmd, last.flags).None? {
        RegisterKeepsConsistent(c, r, last.methodName, last.cmd, last.flags);
      }
    }
  }

  // ---------- RegisterCmd ----------

  lemma FlagBits(flags: UsageFlag)
    ensures !(HIGHEST_USAGE_FLAG_BIT - 1) & flags != 0 <==> flags >= HIGHEST_USAGE_FLAG_BIT
  {
  }

  lemma StartOfFields<V, J>(c: Codec<V, J>, fs: seq<Field>)
    ensures FieldsFault(c, fs, 0).None? && Defaults(c, fs, 0) == map[] && OptionalCount(fs[..0]) == 0
  {
  }

  /** How the accumulated facts about the fields grow by field n. */
  lemma NextField<V, J>(c: Codec<V, J>, fs: seq<Field>, n: nat)
    requires n < |fs|
    ensures OptionalCount(fs[..n]) > 0 <==> exists k :: 0 <= k < n && IsOptional(fs[k])
    ensures OptionalCount(fs[..n + 1]) == OptionalCount(fs[..n]) + if IsOptional(fs[n]) then 1 else 0
    ensures Defaults(c, fs, n + 1) == var v := DefaultOf(c, fs[n]);
            if fs[n].defaultTag != "" && v.Some? then Defaults(c, fs, n)[n := v.value] else Defaults(c, fs, n)
  {
    assert fs[..n + 1][..n] == fs[..n];
    SomeOptional(fs, n);
  }

  lemma {:induction false} SomeOptional(fs: seq<Field>, n: nat)
    requires n <= |fs|
    ensures OptionalCount(fs[..n]) > 0 <==> exists k :: 0 <= k < n && IsOptional(fs[k])
  {
    if n > 0 {
      SomeOptional(fs, n - 1);
      assert fs[..n][..n - 1] == fs[..n - 1];
      assert fs[..n][n - 1] == fs[n - 1];
    }
  }

  class Registry<V, J(==)> {
    const codec: Codec<V, J>
    var methodToConcreteType: map<string, GoType>
    var methodToInfo: map<string, MethodInfo<V>>
    var concreteTypeToMethod: map<GoType, string>

    function View(): Registrations<V>
      reads this
    {
      Registrations(methodToConcreteType, methodToInfo, concreteTypeToMethod)
    }

    constructor (c: Codec<V, J>)
      ensures codec == c && View() == RegisteredAll(c, []) && Consistent(c, View())
    {
      codec := c;
      methodToConcreteType, methodToInfo, concreteTypeToMethod := map[], map[], map[];
    }

    /** Refuses without a change, or enters the type and its parameters. */
    method RegisterCmd(methodName: string, cmd: GoType, flags: UsageFlag) returns (err: Option<ErrorCode>)
      requires Consistent(codec, View())
      modifies this
      ensures Consistent(codec, View())
      ensures err == Fault(codec, old(View()), methodName, cmd, flags)
      ensures err.Some? ==> View() == old(View())
      ensures err.None? ==> IsStructPointer(cmd) && View() == Registered(codec, old(View()), methodName, cmd, flags)
      ensures err.None? ==>
        && methodToConcreteType == old(methodToConcreteType)[methodName := cmd]
        && concreteTypeToMethod == old(concreteTypeToMethod)[cmd := methodName]
        && methodName in methodToInfo && methodToInfo == old(methodToInfo)[methodName := methodToInfo[methodName]]
        && Describes(codec, methodToInfo[methodName], cmd.elem.fields) && methodToInfo[methodName].flags == flags
    {
      hide Consistent, FieldsFault, Defaults, OptionalCount, Describes, Positional;
      if methodName in methodToConcreteType {
        return Some(ErrDuplicateMethod);
      }
      FlagBits(flags);
      if !(HIGHEST_USAGE_FLAG_BIT - 1) & flags != 0 {
        return Some(ErrInvalidUsageFlags);
      }
      if !cmd.Ptr? {
        return Some(ErrInvalidType);
      }
      if !cmd.elem.Plain? || cmd.elem.kind != Struct {
        return Some(ErrInvalidType);
      }
      var numOptFields, defaults;
      err, numOptFields, defaults := CheckFields(cmd.elem.fields);
      if err.Some? {
        return;
      }
      RegisterKeepsConsistent(codec, View(), methodName, cmd, flags);
      FaultlessIsPositional(codec, cmd.elem.fields);
      InfoDescribes(codec, cmd.elem.fields, flags);
      var numFields := |cmd.elem.fields|;
      methodToConcreteType := methodToConcreteType[methodName := cmd];
      methodToInfo := methodToInfo[methodName :=
        MethodInfo(numFields, numFields - numOptFields, numOptFields, defaults, flags)];
      concreteTypeToMethod := concreteTypeToMethod[cmd := methodName];
    }

    /** The loop over the struct fields. */
    method CheckFields(fs: seq<Field>) returns (err: Option<ErrorCode>, numOptFields: nat, defaults: map<nat, V>)
      ensures err == FieldsFault(codec, fs, |fs|)
      ensures err.None? ==> numOptFields == OptionalCount(fs) && defaults == Defaults(codec, fs, |fs|)
    {
      hide FieldsFault, Defaults;
      err, numOptFields, defaults := None, 0, map[];
      StartOfFields(codec, fs);
      var i := 0;
      while i < |fs|
        invariant 0 <= i <= |fs|
        invariant FieldsFault(codec, fs, i).None?
        invariant err.None? && numOptFields == OptionalCount(fs[..i])
        invariant defaults == Defaults(codec, fs, i)
      {
        var rtf := fs[i];
        FaultIsFirst(codec, fs, i);
        NextField(codec, fs, i);
        if rtf.anonymous {
          return Some(ErrEmbeddedType), numOptFields, defaults;
        }
        if rtf.pkgPath != "" {
          return Some(ErrUnexportedField), numOptFields, defaults;
        }
        var isOptional := rtf.typ.Ptr?;
        var typ := if isOptional then rtf.typ.elem else rtf.typ;
        if !IsAcceptable(typ) {
          return Some(ErrUnsupportedFieldType), numOptFields, defaults;
        }
        if isOptional {
          numOptFields := numOptFields + 1;
        } else if numOptFields > 0 {
          return Some(ErrNonOptionalField), numOptFields, defaults;
        }
        if rtf.defaultTag != "" {
          if !isOptional {
            return Some(ErrNonOptionalDefault), numOptFields, defaults;
          }
          var value := codec.parse(rtf.defaultTag);
          var rvf := if value.Some? then Decoded(codec, rtf.typ.elem, value.value) else None;
          if rvf.None? {
            return Some(ErrMismatchedDefault), numOptFields, defaults;
          }
          defaults := defaults[i := rvf.value];
        }
        i := i + 1;
      }
      assert fs[..|fs|] == fs;
    }
  }

  /** A fault at field n after faultless ones is the fault of the struct. */
  lemma {:induction false} FaultIsFirst<V, J>(c: Codec<V, J>, fs: seq<Field>, n: nat)
    requires n < |fs| && FieldsFault(c, fs, n).None?
    ensures FieldFault(c, fs, n).Some? ==> FieldsFault(c, fs, |fs|) == FieldFault(c, fs, n)
    ensures FieldsFault(c, fs, n + 1) == FieldFault(c, fs, n)
  {
    if FieldFault(c, fs, n).Some? {
      FaultStays(c, fs, n + 1, |fs|);
    }
  }

  lemma {:induction false} FaultStays<V, J>(c: Codec<V, J>, fs: seq<Field>, n: nat, m: nat)
    requires n <= m <= |fs| && FieldsFault(c, fs, n).Some?
    ensures FieldsFault(c, fs, m) == FieldsFault(c, fs, n)
  {
    if n < m {
      FaultStays(c, fs, n, m - 1);
    }
  }
}
