/** Commands as positional JSON-RPC parameters and back (acbcjson/cmdparse.go and
NewRequest in acbcjson/jsonrpc.go). */
module Commands {

  import opened Options
  import opened Registry

  datatype Result<+T> = Success(value: T) | Failure(error: ErrorCode)

  /** A field of a command: a plain value, or a pointer that may be nil. */
  datatype Slot<V> = Required(v: V) | Optional(p: Option<V>)

  /** A command: its dynamic type, a pointer type, and what it points to, if anything. */
  datatype Command<V> = Command(typ: GoType, fields: Option<seq<Slot<V>>>)

  datatype Request<J> = Request(version: string, methodName: string, params: seq<J>)

  const RPC_VERSIONS: set<string> := {"1.0", "2.0"}

  predicate IsNil<V>(s: Slot<V>) { s.Optional? && s.p.None? }

  /** The fields of a command are those of its type, pointers where the type has them. */
  predicate WellTyped<V>(cmd: Command<V>)
  {
    IsStructPointer(cmd.typ) && cmd.fields.Some? ==>
      && |cmd.fields.value| == |cmd.typ.elem.fields|
      && forall i | 0 <= i < |cmd.fields.value| :: cmd.fields.value[i].Optional? <==> IsOptional(cmd.typ.elem.fields[i])
  }

  /** How many parameters are sent: none after the last one that is not a nil pointer. */
  function ParamCount<V>(slots: seq<Slot<V>>): (n: nat)
    ensures n <= |slots|
    ensures forall i | n <= i < |slots| :: IsNil(slots[i])
    ensures n > 0 ==> !IsNil(slots[n - 1])
  {
    if slots == [] then 0
    else if IsNil(slots[|slots| - 1]) then ParamCount(slots[..|slots| - 1])
    else |slots|
  }

  /** json.Marshal of a field. */
  function EncodeSlot<V, J>(c: Codec<V, J>, s: Slot<V>): Option<J>
  {
    match s
    case Required(v) => c.encode(v)
    case Optional(Some(v)) => c.encode(v)
    case Optional(None) => Some(c.nullValue)
  }

  /** json.Unmarshal into a fresh field: null makes a pointer nil and leaves a plain field
      at its zero value. */
  function DecodeSlot<V, J(==)>(c: Codec<V, J>, f: Field, j: J): Option<Slot<V>>
  {
    if IsOptional(f) then
      if j == c.nullValue then Some(Optional(None))
      else match c.decode(ParamType(f), j)
           case None => None
           case Some(v) => Some(Optional(Some(v)))
    else
      match Decoded(c, f.typ, j)
      case None => None
      case Some(v) => Some(Required(v))
  }

  /** A field that got no parameter. */
  function UnsentSlot<V>(info: MethodInfo<V>, i: nat): Slot<V>
  {
    Optional(if i in info.defaults then Some(info.defaults[i]) else None)
  }

  // ---------- Marshalling ----------

  ghost predicate Encodable<V, J>(c: Codec<V, J>, slots: seq<Slot<V>>, n: nat)
    requires n <= |slots|
  {
    forall i | 0 <= i < n :: EncodeSlot(c, slots[i]).Some?
  }

  ghost function Encoded<V, J>(c: Codec<V, J>, slots: seq<Slot<V>>, n: nat): seq<J>
    requires n <= |slots| && Encodable(c, slots, n)
  {
    seq(n, i requires 0 <= i < n => EncodeSlot(c, slots[i]).value)
  }

  ghost function Marshalled<V, J>(
    c: Codec<V, J>, r: Registrations<V>, version: string, validId: bool, cmd: Command<V>): Result<Request<J>>
  {
    if cmd.typ !in r.methods then Failure(ErrUnregisteredMethod)
    else if cmd.fields.None? then Failure(ErrInvalidType)
    else if version !in RPC_VERSIONS || !validId then Failure(ErrInvalidType)
    else
      var slots := cmd.fields.value;
      var n := ParamCount(slots);
      if !Encodable(c, slots, n) then Failure(ErrJson)
      else Success(Request(version, r.methods[cmd.typ], Encoded(c, slots, n)))
  }

  // ---------- Unmarshalling ----------

  ghost predicate Decodable<V, J>(c: Codec<V, J>, fs: seq<Field>, params: seq<J>)
    requires |params| <= |fs|
  {
    forall i | 0 <= i < |params| :: DecodeSlot(c, fs[i], params[i]).Some?
  }

  ghost function FieldValue<V, J>(c: Codec<V, J>, fs: seq<Field>, info: MethodInfo<V>, params: seq<J>, i: nat): Slot<V>
    requires |params| <= |fs| && Decodable(c, fs, params) && i < |fs|
  {
    if i < |params| then DecodeSlot(c, fs[i], params[i]).value else UnsentSlot(info, i)
  }

  ghost function Rebuilt<V, J>(c: Codec<V, J>, fs: seq<Field>, info: MethodInfo<V>, params: seq<J>): seq<Slot<V>>
    requires |params| <= |fs| && Decodable(c, fs, params)
  {
    seq(|fs|, i requires 0 <= i < |fs| => FieldValue(c, fs, info, params, i))
  }

  lemma IsRebuilt<V, J>(c: Codec<V, J>, fs: seq<Field>, info: MethodInfo<V>, params: seq<J>, fields: seq<Slot<V>>)
    requires |params| <= |fs| == |fields|
    requires forall i | 0 <= i < |params| :: DecodeSlot(c, fs[i], params[i]) == Some(fields[i])
    requires forall i | |params| <= i < |fs| :: fields[i] == UnsentSlot(info, i)
    ensures Decodable(c, fs, params) && fields == Rebuilt(c, fs, info, params)
  {
    assert Decodable(c, fs, params);
    forall i | 0 <= i < |fs| ensures fields[i] == FieldValue(c, fs, info, params, i) {}
  }

  predicate CountFits<V>(info: MethodInfo<V>, n: nat) { info.numReqParams <= n <= info.maxParams }

  ghost function Unmarshalled<V, J>(c: Codec<V, J>, r: Registrations<V>, req: Request<J>): Result<Command<V>>
    requires Consistent(c, r)
  {
    if req.methodName !in r.types then Failure(ErrUnregisteredMethod)
    else
      var t, info := r.types[req.methodName], r.infos[req.methodName];
      var fs := t.elem.fields;
      if !CountFits(info, |req.params|) then Failure(ErrNumParams)
      else if !Decodable(c, fs, req.params) then Failure(ErrInvalidType)
      else Success(Command(t, Some(Rebuilt(c, fs, info, req.params))))
  }

  // ---------- The methods ----------

  /** makeParams: the loop remembers the last field that is not a nil pointer. */
  method MakeParams<V>(slots: seq<Slot<V>>) returns (params: seq<Slot<V>>)
    ensures params == slots[..ParamCount(slots)]
  {
    params := [];
    var lastParam := -1;
    var i := 0;
    while i < |slots|
      invariant 0 <= i <= |slots|
      invariant params == slots[..i]
      invariant lastParam + 1 == ParamCount(slots[..i])
    {
      assert slots[..i + 1][..i] == slots[..i];
      params := params + [slots[i]];
      if !(slots[i].Optional? && slots[i].p.None?) {
        lastParam := i;
      }
      i := i + 1;
    }
    assert slots[..|slots|] == slots;
    params := params[..lastParam + 1];
  }

  /** MarshalCmd and NewRequest. */
  method MarshalCmd<V, J(==)>(reg: Registry<V, J>, version: string, validId: bool, cmd: Command<V>)
    returns (res: Result<Request<J>>)
    ensures res == Marshalled(reg.codec, reg.View(), version, validId, cmd)
  {
    if cmd.typ !in reg.concreteTypeToMethod {
      return Failure(ErrUnregisteredMethod);
    }
    var methodName := reg.concreteTypeToMethod[cmd.typ];
    if cmd.fields.None? {
      return Failure(ErrInvalidType);
    }
    var params := MakeParams(cmd.fields.value);
    if version != "1.0" && version != "2.0" {
      return Failure(ErrInvalidType);
    }
    if !validId {
      return Failure(ErrInvalidType);
    }
    var rawParams: seq<J> := [];
    var i := 0;
    while i < |params|
      invariant 0 <= i <= |params|
      invariant Encodable(reg.codec, cmd.fields.value, i) && rawParams == Encoded(reg.codec, cmd.fields.value, i)
    {
      var marshalledParam := EncodeSlot(reg.codec, params[i]);
      if marshalledParam.None? {
        return Failure(ErrJson);
      }
      rawParams := rawParams + [marshalledParam.value];
      i := i + 1;
    }
    res := Success(Request(version, methodName, rawParams));
  }

  /** The loop that fills a new struct, whose plain fields are zero and pointers nil. */
  method DecodeParams<V, J(==)>(c: Codec<V, J>, fs: seq<Field>, params: seq<J>) returns (fields: Option<seq<Slot<V>>>)
    requires |params| <= |fs|
    ensures fields.Some? <==> Decodable(c, fs, params)
    ensures fields.Some? ==>
      && |fields.value| == |fs|
      && (forall k | 0 <= k < |params| :: DecodeSlot(c, fs[k], params[k]) == Some(fields.value[k]))
      && (forall k | |params| <= k < |fs| && IsOptional(fs[k]) :: fields.value[k] == Optional(None))
  {
    var slots := seq(|fs|, i requires 0 <= i < |fs| =>
      if IsOptional(fs[i]) then Optional(None) else Required(c.zero(fs[i].typ)));
    var i := 0;
    while i < |params|
      invariant 0 <= i <= |params| && |slots| == |fs|
      invariant forall k | 0 <= k < i :: DecodeSlot(c, fs[k], params[k]) == Some(slots[k])
      invariant forall k | i <= k < |fs| && IsOptional(fs[k]) :: slots[k] == Optional(None)
    {
      var value := DecodeSlot(c, fs[i], params[i]);
      if value.None? {
        return None;
      }
      slots := slots[i := value.value];
      i := i + 1;
    }
    fields := Some(slots);
  }

  /** populateDefaults: what got no parameter gets its default, if it has one. */
  method PopulateDefaults<V>(numParams: nat, info: MethodInfo<V>, fields: seq<Slot<V>>) returns (filled: seq<Slot<V>>)
    requires numParams <= info.maxParams == |fields|
    requires forall k | numParams <= k < |fields| :: fields[k] == Optional(None)
    ensures |filled| == |fields|
    ensures forall k | 0 <= k < numParams :: filled[k] == fields[k]
    ensures forall k | numParams <= k < |fields| :: filled[k] == UnsentSlot(info, k)
  {
    filled := fields;
    var i := numParams;
    while i < info.maxParams
      invariant numParams <= i <= info.maxParams && |filled| == |fields|
      invariant forall k | 0 <= k < numParams :: filled[k] == fields[k]
      invariant forall k | numParams <= k < i :: filled[k] == UnsentSlot(info, k)
      invariant forall k | i <= k < |fields| :: filled[k] == Optional(None)
    {
      if i in info.defaults {
        filled := filled[i := Optional(Some(info.defaults[i]))];
      }
      i := i + 1;
    }
  }

  lemma ConsistentAt<V, J>(c: Codec<V, J>, r: Registrations<V>, m: string)
    requires Consistent(c, r)
    ensures m in r.types ==>
      && m in r.infos && IsStructPointer(r.types[m])
      && Positional(c, r.types[m].elem.fields) && Describes(c, r.infos[m], r.types[m].elem.fields)
  {
  }

  /** UnmarshalCmd with checkNumParams. */
  method UnmarshalCmd<V, J(==)>(reg: Registry<V, J>, req: Request<J>) returns (res: Result<Command<V>>)
    requires Consistent(reg.codec, reg.View())
    ensures res == Unmarshalled(reg.codec, reg.View(), req)
  {
    if req.methodName !in reg.methodToConcreteType {
      return Failure(ErrUnregisteredMethod);
    }
    hide Consistent, Positional, Rebuilt, Decodable, DecodeSlot, UnsentSlot;
    ConsistentAt(reg.codec, reg.View(), req.methodName);
    var rtp := reg.methodToConcreteType[req.methodName];
    var info := reg.methodToInfo[req.methodName];
    var numParams := |req.params|;
    if numParams < info.numReqParams || numParams > info.maxParams {
      return Failure(ErrNumParams);
    }
    var decoded := DecodeParams(reg.codec, rtp.elem.fields, req.params);
    if decoded.None? {
      return Failure(ErrInvalidType);
    }
    var fields := decoded.value;
    if numParams < info.maxParams {
      fields := PopulateDefaults(numParams, info, fields);
    }
    IsRebuilt(reg.codec, rtp.elem.fields, info, req.params, fields);
    res := Success(Command(rtp, Some(fields)));
  }

  // ---------- There and back ----------

  /** A value that JSON carries faithfully, such as any integer, or a nil slice. */
  predicate Survives<V(==), J(==)>(c: Codec<V, J>, t: GoType, v: V)
  {
    c.encode(v).Some? && Decoded(c, t, c.encode(v).value) == Some(v)
  }

  /** All that is asked of a command's values, each on its own. */
  ghost predicate ValuesSurvive<V, J>(c: Codec<V, J>, fs: seq<Field>, slots: seq<Slot<V>>)
  {
    && |fs| == |slots|
    && forall i | 0 <= i < |fs| ::
         match slots[i]
         case Required(v) => Survives(c, fs[i].typ, v)
         case Optional(Some(v)) => Survives(c, ParamType(fs[i]), v)
         case Optional(None) => true
  }

  /** The fields of a command with the trailing run of nil pointers filled by defaults. */
  function WithDefaults<V>(info: MethodInfo<V>, slots: seq<Slot<V>>): seq<Slot<V>>
  {
    seq(|slots|, i requires 0 <= i < |slots| => if i < ParamCount(slots) then slots[i] else UnsentSlot(info, i))
  }

  /** A pointer to a value whose encoding is null, such as a pointer to a nil slice. */
  predicate PointsToNull<V, J(==)>(c: Codec<V, J>, s: Slot<V>)
  {
    s.Optional? && s.p.Some? && c.encode(s.p.value) == Some(c.nullValue)
  }

  /** Dropping parameters never drops a required one: whatever MarshalCmd produces from a
      command passes the parameter count check of its method. */
  lemma CountAlwaysFits<V, J>(c: Codec<V, J>, r: Registrations<V>, version: string, cmd: Command<V>)
    requires Consistent(c, r) && WellTyped(cmd)
    ensures match Marshalled(c, r, version, true, cmd)
            case Failure(_) => true
            case Success(req) =>
              && req.methodName in r.types && r.types[req.methodName] == cmd.typ
              && CountFits(r.infos[req.methodName], |req.params|)
  {
    hide Consistent, Positional, Encodable;
    if cmd.typ in r.methods && cmd.fields.Some? {
      MethodLeadsBack(c, r, cmd.typ);
      var m := r.methods[cmd.typ];
      ConsistentAt(c, r, m);
      FewestParams(r.infos[m], cmd.typ.elem.fields, cmd.fields.value);
    }
  }

  /** Only optional fields are left unsent. */
  lemma FewestParams<V>(info: MethodInfo<V>, fs: seq<Field>, slots: seq<Slot<V>>)
    requires |slots| == |fs| == info.maxParams && info.numReqParams <= |fs|
    requires forall i | 0 <= i < |fs| :: slots[i].Optional? <==> info.numReqParams <= i
    ensures CountFits(info, ParamCount(slots))
  {
    var n := ParamCount(slots);
    assert n < |slots| ==> IsNil(slots[n]);
  }

  lemma MethodLeadsBack<V, J>(c: Codec<V, J>, r: Registrations<V>, t: GoType)
    requires Consistent(c, r)
    ensures t in r.methods ==> r.methods[t] in r.types && r.types[r.methods[t]] == t && r.methods[t] in r.infos
  {
  }

  lemma SlotRoundTrip<V, J>(c: Codec<V, J>, f: Field, s: Slot<V>)
    requires s.Optional? <==> IsOptional(f)
    requires match s
             case Required(v) => Survives(c, f.typ, v)
             case Optional(Some(v)) => Survives(c, ParamType(f), v)
             case Optional(None) => true
    ensures EncodeSlot(c, s).Some?
    ensures DecodeSlot(c, f, EncodeSlot(c, s).value) == Some(if PointsToNull(c, s) then Optional(None) else s)
  {
  }

  /** What comes back for field i: a trailing nil pointer gets its default, and a pointer
      to something that encodes as null becomes nil. */
  function Returned<V, J(==)>(c: Codec<V, J>, info: MethodInfo<V>, slots: seq<Slot<V>>, i: nat): Slot<V>
    requires i < |slots|
  {
    if i >= ParamCount(slots) then UnsentSlot(info, i)
    else if PointsToNull(c, slots[i]) then Optional(None)
    else slots[i]
  }

  lemma FieldsRoundTrip<V, J>(c: Codec<V, J>, fs: seq<Field>, info: MethodInfo<V>, slots: seq<Slot<V>>)
    requires ValuesSurvive(c, fs, slots)
    requires forall i | 0 <= i < |fs| :: slots[i].Optional? <==> IsOptional(fs[i])
    ensures var n := ParamCount(slots);
      && Encodable(c, slots, n) && Decodable(c, fs, Encoded(c, slots, n))
      && var fields := Rebuilt(c, fs, info, Encoded(c, slots, n));
         forall i | 0 <= i < |fs| :: fields[i] == Returned(c, info, slots, i)
  {
    var n := ParamCount(slots);
    forall i | 0 <= i < n
      ensures EncodeSlot(c, slots[i]).Some?
      ensures DecodeSlot(c, fs[i], EncodeSlot(c, slots[i]).value)
           == Some(if PointsToNull(c, slots[i]) then Optional(None) else slots[i])
    {
      SlotRoundTrip(c, fs[i], slots[i]);
    }
    hide DecodeSlot, EncodeSlot, ValuesSurvive, PointsToNull;
    assert Encodable(c, slots, n);
    assert Decodable(c, fs, Encoded(c, slots, n));
  }

  /** The command that comes back from UnmarshalCmd after MarshalCmd. */
  ghost function Back<V, J>(c: Codec<V, J>, r: Registrations<V>, version: string, cmd: Command<V>): Result<Command<V>>
    requires Consistent(c, r)
  {
    match Marshalled(c, r, version, true, cmd)
    case Failure(e) => Failure(e)
    case Success(req) => Unmarshalled(c, r, req)
  }

  /** For every registry that calls of RegisterCmd can build and every command of a
      registered type whose values survive JSON one by one: it marshals and comes back with
      its type and, field by field, as Returned says; in particular nil pointers before the
      last sent parameter stay nil. */
  lemma CommandRoundTrip<V, J>(c: Codec<V, J>, calls: seq<Registration>, version: string, cmd: Command<V>)
    requires version in RPC_VERSIONS && cmd.fields.Some? && cmd.typ in RegisteredAll(c, calls).methods
    requires WellTyped(cmd) && IsStructPointer(cmd.typ) && ValuesSurvive(c, cmd.typ.elem.fields, cmd.fields.value)
    ensures var r := RegisteredAll(c, calls);
      && Consistent(c, r) && r.methods[cmd.typ] in r.infos
      && var back := Back(c, r, version, cmd);
         && back.Success? && back.value.typ == cmd.typ && back.value.fields.Some?
         && |back.value.fields.value| == |cmd.fields.value|
         && forall i | 0 <= i < |cmd.fields.value| ::
              back.value.fields.value[i] == Returned(c, r.infos[r.methods[cmd.typ]], cmd.fields.value, i)
  {
    var r := RegisteredAll(c, calls);
    hide RegisteredAll, Consistent;
    EveryRegistryIsConsistent(c, calls);
    MethodLeadsBack(c, r, cmd.typ);
    CountAlwaysFits(c, r, version, cmd);
    var m := r.methods[cmd.typ];
    hide ValuesSurvive, Encodable, Decodable, Encoded, Rebuilt, Returned;
    FieldsRoundTrip(c, cmd.typ.elem.fields, r.infos[m], cmd.fields.value);
  }

  lemma ComparedToDefaults<V, J>(c: Codec<V, J>, info: MethodInfo<V>, slots: seq<Slot<V>>, fields: seq<Slot<V>>)
    requires |fields| == |slots| && forall i | 0 <= i < |slots| :: fields[i] == Returned(c, info, slots, i)
    ensures fields == WithDefaults(info, slots) <==> forall s | s in slots :: !PointsToNull(c, s)
  {
    if i :| 0 <= i < |slots| && PointsToNull(c, slots[i]) {
      assert i < ParamCount(slots);
      assert fields[i] != WithDefaults(info, slots)[i];
    }
  }

  lemma ComparedToOriginal<V, J>(c: Codec<V, J>, info: MethodInfo<V>, slots: seq<Slot<V>>, fields: seq<Slot<V>>)
    requires |fields| == |slots| && forall i | 0 <= i < |slots| :: fields[i] == Returned(c, info, slots, i)
    ensures fields == slots
       <==> && (forall s | s in slots :: !PointsToNull(c, s))
            && (forall i | ParamCount(slots) <= i < |slots| :: i !in info.defaults)
  {
    if j :| 0 <= j < |slots| && PointsToNull(c, slots[j]) {
      assert j < ParamCount(slots);
      assert fields[j] != slots[j];
    } else if k :| ParamCount(slots) <= k < |slots| && k in info.defaults {
      assert fields[k] != slots[k];
    } else {
      forall i | 0 <= i < |slots| ensures fields[i] == slots[i] {
        assert i >= ParamCount(slots) ==> IsNil(slots[i]);
      }
    }
  }

  /** The round trip only fills in defaults exactly when no pointer leads to something that
      encodes as null; it changes nothing at all exactly when, besides, no trailing nil
      pointer has a default. */
  lemma RoundTripIsExact<V, J>(c: Codec<V, J>, calls: seq<Registration>, version: string, cmd: Command<V>)
    requires version in RPC_VERSIONS && cmd.fields.Some? && cmd.typ in RegisteredAll(c, calls).methods
    requires WellTyped(cmd) && IsStructPointer(cmd.typ) && ValuesSurvive(c, cmd.typ.elem.fields, cmd.fields.value)
    ensures var r, slots := RegisteredAll(c, calls), cmd.fields.value;
      && Consistent(c, r) && r.methods[cmd.typ] in r.infos
      && var info := r.infos[r.methods[cmd.typ]];
         && (Back(c, r, version, cmd) == Success(Command(cmd.typ, Some(WithDefaults(info, slots))))
             <==> forall s | s in slots :: !PointsToNull(c, s))
         && (Back(c, r, version, cmd) == Success(cmd)
             <==> && (forall s | s in slots :: !PointsToNull(c, s))
                  && (forall i | ParamCount(slots) <= i < |slots| :: i !in info.defaults))
  {
    hide Back, Consistent, RegisteredAll, ValuesSurvive, Returned, WithDefaults, PointsToNull, ParamCount;
    CommandRoundTrip(c, calls, version, cmd);
    var r := RegisteredAll(c, calls);
    var info, fields := r.infos[r.methods[cmd.typ]], Back(c, r, version, cmd).value.fields.value;
    ComparedToDefaults(c, info, cmd.fields.value, fields);
    ComparedToOriginal(c, info, cmd.fields.value, fields);
  }

  // ---------- A command that does not come back ----------

  datatype Ints = NilSlice | Items(xs: seq<int>)

  datatype IntsJson = Null | List(xs: seq<int>)

  /** Slices of integers, with encoding/json's null for a nil slice. */
  function IntsCodec(): Codec<Ints, IntsJson>
  {
    Codec(Null, t => NilSlice,
          (v: Ints) => if v.NilSlice? then Some(Null) else Some(List(v.xs)),
          (t: GoType, j: IntsJson) => if j.Null? then None else Some(Items(j.xs)),
          s => None)
  }

  /** With one optional []int parameter, a pointer to a nil slice comes back as nil. */
  lemma PointerToNilSliceIsLost()
    ensures var t := Ptr(Plain(Struct, "FooCmd", [Field("Xs", false, "", Ptr(Plain(Slice, "[]int", [])), "")]));
            var calls := [Registration("foo", t, 0)];
            var cmd := Command(t, Some([Optional(Some(NilSlice))]));
            && t in RegisteredAll(IntsCodec(), calls).methods
            && Consistent(IntsCodec(), RegisteredAll(IntsCodec(), calls))
            && Back(IntsCodec(), RegisteredAll(IntsCodec(), calls), "1.0", cmd)
               == Success(Command(t, Some([Optional(None)])))
  {
    var c := IntsCodec();
    var f := Field("Xs", false, "", Ptr(Plain(Slice, "[]int", [])), "");
    var t := Ptr(Plain(Struct, "FooCmd", [f]));
    var call := Registration("foo", t, 0);
    assert [call][..0] == [];
    assert Positional(c, [f]);
    FaultlessIsPositional(c, [f]);
    assert Fault(c, RegisteredAll(c, []), "foo", t, 0).None?;
    assert RegisteredAll(c, [call]) == Registered(c, RegisteredAll(c, []), "foo", t, 0);
    var cmd := Command(t, Some([Optional(Some(NilSlice))]));
    CommandRoundTrip(c, [call], "1.0", cmd);
    hide Back, RegisteredAll, Consistent;
    var fields := Back(c, RegisteredAll(c, [call]), "1.0", cmd).value.fields.value;
    assert fields == [Optional(None)];
  }
}
