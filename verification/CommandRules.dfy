/** What a marshalled request and an unmarshalled command hold (acbcjson/cmdparse.go and
NewRequest in acbcjson/jsonrpc.go), parameter by parameter. */
module CommandRules {

  import opened Options
  import opened Registry
  import opened Commands

  /** n is how many parameters are sent: up to the last field that is not a nil pointer. */
  predicate SentUpTo<V(==)>(slots: seq<Slot<V>>, n: nat)
  {
    && n <= |slots|
    && (n > 0 ==> slots[n - 1] != Optional(None))
    && forall i | n <= i < |slots| :: slots[i] == Optional(None)
  }

  /** How a field travels: null for a nil pointer, and otherwise its value, pointed to or
      not. */
  function Carried<V, J>(c: Codec<V, J>, s: Slot<V>): Option<J>
  {
    if s.Optional? && s.p.None? then Some(c.nullValue)
    else c.encode(if s.Optional? then s.p.value else s.v)
  }

  lemma CountIsUnique<V>(slots: seq<Slot<V>>, n: nat)
    ensures SentUpTo(slots, n) <==> n == ParamCount(slots)
  {
    var m := ParamCount(slots);
    assert m > 0 ==> !IsNil(slots[m - 1]);
    assert SentUpTo(slots, n) && n < m ==> slots[m - 1] == Optional(None);
    assert SentUpTo(slots, n) && m < n ==> IsNil(slots[n - 1]);
  }

  /** A command marshals exactly when its type is registered, it is not nil, the version is
      one of two, the id is valid and every field that is sent has an encoding. The request
      then has the version asked for, the method of the type, and these encodings in the
      order of the fields. */
  lemma MarshalledExactly<V, J>(
    c: Codec<V, J>, r: Registrations<V>, version: string, validId: bool, cmd: Command<V>, req: Request<J>)
    ensures Marshalled(c, r, version, validId, cmd) == Success(req)
       <==> && cmd.typ in r.methods && cmd.fields.Some?
            && (version == "1.0" || version == "2.0") && validId
            && req.version == version && req.methodName == r.methods[cmd.typ]
            && SentUpTo(cmd.fields.value, |req.params|)
            && forall i | 0 <= i < |req.params| :: Carried(c, cmd.fields.value[i]) == Some(req.params[i])
  {
    if cmd.fields.Some? {
      var slots := cmd.fields.value;
      CountIsUnique(slots, |req.params|);
      hide ParamCount, SentUpTo;
      forall i | 0 <= i < |slots| ensures Carried(c, slots[i]) == EncodeSlot(c, slots[i]) {}
      hide Carried, EncodeSlot;
      var n := ParamCount(slots);
      if |req.params| == n && Encodable(c, slots, n) {
        assert req.params == Encoded(c, slots, n) <==>
               forall i | 0 <= i < n :: EncodeSlot(c, slots[i]) == Some(req.params[i]);
      }
    }
  }

  /** The error of a command that does not marshal is the first of these. */
  lemma MarshalErrors<V, J>(c: Codec<V, J>, r: Registrations<V>, version: string, validId: bool, cmd: Command<V>)
    ensures var res := Marshalled(c, r, version, validId, cmd);
      && (res == Failure(ErrUnregisteredMethod) <==> cmd.typ !in r.methods)
      && (res == Failure(ErrInvalidType) <==>
            && cmd.typ in r.methods
            && (cmd.fields == None || (version != "1.0" && version != "2.0") || !validId))
      && (res.Failure? ==> res.error in {ErrUnregisteredMethod, ErrInvalidType, ErrJson})
  {
  }

  /** What a field holds after unmarshalling: what its parameter decodes to, where null is
      nil for a pointer and zero for a plain field; without a parameter, its default or
      nil. */
  ghost predicate Holds<V, J>(c: Codec<V, J>, f: Field, param: Option<J>, s: Slot<V>)
  {
    match param
    case Some(j) =>
      (match f.typ
       case Ptr(t) =>
         if j == c.nullValue then s == Optional(None) else s.Optional? && s.p.Some? && c.decode(t, j) == s.p
       case Plain(_, _, _) =>
         s.Required? && (if j == c.nullValue then s.v == c.zero(f.typ) else c.decode(f.typ, j) == Some(s.v)))
    case None =>
      && f.typ.Ptr? && s.Optional?
      && if f.defaultTag == "" then s.p == None
         else
           var j := c.parse(f.defaultTag);
           && j.Some?
           && s.p == if j.value == c.nullValue then Some(c.zero(f.typ.elem)) else c.decode(f.typ.elem, j.value)
  }

  function Param<J>(params: seq<J>, i: nat): Option<J> { if i < |params| then Some(params[i]) else None }

  lemma DecodedHolds<V, J>(c: Codec<V, J>, f: Field, j: J, s: Slot<V>)
    ensures DecodeSlot(c, f, j) == Some(s) <==> Holds(c, f, Some(j), s)
  {
  }

  lemma DefaultHolds<V, J>(c: Codec<V, J>, info: MethodInfo<V>, fs: seq<Field>, i: nat, s: Slot<V>)
    requires Describes(c, info, fs) && info.numReqParams <= i < |fs|
    ensures UnsentSlot(info, i) == s <==> Holds(c, fs[i], None, s)
  {
    assert IsOptional(fs[i]);
  }

  /** How many parameters a struct demands: the plain fields in front of the pointers. */
  ghost predicate Demands(fs: seq<Field>, n: nat)
  {
    && n <= |fs|
    && forall i | 0 <= i < |fs| :: fs[i].typ.Plain? <==> i < n
  }

  lemma DemandedParams<V, J>(c: Codec<V, J>, info: MethodInfo<V>, fs: seq<Field>)
    requires Describes(c, info, fs)
    ensures Demands(fs, info.numReqParams) && info.maxParams == |fs|
  {
    forall i | 0 <= i < |fs| ensures fs[i].typ.Plain? <==> i < info.numReqParams {
      assert IsOptional(fs[i]) <==> info.numReqParams <= i;
    }
  }

  /** In every registry that can be built: a request unmarshals to cmd exactly when its
      method is registered with cmd's type, it has a parameter for each plain field and none
      too many, and each field of cmd holds what it should. */
  lemma UnmarshalledExactly<V, J>(c: Codec<V, J>, calls: seq<Registration>, req: Request<J>, cmd: Command<V>)
    ensures var r := RegisteredAll(c, calls);
      && Consistent(c, r)
      && (Unmarshalled(c, r, req) == Success(cmd)
          <==> && req.methodName in r.types && cmd.typ == r.types[req.methodName] && IsStructPointer(cmd.typ)
               && cmd.fields.Some? && |cmd.fields.value| == |cmd.typ.elem.fields|
               && |req.params| <= |cmd.fields.value|
               && (forall i | |req.params| <= i < |cmd.fields.value| :: cmd.typ.elem.fields[i].typ.Ptr?)
               && forall i | 0 <= i < |cmd.fields.value| ::
                    Holds(c, cmd.typ.elem.fields[i], Param(req.params, i), cmd.fields.value[i]))
  {
    var r := RegisteredAll(c, calls);
    EveryRegistryIsConsistent(c, calls);
    hide RegisteredAll, Consistent, Positional, Describes, Holds, DecodeSlot, UnsentSlot;
    ConsistentAt(c, r, req.methodName);
    if req.methodName in r.types {
      var t, info := r.types[req.methodName], r.infos[req.methodName];
      var fs := t.elem.fields;
      DemandedParams(c, info, fs);
      assert |req.params| < info.numReqParams ==> fs[|req.params|].typ.Plain?;
      assert CountFits(info, |req.params|) <==>
             |req.params| <= |fs| && forall i | |req.params| <= i < |fs| :: fs[i].typ.Ptr?;
      if cmd.fields.Some? && |cmd.fields.value| == |fs| && CountFits(info, |req.params|) {
        RebuiltHolds(c, fs, info, req.params, cmd.fields.value);
      }
    }
  }

  lemma RebuiltHolds<V, J>(c: Codec<V, J>, fs: seq<Field>, info: MethodInfo<V>, params: seq<J>, fields: seq<Slot<V>>)
    requires Describes(c, info, fs) && |fields| == |fs| && info.numReqParams <= |params| <= |fs|
    ensures (Decodable(c, fs, params) && Rebuilt(c, fs, info, params) == fields)
       <==> forall i | 0 <= i < |fs| :: Holds(c, fs[i], Param(params, i), fields[i])
  {
    forall i | 0 <= i < |params| ensures DecodeSlot(c, fs[i], params[i]) == Some(fields[i]) <==> Holds(c, fs[i], Param(params, i), fields[i]) {
      DecodedHolds(c, fs[i], params[i], fields[i]);
    }
    forall i | |params| <= i < |fs| ensures UnsentSlot(info, i) == fields[i] <==> Holds(c, fs[i], Param(params, i), fields[i]) {
      DefaultHolds(c, info, fs, i, fields[i]);
    }
    hide Holds, DecodeSlot, UnsentSlot, Describes;
    if forall i | 0 <= i < |fs| :: Holds(c, fs[i], Param(params, i), fields[i]) {
      IsRebuilt(c, fs, info, params, fields);
    }
    if Decodable(c, fs, params) && Rebuilt(c, fs, info, params) == fields {
      forall i | 0 <= i < |fs| ensures Holds(c, fs[i], Param(params, i), fields[i]) {
        assert fields[i] == FieldValue(c, fs, info, params, i);
      }
    }
  }

  /** The error of a request that does not unmarshal is the first of these. */
  lemma UnmarshalErrors<V, J>(c: Codec<V, J>, calls: seq<Registration>, req: Request<J>)
    ensures var r := RegisteredAll(c, calls);
      && Consistent(c, r)
      && var res := Unmarshalled(c, r, req);
         && (res == Failure(ErrUnregisteredMethod) <==> req.methodName !in r.types)
         && (res == Failure(ErrNumParams) <==>
               && req.methodName in r.types && IsStructPointer(r.types[req.methodName])
               && var fs := r.types[req.methodName].elem.fields;
                  |req.params| > |fs| || exists i :: |req.params| <= i < |fs| && fs[i].typ.Plain?)
         && (res.Failure? ==> res.error in {ErrUnregisteredMethod, ErrNumParams, ErrInvalidType})
  {
    var r := RegisteredAll(c, calls);
    EveryRegistryIsConsistent(c, calls);
    hide RegisteredAll, Consistent, Positional, Describes, DecodeSlot, Rebuilt, Decodable;
    ConsistentAt(c, r, req.methodName);
    if req.methodName in r.types {
      var fs, info := r.types[req.methodName].elem.fields, r.infos[req.methodName];
      DemandedParams(c, info, fs);
      if |req.params| < info.numReqParams {
        assert fs[|req.params|].typ.Plain?;
      }
    }
  }
}
