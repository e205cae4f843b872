/** Serialising typed records to plain JSON and back (server/shared/models.py). */
module Dto {
  import opened Wrappers

  type Byte = bv8

  /** A point in time; a naive one has no offset. */
  datatype DateTime = DateTime(clock: int, offset: Option<int>)

  datatype Val =
    | Null | Bool(b: bool) | Num(n: real) | Str(s: string)
    | Uuid(u: int) | Time(t: DateTime) | Bytes(bytes: seq<Byte>) | Member(enumName: string, text: string)
    | Record(cls: string, values: seq<Val>)
    | Tuple(items: seq<Val>) | List(items: seq<Val>) | Dict(entries: seq<Entry>)

  datatype Entry = Entry(key: string, value: Val)

  datatype Type =
    | PlainType  // a bool, a number or a string
    | UuidType | TimeType | BytesType | EnumType(name: string) | RecordType(cls: string)
    | OptionalType(inner: Type) | TupleType(item: Type) | ListType(item: Type) | DictType

  /** A field; `fallback` is its default, or what its default factory gives. */
  datatype Field = Field(name: string, ty: Type, fallback: Option<Val>, excluded: bool)

  datatype Env = Env(fields: map<string, seq<Field>>, members: map<string, seq<string>>)

  /** The conversions of the standard library. */
  datatype Codec = Codec(
    uuidText: int -> string, uuidOf: string -> Option<int>,
    timeText: DateTime -> string, timeOf: string -> Option<DateTime>,
    base64: seq<Byte> -> string, bytesOf: string -> Option<seq<Byte>>,
    text: Val -> string,                 // `str`
    toBytes: Val -> Option<seq<Byte>>)   // `bytes`

  ghost predicate Undoes(c: Codec) {
    && (forall u :: c.uuidOf(c.uuidText(u)) == Some(u))
    && (forall t :: c.timeOf(c.timeText(t)) == Some(t))
    && (forall b :: c.bytesOf(c.base64(b)) == Some(b))
    && (forall s :: c.text(Str(s)) == s)
  }

  datatype Error = MissingKey(name: string) | BadValue

  const BYTES_KEY := "__bytes_b64__"

  function FieldsOf(env: Env, cls: string): seq<Field> { if cls in env.fields then env.fields[cls] else [] }

  // ----- serialising -----

  function Serialize(env: Env, c: Codec, v: Val): Val
    decreases v
  {
    match v
    case Null => v
    case Bool(b) => v
    case Num(n) => v
    case Str(s) => v
    case Uuid(u) => Str(c.uuidText(u))
    case Time(t) => Str(c.timeText(t))
    case Bytes(b) => Dict([Entry(BYTES_KEY, Str(c.base64(b)))])
    case Member(e, text) => Str(text)
    case Record(cls, values) => Dict(ToDict(env, c, FieldsOf(env, cls), values))
    case Tuple(items) => List(seq(|items|, i requires 0 <= i < |items| => Serialize(env, c, items[i])))
    case List(items) => List(seq(|items|, i requires 0 <= i < |items| => Serialize(env, c, items[i])))
    case Dict(entries) => Dict(seq(|entries|, i requires 0 <= i < |entries| =>
        Entry(entries[i].key, Serialize(env, c, entries[i].value))))
  }

  /** `to_dict`: the fields that are not excluded, by name. */
  function ToDict(env: Env, c: Codec, fields: seq<Field>, values: seq<Val>): seq<Entry>
    decreases values
  {
    if fields == [] || values == [] then []
    else
      var rest := ToDict(env, c, fields[1..], values[1..]);
      if fields[0].excluded then rest else [Entry(fields[0].name, Serialize(env, c, values[0]))] + rest
  }

  // ----- deserialising -----

  function Lookup(entries: seq<Entry>, key: string): (r: Option<Val>)
    ensures r.Some? ==> Entry(key, r.value) in entries
  {
    if entries == [] then None
    else if entries[0].key == key then Some(entries[0].value)
    else Lookup(entries[1..], key)
  }

  function Deserialize(env: Env, c: Codec, v: Val, ty: Type): Result<Val, Error>
    decreases v, 1, ty
  {
    if v.Null? then Ok(Null)
    else
      match ty
      case OptionalType(inner) => Deserialize(env, c, v, inner)
      case UuidType =>
        var u := c.uuidOf(c.text(v));
        if u.Some? then Ok(Uuid(u.value)) else Raised(BadValue)
      case TimeType =>
        var t := c.timeOf(c.text(v));
        if t.None? then Raised(BadValue)
        else if t.value.offset.Some? then Ok(Time(t.value))
        else Ok(Time(t.value.(offset := Some(0))))
      case BytesType =>
        if v.Dict? && Lookup(v.entries, BYTES_KEY).Some? then
          var b := c.bytesOf(c.text(Lookup(v.entries, BYTES_KEY).value));
          if b.Some? then Ok(Bytes(b.value)) else Raised(BadValue)
        else
          var b := c.toBytes(v);
          if b.Some? then Ok(Bytes(b.value)) else Raised(BadValue)
      case EnumType(e) =>
        if e in env.members && c.text(v) in env.members[e] then Ok(Member(e, c.text(v))) else Raised(BadValue)
      case RecordType(cls) =>
        if !v.Dict? then Raised(BadValue)
        else
          var values := FromDict(env, c, v, FieldsOf(env, cls));
          if values.Ok? then Ok(Record(cls, values.value)) else Raised(values.error)
      case TupleType(item) =>
        if !(v.List? || v.Tuple?) then Raised(BadValue)
        else
          var items := DeserializeAll(env, c, v.items, item);
          if items.Ok? then Ok(Tuple(items.value)) else Raised(items.error)
      case ListType(item) =>
        if !(v.List? || v.Tuple?) then Raised(BadValue)
        else
          var items := DeserializeAll(env, c, v.items, item);
          if items.Ok? then Ok(List(items.value)) else Raised(items.error)
      case DictType => if v.Dict? then Ok(v) else Raised(BadValue)
      case PlainType => Ok(v)
  }

  /** The first value and then the rest, or what was raised first. */
  function Prepend(first: Result<Val, Error>, rest: Result<seq<Val>, Error>): Result<seq<Val>, Error> {
    if first.Raised? then Raised(first.error) else if rest.Raised? then rest else Ok([first.value] + rest.value)
  }

  function DeserializeAll(env: Env, c: Codec, items: seq<Val>, ty: Type): Result<seq<Val>, Error>
    decreases items, 0, ty
  {
    if items == [] then Ok([])
    else Prepend(Deserialize(env, c, items[0], ty), DeserializeAll(env, c, items[1..], ty))
  }

  /** A field from its entry, or else by its default. */
  function FieldValue(env: Env, c: Codec, payload: Val, f: Field): Result<Val, Error>
    requires payload.Dict?
    decreases payload, 0, 0
  {
    var found := Lookup(payload.entries, f.name);
    if found.Some? then Deserialize(env, c, found.value, f.ty)
    else if f.fallback.Some? then Ok(f.fallback.value)
    else Raised(MissingKey(f.name))
  }

  /** `from_dict`. */
  function FromDict(env: Env, c: Codec, payload: Val, fields: seq<Field>): Result<seq<Val>, Error>
    requires payload.Dict?
    decreases payload, 0, |fields|
  {
    if fields == [] then Ok([])
    else Prepend(FieldValue(env, c, payload, fields[0]), FromDict(env, c, payload, fields[1..]))
  }

  // ----- what is read from a payload -----

  /** When a payload that is not null is read as a value of a simple type, and as which. */
  ghost predicate ReadAs(env: Env, c: Codec, v: Val, ty: Type, w: Val) {
    match ty
    case PlainType => w == v
    case UuidType => w.Uuid? && c.uuidOf(c.text(v)) == Some(w.u)
    case TimeType =>
      && w.Time? && w.t.offset.Some?
      && (|| c.timeOf(c.text(v)) == Some(w.t)
          || (w.t.offset == Some(0) && c.timeOf(c.text(v)) == Some(w.t.(offset := None))))
    case BytesType =>
      w.Bytes? &&
      (match (if v.Dict? then Lookup(v.entries, "__bytes_b64__") else None)
       case Some(text) => c.bytesOf(c.text(text)) == Some(w.bytes)
       case None => c.toBytes(v) == Some(w.bytes))
    case EnumType(e) => e in env.members && c.text(v) in env.members[e] && w == Member(e, c.text(v))
    case DictType => v.Dict? && w == v
    case _ => false
  }

  predicate Simple(ty: Type) { !ty.OptionalType? && !ty.RecordType? && !ty.TupleType? && !ty.ListType? }

  /** A payload is read as the one value it stands for, and raises when it stands for none. */
  lemma SimpleExactly(env: Env, c: Codec, v: Val, ty: Type, w: Val)
    requires Simple(ty) && !v.Null?
    ensures Deserialize(env, c, v, ty) == Ok(w) <==> ReadAs(env, c, v, ty, w)
    ensures Deserialize(env, c, v, ty).Raised? ==> Deserialize(env, c, v, ty) == Raised(BadValue)
  {
    hide Lookup;
    if ty.TimeType? && c.timeOf(c.text(v)).Some? {
      var t := c.timeOf(c.text(v)).value;
      assert t.offset.None? ==> t.(offset := Some(0)).(offset := None) == t;
    }
  }

  /** A naive time does not come back: what comes back is that time in UTC. */
  lemma NaiveReturnsAsUtc(env: Env, c: Codec, clock: int)
    requires Undoes(c)
    ensures var naive, utc := Time(DateTime(clock, None)), Time(DateTime(clock, Some(0)));
            Deserialize(env, c, Serialize(env, c, naive), TimeType) == Ok(utc)
  {
  }

  /** A record has as many values as its class has fields, each read from its entry or else its default. */
  lemma RecordExactly(env: Env, c: Codec, payload: Val, cls: string, values: seq<Val>)
    requires payload.Dict? && cls in env.fields
    requires Deserialize(env, c, payload, RecordType(cls)) == Ok(Record(cls, values))
    ensures |values| == |env.fields[cls]|
    ensures forall i :: 0 <= i < |values| ==> FieldValue(env, c, payload, env.fields[cls][i]) == Ok(values[i])
  {
    FieldsRead(env, c, payload, env.fields[cls]);
  }

  lemma {:induction false} FieldsRead(env: Env, c: Codec, payload: Val, fields: seq<Field>)
    requires payload.Dict? && FromDict(env, c, payload, fields).Ok?
    ensures var values := FromDict(env, c, payload, fields).value;
            && |values| == |fields|
            && forall i :: 0 <= i < |values| ==> FieldValue(env, c, payload, fields[i]) == Ok(values[i])
    decreases |fields|
  {
    hide FieldValue;
    if fields != [] {
      FieldsRead(env, c, payload, fields[1..]);
      var values := FromDict(env, c, payload, fields).value;
      assert forall i :: 0 < i < |fields| ==> fields[i] == fields[1..][i - 1] && values[i] == values[1..][i - 1];
    }
  }

  // ----- the round trip -----

  ghost predicate DistinctKeys(entries: seq<Entry>) {
    forall i, j :: 0 <= i < j < |entries| ==> entries[i].key != entries[j].key
  }

  ghost predicate DistinctNames(fields: seq<Field>) {
    forall i, j :: 0 <= i < j < |fields| ==> fields[i].name != fields[j].name
  }

  ghost predicate GoodEnv(env: Env) { forall cls :: DistinctNames(FieldsOf(env, cls)) }

  ghost predicate WellTyped(env: Env, v: Val, ty: Type)
    decreases v, ty
  {
    match ty
    case OptionalType(inner) => v.Null? || WellTyped(env, v, inner)
    case PlainType => v.Bool? || v.Num? || v.Str?
    case UuidType => v.Uuid?
    case TimeType => v.Time?
    case BytesType => v.Bytes?
    case EnumType(e) => v.Member? && v.enumName == e && e in env.members && v.text in env.members[e]
    case RecordType(cls) =>
      && v.Record? && v.cls == cls && |v.values| == |FieldsOf(env, cls)|
      && forall i :: 0 <= i < |v.values| ==> WellTyped(env, v.values[i], FieldsOf(env, cls)[i].ty)
    case TupleType(item) => v.Tuple? && forall i :: 0 <= i < |v.items| ==> WellTyped(env, v.items[i], item)
    case ListType(item) => v.List? && forall i :: 0 <= i < |v.items| ==> WellTyped(env, v.items[i], item)
    case DictType => v.Dict? && DistinctKeys(v.entries)
  }

  /** Plain JSON. */
  predicate Plain(v: Val) {
    match v
    case Null => true
    case Bool(b) => true
    case Num(n) => true
    case Str(s) => true
    case Uuid(u) => false
    case Time(t) => false
    case Bytes(b) => false
    case Member(e, text) => false
    case Record(cls, values) => false
    case Tuple(items) => false
    case List(items) => forall i :: 0 <= i < |items| ==> Plain(items[i])
    case Dict(entries) => forall i :: 0 <= i < |entries| ==> Plain(entries[i].value)
  }

  /** Times are aware, dictionaries hold plain JSON, and excluded fields hold their defaults. */
  predicate Faithful(env: Env, v: Val)
    decreases v
  {
    match v
    case Null => true
    case Bool(b) => true
    case Num(n) => true
    case Str(s) => true
    case Uuid(u) => true
    case Time(t) => t.offset.Some?
    case Bytes(b) => true
    case Member(e, text) => true
    case Record(cls, values) =>
      forall i :: 0 <= i < |values| && i < |FieldsOf(env, cls)| ==>
        if FieldsOf(env, cls)[i].excluded then FieldsOf(env, cls)[i].fallback == Some(values[i])
        else Faithful(env, values[i])
    case Tuple(items) => forall i :: 0 <= i < |items| ==> Faithful(env, items[i])
    case List(items) => forall i :: 0 <= i < |items| ==> Faithful(env, items[i])
    case Dict(entries) => Plain(v)
  }

  /** The value comes back. */
  ghost predicate Returns(env: Env, c: Codec, v: Val, ty: Type) {
    Deserialize(env, c, Serialize(env, c, v), ty) == Ok(v)
  }

  lemma SerializedList(env: Env, c: Codec, v: Val)
    requires v.Tuple? || v.List?
    ensures var s := Serialize(env, c, v);
            && s.List? && |s.items| == |v.items|
            && forall i :: 0 <= i < |v.items| ==> s.items[i] == Serialize(env, c, v.items[i])
  {
  }

  lemma SerializedDict(env: Env, c: Codec, v: Val)
    requires v.Dict?
    ensures var s := Serialize(env, c, v);
            && s.Dict? && |s.entries| == |v.entries|
            && forall i :: 0 <= i < |v.entries| ==>
                 s.entries[i] == Entry(v.entries[i].key, Serialize(env, c, v.entries[i].value))
  {
  }

  /** Plain JSON is exactly what serialising leaves as it is. */
  lemma {:induction false} PlainExactly(env: Env, c: Codec, v: Val)
    ensures Serialize(env, c, v) == v <==> Plain(v)
    decreases v
  {
    if v.List? {
      forall i | 0 <= i < |v.items| ensures Serialize(env, c, v.items[i]) == v.items[i] <==> Plain(v.items[i]) {
        PlainExactly(env, c, v.items[i]);
      }
      SerializedList(env, c, v);
      hide Serialize;
      var s := Serialize(env, c, v);
      assert (forall i :: 0 <= i < |v.items| ==> s.items[i] == v.items[i]) ==> s.items == v.items;
    } else if v.Dict? {
      forall i | 0 <= i < |v.entries|
        ensures Serialize(env, c, v.entries[i].value) == v.entries[i].value <==> Plain(v.entries[i].value)
      {
        PlainExactly(env, c, v.entries[i].value);
      }
      SerializedDict(env, c, v);
      hide Serialize;
      var s := Serialize(env, c, v);
      assert (forall i :: 0 <= i < |v.entries| ==> s.entries[i] == v.entries[i]) ==> s.entries == v.entries;
    }
  }

  lemma SerializedNull(env: Env, c: Codec, v: Val)
    ensures Serialize(env, c, v) == Null <==> v == Null
  {
  }

  /** A list comes back exactly when each of its items does. */
  lemma {:induction false} ItemsReturn(env: Env, c: Codec, items: seq<Val>, serialized: seq<Val>, ty: Type)
    requires |serialized| == |items| && forall i :: 0 <= i < |items| ==> serialized[i] == Serialize(env, c, items[i])
    ensures DeserializeAll(env, c, serialized, ty) == Ok(items)
       <==> forall i :: 0 <= i < |items| ==> Returns(env, c, items[i], ty)
    decreases |items|
  {
    hide Serialize, Deserialize, Prepend;
    if items != [] {
      ItemsReturn(env, c, items[1..], serialized[1..], ty);
      assert items == [items[0]] + items[1..];
      PrependIs(Deserialize(env, c, serialized[0], ty), DeserializeAll(env, c, serialized[1..], ty),
                items[0], items[1..]);
      assert (forall i :: 0 <= i < |items| ==> Returns(env, c, items[i], ty)) <==>
          Returns(env, c, items[0], ty) && forall i :: 0 <= i < |items[1..]| ==> Returns(env, c, items[1..][i], ty) by {
        assert forall i :: 0 < i < |items| ==> items[i] == items[1..][i - 1];
      }
    }
  }

  ghost predicate NoKey(entries: seq<Entry>, key: string) { forall i :: 0 <= i < |entries| ==> entries[i].key != key }

  lemma {:induction false} LookupNone(entries: seq<Entry>, key: string)
    requires NoKey(entries, key)
    ensures Lookup(entries, key) == None
  {
    if entries != [] {
      LookupNone(entries[1..], key);
    }
  }

  lemma {:induction false} NoKeyInDict(env: Env, c: Codec, fields: seq<Field>, values: seq<Val>, key: string)
    requires forall i :: 0 <= i < |fields| ==> fields[i].name != key
    ensures NoKey(ToDict(env, c, fields, values), key)
    decreases |fields|
  {
    hide Serialize;
    if fields != [] && values != [] {
      NoKeyInDict(env, c, fields[1..], values[1..], key);
    }
  }

  lemma ToDictUnfold(env: Env, c: Codec, fields: seq<Field>, values: seq<Val>)
    requires fields != [] && values != []
    ensures var rest := ToDict(env, c, fields[1..], values[1..]);
            var e := Entry(fields[0].name, Serialize(env, c, values[0]));
            ToDict(env, c, fields, values) == if fields[0].excluded then rest else [e] + rest
  {
    hide Serialize;
  }

  lemma LookupCons(e: Entry, rest: seq<Entry>, key: string)
    ensures Lookup([e] + rest, key) == if e.key == key then Some(e.value) else Lookup(rest, key)
  {
    assert ([e] + rest)[1..] == rest;
  }

  /** What `to_dict` holds under a field's name. */
  lemma {:induction false} LookupField(env: Env, c: Codec, fields: seq<Field>, values: seq<Val>, i: nat)
    requires DistinctNames(fields) && |fields| == |values| && i < |fields|
    ensures Lookup(ToDict(env, c, fields, values), fields[i].name)
         == if fields[i].excluded then None else Some(Serialize(env, c, values[i]))
    decreases |fields|
  {
    ToDictUnfold(env, c, fields, values);
    hide Serialize, ToDict, Lookup;
    var rest, e := ToDict(env, c, fields[1..], values[1..]), Entry(fields[0].name, Serialize(env, c, values[0]));
    if i == 0 {
      NoKeyInDict(env, c, fields[1..], values[1..], fields[0].name);
      LookupNone(rest, fields[0].name);
      LookupCons(e, rest, fields[0].name);
    } else {
      LookupField(env, c, fields[1..], values[1..], i - 1);
      LookupCons(e, rest, fields[i].name);
    }
  }

  ghost predicate FieldReturns(env: Env, c: Codec, f: Field, v: Val) {
    if f.excluded then f.fallback == Some(v) else Returns(env, c, v, f.ty)
  }

  ghost predicate ReturnFrom(env: Env, c: Codec, fields: seq<Field>, values: seq<Val>, k: nat)
    requires |fields| == |values|
  {
    forall i :: k <= i < |fields| ==> FieldReturns(env, c, fields[i], values[i])
  }

  lemma ReturnFromNext(env: Env, c: Codec, fields: seq<Field>, values: seq<Val>, k: nat)
    requires |fields| == |values| && k < |fields|
    ensures ReturnFrom(env, c, fields, values, k)
       <==> FieldReturns(env, c, fields[k], values[k]) && ReturnFrom(env, c, fields, values, k + 1)
  {
  }

  lemma PrependIs(first: Result<Val, Error>, rest: Result<seq<Val>, Error>, v: Val, vs: seq<Val>)
    ensures Prepend(first, rest) == Ok([v] + vs) <==> first == Ok(v) && rest == Ok(vs)
  {
    if Prepend(first, rest) == Ok([v] + vs) {
      var got, want := [first.value] + rest.value, [v] + vs;
      assert got[0] == want[0] && got[1..] == rest.value && want[1..] == vs;
    }
  }

  lemma FieldReturnsExactly(env: Env, c: Codec, fields: seq<Field>, values: seq<Val>, k: nat)
    requires DistinctNames(fields) && |fields| == |values| && k < |fields|
    ensures FieldValue(env, c, Dict(ToDict(env, c, fields, values)), fields[k]) == Ok(values[k])
       <==> FieldReturns(env, c, fields[k], values[k])
  {
    LookupField(env, c, fields, values, k);
    hide Serialize, Deserialize, ToDict, Lookup;
  }

  lemma {:induction false} FieldsReturn(env: Env, c: Codec, fields: seq<Field>, values: seq<Val>, payload: Val, k: nat)
    requires DistinctNames(fields) && |fields| == |values| && k <= |fields|
    requires payload == Dict(ToDict(env, c, fields, values))
    ensures FromDict(env, c, payload, fields[k..]) == Ok(values[k..])
       <==> ReturnFrom(env, c, fields, values, k)
    decreases |fields| - k
  {
    if k < |fields| {
      hide Serialize, Deserialize, ToDict, Lookup, FieldValue, FieldReturns, DistinctNames, Prepend;
      FieldsReturn(env, c, fields, values, payload, k + 1);
      FieldReturnsExactly(env, c, fields, values, k);
      ReturnFromNext(env, c, fields, values, k);
      assert fields[k..][1..] == fields[k + 1..];
      assert values[k..] == [values[k]] + values[k + 1..];
      var first, rest := FieldValue(env, c, payload, fields[k]), FromDict(env, c, payload, fields[k + 1..]);
      assert FromDict(env, c, payload, fields[k..]) == Prepend(first, rest);
      hide FromDict;
      PrependIs(first, rest, values[k], values[k + 1..]);
      assert FromDict(env, c, payload, fields[k..]) == Ok(values[k..])
          <==> FieldReturns(env, c, fields[k], values[k]) && rest == Ok(values[k + 1..]);
      hide ReturnFrom;
    } else {
      assert fields[k..] == [] && values[k..] == [];
    }
  }

  lemma ScalarReturns(env: Env, c: Codec, v: Val, ty: Type)
    requires Undoes(c) && WellTyped(env, v, ty)
    requires ty.PlainType? || ty.UuidType? || ty.TimeType? || ty.BytesType? || ty.EnumType?
    ensures Returns(env, c, v, ty) <==> Faithful(env, v)
  {
  }

  /** Deserialising the serialised form of a well-typed value at its type gives back the value - through nested
      records, optionals, tuples and lists - if and only if its times are aware, its dictionaries hold only plain
      JSON and its excluded fields hold their defaults. */
  lemma {:induction false} RoundTrip(env: Env, c: Codec, v: Val, ty: Type)
    requires Undoes(c) && GoodEnv(env) && WellTyped(env, v, ty)
    ensures Returns(env, c, v, ty) <==> Faithful(env, v)
    decreases v, ty
  {
    hide Undoes, GoodEnv, DistinctNames;
    if ty.OptionalType? {
      if !v.Null? {
        SerializedNull(env, c, v);
        RoundTrip(env, c, v, ty.inner);
        hide Serialize, Faithful;
      }
    } else if ty.TupleType? || ty.ListType? {
      ItemsRoundTrip(env, c, v, ty);
    } else if ty.RecordType? {
      RecordRoundTrip(env, c, v, ty);
    } else if ty.DictType? {
      SerializedDict(env, c, v);
      PlainExactly(env, c, v);
      hide Serialize, Plain;
    } else {
      ScalarReturns(env, c, v, ty);
    }
  }

  lemma {:induction false} ItemsRoundTrip(env: Env, c: Codec, v: Val, ty: Type)
    requires Undoes(c) && GoodEnv(env) && WellTyped(env, v, ty) && (ty.TupleType? || ty.ListType?)
    ensures Returns(env, c, v, ty) <==> Faithful(env, v)
    decreases v, ty, 0
  {
    hide Undoes, GoodEnv;
    forall i | 0 <= i < |v.items|
      ensures Returns(env, c, v.items[i], ty.item) <==> Faithful(env, v.items[i])
    {
      RoundTrip(env, c, v.items[i], ty.item);
    }
    SerializedList(env, c, v);
    ItemsReturn(env, c, v.items, Serialize(env, c, v).items, ty.item);
    hide Serialize, WellTyped, DeserializeAll;
  }

  lemma {:induction false} RecordRoundTrip(env: Env, c: Codec, v: Val, ty: Type)
    requires Undoes(c) && GoodEnv(env) && WellTyped(env, v, ty) && ty.RecordType?
    ensures Returns(env, c, v, ty) <==> Faithful(env, v)
    decreases v, ty, 0
  {
    hide Undoes;
    var fields := FieldsOf(env, ty.cls);
    forall i | 0 <= i < |fields|
      ensures Returns(env, c, v.values[i], fields[i].ty) <==> Faithful(env, v.values[i])
    {
      RoundTrip(env, c, v.values[i], fields[i].ty);
    }
    var payload := Serialize(env, c, v);
    assert payload == Dict(ToDict(env, c, fields, v.values));
    FieldsReturn(env, c, fields, v.values, payload, 0);
    assert fields[0..] == fields && v.values[0..] == v.values;
    hide Serialize, WellTyped, FromDict, ToDict, GoodEnv, DistinctNames;
  }
}
