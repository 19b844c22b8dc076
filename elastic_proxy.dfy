/** ElasticProxyTypeMapping: an Elastic field type, written as a bare string when
    it has no sub-fields and as an object {"type", "fields"} otherwise, and read
    from either form. */
module ElasticProxy {
  import opened Wrappers
  import opened Text
  import opened Json

  /** `fields` is None for a nil map, and Some for a map that exists, even an
      empty one. */
  datatype TypeMapping = TypeMapping(typ: string, fields: Option<map<string, string>>)

  /** The zero ElasticProxyTypeMapping. */
  const NoMapping := TypeMapping("", None)

  /** The sub-fields as a map, nil read as empty. */
  function FieldsOf(tm: TypeMapping): map<string, string>
  {
    if tm.fields.Some? then tm.fields.value else map[]
  }

  // ---------------------------------------------------------------------------
  // Encoding

  /** The members of a JSON object holding `m`'s entries for the keys `ks`. */
  function Entries(ks: seq<string>, m: map<string, string>): (ms: seq<Member>)
    requires forall i :: 0 <= i < |ks| ==> ks[i] in m
    ensures |ms| == |ks|
    ensures forall i :: 0 <= i < |ks| ==> ms[i] == Member(ks[i], String(m[ks[i]]))
  {
    seq(|ks|, i requires 0 <= i < |ks| => Member(ks[i], String(m[ks[i]])))
  }

  /** The members a map[string]string is written as by encoding/json: one per
      entry, keys sorted. */
  ghost function MapMembers(m: map<string, string>): (ms: seq<Member>)
    ensures |ms| == |m|
    ensures forall i :: 0 <= i < |ms| ==> ms[i].key in m && ms[i].value == String(m[ms[i].key])
    ensures forall k :: k in m ==> k in Keys(ms)
  {
    var ks := SortedKeys(m.Keys);
    assert forall i :: 0 <= i < |ks| ==> ks[i] in m by {
      forall i | 0 <= i < |ks| ensures ks[i] in m {
        assert ks[i] in ks;
      }
    }
    var ms := Entries(ks, m);
    assert Keys(ms) == ks;
    ms
  }

  /** The map's keys are written in increasing order. */
  lemma MapMembersSorted(m: map<string, string>)
    ensures Sorted(Keys(MapMembers(m)))
  {
    var ks := SortedKeys(m.Keys);
    SortedKeysOrdered(m.Keys);
    assert forall i :: 0 <= i < |ks| ==> ks[i] in m by {
      forall i | 0 <= i < |ks| ensures ks[i] in m {
        assert ks[i] in ks;
      }
    }
    assert Keys(MapMembers(m)) == ks;
  }

  /** A map[string]string as encoding/json writes it: an object. */
  ghost function EncodeMap(m: map<string, string>): Value
  {
    Object(MapMembers(m))
  }

  /** MarshalJSON: with no sub-fields (nil or empty) only the type name is
      written, as a string; otherwise the struct, "type" then "fields". */
  ghost function Marshal(tm: TypeMapping): (v: Value)
    ensures v.String? <==> |FieldsOf(tm)| == 0
    ensures v.String? ==> v.s == tm.typ
    ensures v.Object? ==> |v.members| == 2 && v.members[0] == Member("type", String(tm.typ))
                          && v.members[1] == Member("fields", EncodeMap(FieldsOf(tm)))
  {
    if |FieldsOf(tm)| == 0 then String(tm.typ)
    else Object([Member("type", String(tm.typ)), Member("fields", EncodeMap(FieldsOf(tm)))])
  }

  // ---------------------------------------------------------------------------
  // Decoding

  /** One member of the "fields" object into the map: a string is stored under
      the member's key as it is, null stores the empty string. */
  function EntryMember(m: Member, f: map<string, string>): Result<map<string, string>>
  {
    match m.value
    case String(s) => Ok(f[m.key := s])
    case Null => Ok(f[m.key := ""])
    case _ => Err(TypeMismatch)
  }

  datatype MappingKey = TypeName | FieldsName | OtherName

  function MappingKeyOf(key: string): MappingKey
  {
    var n := Lower(key);
    if n == "type" then TypeName else if n == "fields" then FieldsName else OtherName
  }

  /** One member into the struct. Null leaves the type name as it is and sets the
      map to nil; an object is decoded into the map already there. */
  function MappingMember(m: Member, tm: TypeMapping): Result<TypeMapping>
  {
    match MappingKeyOf(m.key)
    case TypeName =>
      (match m.value
       case String(s) => Ok(tm.(typ := s))
       case Null => Ok(tm)
       case _ => Err(TypeMismatch))
    case FieldsName =>
      (match m.value
       case Null => Ok(tm.(fields := None))
       case Object(ms) =>
         var f :- StoreMembers(ms, FieldsOf(tm), EntryMember);
         Ok(tm.(fields := Some(f)))
       case _ => Err(TypeMismatch))
    case OtherName => Ok(tm)
  }

  /** The first attempt: json.Unmarshal into the receiver as a plain struct.
      Null changes nothing. */
  function DecodeStruct(v: Value, tm: TypeMapping): Result<TypeMapping>
  {
    match v
    case Null => Ok(tm)
    case Object(ms) => StoreMembers(ms, tm, MappingMember)
    case _ => Err(TypeMismatch)
  }

  /** UnmarshalJSON into a receiver holding `tm`: the struct form, and when that
      fails, a bare string naming the type with an empty, non-nil map. */
  function Unmarshal(v: Value, tm: TypeMapping): (r: Result<TypeMapping>)
    ensures r.Ok? ==> v.Null? || v.String? || v.Object?
    ensures v.String? ==> r.Ok? && r.value.typ == v.s && r.value.fields == Some(map[])
  {
    match DecodeStruct(v, tm)
    case Ok(r) => Ok(r)
    case Err(_) =>
      match v
      case String(s) => Ok(TypeMapping(s, Some(map[])))
      case _ => Err(TypeMismatch)
  }

  // ---------------------------------------------------------------------------
  // Properties

  /** Storing the entries for `ks` adds exactly those entries of `m` to `acc`. */
  lemma {:induction false} StoreEntries(ks: seq<string>, m: map<string, string>, acc: map<string, string>)
    requires forall i :: 0 <= i < |ks| ==> ks[i] in m
    ensures var r := StoreMembers(Entries(ks, m), acc, EntryMember);
      && r.Ok?
      && (forall k :: k in r.value <==> k in acc || k in ks)
      && (forall k :: k in r.value ==> r.value[k] == if k in ks then m[k] else acc[k])
  {
    var es := Entries(ks, m);
    if ks != [] {
      var next := acc[ks[0] := m[ks[0]]];
      assert EntryMember(es[0], acc) == Ok(next);
      assert es[1..] == Entries(ks[1..], m);
      StoreEntries(ks[1..], m, next);
    }
  }

  /** Storing the entries for keys covering all of `m` adds `m` to `acc`. */
  lemma StoreAllEntries(ks: seq<string>, m: map<string, string>, acc: map<string, string>)
    requires forall i :: 0 <= i < |ks| ==> ks[i] in m
    requires forall k :: k in m ==> k in ks
    ensures StoreMembers(Entries(ks, m), acc, EntryMember) == Ok(acc + m)
  {
    StoreEntries(ks, m, acc);
    var r := StoreMembers(Entries(ks, m), acc, EntryMember).value;
    assert r == acc + m;
  }

  /** An encoded map decodes, into the map already held, as that map updated
      with every entry. */
  lemma DecodeEncodedMap(m: map<string, string>, acc: map<string, string>)
    ensures StoreMembers(MapMembers(m), acc, EntryMember) == Ok(acc + m)
  {
    var ks := SortedKeys(m.Keys);
    forall i | 0 <= i < |ks| ensures ks[i] in m {
      assert ks[i] in ks;
    }
    assert MapMembers(m) == Entries(ks, m);
    StoreAllEntries(ks, m, acc);
  }

  /** A member whose key reads as "type" stores its string as the type name. */
  lemma TypeMemberStores(key: string, s: string, tm: TypeMapping)
    requires MappingKeyOf(key) == TypeName
    ensures MappingMember(Member(key, String(s)), tm) == Ok(tm.(typ := s))
  {
  }

  /** A member whose key reads as "fields" decodes its object into the map held. */
  lemma FieldsMemberStores(key: string, ms: seq<Member>, tm: TypeMapping, f: map<string, string>)
    requires MappingKeyOf(key) == FieldsName
    requires StoreMembers(ms, FieldsOf(tm), EntryMember) == Ok(f)
    ensures MappingMember(Member(key, Object(ms)), tm) == Ok(tm.(fields := Some(f)))
  {
  }

  /** The "fields" member written for `m` adds its entries to the map held. */
  lemma FieldsMemberDecodes(m: map<string, string>, tm: TypeMapping)
    ensures MappingMember(Member("fields", EncodeMap(m)), tm) == Ok(tm.(fields := Some(FieldsOf(tm) + m)))
  {
    FieldsKeyLiteral();
    DecodeEncodedMap(m, FieldsOf(tm));
    FieldsMemberStores("fields", MapMembers(m), tm, FieldsOf(tm) + m);
  }

  lemma TypeKeyLiteral()
    ensures MappingKeyOf("type") == TypeName && MappingKeyOf("TYPE") == TypeName
  {
    assert Lower("type") == "type";
    assert Lower("TYPE") == "type";
  }

  lemma FieldsKeyLiteral()
    ensures MappingKeyOf("fields") == FieldsName
  {
    assert Lower("fields") == "fields";
  }

  /** Decoding what MarshalJSON wrote, into a receiver holding `prev`: the type
      name is restored; the bare-string form gives an empty map, and the object
      form adds the entries to the map the receiver already held. */
  lemma DecodeEncoded(tm: TypeMapping, prev: TypeMapping)
    ensures Unmarshal(Marshal(tm), prev)
         == if |FieldsOf(tm)| == 0 then Ok(TypeMapping(tm.typ, Some(map[])))
            else Ok(TypeMapping(tm.typ, Some(FieldsOf(prev) + FieldsOf(tm))))
  {
    if |FieldsOf(tm)| != 0 {
      DecodeObjectForm(tm.typ, FieldsOf(tm), prev);
    }
  }

  lemma DecodeObjectForm(typ: string, f: map<string, string>, prev: TypeMapping)
    ensures DecodeStruct(Object([Member("type", String(typ)), Member("fields", EncodeMap(f))]), prev)
         == Ok(TypeMapping(typ, Some(FieldsOf(prev) + f)))
  {
    var t1 := prev.(typ := typ);
    TypeKeyLiteral();
    TypeMemberStores("type", typ, prev);
    FieldsMemberDecodes(f, t1);
    assert FieldsOf(t1) == FieldsOf(prev);
    StorePair(Member("type", String(typ)), Member("fields", EncodeMap(f)), prev, t1,
              t1.(fields := Some(FieldsOf(prev) + f)), MappingMember);
  }

  /** Round trip into a fresh receiver: the type name exactly, and the sub-fields
      with equal contents, an empty map standing for nil. */
  lemma RoundTrip(tm: TypeMapping)
    ensures Unmarshal(Marshal(tm), NoMapping) == Ok(TypeMapping(tm.typ, Some(FieldsOf(tm))))
  {
    DecodeEncoded(tm, NoMapping);
    EmptyMerge(FieldsOf(tm));
  }

  lemma EmptyMerge(f: map<string, string>)
    ensures |f| == 0 ==> f == map[]
    ensures map[] + f == f
  {
    if |f| == 0 {
      assert f.Keys == {};
    }
  }

  /** What is read back writes the same document again. */
  lemma MarshalStable(tm: TypeMapping)
    ensures Unmarshal(Marshal(tm), NoMapping).Ok?
    ensures Marshal(Unmarshal(Marshal(tm), NoMapping).value) == Marshal(tm)
  {
    RoundTrip(tm);
  }

  /** A bare string names the type and gives an empty, non-nil map, whatever the
      receiver held. */
  lemma StringForm(s: string, prev: TypeMapping)
    ensures Unmarshal(String(s), prev) == Ok(TypeMapping(s, Some(map[])))
  {
  }

  /** A value of neither form is rejected, and so is an object whose members do
      not fit, even though its "type" alone would. */
  lemma NeitherForm(v: Value, prev: TypeMapping, s: string, n: int)
    ensures (v.Number? || v.Bool? || v.Array?) ==> Unmarshal(v, prev) == Err(TypeMismatch)
    ensures Unmarshal(Object([Member("type", String(s)), Member("fields", Number(n))]), prev) == Err(TypeMismatch)
  {
    TypeKeyLiteral();
    FieldsKeyLiteral();
    StoreCons(Member("type", String(s)), [Member("fields", Number(n))], prev, MappingMember);
    StoreCons(Member("fields", Number(n)), [], prev.(typ := s), MappingMember);
    assert [Member("type", String(s))] + [Member("fields", Number(n))]
        == [Member("type", String(s)), Member("fields", Number(n))];
  }

  /** A null document leaves the receiver as it was. */
  lemma NullKeepsReceiver(tm: TypeMapping)
    ensures Unmarshal(Null, tm) == Ok(tm)
  {
  }

  /** The struct's keys are matched case-insensitively, and a struct without
      "fields" keeps the receiver's map. */
  lemma KeysIgnoreCase(s: string, prev: TypeMapping)
    ensures Unmarshal(Object([Member("TYPE", String(s))]), prev) == Ok(prev.(typ := s))
  {
    TypeKeyLiteral();
    StoreCons(Member("TYPE", String(s)), [], prev, MappingMember);
    assert [Member("TYPE", String(s))] + [] == [Member("TYPE", String(s))];
  }
}
