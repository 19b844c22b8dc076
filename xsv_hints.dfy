/** The CSV and TSV hint records of a table input, their per-column field hints,
    and how encoding/json writes and reads them: omitempty drops nil pointers and
    empty lists, and decoding walks an object's members in order, storing each
    into the field whose JSON name matches its key case-insensitively. */
module XsvHints {
  import opened Wrappers
  import opened Text
  import opened Json

  /** TableInputXSVHintsFieldModel. `None` is a nil pointer; an empty list stands
      for both nil and empty slices. */
  datatype FieldHint = FieldHint(
    name: Option<string>,
    typ: Option<string>,
    defaultValue: Option<string>,
    format: Option<string>,
    allowEmpty: Option<bool>,
    noIndex: Option<bool>,
    trueValues: seq<string>,
    falseValues: seq<string>,
    missingValues: seq<string>)

  /** The zero TableInputXSVHintsFieldModel. */
  const NoFieldHint := FieldHint(None, None, None, None, None, None, [], [], [])

  /** TableInputCSVHintModel. */
  datatype CsvHints = CsvHints(
    separator: Option<string>,
    skipRecords: Option<Int64>,
    missingValues: seq<string>,
    fields: seq<FieldHint>)

  const NoCsvHints := CsvHints(None, None, [], [])

  /** TableInputTSVHintModel: the CSV record without a separator. */
  datatype TsvHints = TsvHints(
    skipRecords: Option<Int64>,
    missingValues: seq<string>,
    fields: seq<FieldHint>)

  const NoTsvHints := TsvHints(None, [], [])

  // ---------------------------------------------------------------------------
  // Encoding: struct fields in declaration order, omitempty applied

  function OptString(key: string, o: Option<string>): (ms: seq<Member>)
    ensures |ms| <= 1
  {
    if o.Some? then [Member(key, String(o.value))] else []
  }

  function OptBool(key: string, o: Option<bool>): (ms: seq<Member>)
    ensures |ms| <= 1
  {
    if o.Some? then [Member(key, Bool(o.value))] else []
  }

  function OptInt(key: string, o: Option<Int64>): (ms: seq<Member>)
    ensures |ms| <= 1
  {
    if o.Some? then [Member(key, Number(o.value as int))] else []
  }

  function OptStrings(key: string, xs: seq<string>): (ms: seq<Member>)
    ensures |ms| <= 1
  {
    if |xs| > 0 then [Member(key, Array(Strings(xs)))] else []
  }

  function EncodeField(f: FieldHint): Value
  {
    Object(OptString("name", f.name) + OptString("type", f.typ) + OptString("default", f.defaultValue)
      + OptString("format", f.format) + OptBool("allowEmpty", f.allowEmpty) + OptBool("noIndex", f.noIndex)
      + OptStrings("trueValues", f.trueValues) + OptStrings("falseValues", f.falseValues)
      + OptStrings("missingValues", f.missingValues))
  }

  function EncodeFields(fs: seq<FieldHint>): (vs: seq<Value>)
    ensures |vs| == |fs|
    ensures forall i :: 0 <= i < |fs| ==> vs[i] == EncodeField(fs[i])
  {
    seq(|fs|, i requires 0 <= i < |fs| => EncodeField(fs[i]))
  }

  function OptFields(fs: seq<FieldHint>): (ms: seq<Member>)
    ensures |ms| <= 1
  {
    if |fs| > 0 then [Member("fields", Array(EncodeFields(fs)))] else []
  }

  function EncodeCsv(h: CsvHints): (v: Value)
    ensures v.Object?
    ensures v == Object([]) <==> h == NoCsvHints
  {
    Object(OptString("separator", h.separator) + OptInt("skip_records", h.skipRecords)
      + OptStrings("missing_values", h.missingValues) + OptFields(h.fields))
  }

  function EncodeTsv(h: TsvHints): (v: Value)
    ensures v.Object?
    ensures v == Object([]) <==> h == NoTsvHints
  {
    Object(OptInt("skip_records", h.skipRecords) + OptStrings("missing_values", h.missingValues)
      + OptFields(h.fields))
  }

  // ---------------------------------------------------------------------------
  // Decoding one JSON value into one Go field

  /** Into a *string: null clears the pointer. */
  function StringField(v: Value): Result<Option<string>>
  {
    match v
    case Null => Ok(None)
    case String(s) => Ok(Some(s))
    case _ => Err(TypeMismatch)
  }

  /** Into a *bool. */
  function BoolField(v: Value): Result<Option<bool>>
  {
    match v
    case Null => Ok(None)
    case Bool(b) => Ok(Some(b))
    case _ => Err(TypeMismatch)
  }

  /** Into an *int64: a number outside the 64-bit range does not fit. */
  function IntField(v: Value): (r: Result<Option<Int64>>)
    ensures v.Number? ==> (r.Ok? <==> -0x8000_0000_0000_0000 <= v.n < 0x8000_0000_0000_0000)
  {
    match v
    case Null => Ok(None)
    case Number(n) =>
      if -0x8000_0000_0000_0000 <= n < 0x8000_0000_0000_0000 then Ok(Some(n as Int64))
      else Err(TypeMismatch)
    case _ => Err(TypeMismatch)
  }

  /** Into a []string: null clears the slice. */
  function StringsField(v: Value): Result<seq<string>>
  {
    match v
    case Null => Ok([])
    case Array(items) => StringsOf(items)
    case _ => Err(TypeMismatch)
  }

  // ---------------------------------------------------------------------------
  // Decoding a field hint

  /** The struct field a key selects, matched case-insensitively. */
  datatype FieldKey =
    | NameKey | TypeKey | DefaultKey | FormatKey | AllowEmptyKey | NoIndexKey
    | TrueValuesKey | FalseValuesKey | MissingValuesKey | UnknownFieldKey

  function FieldKeyOf(key: string): FieldKey
  {
    var n := Lower(key);
    if n == "name" then NameKey
    else if n == "type" then TypeKey
    else if n == "default" then DefaultKey
    else if n == "format" then FormatKey
    else if n == "allowempty" then AllowEmptyKey
    else if n == "noindex" then NoIndexKey
    else if n == "truevalues" then TrueValuesKey
    else if n == "falsevalues" then FalseValuesKey
    else if n == "missingvalues" then MissingValuesKey
    else UnknownFieldKey
  }

  /** One member stored into `f`; an unknown key changes nothing. */
  function FieldMember(m: Member, f: FieldHint): Result<FieldHint>
  {
    match FieldKeyOf(m.key)
    case NameKey => var x :- StringField(m.value); Ok(f.(name := x))
    case TypeKey => var x :- StringField(m.value); Ok(f.(typ := x))
    case DefaultKey => var x :- StringField(m.value); Ok(f.(defaultValue := x))
    case FormatKey => var x :- StringField(m.value); Ok(f.(format := x))
    case AllowEmptyKey => var x :- BoolField(m.value); Ok(f.(allowEmpty := x))
    case NoIndexKey => var x :- BoolField(m.value); Ok(f.(noIndex := x))
    case TrueValuesKey => var x :- StringsField(m.value); Ok(f.(trueValues := x))
    case FalseValuesKey => var x :- StringsField(m.value); Ok(f.(falseValues := x))
    case MissingValuesKey => var x :- StringsField(m.value); Ok(f.(missingValues := x))
    case UnknownFieldKey => Ok(f)
  }

  /** One element of a "fields" array: a fresh record; null leaves it zero. */
  function FieldValue(v: Value): Result<FieldHint>
  {
    match v
    case Null => Ok(NoFieldHint)
    case Object(ms) => StoreMembers(ms, NoFieldHint, FieldMember)
    case _ => Err(TypeMismatch)
  }

  function FieldValues(items: seq<Value>): (r: Result<seq<FieldHint>>)
    ensures r.Ok? ==> |r.value| == |items|
  {
    if items == [] then Ok([])
    else
      var f :- FieldValue(items[0]);
      var rest :- FieldValues(items[1..]);
      Ok([f] + rest)
  }

  /** Into a []TableInputXSVHintsFieldModel. */
  function FieldsField(v: Value): Result<seq<FieldHint>>
  {
    match v
    case Null => Ok([])
    case Array(items) => FieldValues(items)
    case _ => Err(TypeMismatch)
  }

  // ---------------------------------------------------------------------------
  // Decoding the CSV and TSV records

  datatype XsvKey = SeparatorKey | SkipRecordsKey | MissingKey | FieldsKey | UnknownXsvKey

  function XsvKeyOf(key: string): XsvKey
  {
    var n := Lower(key);
    if n == "separator" then SeparatorKey
    else if n == "skip_records" then SkipRecordsKey
    else if n == "missing_values" then MissingKey
    else if n == "fields" then FieldsKey
    else UnknownXsvKey
  }

  function CsvMember(m: Member, h: CsvHints): Result<CsvHints>
  {
    match XsvKeyOf(m.key)
    case SeparatorKey => var x :- StringField(m.value); Ok(h.(separator := x))
    case SkipRecordsKey => var x :- IntField(m.value); Ok(h.(skipRecords := x))
    case MissingKey => var x :- StringsField(m.value); Ok(h.(missingValues := x))
    case FieldsKey => var x :- FieldsField(m.value); Ok(h.(fields := x))
    case UnknownXsvKey => Ok(h)
  }

  /** The TSV record has no separator: that key is ignored like any unknown one. */
  function TsvMember(m: Member, h: TsvHints): Result<TsvHints>
  {
    match XsvKeyOf(m.key)
    case SkipRecordsKey => var x :- IntField(m.value); Ok(h.(skipRecords := x))
    case MissingKey => var x :- StringsField(m.value); Ok(h.(missingValues := x))
    case FieldsKey => var x :- FieldsField(m.value); Ok(h.(fields := x))
    case _ => Ok(h)
  }

  /** A *TableInputCSVHintModel field: null clears it, an object is decoded into
      the record already there (a fresh one when there is none). */
  function CsvField(v: Value, cur: Option<CsvHints>): (r: Result<Option<CsvHints>>)
    ensures v.Null? ==> r == Ok(None)
    ensures r.Ok? ==> v.Null? || v.Object?
    ensures r.Ok? && v.Object? ==> r.value.Some?
  {
    match v
    case Null => Ok(None)
    case Object(ms) =>
      var h :- StoreMembers(ms, if cur.Some? then cur.value else NoCsvHints, CsvMember);
      Ok(Some(h))
    case _ => Err(TypeMismatch)
  }

  function TsvField(v: Value, cur: Option<TsvHints>): (r: Result<Option<TsvHints>>)
    ensures v.Null? ==> r == Ok(None)
    ensures r.Ok? ==> v.Null? || v.Object?
    ensures r.Ok? && v.Object? ==> r.value.Some?
  {
    match v
    case Null => Ok(None)
    case Object(ms) =>
      var h :- StoreMembers(ms, if cur.Some? then cur.value else NoTsvHints, TsvMember);
      Ok(Some(h))
    case _ => Err(TypeMismatch)
  }
}
