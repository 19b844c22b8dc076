/** TableInputModel: one input of a table (an object-store pattern, an optional
    format, and the hints for the format's family), its hand-assembled JSON
    encoding, and its two-pass decoding. */
module TableInput {
  import opened Wrappers
  import opened Json
  import opened Text
  import opened JsonHints
  import opened XsvHints

  /** The fields of a TableInputModel. An empty rule list stands for both a nil
      and an empty JSONHints slice. */
  datatype Input = Input(
    pattern: string,
    format: Option<string>,
    jsonHints: seq<Rule>,
    csvHints: Option<CsvHints>,
    tsvHints: Option<TsvHints>)

  const NoInput := Input("", None, [], None, None)

  // ---------------------------------------------------------------------------
  // Format families

  datatype Family = JsonFamily | CsvFamily | TsvFamily | NoFamily

  /** strings.TrimPrefix(s, "."): at most one leading dot is removed. */
  function TrimDot(s: string): string
  {
    if |s| > 0 && s[0] == '.' then s[1..] else s
  }

  /** The hint family the format selects; no format means "json". Only the nine
      exact names (after trimming one dot) select a family. */
  function FamilyOf(format: Option<string>): Family
  {
    var f := if format.None? then "json" else TrimDot(format.value);
    if f == "json" || f == "json.gz" || f == "json.zst" then JsonFamily
    else if f == "csv" || f == "csv.gz" || f == "csv.zst" then CsvFamily
    else if f == "tsv" || f == "tsv.gz" || f == "tsv.zst" then TsvFamily
    else NoFamily
  }

  // ---------------------------------------------------------------------------
  // Encoding (MarshalJSON)

  /** The "hints" member for the JSON rules, written when there are any. */
  function JsonPart(rules: seq<Rule>): (ms: seq<Member>)
    ensures |ms| <= 1
  {
    if |rules| > 0 then [Member("hints", EncodeRules(rules))] else []
  }

  function CsvPart(h: Option<CsvHints>): (ms: seq<Member>)
    ensures |ms| <= 1
  {
    if h.Some? then [Member("hints", EncodeCsv(h.value))] else []
  }

  function TsvPart(h: Option<TsvHints>): (ms: seq<Member>)
    ensures |ms| <= 1
  {
    if h.Some? then [Member("hints", EncodeTsv(h.value))] else []
  }

  /** The document MarshalJSON writes: "pattern", then "format" when set, then a
      "hints" member for each populated slot, JSON before CSV before TSV. */
  function Encode(t: Input): (v: Value)
    ensures v.Object? && |v.members| >= 1 && v.members[0].key == "pattern"
  {
    Object([Member("pattern", String(t.pattern))] + OptString("format", t.format)
      + JsonPart(t.jsonHints) + CsvPart(t.csvHints) + TsvPart(t.tsvHints))
  }

  // ---------------------------------------------------------------------------
  // Decoding (UnmarshalJSON)

  /** The keys of the document's top level that the decoder looks for. */
  datatype TopKey = TopPattern | TopFormat | TopHints | TopOther

  function TopKeyOf(key: string): TopKey
  {
    var n := Lower(key);
    if n == "pattern" then TopPattern
    else if n == "format" then TopFormat
    else if n == "hints" then TopHints
    else TopOther
  }

  /** The first pass's shadow struct: a pattern string and a format pointer. */
  datatype Shadow = Shadow(pattern: string, format: Option<string>)

  /** One member into the shadow. Null leaves the pattern string as it is and
      clears the format pointer. */
  function ShadowMember(m: Member, s: Shadow): Result<Shadow>
  {
    match TopKeyOf(m.key)
    case TopPattern =>
      (match m.value
       case String(p) => Ok(s.(pattern := p))
       case Null => Ok(s)
       case _ => Err(TypeMismatch))
    case TopFormat => var f :- StringField(m.value); Ok(s.(format := f))
    case _ => Ok(s)
  }

  /** json.Unmarshal into the shadow: null decodes to nothing, anything but an
      object is a type error. */
  function ReadShadow(doc: Value): Result<Shadow>
  {
    match doc
    case Null => Ok(Shadow("", None))
    case Object(ms) => StoreMembers(ms, Shadow("", None), ShadowMember)
    case _ => Err(TypeMismatch)
  }

  /** A "hints" member into the *TableInputJSONHintsModel pointer: null clears
      it; otherwise its UnmarshalJSON appends the decoded rules to the model
      already there, or to a fresh one. */
  function JsonSlotMember(m: Member, cur: Option<seq<Rule>>): Result<Option<seq<Rule>>>
  {
    if TopKeyOf(m.key) != TopHints then Ok(cur)
    else if m.value.Null? then Ok(None)
    else
      var rules :- DecodeRules(Tokens(m.value));
      Ok(Some((if cur.Some? then cur.value else []) + rules))
  }

  /** A "hints" member into the *TableInputCSVHintModel pointer. */
  function CsvSlotMember(m: Member, cur: Option<CsvHints>): Result<Option<CsvHints>>
  {
    if TopKeyOf(m.key) != TopHints then Ok(cur) else CsvField(m.value, cur)
  }

  /** A "hints" member into the *TableInputTSVHintModel pointer. */
  function TsvSlotMember(m: Member, cur: Option<TsvHints>): Result<Option<TsvHints>>
  {
    if TopKeyOf(m.key) != TopHints then Ok(cur) else TsvField(m.value, cur)
  }

  /** The second pass: json.Unmarshal into a struct holding only the family's
      hints pointer. */
  function ReadSlot<S>(doc: Value, store: (Member, Option<S>) -> Result<Option<S>>): Result<Option<S>>
  {
    match doc
    case Null => Ok(None)
    case Object(ms) => StoreMembers(ms, None, store)
    case _ => Err(TypeMismatch)
  }

  /** What UnmarshalJSON returns, and the model's fields afterwards. */
  datatype Outcome = Outcome(err: Option<Error>, input: Input)

  /** UnmarshalJSON on a model holding `prev`. A first-pass error leaves the model
      untouched. Otherwise pattern and format are copied, the three slots cleared,
      and only the slot of the format's family is read; an error there leaves
      that slot cleared. */
  function Unmarshal(doc: Value, prev: Input): (o: Outcome)
    ensures o.err.None? ==> doc.Object? || doc.Null?
    ensures o.err.Some? ==> o.input == prev || (o.input.jsonHints == [] && o.input.csvHints.None? && o.input.tsvHints.None?)
  {
    match ReadShadow(doc)
    case Err(e) => Outcome(Some(e), prev)
    case Ok(sh) =>
      var base := Input(sh.pattern, sh.format, [], None, None);
      match FamilyOf(sh.format)
      case JsonFamily =>
        (match ReadSlot(doc, JsonSlotMember)
         case Err(e) => Outcome(Some(e), base)
         case Ok(o) => Outcome(None, if o.Some? then base.(jsonHints := o.value) else base))
      case CsvFamily =>
        (match ReadSlot(doc, CsvSlotMember)
         case Err(e) => Outcome(Some(e), base)
         case Ok(o) => Outcome(None, base.(csvHints := o)))
      case TsvFamily =>
        (match ReadSlot(doc, TsvSlotMember)
         case Err(e) => Outcome(Some(e), base)
         case Ok(o) => Outcome(None, base.(tsvHints := o)))
      case NoFamily => Outcome(None, base)
  }

  // ---------------------------------------------------------------------------

  class TableInputModel {
    var pattern: string
    var format: Option<string>
    var jsonHints: seq<Rule>
    var csvHints: Option<CsvHints>
    var tsvHints: Option<TsvHints>

    function Snapshot(): Input
      reads this
    {
      Input(pattern, format, jsonHints, csvHints, tsvHints)
    }

    constructor ()
      ensures Snapshot() == NoInput
    {
      pattern, format, jsonHints, csvHints, tsvHints := "", None, [], None, None;
    }

    /** MarshalJSON: the members written one after another into the buffer. */
    method MarshalJSON() returns (v: Value)
      ensures v == Encode(Snapshot())
    {
      var ms := [Member("pattern", String(pattern))];
      if format.Some? {
        ms := ms + [Member("format", String(format.value))];
      }
      assert ms == [Member("pattern", String(pattern))] + OptString("format", format);
      if |jsonHints| > 0 {
        ms := ms + [Member("hints", EncodeRules(jsonHints))];
      }
      assert ms == [Member("pattern", String(pattern))] + OptString("format", format) + JsonPart(jsonHints);
      if csvHints.Some? {
        ms := ms + [Member("hints", EncodeCsv(csvHints.value))];
      }
      assert ms == [Member("pattern", String(pattern))] + OptString("format", format) + JsonPart(jsonHints)
        + CsvPart(csvHints);
      if tsvHints.Some? {
        ms := ms + [Member("hints", EncodeTsv(tsvHints.value))];
      }
      v := Object(ms);
    }

    /** UnmarshalJSON: the shadow pass, the reset, then the family's hints pass. */
    method UnmarshalJSON(doc: Value) returns (err: Option<Error>)
      modifies this
      ensures Outcome(err, Snapshot()) == Unmarshal(doc, old(Snapshot()))
    {
      var shadow := ReadShadow(doc);
      if shadow.Err? {
        return Some(shadow.error);
      }
      pattern := shadow.value.pattern;
      format := shadow.value.format;
      jsonHints := [];
      csvHints := None;
      tsvHints := None;
      var family := FamilyOf(format);
      if family == JsonFamily {
        var slot := ReadSlot(doc, JsonSlotMember);
        if slot.Err? {
          return Some(slot.error);
        }
        if slot.value.Some? {
          jsonHints := slot.value.value;
        }
      } else if family == CsvFamily {
        var slot := ReadSlot(doc, CsvSlotMember);
        if slot.Err? {
          return Some(slot.error);
        }
        csvHints := slot.value;
      } else if family == TsvFamily {
        var slot := ReadSlot(doc, TsvSlotMember);
        if slot.Err? {
          return Some(slot.error);
        }
        tsvHints := slot.value;
      }
      return None;
    }
  }
}
