/** CSV and TSV hints read back as written, and the TSV reader's view of a CSV
    record. */
module XsvProofs {
  import opened Wrappers
  import opened Text
  import opened Json
  import opened XsvHints

  lemma NameKeyLiteral()
    ensures FieldKeyOf("name") == NameKey
  {
    assert Lower("name") == "name";
  }

  lemma TypeKeyLiteral()
    ensures FieldKeyOf("type") == TypeKey
  {
    assert Lower("type") == "type";
  }

  lemma DefaultKeyLiteral()
    ensures FieldKeyOf("default") == DefaultKey
  {
    assert Lower("default") == "default";
  }

  lemma FormatKeyLiteral()
    ensures FieldKeyOf("format") == FormatKey
  {
    assert Lower("format") == "format";
  }

  lemma AllowEmptyKeyLiteral()
    ensures FieldKeyOf("allowEmpty") == AllowEmptyKey
  {
    assert Lower("allowEmpty") == "allowempty";
  }

  lemma NoIndexKeyLiteral()
    ensures FieldKeyOf("noIndex") == NoIndexKey
  {
    assert Lower("noIndex") == "noindex";
  }

  lemma TrueValuesKeyLiteral()
    ensures FieldKeyOf("trueValues") == TrueValuesKey
  {
    assert Lower("trueValues") == "truevalues";
  }

  lemma FalseValuesKeyLiteral()
    ensures FieldKeyOf("falseValues") == FalseValuesKey
  {
    assert Lower("falseValues") == "falsevalues";
  }

  lemma MissingValuesKeyLiteral()
    ensures FieldKeyOf("missingValues") == MissingValuesKey
  {
    assert Lower("missingValues") == "missingvalues";
  }

  lemma SeparatorKeyLiteral()
    ensures XsvKeyOf("separator") == SeparatorKey
  {
    assert Lower("separator") == "separator";
  }

  lemma SkipRecordsKeyLiteral()
    ensures XsvKeyOf("skip_records") == SkipRecordsKey
  {
    assert Lower("skip_records") == "skip_records";
  }

  lemma MissingKeyLiteral()
    ensures XsvKeyOf("missing_values") == MissingKey
  {
    assert Lower("missing_values") == "missing_values";
  }

  lemma FieldsKeyLiteral()
    ensures XsvKeyOf("fields") == FieldsKey
  {
    assert Lower("fields") == "fields";
  }

  // ---------------------------------------------------------------------------
  // Reading members in order composes

  // One lemma per field of the record: the member the encoder writes for it
  // (none when it is nil or empty) sets exactly that field.

  lemma NameStep(ms: seq<Member>, g: FieldHint, o: Option<string>)
    requires StoreMembers(ms, NoFieldHint, FieldMember) == Ok(g) && g.name == None
    ensures StoreMembers(ms + OptString("name", o), NoFieldHint, FieldMember) == Ok(g.(name := o))
  {
    NameKeyLiteral();
    StorePiece(ms, OptString("name", o), NoFieldHint, g, g.(name := o), FieldMember);
  }

  lemma TypeStep(ms: seq<Member>, g: FieldHint, o: Option<string>)
    requires StoreMembers(ms, NoFieldHint, FieldMember) == Ok(g) && g.typ == None
    ensures StoreMembers(ms + OptString("type", o), NoFieldHint, FieldMember) == Ok(g.(typ := o))
  {
    TypeKeyLiteral();
    StorePiece(ms, OptString("type", o), NoFieldHint, g, g.(typ := o), FieldMember);
  }

  lemma DefaultStep(ms: seq<Member>, g: FieldHint, o: Option<string>)
    requires StoreMembers(ms, NoFieldHint, FieldMember) == Ok(g) && g.defaultValue == None
    ensures StoreMembers(ms + OptString("default", o), NoFieldHint, FieldMember) == Ok(g.(defaultValue := o))
  {
    DefaultKeyLiteral();
    StorePiece(ms, OptString("default", o), NoFieldHint, g, g.(defaultValue := o), FieldMember);
  }

  lemma FormatStep(ms: seq<Member>, g: FieldHint, o: Option<string>)
    requires StoreMembers(ms, NoFieldHint, FieldMember) == Ok(g) && g.format == None
    ensures StoreMembers(ms + OptString("format", o), NoFieldHint, FieldMember) == Ok(g.(format := o))
  {
    FormatKeyLiteral();
    StorePiece(ms, OptString("format", o), NoFieldHint, g, g.(format := o), FieldMember);
  }

  lemma AllowEmptyStep(ms: seq<Member>, g: FieldHint, o: Option<bool>)
    requires StoreMembers(ms, NoFieldHint, FieldMember) == Ok(g) && g.allowEmpty == None
    ensures StoreMembers(ms + OptBool("allowEmpty", o), NoFieldHint, FieldMember) == Ok(g.(allowEmpty := o))
  {
    AllowEmptyKeyLiteral();
    StorePiece(ms, OptBool("allowEmpty", o), NoFieldHint, g, g.(allowEmpty := o), FieldMember);
  }

  lemma NoIndexStep(ms: seq<Member>, g: FieldHint, o: Option<bool>)
    requires StoreMembers(ms, NoFieldHint, FieldMember) == Ok(g) && g.noIndex == None
    ensures StoreMembers(ms + OptBool("noIndex", o), NoFieldHint, FieldMember) == Ok(g.(noIndex := o))
  {
    NoIndexKeyLiteral();
    StorePiece(ms, OptBool("noIndex", o), NoFieldHint, g, g.(noIndex := o), FieldMember);
  }

  lemma TrueValuesStep(ms: seq<Member>, g: FieldHint, xs: seq<string>)
    requires StoreMembers(ms, NoFieldHint, FieldMember) == Ok(g) && g.trueValues == []
    ensures StoreMembers(ms + OptStrings("trueValues", xs), NoFieldHint, FieldMember) == Ok(g.(trueValues := xs))
  {
    TrueValuesKeyLiteral();
    StringsOfStrings(xs);
    StorePiece(ms, OptStrings("trueValues", xs), NoFieldHint, g, g.(trueValues := xs), FieldMember);
  }

  lemma FalseValuesStep(ms: seq<Member>, g: FieldHint, xs: seq<string>)
    requires StoreMembers(ms, NoFieldHint, FieldMember) == Ok(g) && g.falseValues == []
    ensures StoreMembers(ms + OptStrings("falseValues", xs), NoFieldHint, FieldMember) == Ok(g.(falseValues := xs))
  {
    FalseValuesKeyLiteral();
    StringsOfStrings(xs);
    StorePiece(ms, OptStrings("falseValues", xs), NoFieldHint, g, g.(falseValues := xs), FieldMember);
  }

  lemma MissingValuesStep(ms: seq<Member>, g: FieldHint, xs: seq<string>)
    requires StoreMembers(ms, NoFieldHint, FieldMember) == Ok(g) && g.missingValues == []
    ensures StoreMembers(ms + OptStrings("missingValues", xs), NoFieldHint, FieldMember) == Ok(g.(missingValues := xs))
  {
    MissingValuesKeyLiteral();
    StringsOfStrings(xs);
    StorePiece(ms, OptStrings("missingValues", xs), NoFieldHint, g, g.(missingValues := xs), FieldMember);
  }

  /** A field hint reads back as written. */
  lemma FieldRoundTrip(f: FieldHint)
    ensures FieldValue(EncodeField(f)) == Ok(f)
  {
    var p1 := OptString("name", f.name);
    var p2 := OptString("type", f.typ);
    var p3 := OptString("default", f.defaultValue);
    var p4 := OptString("format", f.format);
    var p5 := OptBool("allowEmpty", f.allowEmpty);
    var p6 := OptBool("noIndex", f.noIndex);
    var p7 := OptStrings("trueValues", f.trueValues);
    var p8 := OptStrings("falseValues", f.falseValues);
    var g1 := NoFieldHint.(name := f.name);
    var g2 := g1.(typ := f.typ);
    var g3 := g2.(defaultValue := f.defaultValue);
    var g4 := g3.(format := f.format);
    var g5 := g4.(allowEmpty := f.allowEmpty);
    var g6 := g5.(noIndex := f.noIndex);
    var g7 := g6.(trueValues := f.trueValues);
    var g8 := g7.(falseValues := f.falseValues);
    assert [] + p1 == p1;
    NameStep([], NoFieldHint, f.name);
    TypeStep(p1, g1, f.typ);
    DefaultStep(p1 + p2, g2, f.defaultValue);
    FormatStep(p1 + p2 + p3, g3, f.format);
    AllowEmptyStep(p1 + p2 + p3 + p4, g4, f.allowEmpty);
    NoIndexStep(p1 + p2 + p3 + p4 + p5, g5, f.noIndex);
    TrueValuesStep(p1 + p2 + p3 + p4 + p5 + p6, g6, f.trueValues);
    FalseValuesStep(p1 + p2 + p3 + p4 + p5 + p6 + p7, g7, f.falseValues);
    MissingValuesStep(p1 + p2 + p3 + p4 + p5 + p6 + p7 + p8, g8, f.missingValues);
    assert g8.(missingValues := f.missingValues) == f;
  }

  lemma {:induction false} FieldsRoundTrip(fs: seq<FieldHint>)
    ensures FieldValues(EncodeFields(fs)) == Ok(fs)
  {
    if fs != [] {
      assert EncodeFields(fs)[1..] == EncodeFields(fs[1..]);
      FieldRoundTrip(fs[0]);
      FieldsRoundTrip(fs[1..]);
      assert [fs[0]] + fs[1..] == fs;
    }
  }

  // ---------------------------------------------------------------------------
  // CSV

  lemma CsvSeparatorStep(ms: seq<Member>, g: CsvHints, o: Option<string>)
    requires StoreMembers(ms, NoCsvHints, CsvMember) == Ok(g) && g.separator == None
    ensures StoreMembers(ms + OptString("separator", o), NoCsvHints, CsvMember) == Ok(g.(separator := o))
  {
    SeparatorKeyLiteral();
    StorePiece(ms, OptString("separator", o), NoCsvHints, g, g.(separator := o), CsvMember);
  }

  lemma CsvSkipStep(ms: seq<Member>, g: CsvHints, o: Option<Int64>)
    requires StoreMembers(ms, NoCsvHints, CsvMember) == Ok(g) && g.skipRecords == None
    ensures StoreMembers(ms + OptInt("skip_records", o), NoCsvHints, CsvMember) == Ok(g.(skipRecords := o))
  {
    SkipRecordsKeyLiteral();
    StorePiece(ms, OptInt("skip_records", o), NoCsvHints, g, g.(skipRecords := o), CsvMember);
  }

  lemma CsvMissingStep(ms: seq<Member>, g: CsvHints, xs: seq<string>)
    requires StoreMembers(ms, NoCsvHints, CsvMember) == Ok(g) && g.missingValues == []
    ensures StoreMembers(ms + OptStrings("missing_values", xs), NoCsvHints, CsvMember) == Ok(g.(missingValues := xs))
  {
    MissingKeyLiteral();
    StringsOfStrings(xs);
    StorePiece(ms, OptStrings("missing_values", xs), NoCsvHints, g, g.(missingValues := xs), CsvMember);
  }

  lemma CsvFieldsStep(ms: seq<Member>, g: CsvHints, fs: seq<FieldHint>)
    requires StoreMembers(ms, NoCsvHints, CsvMember) == Ok(g) && g.fields == []
    ensures StoreMembers(ms + OptFields(fs), NoCsvHints, CsvMember) == Ok(g.(fields := fs))
  {
    FieldsKeyLiteral();
    FieldsRoundTrip(fs);
    StorePiece(ms, OptFields(fs), NoCsvHints, g, g.(fields := fs), CsvMember);
  }

  /** CSV hints read back as written into a field that held none. */
  lemma CsvRoundTrip(h: CsvHints)
    ensures CsvField(EncodeCsv(h), None) == Ok(Some(h))
  {
    var p1 := OptString("separator", h.separator);
    var p2 := OptInt("skip_records", h.skipRecords);
    var p3 := OptStrings("missing_values", h.missingValues);
    var g1 := NoCsvHints.(separator := h.separator);
    var g2 := g1.(skipRecords := h.skipRecords);
    var g3 := g2.(missingValues := h.missingValues);
    assert [] + p1 == p1;
    CsvSeparatorStep([], NoCsvHints, h.separator);
    CsvSkipStep(p1, g1, h.skipRecords);
    CsvMissingStep(p1 + p2, g2, h.missingValues);
    CsvFieldsStep(p1 + p2 + p3, g3, h.fields);
    assert g3.(fields := h.fields) == h;
  }

  // ---------------------------------------------------------------------------
  // TSV

  /** The TSV reader skips a separator member. */
  lemma TsvSeparatorStep(ms: seq<Member>, g: TsvHints, o: Option<string>)
    requires StoreMembers(ms, NoTsvHints, TsvMember) == Ok(g)
    ensures StoreMembers(ms + OptString("separator", o), NoTsvHints, TsvMember) == Ok(g)
  {
    SeparatorKeyLiteral();
    StorePiece(ms, OptString("separator", o), NoTsvHints, g, g, TsvMember);
  }

  lemma TsvSkipStep(ms: seq<Member>, g: TsvHints, o: Option<Int64>)
    requires StoreMembers(ms, NoTsvHints, TsvMember) == Ok(g) && g.skipRecords == None
    ensures StoreMembers(ms + OptInt("skip_records", o), NoTsvHints, TsvMember) == Ok(g.(skipRecords := o))
  {
    SkipRecordsKeyLiteral();
    StorePiece(ms, OptInt("skip_records", o), NoTsvHints, g, g.(skipRecords := o), TsvMember);
  }

  lemma TsvMissingStep(ms: seq<Member>, g: TsvHints, xs: seq<string>)
    requires StoreMembers(ms, NoTsvHints, TsvMember) == Ok(g) && g.missingValues == []
    ensures StoreMembers(ms + OptStrings("missing_values", xs), NoTsvHints, TsvMember) == Ok(g.(missingValues := xs))
  {
    MissingKeyLiteral();
    StringsOfStrings(xs);
    StorePiece(ms, OptStrings("missing_values", xs), NoTsvHints, g, g.(missingValues := xs), TsvMember);
  }

  lemma TsvFieldsStep(ms: seq<Member>, g: TsvHints, fs: seq<FieldHint>)
    requires StoreMembers(ms, NoTsvHints, TsvMember) == Ok(g) && g.fields == []
    ensures StoreMembers(ms + OptFields(fs), NoTsvHints, TsvMember) == Ok(g.(fields := fs))
  {
    FieldsKeyLiteral();
    FieldsRoundTrip(fs);
    StorePiece(ms, OptFields(fs), NoTsvHints, g, g.(fields := fs), TsvMember);
  }

  /** TSV hints read back as written into a field that held none. */
  lemma TsvRoundTrip(h: TsvHints)
    ensures TsvField(EncodeTsv(h), None) == Ok(Some(h))
  {
    var p1 := OptInt("skip_records", h.skipRecords);
    var p2 := OptStrings("missing_values", h.missingValues);
    var g1 := NoTsvHints.(skipRecords := h.skipRecords);
    var g2 := g1.(missingValues := h.missingValues);
    assert [] + p1 == p1;
    TsvSkipStep([], NoTsvHints, h.skipRecords);
    TsvMissingStep(p1, g1, h.missingValues);
    TsvFieldsStep(p1 + p2, g2, h.fields);
    assert g2.(fields := h.fields) == h;
  }

  /** Read as TSV, a CSV record loses its separator and keeps everything else. */
  lemma CsvReadAsTsv(h: CsvHints)
    ensures TsvField(EncodeCsv(h), None) == Ok(Some(TsvHints(h.skipRecords, h.missingValues, h.fields)))
  {
    var p1 := OptString("separator", h.separator);
    var p2 := OptInt("skip_records", h.skipRecords);
    var p3 := OptStrings("missing_values", h.missingValues);
    var g2 := NoTsvHints.(skipRecords := h.skipRecords);
    var g3 := g2.(missingValues := h.missingValues);
    assert [] + p1 == p1;
    TsvSeparatorStep([], NoTsvHints, h.separator);
    TsvSkipStep(p1, NoTsvHints, h.skipRecords);
    TsvMissingStep(p1 + p2, g2, h.missingValues);
    TsvFieldsStep(p1 + p2 + p3, g3, h.fields);
  }

  /** Decoding into a record already present keeps what the document leaves out. */
  lemma CsvMergesIntoExisting(cur: CsvHints, s: string)
    ensures CsvField(Object([Member("separator", String(s))]), Some(cur)) == Ok(Some(cur.(separator := Some(s))))
  {
    SeparatorKeyLiteral();
    var ms := [Member("separator", String(s))];
    assert CsvMember(ms[0], cur) == Ok(cur.(separator := Some(s)));
    assert ms[1..] == [];
    assert StoreMembers(ms, cur, CsvMember) == Ok(cur.(separator := Some(s)));
  }

  /** A number outside the int64 range is a type error. */
  lemma SkipRecordsOutOfRange()
    ensures CsvField(Object([Member("skip_records", Number(0x8000_0000_0000_0000))]), None) == Err(TypeMismatch)
  {
    SkipRecordsKeyLiteral();
  }
}
