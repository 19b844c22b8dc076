/** What TableInputModel's decoder makes of documents in general and of its own
    encoder's output in particular. */
module TableProofs {
  import opened Wrappers
  import opened Json
  import opened Text
  import opened JsonHints
  import opened XsvHints
  import opened TableInput
  import JsonHintsRoundTrip
  import XsvProofs

  // ---------------------------------------------------------------------------
  // Format families

  const JsonNames: set<string> := {"json", "json.gz", "json.zst", ".json", ".json.gz", ".json.zst"}
  const CsvNames: set<string> := {"csv", "csv.gz", "csv.zst", ".csv", ".csv.gz", ".csv.zst"}
  const TsvNames: set<string> := {"tsv", "tsv.gz", "tsv.zst", ".tsv", ".tsv.gz", ".tsv.zst"}

  /** A given format selects a family exactly when it is one of that family's
      nine names, with or without one leading dot; no format selects JSON. */
  lemma FamilyFormats(f: string)
    ensures FamilyOf(None) == JsonFamily
    ensures FamilyOf(Some(f)) == JsonFamily <==> f in JsonNames
    ensures FamilyOf(Some(f)) == CsvFamily <==> f in CsvNames
    ensures FamilyOf(Some(f)) == TsvFamily <==> f in TsvNames
  {
    JsonFormats(f);
    CsvFormats(f);
    TsvFormats(f);
  }

  lemma JsonFormats(f: string)
    ensures TrimDot(f) in {"json", "json.gz", "json.zst"} <==> f in JsonNames
  {
    TrimDotIs(f, "json", ".json");
    TrimDotIs(f, "json.gz", ".json.gz");
    TrimDotIs(f, "json.zst", ".json.zst");
  }

  lemma CsvFormats(f: string)
    ensures TrimDot(f) in {"csv", "csv.gz", "csv.zst"} <==> f in CsvNames
  {
    TrimDotIs(f, "csv", ".csv");
    TrimDotIs(f, "csv.gz", ".csv.gz");
    TrimDotIs(f, "csv.zst", ".csv.zst");
  }

  lemma TsvFormats(f: string)
    ensures TrimDot(f) in {"tsv", "tsv.gz", "tsv.zst"} <==> f in TsvNames
  {
    TrimDotIs(f, "tsv", ".tsv");
    TrimDotIs(f, "tsv.gz", ".tsv.gz");
    TrimDotIs(f, "tsv.zst", ".tsv.zst");
  }

  /** Trimming gives a name that does not start with a dot exactly from that
      name and from the name with one dot in front. */
  lemma TrimDotIs(f: string, n: string, dotted: string)
    requires |n| > 0 && n[0] != '.' && dotted == "." + n
    ensures TrimDot(f) == n <==> f == n || f == dotted
  {
    if |f| > 0 && f[0] == '.' {
      assert f == "." + f[1..];
    }
  }

  /** A second leading dot, an empty format and a longer name select no family,
      so no hints are read for them. */
  lemma UnknownFormats()
    ensures FamilyOf(Some("..json")) == NoFamily
    ensures FamilyOf(Some("")) == NoFamily
    ensures FamilyOf(Some("cloudtrail.json.gz")) == NoFamily
  {
    FamilyFormats("..json");
    FamilyFormats("");
    FamilyFormats("cloudtrail.json.gz");
    assert "..json"[1] == '.';
    assert "cloudtrail.json.gz"[0] == 'c';
  }

  // ---------------------------------------------------------------------------
  // Decoding any document

  /** A null document decodes to the zero model. */
  lemma NullDocument(prev: Input)
    ensures Unmarshal(Null, prev) == Outcome(None, NoInput)
  {
    FamilyFormats("");
  }

  /** A document that is neither an object nor null is rejected, and the model
      keeps what it held. */
  lemma NotAnObject(doc: Value, prev: Input)
    requires !doc.Object? && !doc.Null?
    ensures Unmarshal(doc, prev) == Outcome(Some(TypeMismatch), prev)
  {
  }

  /** Once the first pass succeeds, what the model held before plays no part. */
  lemma PreviousForgotten(doc: Value, p: Input, q: Input)
    requires ReadShadow(doc).Ok?
    ensures Unmarshal(doc, p) == Unmarshal(doc, q)
  {
  }

  /** Pattern and format always come from the first pass; only the slot of the
      format's family can be filled, and none when decoding fails. */
  lemma SlotsExclusive(doc: Value, prev: Input)
    ensures ReadShadow(doc).Err? ==> Unmarshal(doc, prev) == Outcome(Some(ReadShadow(doc).error), prev)
    ensures ReadShadow(doc).Ok? ==>
      var o := Unmarshal(doc, prev);
      var fam := FamilyOf(ReadShadow(doc).value.format);
      && o.input.pattern == ReadShadow(doc).value.pattern
      && o.input.format == ReadShadow(doc).value.format
      && (o.input.jsonHints != [] ==> fam == JsonFamily && o.err == None)
      && (o.input.csvHints.Some? ==> fam == CsvFamily && o.err == None)
      && (o.input.tsvHints.Some? ==> fam == TsvFamily && o.err == None)
  {
  }

  // ---------------------------------------------------------------------------
  // Decoding the encoder's output

  lemma PatternKeyLiteral()
    ensures TopKeyOf("pattern") == TopPattern
  {
    assert Lower("pattern") == "pattern";
  }

  lemma FormatKeyLiteral()
    ensures TopKeyOf("format") == TopFormat
  {
    assert Lower("format") == "format";
  }

  lemma HintsKeyLiteral()
    ensures TopKeyOf("hints") == TopHints
  {
    assert Lower("hints") == "hints";
  }

  /** The first pass reads back the pattern and format of any encoded input. */
  lemma ShadowOfEncoded(t: Input)
    ensures ReadShadow(Encode(t)) == Ok(Shadow(t.pattern, t.format))
  {
    PatternKeyLiteral();
    FormatKeyLiteral();
    HintsKeyLiteral();
    var p0 := [Member("pattern", String(t.pattern))];
    var p1 := OptString("format", t.format);
    var p2 := JsonPart(t.jsonHints);
    var p3 := CsvPart(t.csvHints);
    var p4 := TsvPart(t.tsvHints);
    var s0 := Shadow("", None);
    var s1 := Shadow(t.pattern, None);
    var s2 := Shadow(t.pattern, t.format);
    assert [] + p0 == p0;
    StorePiece([], p0, s0, s0, s1, ShadowMember);
    StorePiece(p0, p1, s0, s1, s2, ShadowMember);
    StorePiece(p0 + p1, p2, s0, s2, s2, ShadowMember);
    StorePiece(p0 + p1 + p2, p3, s0, s2, s2, ShadowMember);
    StorePiece(p0 + p1 + p2 + p3, p4, s0, s2, s2, ShadowMember);
  }

  /** With no CSV or TSV hints, the JSON pass reads the rules back through the
      token decoder. */
  lemma JsonSlotOfEncoded(t: Input)
    requires t.csvHints.None? && t.tsvHints.None?
    ensures ReadSlot(Encode(t), JsonSlotMember)
         == if t.jsonHints == [] then Ok(None)
            else match DecodeRules(Tokens(EncodeRules(t.jsonHints)))
                 case Ok(rules) => Ok(Some(rules))
                 case Err(e) => Err(e)
  {
    PatternKeyLiteral();
    FormatKeyLiteral();
    HintsKeyLiteral();
    var p0 := [Member("pattern", String(t.pattern))];
    var p1 := OptString("format", t.format);
    var p2 := JsonPart(t.jsonHints);
    assert Encode(t).members == p0 + p1 + p2 by {
      assert CsvPart(t.csvHints) == [] && TsvPart(t.tsvHints) == [];
    }
    assert [] + p0 == p0;
    StorePiece([], p0, None, None, None, JsonSlotMember);
    StorePiece(p0, p1, None, None, None, JsonSlotMember);
    if t.jsonHints != [] {
      JsonHintsMember(p0 + p1, t.jsonHints);
    } else {
      assert p0 + p1 + p2 == p0 + p1;
    }
  }

  /** The "hints" member of non-empty rules, after members that leave the JSON
      slot nil, fills it with what the token decoder makes of the rules. */
  lemma JsonHintsMember(ms: seq<Member>, rules: seq<Rule>)
    requires StoreMembers(ms, None, JsonSlotMember) == Ok(None) && rules != []
    ensures StoreMembers(ms + JsonPart(rules), None, JsonSlotMember)
         == match DecodeRules(Tokens(EncodeRules(rules)))
            case Ok(r) => Ok(Some(r))
            case Err(e) => Err(e)
  {
    HintsKeyLiteral();
    var m := Member("hints", EncodeRules(rules));
    StoreAppend(ms, [m], None, JsonSlotMember);
    StoreCons(m, [], None, JsonSlotMember);
    assert [m] + [] == [m];
    match DecodeRules(Tokens(EncodeRules(rules))) {
      case Ok(r) => assert [] + r == r;
      case Err(_) =>
    }
  }

  /** With no JSON rules or TSV hints, the CSV pass reads the CSV hints back. */
  lemma CsvSlotOfEncoded(t: Input)
    requires t.jsonHints == [] && t.tsvHints.None?
    ensures ReadSlot(Encode(t), CsvSlotMember) == Ok(t.csvHints)
  {
    PatternKeyLiteral();
    FormatKeyLiteral();
    HintsKeyLiteral();
    var p0 := [Member("pattern", String(t.pattern))];
    var p1 := OptString("format", t.format);
    var p3 := CsvPart(t.csvHints);
    assert Encode(t).members == p0 + p1 + p3 by {
      assert JsonPart(t.jsonHints) == [] && TsvPart(t.tsvHints) == [];
    }
    if t.csvHints.Some? {
      XsvProofs.CsvRoundTrip(t.csvHints.value);
    }
    assert [] + p0 == p0;
    StorePiece([], p0, None, None, None, CsvSlotMember);
    StorePiece(p0, p1, None, None, None, CsvSlotMember);
    StorePiece(p0 + p1, p3, None, None, t.csvHints, CsvSlotMember);
  }

  /** With no JSON rules or CSV hints, the TSV pass reads the TSV hints back. */
  lemma TsvSlotOfEncoded(t: Input)
    requires t.jsonHints == [] && t.csvHints.None?
    ensures ReadSlot(Encode(t), TsvSlotMember) == Ok(t.tsvHints)
  {
    PatternKeyLiteral();
    FormatKeyLiteral();
    HintsKeyLiteral();
    var p0 := [Member("pattern", String(t.pattern))];
    var p1 := OptString("format", t.format);
    var p4 := TsvPart(t.tsvHints);
    assert Encode(t).members == p0 + p1 + p4 by {
      assert JsonPart(t.jsonHints) == [] && CsvPart(t.csvHints) == [];
    }
    if t.tsvHints.Some? {
      XsvProofs.TsvRoundTrip(t.tsvHints.value);
    }
    assert [] + p0 == p0;
    StorePiece([], p0, None, None, None, TsvSlotMember);
    StorePiece(p0, p1, None, None, None, TsvSlotMember);
    StorePiece(p0 + p1, p4, None, None, t.tsvHints, TsvSlotMember);
  }

  /** Only the slot of the format's family is populated, and JSON rules all have
      hints (a rule without hints is written as null, which does not read back). */
  predicate Consistent(t: Input)
  {
    match FamilyOf(t.format)
    case JsonFamily => JsonHintsRoundTrip.AllHinted(t.jsonHints) && t.csvHints.None? && t.tsvHints.None?
    case CsvFamily => t.jsonHints == [] && t.tsvHints.None?
    case TsvFamily => t.jsonHints == [] && t.csvHints.None?
    case NoFamily => t.jsonHints == [] && t.csvHints.None? && t.tsvHints.None?
  }

  /** Decoding what MarshalJSON wrote restores the model exactly when it is
      consistent; whatever the model held before is overwritten. */
  lemma RoundTrip(t: Input, prev: Input)
    ensures Unmarshal(Encode(t), prev) == Outcome(None, t) <==> Consistent(t)
  {
    ShadowOfEncoded(t);
    SlotsExclusive(Encode(t), prev);
    match FamilyOf(t.format) {
      case JsonFamily =>
        if t.csvHints.None? && t.tsvHints.None? {
          JsonSlotOfEncoded(t);
          JsonHintsRoundTrip.EncodedRulesDecode(t.jsonHints);
          assert JsonHintsRoundTrip.AllHinted([]);
        }
      case CsvFamily =>
        if t.jsonHints == [] && t.tsvHints.None? {
          CsvSlotOfEncoded(t);
        }
      case TsvFamily =>
        if t.jsonHints == [] && t.csvHints.None? {
          TsvSlotOfEncoded(t);
        }
      case NoFamily =>
    }
  }

  // ---------------------------------------------------------------------------
  // The shape of the encoding

  /** The number of populated hint slots. */
  function Populated(t: Input): (n: nat)
    ensures n <= 3
  {
    (if t.jsonHints != [] then 1 else 0) + (if t.csvHints.Some? then 1 else 0) + (if t.tsvHints.Some? then 1 else 0)
  }

  /** The encoding's keys: "pattern" first, "format" only when set, then one
      "hints" for each populated slot, so exactly one when one slot is populated. */
  lemma EncodedKeys(t: Input)
    ensures Keys(Encode(t).members)
         == ["pattern"] + (if t.format.Some? then ["format"] else []) + seq(Populated(t), _ => "hints")
  {
    var ms := Encode(t).members;
    var ks := ["pattern"] + (if t.format.Some? then ["format"] else []) + seq(Populated(t), _ => "hints");
    assert |ms| == |ks|;
    forall i | 0 <= i < |ms|
      ensures Keys(ms)[i] == ks[i]
    {
    }
  }
}
