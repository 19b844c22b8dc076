# Sneller terraform provider: hint codecs and default plan modifiers

This project models three parts of the Sneller terraform provider and proves
properties about them.

- **The table-input hint codec.** `TableInputModel` is one input of a table: an
  object-store pattern, an optional format, and hints for the format's family.
  - Its `MarshalJSON` assembles a JSON document by hand.
  - Its `UnmarshalJSON` decodes the document in two passes. The first pass reads
    pattern and format. The second reads only the hints slot of the family the
    format selects: JSON, CSV or TSV.
  - The JSON rules go through `TableInputJSONHintsModel`, a pull-token decoder.
    It accepts an object shape `{path: hints}` and an array shape
    `[{"path": …, "hints": …}]`, with `decodeRuleObject`, `decodeHints` and
    the recursive `skipValue` as helpers.
  - CSV and TSV hints are records whose fields are omitted when nil or empty.
  - The stand-alone `Hints.MarshallJSON`/`UnmarshallJSON` pair is also modelled.
- **The Elastic type-mapping codec.** `ElasticProxyTypeMapping` is written as a
  bare string when it has no sub-fields and as an object otherwise. Reading tries
  the object form first and falls back to a bare string.
- **The default-value plan modifiers.** When the configuration leaves an
  attribute null, the planned value becomes a default, unless an earlier modifier
  has already planned a known value.

## How the model is built

- **JSON as tokens and as values.** JSON is modelled at two levels.
  - `Json.Token` is what `json.Decoder.Token` yields: delimiters, strings, and one
    kind of scalar for numbers, booleans and null. Commas and colons are never
    seen.
  - `Json.Value` is a parsed document; only integral numbers are represented.
    `Json.Tokens(v)` is the token stream of a value.
- **The token decoder.** It is imperative in the source and imperative here.
  - `Json.Decoder` is a class: a cursor over a token sequence.
  - `JsonHintsDecoder` holds the loops as methods.
  - `HintsModel` appends to its rule list in place.
  - Each method is proved equal to a total specification function over
    `(tokens, position)` in `JsonHints`.
  - `JsonHintsProofs` proves that these functions, run on the tokens of any JSON
    value, compute a separate value-level reading of that value, errors included.
- **Reflection decoding.** Go's `encoding/json` decoding into structs is modelled
  by `Json.StoreMembers`. It stores an object's members in order into a struct
  value. Keys match field names ASCII-case-insensitively, a later member
  overrides an earlier one, and the first error stops the decoding.
  - Null on a pointer or map field makes it nil.
  - An object decoded into an existing pointer or map merges into what is there.
- **`TableInputModel`.** It is a class whose `UnmarshalJSON` updates its fields.
  Its result is tied to the pure function `TableInput.Unmarshal`.

Where the code and the design description of the provider differ, the model
follows the code:

- The JSON rules are written in the array shape, because
  `TableInputJSONHintsModel.MarshalJSON` marshals the rule slice. They are not
  written in the object shape.
- Only `path` and `hints` are recognised in a rule object. A `field` key is
  skipped like any other key.
- The declared error values `ErrExpectedStartOfObject`, `ErrExpectedFieldName`
  and `ErrInvalidHint` are never returned. The model's errors are the ad-hoc ones
  the decoder builds.
- `Hints.MarshallJSON` and `Hints.UnmarshallJSON` are misspelled, so
  `encoding/json` never calls them. Hint lists are therefore written as plain
  arrays, and a nil list is written as `null`. As a result, a rule with a nil
  hint list does not read back, and the table round trip holds exactly for
  inputs whose rules all have hints.

## Model

| member | source | states |
|---|---|---|
| TableInput.TableInputModel.MarshalJSON | sneller/model/table.go:25-67 | the document written member by member is `Encode`: "pattern", then "format" only when set, then one "hints" member for each populated slot in JSON, CSV, TSV order |
| TableInput.TableInputModel.UnmarshalJSON | sneller/model/table.go:69-129 | the returned error and the new fields are those of `Unmarshal` on the old fields: a first-pass error leaves the model unchanged; otherwise pattern and format are copied, all slots cleared, and only the format family's slot is read |
| TableInput.Encode | sneller/model/table.go:25-67 | the document is an object whose first member is "pattern"; `TableProofs.EncodedKeys` gives all its keys and `TableProofs.RoundTrip` what reads back |
| TableInput.Unmarshal | sneller/model/table.go:69-129 | only an object or null decodes without error; a failure leaves the model as it was or with every hints slot empty; the `TableProofs` lemmas below state the rest |
| TableProofs.FamilyFormats | sneller/model/table.go:86-126 | no format selects JSON; a given format selects the JSON, CSV or TSV family exactly when it is one of that family's three names, with or without one leading dot |
| TableProofs.JsonFormats | sneller/model/table.go:86-91 | after trimming one dot, the format is a JSON name exactly when the untrimmed format is one of the six JSON spellings |
| TableProofs.CsvFormats | sneller/model/table.go:86-103 | the same for the CSV names |
| TableProofs.TsvFormats | sneller/model/table.go:86-115 | the same for the TSV names |
| TableProofs.TrimDotIs | sneller/model/table.go:88 | `strings.TrimPrefix(f, ".")` equals a dot-free name exactly when `f` is that name or that name with one dot in front |
| TableProofs.UnknownFormats | sneller/model/table.go:86-126 | "..json", "" and "cloudtrail.json.gz" select no family |
| TableProofs.NullDocument | sneller/model/table.go:69-129 | a null document decodes without error to the zero model |
| TableProofs.NotAnObject | sneller/model/table.go:74-77 | a document that is neither object nor null is a type error and the model keeps its fields |
| TableProofs.PreviousForgotten | sneller/model/table.go:79-84 | once the first pass succeeds, the outcome does not depend on what the model held |
| TableProofs.SlotsExclusive | sneller/model/table.go:79-126 | pattern and format always come from the first pass; a filled slot is always the format family's slot, and only when decoding succeeded |
| TableProofs.ShadowOfEncoded | sneller/model/table.go:25-80 | the first pass reads back the pattern and format of every encoded input |
| TableProofs.JsonSlotOfEncoded | sneller/model/table.go:90-101 | with no CSV or TSV hints, the JSON pass gives nil for no rules and otherwise what the token decoder makes of the encoded rules |
| TableProofs.JsonHintsMember | sneller/model/table.go:92-101 | a "hints" member of non-empty rules, after members that leave the slot nil, fills the slot with the token decoder's result or fails with its error |
| TableProofs.CsvSlotOfEncoded | sneller/model/table.go:103-113 | with no JSON rules or TSV hints, the CSV pass reads back exactly the CSV hints |
| TableProofs.TsvSlotOfEncoded | sneller/model/table.go:115-125 | with no JSON rules or CSV hints, the TSV pass reads back exactly the TSV hints |
| TableProofs.RoundTrip | sneller/model/table.go:25-129 | decoding the encoding of an input, into any model, restores the input without error if and only if only its family's slot is populated and its JSON rules all have hints |
| TableProofs.EncodedKeys | sneller/model/table.go:25-67 | the encoding's keys are "pattern", "format" when set, then one "hints" per populated slot, so exactly one "hints" when one slot is populated |
| JsonHints.EncodeHints | sneller/model/table.go:343-346 | a hint list is written as null exactly when it is empty |
| JsonHints.EncodeRules | sneller/model/table.go:135-137 | rules are written as null exactly when there are none, otherwise as an array with one element per rule |
| JsonHints.EncodeRule | sneller/model/table.go:343-346 | a rule is an object of two members, the "path" member first |
| JsonHints.DecodeRules | sneller/model/table.go:139-157 | no token is end of input, and only a leading `{` or `[` can succeed; `JsonHintsProofs.DecodeRulesAgrees` gives its full result on every JSON value |
| JsonHints.DecodeHintsAt | sneller/model/table.go:251-282 | a successful hints read consumes at least one token and stays within the input |
| JsonHints.HintItemsAt | sneller/model/table.go:266-281 | the hint loop only appends to the hints already read |
| JsonHints.SkipAt | sneller/model/table.go:284-303 | a skip consumes at least one token, and errErrDelim is reported exactly when the first token is a closing delimiter |
| JsonHints.SkipItemsAt | sneller/model/table.go:290-298 | the loop inside a container never passes errErrDelim on: the closing delimiter ends it successfully |
| JsonHints.KeyOf | sneller/model/table.go:223-224 | a key selects "path" or "hints" exactly when its lower-cased form is that word |
| JsonHints.RuleObjectAt | sneller/model/table.go:212-249 | a successful rule-object read consumes at least one token and stays within the input |
| JsonHints.RulesFromObjectAt | sneller/model/table.go:159-181 | the object-shape loop only appends to the rules already held |
| JsonHints.RulesFromArrayAt | sneller/model/table.go:183-210 | the array-shape loop only appends to the rules already held |
| JsonHintsDecoder.DecodeHints | sneller/model/table.go:251-282 | the method returns what `DecodeHintsAt` specifies, and leaves the cursor where it says |
| JsonHintsDecoder.SkipValue | sneller/model/table.go:284-303 | the recursive method ends where `SkipAt` specifies, or returns its error; after errErrDelim the cursor is past the delimiter |
| JsonHintsDecoder.DecodeRuleObject | sneller/model/table.go:212-249 | the method returns what `RuleObjectAt` specifies when started with an empty path and no hints |
| JsonHintsDecoder.HintsModel.UnmarshalJSON | sneller/model/table.go:139-157 | on success the decoded rules are appended to those held; on failure the error is returned and the old rules remain a prefix |
| JsonHintsDecoder.HintsModel.DecodeRulesFromObject | sneller/model/table.go:159-181 | the loop's rules and cursor are those `RulesFromObjectAt` specifies from the old rules |
| JsonHintsDecoder.HintsModel.DecodeRulesFromArray | sneller/model/table.go:183-210 | the loop's rules and cursor are those `RulesFromArrayAt` specifies from the old rules |
| JsonHintsDecoder.AccumulateObject | sneller/model/table.go:176-179 | decoding onto rules already held gives those rules followed by what decoding onto none gives, and the same errors |
| JsonHintsDecoder.AccumulateArray | sneller/model/table.go:200-203 | the same for the array shape |
| JsonHintsProofs.SkipValueExact | sneller/model/table.go:284-303 | on the tokens of any JSON value, however nested, skipValue consumes exactly that value |
| JsonHintsProofs.DecodeHintsAgrees | sneller/model/table.go:251-282 | on the tokens of any value, decodeHints gives the value-level hints reading and stops right after the value |
| JsonHintsProofs.RuleObjectAgrees | sneller/model/table.go:212-249 | on a rule object's members, the rule-object loop gives the value-level reading of those members |
| JsonHintsProofs.RulesFromObjectAgrees | sneller/model/table.go:159-181 | on an object's members, the object-shape loop gives one rule per member, in order, or the first member's error |
| JsonHintsProofs.RulesFromArrayAgrees | sneller/model/table.go:183-210 | on an array's items, the array-shape loop gives one rule per object element, in order, or the first error |
| JsonHintsProofs.DecodeRulesAgrees | sneller/model/table.go:139-157 | on the tokens of any JSON value, the decoder's result equals the value-level reading of both shapes, errors included |
| JsonHintsRoundTrip.DecodeHintsCases | sneller/model/table.go:251-282 | a string gives a one-hint list, an array of strings gives them in order, and null or a non-string element is rejected |
| JsonHintsRoundTrip.KeyOfIgnoresCase | sneller/model/table.go:223 | keys are classified case-insensitively |
| JsonHintsRoundTrip.KeyOfLiterals | sneller/model/table.go:223-241 | "path", "Path", "PATH" select path; "hints" and "Hints" select hints; "field" selects neither |
| JsonHintsRoundTrip.HintsRoundTrip | sneller/model/table.go:251-264 | a non-empty hint list reads back as itself, and an empty one, written as null, is rejected |
| JsonHintsRoundTrip.RuleRoundTrip | sneller/model/table.go:212-249 | an encoded rule reads back as itself exactly when it has hints |
| JsonHintsRoundTrip.EncodedItemsRoundTrip | sneller/model/table.go:183-210 | the encoded rule array reads back as the rules when all have hints, otherwise with the hints error |
| JsonHintsRoundTrip.EncodedRulesRoundTrip | sneller/model/table.go:135-137 | at the value level, no rules give the not-object-or-array error, all hinted rules read back, otherwise the hints error |
| JsonHintsRoundTrip.EncodedRulesDecode | sneller/model/table.go:135-157 | the same round trip through the token decoder |
| JsonHintsRoundTrip.ObjectShape | sneller/model/table.go:159-181 | the object shape has one member per rule |
| JsonHintsRoundTrip.ObjectShapeRoundTrip | sneller/model/table.go:159-181 | the object shape reads back as its rules, whatever their hints |
| JsonHintsRoundTrip.ShapesAgree | sneller/model/table.go:149-154 | where both shapes succeed, the object shape and the array shape decode to the same rules |
| JsonHintsRoundTrip.FieldKeyIgnored | sneller/model/table.go:241-245 | a rule object's "field" member is skipped and the rule keeps an empty path |
| JsonHintsRoundTrip.LaterMemberWins | sneller/model/table.go:224-240 | a later "path" or "hints" member in a rule object overrides an earlier one |
| HintList.EncodeHintList | sneller/model/table.go:309-320 | zero or one hint is written as a string, more as an array of equal length |
| HintList.SortStrings | sneller/model/table.go:317 | the array's new contents are the sorted arrangement of its old contents |
| HintList.MarshallJSON | sneller/model/table.go:309-320 | the value written is `EncodeHintList` of the old contents; with two or more hints the receiver is left sorted and a permutation of itself, otherwise unchanged |
| HintList.SortIdempotent | sneller/model/table.go:317 | sorting a second time changes nothing |
| HintList.HintListRoundTrip | sneller/model/table.go:309-341 | reading back gives the sorted hints, and an empty list comes back as ["default"] |
| HintList.UnmarshallJSON | sneller/model/table.go:322-341 | a string gives a one-hint list; an array succeeds exactly when every element is a string or null, giving one hint per element; every other value is rejected |
| HintList.HintListStable | sneller/model/table.go:309-341 | a list read back writes the same JSON again, the empty list included |
| HintList.AgreesWithRuleHints | sneller/model/table.go:322-341 | where the rule decoder's hint reading succeeds this reader agrees, and it also accepts a null element, read as "" into a receiver with no spare capacity |
| Text.Lower | sneller/model/table.go:223 | lower-casing keeps the length and maps each character through ASCII lower-casing |
| Text.Sort | sneller/model/table.go:317 | the result is sorted and a permutation of the input |
| Text.SortedUnique | sneller/model/table.go:317 | two sorted arrangements of the same multiset are equal, so any sort leaves the same result |
| Json.StringsOf | sneller/model/table.go:351 | a []string decode succeeds exactly when every element is a string or null, giving the strings in order and "" for null |
| Json.Decoder.NextToken | sneller/model/table.go:141 | the next token and an advanced cursor, or end-of-input with the cursor unchanged |
| XsvHints.IntField | sneller/model/table.go:350 | a number is stored into an *int64 exactly when it lies in the 64-bit range |
| XsvHints.EncodeCsv | sneller/model/table.go:348-353 | a CSV record is written as an object, and as `{}` exactly when every field is nil or empty (omitempty) |
| XsvHints.EncodeTsv | sneller/model/table.go:355-359 | the same for a TSV record |
| XsvHints.CsvField | sneller/model/table.go:103-113 | null clears the hints pointer; only null or an object can succeed, and an object always leaves the pointer set |
| XsvHints.TsvField | sneller/model/table.go:115-125 | the same for the TSV hints pointer |
| XsvProofs.FieldRoundTrip | sneller/model/table.go:361-371 | a field hint reads back as written |
| XsvProofs.FieldsRoundTrip | sneller/model/table.go:352 | a list of field hints reads back as written |
| XsvProofs.CsvRoundTrip | sneller/model/table.go:348-353 | CSV hints read back as written into an empty slot |
| XsvProofs.TsvRoundTrip | sneller/model/table.go:355-359 | TSV hints read back as written into an empty slot |
| XsvProofs.CsvReadAsTsv | sneller/model/table.go:355-359 | CSV hints read as TSV lose the separator and keep everything else |
| XsvProofs.CsvMergesIntoExisting | sneller/model/table.go:348-353 | decoding into hints already present keeps the fields the document leaves out |
| XsvProofs.SkipRecordsOutOfRange | sneller/model/table.go:350 | a skip_records value beyond the int64 range is a type error |
| ElasticProxy.Marshal | sneller/api/elastic_proxy.go:63-70 | the bare type string exactly when there are no sub-fields; otherwise an object with "type" first and "fields" second |
| ElasticProxy.MapMembers | sneller/api/elastic_proxy.go:47 | a map is written with one member per entry: as many members as entries, every key present, each member holding its entry's value |
| ElasticProxy.MapMembersSorted | sneller/api/elastic_proxy.go:47 | the members' keys are in increasing order, as encoding/json sorts map keys |
| Text.SortedKeysOrdered | sneller/api/elastic_proxy.go:47 | the key sequence built from a set of map keys is in increasing order |
| ElasticProxy.Unmarshal | sneller/api/elastic_proxy.go:50-61 | only null, a string or an object can succeed; a string always names the type and gives an empty, non-nil map; `RoundTrip`, `StringForm` and `NeitherForm` state the rest |
| ElasticProxy.DecodeEncodedMap | sneller/api/elastic_proxy.go:47 | an encoded map decoded into a map already held adds every entry to it |
| ElasticProxy.FieldsMemberDecodes | sneller/api/elastic_proxy.go:45-52 | the "fields" member written for a map adds its entries to the receiver's map |
| ElasticProxy.DecodeObjectForm | sneller/api/elastic_proxy.go:51-52 | the object form restores the type name and adds the fields to the receiver's map |
| ElasticProxy.DecodeEncoded | sneller/api/elastic_proxy.go:50-70 | decoding what was written, into any receiver, restores the type; the string form gives an empty non-nil map, the object form adds the fields to the receiver's map |
| ElasticProxy.RoundTrip | sneller/api/elastic_proxy.go:50-70 | into a fresh receiver the type comes back exactly and the fields with equal contents, an empty map standing for nil |
| ElasticProxy.MarshalStable | sneller/api/elastic_proxy.go:50-70 | what is read back writes the same document again |
| ElasticProxy.StringForm | sneller/api/elastic_proxy.go:53-59 | a bare string names the type and gives an empty, non-nil map, whatever the receiver held |
| ElasticProxy.NeitherForm | sneller/api/elastic_proxy.go:52-56 | numbers, booleans and arrays are rejected, and so is an object whose "fields" does not fit |
| ElasticProxy.NullKeepsReceiver | sneller/api/elastic_proxy.go:50-52 | a null document leaves the receiver as it was |
| ElasticProxy.KeysIgnoreCase | sneller/api/elastic_proxy.go:45-52 | "TYPE" fills the type field, and an object without "fields" keeps the receiver's map |
| PlanModifiers.DefaultValuePlanModifier.PlanModify | sneller/resource/plan_modifiers.go:29-42 | a non-null config or a known plan leaves the plan unchanged; otherwise the plan becomes the known default |
| PlanModifiers.NullConfigGetsKnownPlan | sneller/resource/plan_modifiers.go:29-42 | with a null config the plan is always known afterwards |
| PlanModifiers.Idempotent | sneller/resource/plan_modifiers.go:29-42 | applying a modifier twice equals applying it once |
| PlanModifiers.FirstDefaultWins | sneller/resource/plan_modifiers.go:35-39 | in a chain of default modifiers the first one decides |
| PlanModifiers.SameRuleForEveryKind | sneller/resource/plan_modifiers.go:62-75 | the rule ignores the values themselves, so renaming values commutes with it: the bool, string and int64 modifiers decide alike |
| PlanModifiers.KindsAgree | sneller/resource/plan_modifiers.go:95-108 | an illustration: the bool, string and int64 constructors' modifiers on the distinguished cases side by side |

## Left out

- The byte level of JSON is not modelled: escaping, whitespace, number syntax,
  and the bytes.Buffer writes of `MarshalJSON`. Documents are `Json.Value`s, and
  the hint decoder reads `Json.Tokens` of a value or any token sequence.
- Numbers are integers only. Non-integral numbers, and numbers that do not fit
  an int64, are not distinguished beyond the int64 range check on skip_records.
- Only ASCII case folding is modelled. Go's key matching also folds some
  non-ASCII letters (Unicode simple folding). `strings.ToLower` is modelled on
  ASCII only.
- Error identity: errors are an enumeration. The texts of `errors.New` values
  and the wrapped errors of `encoding/json` (syntax and type errors) are not
  modelled; every struct-decoding failure is `TypeMismatch`.
- `JsonHints.RuleObjectAt`: a key token that is not a string makes Go's type
  assertion `t.(string)` panic. The model returns `NotAKey` instead, and does the
  same in the object-shape loop.
- `json.Marshal` errors cannot occur for these types, so the error paths of
  `MarshalJSON` at sneller/model/table.go:29-31 and similar are not modelled.
- JsonHints.EncodeHints: the model's empty hint list is encoded as Go's nil
  list, `null`. Go writes a non-nil empty list as `[]`, which `decodeHints` reads
  back without error (as nil). So the "only if" halves of the round-trip lemmas
  (`JsonHintsRoundTrip.HintsRoundTrip`, `RuleRoundTrip`, `EncodedItemsRoundTrip`,
  `EncodedRulesRoundTrip`, `EncodedRulesDecode` and `TableProofs.RoundTrip`)
  cover nil lists only.
- HintList.UnmarshallJSON: the reuse of the receiver's slice is not modelled. Go
  truncates the receiver to length zero and decodes the array into the same
  backing array, and a null element leaves the old string in its place. So a
  null element reads as "" only when the receiver has no spare capacity. The
  same holds for `Json.StringsOf` when a second "missing_values" array, from a
  duplicate "hints" member, is decoded into a CSV or TSV record already held.
- Nil versus empty slices are not distinguished. An empty hint list or rule list
  stands for both. The Elastic `Fields` map is the exception: nil and empty
  non-nil maps are distinguished.
- `TableInputModel.UnmarshalJSON`: when the family pass fails, Go may leave a
  partially decoded rule list or hint record in the shadow struct. That partial
  record is discarded either way, so the model only states that the slot stays
  nil.
- Duplicate "hints" members in one document: the JSON rules of later members are
  appended to earlier ones, and CSV/TSV records merge, as encoding/json does. Two
  duplicate "fields" arrays in a CSV record are decoded into fresh elements
  rather than reusing the earlier slice's elements.
- `ElasticProxy.Unmarshal`: when decoding fails, Go leaves the receiver partly
  updated by the members decoded before the failure. The model returns only the
  error and says nothing about the receiver after a failed decode.
- Error order: Go's decoder goes on past a type mismatch and reports it at the
  end, while an error from a nested `UnmarshalJSON` stops it at once and is the
  one returned. `Json.StoreMembers` stops at the first error of either kind. So
  when a document has both kinds, the error reported can differ. Whether
  decoding fails cannot.
- `HintList.UnmarshallJSON` takes a parsed value. Go's version indexes
  `data[0]` and panics on empty input, and it dispatches on the first byte; the
  model dispatches on the value's kind. Whitespace before the value is not
  modelled.
- `Description` and `MarkdownDescription` of the plan modifiers format strings
  for documentation and are not modelled. The terraform framework's request and
  response objects are reduced to the config and plan values.
- The provider's HTTP clients, resources, data sources, provider configuration
  and tests are not part of this model.
