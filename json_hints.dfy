/** The JSON-family hint rules of a table input: their encoding, the token-level
    decoder that reads either the object shape or the array shape, and a
    value-level reference reading of both shapes. */
module JsonHints {
  import opened Wrappers
  import opened Text
  import opened Json

  /** TableInputJSONHintModel. An empty hint list stands for Go's nil list. */
  datatype Rule = Rule(path: string, hints: seq<string>)

  /** A decoded value and the cursor position just after it. */
  datatype Parsed<T> = Parsed(value: T, next: nat)

  /** A method result `r`, leaving the cursor at `pos`, agrees with specification `spec`. */
  predicate Follows<T(==)>(r: Result<T>, spec: Result<Parsed<T>>, pos: nat)
  {
    match spec
    case Ok(p) => r == Ok(p.value) && pos == p.next
    case Err(e) => r == Err(e)
  }

  /** A value-level result placed at cursor position `next`. */
  function Located<T>(r: Result<T>, next: nat): Result<Parsed<T>>
  {
    match r
    case Ok(v) => Ok(Parsed(v, next))
    case Err(e) => Err(e)
  }

  // ---------------------------------------------------------------------------
  // Encoding (json.Marshal of []TableInputJSONHintModel)

  /** A hint list as encoding/json writes it: nil becomes null, otherwise an array. */
  function EncodeHints(hs: seq<string>): (v: Value)
    ensures |hs| == 0 <==> v == Null
  {
    if |hs| == 0 then Null else Array(Strings(hs))
  }

  /** One rule as the object {"path": ..., "hints": ...}. */
  function EncodeRule(r: Rule): (v: Value)
    ensures v.Object? && |v.members| == 2
    ensures v.members[0] == Member("path", String(r.path))
  {
    Object([Member("path", String(r.path)), Member("hints", EncodeHints(r.hints))])
  }

  /** TableInputJSONHintsModel.MarshalJSON: the rules as an array, in order; nil rules become null. */
  function EncodeRules(rules: seq<Rule>): (v: Value)
    ensures |rules| == 0 <==> v == Null
    ensures v.Array? ==> |v.items| == |rules|
  {
    if |rules| == 0 then Null
    else Array(seq(|rules|, i requires 0 <= i < |rules| => EncodeRule(rules[i])))
  }

  // ---------------------------------------------------------------------------
  // Token-level decoding: one function per loop of the decoder, reading
  // `ts` from position `p`. Each result carries the position after the tokens read.

  /** decodeHints: a string token, or `[` followed by string tokens and `]`. */
  function DecodeHintsAt(ts: seq<Token>, p: nat): (r: Result<Parsed<seq<string>>>)
    ensures r.Ok? ==> p < r.value.next <= |ts|
  {
    if p >= |ts| then Err(EndOfInput)
    else match ts[p]
      case Str(s) => Ok(Parsed([s], p + 1))
      case ArrOpen => HintItemsAt(ts, p + 1, [])
      case _ => Err(ExpectedStringOrArray)
  }

  /** The loop of decodeHints after `[`, with the strings read so far in `acc`. */
  function HintItemsAt(ts: seq<Token>, p: nat, acc: seq<string>): (r: Result<Parsed<seq<string>>>)
    decreases |ts| - p
    ensures r.Ok? ==> p < r.value.next <= |ts| && acc <= r.value.value
  {
    if p >= |ts| then Err(EndOfInput)
    else match ts[p]
      case ArrClose => Ok(Parsed(acc, p + 1))
      case Str(s) => HintItemsAt(ts, p + 1, acc + [s])
      case _ => Err(ExpectedString)
  }

  /** skipValue: the position after one complete value; a closing delimiter
      where a value should start is errErrDelim. */
  function SkipAt(ts: seq<Token>, p: nat): (r: Result<nat>)
    decreases |ts| - p, 0
    ensures r.Ok? ==> p < r.value <= |ts|
    ensures r == Err(InvalidEnd) <==> p < |ts| && (ts[p] == ArrClose || ts[p] == ObjClose)
  {
    if p >= |ts| then Err(EndOfInput)
    else match ts[p]
      case ArrOpen | ObjOpen => SkipItemsAt(ts, p + 1)
      case ArrClose | ObjClose => Err(InvalidEnd)
      case _ => Ok(p + 1)
  }

  /** The loop of skipValue after an opening delimiter: skip values until one
      of them reports errErrDelim. */
  function SkipItemsAt(ts: seq<Token>, p: nat): (r: Result<nat>)
    decreases |ts| - p, 1
    ensures r.Ok? ==> p < r.value <= |ts|
    ensures r != Err(InvalidEnd)
  {
    match SkipAt(ts, p)
    case Ok(q) => SkipItemsAt(ts, q)
    case Err(InvalidEnd) => Ok(p + 1)
    case Err(e) => Err(e)
  }

  /** The three arms of decodeRuleObject's switch on the lower-cased key. */
  datatype RuleKey = PathKey | HintsKey | OtherKey

  function KeyOf(key: string): (k: RuleKey)
    ensures k == PathKey <==> Lower(key) == "path"
    ensures k == HintsKey <==> Lower(key) == "hints"
  {
    var name := Lower(key);
    if name == "path" then PathKey else if name == "hints" then HintsKey else OtherKey
  }

  /** decodeRuleObject after `{`: keys are lower-cased; "path" takes a string,
      "hints" goes through decodeHints, every other value is skipped. */
  function RuleObjectAt(ts: seq<Token>, p: nat, path: string, hints: seq<string>): (r: Result<Parsed<Rule>>)
    decreases |ts| - p
    ensures r.Ok? ==> p < r.value.next <= |ts|
  {
    if p >= |ts| then Err(EndOfInput)
    else match ts[p]
      case ObjClose => Ok(Parsed(Rule(path, hints), p + 1))
      case Str(key) => (
        match KeyOf(key)
        case PathKey =>
          if p + 1 >= |ts| then Err(EndOfInput)
          else if ts[p + 1].Str? then RuleObjectAt(ts, p + 2, ts[p + 1].s, hints)
          else Err(ExpectedString)
        case HintsKey => (
          match DecodeHintsAt(ts, p + 1)
          case Err(e) => Err(e)
          case Ok(h) => RuleObjectAt(ts, h.next, path, h.value))
        case OtherKey => (
          match SkipAt(ts, p + 1)
          case Err(e) => Err(e)
          case Ok(q) => RuleObjectAt(ts, q, path, hints)))
      case _ => Err(NotAKey)
  }

  /** decodeRulesFromObject: each key is a rule's path, its value the rule's hints. */
  function RulesFromObjectAt(ts: seq<Token>, p: nat, acc: seq<Rule>): (r: Result<Parsed<seq<Rule>>>)
    decreases |ts| - p
    ensures r.Ok? ==> p < r.value.next <= |ts| && acc <= r.value.value
  {
    if p >= |ts| then Err(EndOfInput)
    else match ts[p]
      case ObjClose => Ok(Parsed(acc, p + 1))
      case Str(path) => (
        match DecodeHintsAt(ts, p + 1)
        case Err(e) => Err(e)
        case Ok(h) => RulesFromObjectAt(ts, h.next, acc + [Rule(path, h.value)]))
      case _ => Err(NotAKey)
  }

  /** decodeRulesFromArray: every element is a rule object. */
  function RulesFromArrayAt(ts: seq<Token>, p: nat, acc: seq<Rule>): (r: Result<Parsed<seq<Rule>>>)
    decreases |ts| - p
    ensures r.Ok? ==> p < r.value.next <= |ts| && acc <= r.value.value
  {
    if p >= |ts| then Err(EndOfInput)
    else match ts[p]
      case ArrClose => Ok(Parsed(acc, p + 1))
      case ObjOpen => (
        match RuleObjectAt(ts, p + 1, "", [])
        case Err(e) => Err(e)
        case Ok(rule) => RulesFromArrayAt(ts, rule.next, acc + [rule.value]))
      case _ => Err(ExpectedObject)
  }

  /** TableInputJSONHintsModel.UnmarshalJSON on a fresh model: the first token
      chooses the shape. */
  function DecodeRules(ts: seq<Token>): (r: Result<seq<Rule>>)
    ensures |ts| == 0 ==> r == Err(EndOfInput)
    ensures r.Ok? ==> ts[0] == ObjOpen || ts[0] == ArrOpen
  {
    if |ts| == 0 then Err(EndOfInput)
    else match ts[0]
      case ObjOpen => (match RulesFromObjectAt(ts, 1, []) case Ok(p) => Ok(p.value) case Err(e) => Err(e))
      case ArrOpen => (match RulesFromArrayAt(ts, 1, []) case Ok(p) => Ok(p.value) case Err(e) => Err(e))
      case _ => Err(ExpectedObjectOrArray)
  }

  // ---------------------------------------------------------------------------
  // Value-level reference reading of the two shapes

  /** A hints value: a string, or an array of strings. */
  function HintsOfValue(v: Value): Result<seq<string>>
  {
    match v
    case String(s) => Ok([s])
    case Array(items) => StringItems(items)
    case _ => Err(ExpectedStringOrArray)
  }

  function StringItems(items: seq<Value>): Result<seq<string>>
  {
    if items == [] then Ok([])
    else if !items[0].String? then Err(ExpectedString)
    else
      var rest :- StringItems(items[1..]);
      Ok([items[0].s] + rest)
  }

  /** The members of one array-shape rule object, scanned in order; later
      "path" and "hints" members override earlier ones. */
  function RuleOfMembers(ms: seq<Member>, path: string, hints: seq<string>): Result<Rule>
  {
    if ms == [] then Ok(Rule(path, hints))
    else
      match KeyOf(ms[0].key)
      case PathKey =>
        if ms[0].value.String? then RuleOfMembers(ms[1..], ms[0].value.s, hints)
        else Err(ExpectedString)
      case HintsKey =>
        var h :- HintsOfValue(ms[0].value);
        RuleOfMembers(ms[1..], path, h)
      case OtherKey => RuleOfMembers(ms[1..], path, hints)
  }

  /** Object shape: one rule per member. */
  function RulesOfMembers(ms: seq<Member>): Result<seq<Rule>>
  {
    if ms == [] then Ok([])
    else
      var h :- HintsOfValue(ms[0].value);
      var rest :- RulesOfMembers(ms[1..]);
      Ok([Rule(ms[0].key, h)] + rest)
  }

  /** Array shape: one rule per element, each an object. */
  function RulesOfItems(items: seq<Value>): Result<seq<Rule>>
  {
    if items == [] then Ok([])
    else if !items[0].Object? then Err(ExpectedObject)
    else
      var rule :- RuleOfMembers(items[0].members, "", []);
      var rest :- RulesOfItems(items[1..]);
      Ok([rule] + rest)
  }

  /** The rules a JSON value denotes, in either shape. */
  function RulesOfValue(v: Value): Result<seq<Rule>>
  {
    match v
    case Object(ms) => RulesOfMembers(ms)
    case Array(items) => RulesOfItems(items)
    case _ => Err(ExpectedObjectOrArray)
  }
}
