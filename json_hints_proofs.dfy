/** What the JSON-hint decoder does on well-formed input: on the token stream
    of any JSON value it computes the value-level reading of that value, and
    the encoder's output reads back as the rules it came from. */
module JsonHintsProofs {
  import opened Wrappers
  import opened Text
  import opened Json
  import opened JsonHints

  /** `enc` appears in `ts` starting at position `p`. */
  predicate At(ts: seq<Token>, p: nat, enc: seq<Token>)
    decreases |enc|
  {
    if enc == [] then p <= |ts|
    else p < |ts| && ts[p] == enc[0] && At(ts, p + 1, enc[1..])
  }

  lemma {:induction false} AtSplit(ts: seq<Token>, p: nat, a: seq<Token>, b: seq<Token>)
    requires At(ts, p, a + b)
    ensures At(ts, p, a) && At(ts, p + |a|, b)
    decreases |a|
  {
    if a == [] {
      assert a + b == b;
      AtBound(ts, p, b);
    } else {
      assert (a + b)[0] == a[0];
      assert (a + b)[1..] == a[1..] + b;
      AtSplit(ts, p + 1, a[1..], b);
    }
  }

  lemma {:induction false} AtBound(ts: seq<Token>, p: nat, enc: seq<Token>)
    requires At(ts, p, enc)
    ensures p + |enc| <= |ts|
    decreases |enc|
  {
    if enc != [] {
      AtBound(ts, p + 1, enc[1..]);
    }
  }

  lemma AtHead(ts: seq<Token>, p: nat, enc: seq<Token>)
    requires At(ts, p, enc) && |enc| > 0
    ensures p < |ts| && ts[p] == enc[0]
  {
  }

  /** Every suffix of `ts` appears where it starts. */
  lemma {:induction false} AtSuffix(ts: seq<Token>, p: nat)
    requires p <= |ts|
    ensures At(ts, p, ts[p..])
    decreases |ts| - p
  {
    if p < |ts| {
      assert ts[p..][1..] == ts[p + 1..];
      AtSuffix(ts, p + 1);
    }
  }

  /** Where an object's members and closing brace sit. */
  lemma ObjectAt(ts: seq<Token>, p: nat, ms: seq<Member>)
    requires At(ts, p, Tokens(Object(ms)))
    ensures p < |ts| && ts[p] == ObjOpen
    ensures At(ts, p + 1, MembersTokens(ms) + [ObjClose])
    ensures |Tokens(Object(ms))| == |MembersTokens(ms)| + 2
  {
    assert Tokens(Object(ms)) == [ObjOpen] + (MembersTokens(ms) + [ObjClose]);
    AtSplit(ts, p, [ObjOpen], MembersTokens(ms) + [ObjClose]);
    AtHead(ts, p, [ObjOpen]);
  }

  /** Where an array's items and closing bracket sit. */
  lemma ArrayAt(ts: seq<Token>, p: nat, items: seq<Value>)
    requires At(ts, p, Tokens(Array(items)))
    ensures p < |ts| && ts[p] == ArrOpen
    ensures At(ts, p + 1, ItemsTokens(items) + [ArrClose])
    ensures |Tokens(Array(items))| == |ItemsTokens(items)| + 2
  {
    assert Tokens(Array(items)) == [ArrOpen] + (ItemsTokens(items) + [ArrClose]);
    AtSplit(ts, p, [ArrOpen], ItemsTokens(items) + [ArrClose]);
    AtHead(ts, p, [ArrOpen]);
  }

  /** The first token of a value tells its kind. */
  lemma FirstToken(v: Value)
    ensures Tokens(v)[0] == match v
                           case Null | Bool(_) | Number(_) => Scalar
                           case String(s) => Str(s)
                           case Array(_) => ArrOpen
                           case Object(_) => ObjOpen
  {
  }

  /** A list result with `acc` in front. */
  function Prepend<T>(acc: seq<T>, r: Result<seq<T>>): Result<seq<T>>
  {
    match r
    case Ok(xs) => Ok(acc + xs)
    case Err(e) => Err(e)
  }

  // ---------------------------------------------------------------------------
  // skipValue consumes exactly one complete value

  lemma {:induction false} SkipValueExact(ts: seq<Token>, p: nat, v: Value)
    requires At(ts, p, Tokens(v))
    ensures SkipAt(ts, p) == Ok(p + |Tokens(v)|)
    decreases v, 1
  {
    FirstToken(v);
    AtHead(ts, p, Tokens(v));
    match v
    case Array(items) =>
      ArrayAt(ts, p, items);
      SkipItemsExact(ts, p + 1, items, ArrClose);
    case Object(ms) =>
      ObjectAt(ts, p, ms);
      SkipMembersExact(ts, p + 1, ms, ObjClose);
    case _ =>
  }

  lemma {:induction false} SkipItemsExact(ts: seq<Token>, p: nat, items: seq<Value>, close: Token)
    requires close == ArrClose || close == ObjClose
    requires At(ts, p, ItemsTokens(items) + [close])
    ensures SkipItemsAt(ts, p) == Ok(p + |ItemsTokens(items)| + 1)
    decreases items, 0
  {
    if items == [] {
      assert ItemsTokens(items) + [close] == [close];
      AtHead(ts, p, [close]);
    } else {
      var first := Tokens(items[0]);
      assert ItemsTokens(items) + [close] == first + (ItemsTokens(items[1..]) + [close]);
      AtSplit(ts, p, first, ItemsTokens(items[1..]) + [close]);
      SkipValueExact(ts, p, items[0]);
      SkipItemsExact(ts, p + |first|, items[1..], close);
    }
  }

  lemma {:induction false} SkipMembersExact(ts: seq<Token>, p: nat, ms: seq<Member>, close: Token)
    requires close == ArrClose || close == ObjClose
    requires At(ts, p, MembersTokens(ms) + [close])
    ensures SkipItemsAt(ts, p) == Ok(p + |MembersTokens(ms)| + 1)
    decreases ms, 0
  {
    if ms == [] {
      assert MembersTokens(ms) + [close] == [close];
      AtHead(ts, p, [close]);
    } else {
      var q := p + 1 + |Tokens(ms[0].value)|;
      MemberAt(ts, p, ms, close);
      SkipValueExact(ts, p + 1, ms[0].value);
      SkipItemsStep(ts, p, p + 1);
      SkipItemsStep(ts, p + 1, q);
      assert At(ts, q, MembersTokens(ms[1..]) + [close]);
      SkipMembersExact(ts, q, ms[1..], close);
    }
  }

  /** Where the first member's key, its value and the remaining members sit. */
  lemma {:induction false} MemberAt(ts: seq<Token>, p: nat, ms: seq<Member>, close: Token)
    requires ms != [] && At(ts, p, MembersTokens(ms) + [close])
    ensures p < |ts| && ts[p] == Str(ms[0].key)
    ensures At(ts, p + 1, Tokens(ms[0].value))
    ensures At(ts, p + 1 + |Tokens(ms[0].value)|, MembersTokens(ms[1..]) + [close])
    ensures |MembersTokens(ms)| == 1 + |Tokens(ms[0].value)| + |MembersTokens(ms[1..])|
  {
    var value := Tokens(ms[0].value);
    var rest := MembersTokens(ms[1..]) + [close];
    MembersTokensUnfold(ms, close);
    AtSplit(ts, p, [Str(ms[0].key)], value + rest);
    AtHead(ts, p, [Str(ms[0].key)]);
    AtSplit(ts, p + 1, value, rest);
  }

  lemma MembersTokensUnfold(ms: seq<Member>, close: Token)
    requires ms != []
    ensures MembersTokens(ms) + [close]
         == [Str(ms[0].key)] + (Tokens(ms[0].value) + (MembersTokens(ms[1..]) + [close]))
  {
  }

  lemma SkipItemsStep(ts: seq<Token>, p: nat, q: nat)
    requires SkipAt(ts, p) == Ok(q)
    ensures SkipItemsAt(ts, p) == SkipItemsAt(ts, q)
  {
  }

  /** Where the first item and the remaining items sit. */
  lemma {:induction false} ItemAt(ts: seq<Token>, p: nat, items: seq<Value>, close: Token)
    requires items != [] && At(ts, p, ItemsTokens(items) + [close])
    ensures At(ts, p, Tokens(items[0]))
    ensures At(ts, p + |Tokens(items[0])|, ItemsTokens(items[1..]) + [close])
    ensures |ItemsTokens(items)| == |Tokens(items[0])| + |ItemsTokens(items[1..])|
  {
    assert ItemsTokens(items) + [close] == Tokens(items[0]) + (ItemsTokens(items[1..]) + [close]);
    AtSplit(ts, p, Tokens(items[0]), ItemsTokens(items[1..]) + [close]);
  }

  // ---------------------------------------------------------------------------
  // The token-level decoder computes the value-level reading

  lemma {:induction false} HintItemsAgree(ts: seq<Token>, p: nat, items: seq<Value>, acc: seq<string>)
    requires At(ts, p, ItemsTokens(items) + [ArrClose])
    ensures HintItemsAt(ts, p, acc)
         == Located(Prepend(acc, StringItems(items)), p + |ItemsTokens(items)| + 1)
    decreases items
  {
    if items == [] {
      assert ItemsTokens(items) + [ArrClose] == [ArrClose];
      AtHead(ts, p, [ArrClose]);
      assert acc + [] == acc;
    } else {
      ItemAt(ts, p, items, ArrClose);
      FirstToken(items[0]);
      AtHead(ts, p, Tokens(items[0]));
      if items[0].String? {
        var s := items[0].s;
        HintItemsAgree(ts, p + 1, items[1..], acc + [s]);
        match StringItems(items[1..])
        case Ok(xs) =>
          assert (acc + [s]) + xs == acc + ([s] + xs);
        case Err(_) =>
      }
    }
  }

  /** decodeHints reads the hints value that starts at `p`, and stops right after it. */
  lemma {:induction false} DecodeHintsAgrees(ts: seq<Token>, p: nat, v: Value)
    requires At(ts, p, Tokens(v))
    ensures DecodeHintsAt(ts, p) == Located(HintsOfValue(v), p + |Tokens(v)|)
  {
    FirstToken(v);
    AtHead(ts, p, Tokens(v));
    if v.Array? {
      ArrayAt(ts, p, v.items);
      HintItemsAgree(ts, p + 1, v.items, []);
      match StringItems(v.items)
      case Ok(xs) => assert [] + xs == xs;
      case Err(_) =>
    }
  }

  /** The reading of an array-shape rule object after its first member `m`,
      with `tail` the members after it. */
  function RuleAfter(m: Member, tail: seq<Member>, path: string, hints: seq<string>): Result<Rule>
  {
    match KeyOf(m.key)
    case PathKey => if m.value.String? then RuleOfMembers(tail, m.value.s, hints) else Err(ExpectedString)
    case HintsKey => (
      match HintsOfValue(m.value)
      case Ok(h) => RuleOfMembers(tail, path, h)
      case Err(e) => Err(e))
    case OtherKey => RuleOfMembers(tail, path, hints)
  }

  lemma RuleOfMembersCons(ms: seq<Member>, path: string, hints: seq<string>)
    requires ms != []
    ensures RuleOfMembers(ms, path, hints) == RuleAfter(ms[0], ms[1..], path, hints)
  {
  }

  lemma {:induction false} RuleObjectAgrees(ts: seq<Token>, p: nat, ms: seq<Member>, path: string, hints: seq<string>)
    requires At(ts, p, MembersTokens(ms) + [ObjClose])
    ensures RuleObjectAt(ts, p, path, hints)
         == Located(RuleOfMembers(ms, path, hints), p + |MembersTokens(ms)| + 1)
    decreases ms, 1
  {
    if ms == [] {
      assert MembersTokens(ms) + [ObjClose] == [ObjClose];
      AtHead(ts, p, [ObjClose]);
    } else {
      MemberAt(ts, p, ms, ObjClose);
      RuleOfMembersCons(ms, path, hints);
      var end := p + |MembersTokens(ms)| + 1;
      match KeyOf(ms[0].key) {
        case PathKey => RulePathAgrees(ts, p, ms[0], ms[1..], path, hints, end);
        case HintsKey => RuleHintsAgrees(ts, p, ms[0], ms[1..], path, hints, end);
        case OtherKey => RuleOtherAgrees(ts, p, ms[0], ms[1..], path, hints, end);
      }
    }
  }

  /** A "path" member `m`, then the members `tail`. */
  lemma {:induction false} RulePathAgrees(ts: seq<Token>, p: nat, m: Member, tail: seq<Member>,
                                          path: string, hints: seq<string>, end: nat)
    requires KeyOf(m.key) == PathKey
    requires p < |ts| && ts[p] == Str(m.key)
    requires At(ts, p + 1, Tokens(m.value))
    requires At(ts, p + 1 + |Tokens(m.value)|, MembersTokens(tail) + [ObjClose])
    requires end == p + 1 + |Tokens(m.value)| + |MembersTokens(tail)| + 1
    ensures RuleObjectAt(ts, p, path, hints) == Located(RuleAfter(m, tail, path, hints), end)
    decreases tail, 3
  {
    var v := m.value;
    FirstToken(v);
    AtHead(ts, p + 1, Tokens(v));
    if v.String? {
      assert Tokens(v) == [Str(v.s)];
      assert p + 1 + |Tokens(v)| == p + 2;
      RuleObjectRest(ts, p, path, hints, p + 2, tail, v.s, hints, RuleAfter(m, tail, path, hints), end);
    } else {
      assert !ts[p + 1].Str?;
    }
  }

  /** A "hints" member `m`, then the members `tail`. */
  lemma {:induction false} RuleHintsAgrees(ts: seq<Token>, p: nat, m: Member, tail: seq<Member>,
                                           path: string, hints: seq<string>, end: nat)
    requires KeyOf(m.key) == HintsKey
    requires p < |ts| && ts[p] == Str(m.key)
    requires At(ts, p + 1, Tokens(m.value))
    requires At(ts, p + 1 + |Tokens(m.value)|, MembersTokens(tail) + [ObjClose])
    requires end == p + 1 + |Tokens(m.value)| + |MembersTokens(tail)| + 1
    ensures RuleObjectAt(ts, p, path, hints) == Located(RuleAfter(m, tail, path, hints), end)
    decreases tail, 3
  {
    var q := p + 1 + |Tokens(m.value)|;
    DecodeHintsAgrees(ts, p + 1, m.value);
    match HintsOfValue(m.value) {
      case Ok(h) =>
        RuleHintsUnfold(ts, p, path, hints, h, q);
        RuleObjectRest(ts, p, path, hints, q, tail, path, h, RuleAfter(m, tail, path, hints), end);
      case Err(e) =>
    }
  }

  /** Any other member `m` is skipped. */
  lemma {:induction false} RuleOtherAgrees(ts: seq<Token>, p: nat, m: Member, tail: seq<Member>,
                                           path: string, hints: seq<string>, end: nat)
    requires KeyOf(m.key) == OtherKey
    requires p < |ts| && ts[p] == Str(m.key)
    requires At(ts, p + 1, Tokens(m.value))
    requires At(ts, p + 1 + |Tokens(m.value)|, MembersTokens(tail) + [ObjClose])
    requires end == p + 1 + |Tokens(m.value)| + |MembersTokens(tail)| + 1
    ensures RuleObjectAt(ts, p, path, hints) == Located(RuleAfter(m, tail, path, hints), end)
    decreases tail, 3
  {
    var q := p + 1 + |Tokens(m.value)|;
    SkipValueExact(ts, p + 1, m.value);
    RuleOtherUnfold(ts, p, path, hints, q);
    RuleObjectRest(ts, p, path, hints, q, tail, path, hints, RuleAfter(m, tail, path, hints), end);
  }

  /** The reading from `p` continues, with the path and hints read so far, as
      the reading of the members `tail` from `q`. */
  lemma {:induction false} RuleObjectRest(ts: seq<Token>, p: nat, path: string, hints: seq<string>,
                                          q: nat, tail: seq<Member>, path': string, hints': seq<string>,
                                          r: Result<Rule>, end: nat)
    requires RuleObjectAt(ts, p, path, hints) == RuleObjectAt(ts, q, path', hints')
    requires At(ts, q, MembersTokens(tail) + [ObjClose])
    requires r == RuleOfMembers(tail, path', hints')
    requires end == q + |MembersTokens(tail)| + 1
    ensures RuleObjectAt(ts, p, path, hints) == Located(r, end)
    decreases tail, 2
  {
    RuleObjectAgrees(ts, q, tail, path', hints');
  }

  /** The rule an object-shape member denotes. */
  function MemberRule(m: Member): Result<Rule>
  {
    match HintsOfValue(m.value)
    case Ok(h) => Ok(Rule(m.key, h))
    case Err(e) => Err(e)
  }

  lemma RulesOfMembersCons(ms: seq<Member>)
    requires ms != []
    ensures RulesOfMembers(ms) == Cons(MemberRule(ms[0]), RulesOfMembers(ms[1..]))
  {
  }

  lemma {:induction false} RulesFromObjectAgrees(ts: seq<Token>, p: nat, ms: seq<Member>, acc: seq<Rule>)
    requires At(ts, p, MembersTokens(ms) + [ObjClose])
    ensures RulesFromObjectAt(ts, p, acc)
         == Located(Prepend(acc, RulesOfMembers(ms)), p + |MembersTokens(ms)| + 1)
    decreases ms, 1
  {
    if ms == [] {
      assert MembersTokens(ms) + [ObjClose] == [ObjClose];
      AtHead(ts, p, [ObjClose]);
      assert acc + [] == acc;
    } else {
      MemberAt(ts, p, ms, ObjClose);
      DecodeHintsAgrees(ts, p + 1, ms[0].value);
      RulesOfMembersCons(ms);
      RulesFromObjectMember(ts, p, ms[0], ms[1..], acc, RulesOfMembers(ms), p + |MembersTokens(ms)| + 1);
    }
  }

  /** One member `m` read as a rule, then the members `tail`. */
  lemma {:induction false} RulesFromObjectMember(ts: seq<Token>, p: nat, m: Member, tail: seq<Member>,
                                                 acc: seq<Rule>, all: Result<seq<Rule>>, end: nat)
    requires p < |ts| && ts[p] == Str(m.key)
    requires DecodeHintsAt(ts, p + 1) == Located(HintsOfValue(m.value), p + 1 + |Tokens(m.value)|)
    requires At(ts, p + 1 + |Tokens(m.value)|, MembersTokens(tail) + [ObjClose])
    requires all == Cons(MemberRule(m), RulesOfMembers(tail))
    requires end == p + 1 + |Tokens(m.value)| + |MembersTokens(tail)| + 1
    ensures RulesFromObjectAt(ts, p, acc) == Located(Prepend(acc, all), end)
    decreases tail, 2
  {
    var q := p + 1 + |Tokens(m.value)|;
    match HintsOfValue(m.value) {
      case Ok(h) =>
        var rule := Rule(m.key, h);
        RulesFromObjectUnfold(ts, p, acc, rule, q);
        RulesFromObjectAgrees(ts, q, tail, acc + [rule]);
        PrependSnoc(acc, rule, RulesOfMembers(tail));
      case Err(e) =>
    }
  }

  lemma {:induction false} RulesFromArrayAgrees(ts: seq<Token>, p: nat, items: seq<Value>, acc: seq<Rule>)
    requires At(ts, p, ItemsTokens(items) + [ArrClose])
    ensures RulesFromArrayAt(ts, p, acc)
         == Located(Prepend(acc, RulesOfItems(items)), p + |ItemsTokens(items)| + 1)
    decreases items, 1
  {
    if items == [] {
      assert ItemsTokens(items) + [ArrClose] == [ArrClose];
      AtHead(ts, p, [ArrClose]);
      assert acc + [] == acc;
    } else {
      var v := items[0];
      ItemAt(ts, p, items, ArrClose);
      FirstToken(v);
      AtHead(ts, p, Tokens(v));
      if v.Object? {
        RulesOfItemsHead(items);
        assert v == Object(v.members);
        RulesFromArrayObject(ts, p, v.members, items[1..], acc, RulesOfItems(items), p + |ItemsTokens(items)| + 1);
      } else {
        RulesFromArrayNotObject(ts, p, acc, items, p + |ItemsTokens(items)| + 1);
      }
    }
  }

  /** An object element with members `ms`: read as a rule object, then the
      elements `tail` after it. */
  lemma {:induction false} RulesFromArrayObject(ts: seq<Token>, p: nat, ms: seq<Member>, tail: seq<Value>,
                                                acc: seq<Rule>, all: Result<seq<Rule>>, end: nat)
    requires At(ts, p, Tokens(Object(ms)))
    requires At(ts, p + |Tokens(Object(ms))|, ItemsTokens(tail) + [ArrClose])
    requires all == Cons(RuleOfMembers(ms, "", []), RulesOfItems(tail))
    requires end == p + |Tokens(Object(ms))| + |ItemsTokens(tail)| + 1
    ensures RulesFromArrayAt(ts, p, acc) == Located(Prepend(acc, all), end)
    decreases tail, 3
  {
    RuleElementAgrees(ts, p, ms);
    RulesFromArrayElement(ts, p, tail, acc, RuleOfMembers(ms, "", []), p + |Tokens(Object(ms))|, all, end);
  }

  /** An element of the array shape read by decodeRuleObject. */
  lemma RuleElementAgrees(ts: seq<Token>, p: nat, ms: seq<Member>)
    requires At(ts, p, Tokens(Object(ms)))
    ensures p < |ts| && ts[p] == ObjOpen
    ensures RuleObjectAt(ts, p + 1, "", []) == Located(RuleOfMembers(ms, "", []), p + |Tokens(Object(ms))|)
    decreases ms, 3
  {
    ObjectAt(ts, p, ms);
    assert p + 1 + |MembersTokens(ms)| + 1 == p + |Tokens(Object(ms))|;
    RuleObjectAgrees(ts, p + 1, ms, "", []);
  }

  /** A rule, or the error that stops the reading, put in front of the rest. */
  function Cons<T>(r: Result<T>, rest: Result<seq<T>>): Result<seq<T>>
  {
    match r
    case Ok(x) => Prepend([x], rest)
    case Err(e) => Err(e)
  }

  lemma RulesOfItemsHead(items: seq<Value>)
    requires items != [] && items[0].Object?
    ensures RulesOfItems(items) == Cons(RuleOfMembers(items[0].members, "", []), RulesOfItems(items[1..]))
  {
  }

  /** A rule object read as `r` up to position `q`, then the elements `tail`. */
  lemma {:induction false} RulesFromArrayElement(ts: seq<Token>, p: nat, tail: seq<Value>, acc: seq<Rule>,
                                                 r: Result<Rule>, q: nat, all: Result<seq<Rule>>, end: nat)
    requires p < |ts| && ts[p] == ObjOpen
    requires RuleObjectAt(ts, p + 1, "", []) == Located(r, q)
    requires At(ts, q, ItemsTokens(tail) + [ArrClose])
    requires all == Cons(r, RulesOfItems(tail))
    requires end == q + |ItemsTokens(tail)| + 1
    ensures RulesFromArrayAt(ts, p, acc) == Located(Prepend(acc, all), end)
    decreases tail, 2
  {
    match r {
      case Ok(rule) =>
        RulesFromArrayUnfold(ts, p, acc, rule, q);
        RulesFromArrayAgrees(ts, q, tail, acc + [rule]);
        PrependSnoc(acc, rule, RulesOfItems(tail));
      case Err(e) =>
    }
  }

  /** An element that is not an object stops both readings. */
  lemma RulesFromArrayNotObject(ts: seq<Token>, p: nat, acc: seq<Rule>, items: seq<Value>, end: nat)
    requires items != [] && !items[0].Object?
    requires p < |ts| && ts[p] != ArrClose && ts[p] != ObjOpen
    ensures RulesFromArrayAt(ts, p, acc) == Located(Prepend(acc, RulesOfItems(items)), end)
  {
  }

  lemma RuleHintsUnfold(ts: seq<Token>, p: nat, path: string, hints: seq<string>, h: seq<string>, q: nat)
    requires p < |ts| && ts[p].Str? && KeyOf(ts[p].s) == HintsKey
    requires DecodeHintsAt(ts, p + 1) == Ok(Parsed(h, q))
    ensures RuleObjectAt(ts, p, path, hints) == RuleObjectAt(ts, q, path, h)
  {
  }

  lemma RuleOtherUnfold(ts: seq<Token>, p: nat, path: string, hints: seq<string>, q: nat)
    requires p < |ts| && ts[p].Str? && KeyOf(ts[p].s) == OtherKey
    requires SkipAt(ts, p + 1) == Ok(q)
    ensures RuleObjectAt(ts, p, path, hints) == RuleObjectAt(ts, q, path, hints)
  {
  }

  lemma RulesFromObjectUnfold(ts: seq<Token>, p: nat, acc: seq<Rule>, rule: Rule, q: nat)
    requires p < |ts| && ts[p] == Str(rule.path)
    requires DecodeHintsAt(ts, p + 1) == Ok(Parsed(rule.hints, q))
    ensures RulesFromObjectAt(ts, p, acc) == RulesFromObjectAt(ts, q, acc + [rule])
  {
  }

  lemma PrependSnoc<T>(acc: seq<T>, x: T, r: Result<seq<T>>)
    ensures Prepend(acc + [x], r) == Prepend(acc, Prepend([x], r))
  {
    if r.Ok? {
      assert (acc + [x]) + r.value == acc + ([x] + r.value);
    }
  }

  lemma RulesFromArrayUnfold(ts: seq<Token>, p: nat, acc: seq<Rule>, rule: Rule, q: nat)
    requires p < |ts| && ts[p] == ObjOpen && RuleObjectAt(ts, p + 1, "", []) == Ok(Parsed(rule, q))
    ensures RulesFromArrayAt(ts, p, acc) == RulesFromArrayAt(ts, q, acc + [rule])
  {
  }

  /** On the tokens of any JSON value, the decoder yields exactly the value-level
      reading of that value, errors included. */
  lemma DecodeRulesAgrees(v: Value)
    ensures DecodeRules(Tokens(v)) == RulesOfValue(v)
  {
    match v
    case Object(ms) => DecodeObjectAgrees(ms);
    case Array(items) => DecodeArrayAgrees(items);
    case _ => FirstToken(v);
  }

  lemma DecodeObjectAgrees(ms: seq<Member>)
    ensures DecodeRules(Tokens(Object(ms))) == RulesOfMembers(ms)
  {
    var ts := Tokens(Object(ms));
    AtSuffix(ts, 0);
    assert ts[0..] == ts;
    ObjectAt(ts, 0, ms);
    RulesFromObjectAgrees(ts, 1, ms, []);
    match RulesOfMembers(ms) {
      case Ok(xs) => assert [] + xs == xs;
      case Err(_) =>
    }
  }

  lemma DecodeArrayAgrees(items: seq<Value>)
    ensures DecodeRules(Tokens(Array(items))) == RulesOfItems(items)
  {
    var ts := Tokens(Array(items));
    AtSuffix(ts, 0);
    assert ts[0..] == ts;
    ArrayAt(ts, 0, items);
    RulesFromArrayAgrees(ts, 1, items, []);
    match RulesOfItems(items) {
      case Ok(xs) => assert [] + xs == xs;
      case Err(_) =>
    }
  }
}
