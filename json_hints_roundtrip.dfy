/** What the encoder's output reads back as, and how the two accepted shapes
    relate, stated at the value level and carried to the token decoder. */
module JsonHintsRoundTrip {
  import opened Wrappers
  import opened Text
  import opened Json
  import opened JsonHints
  import opened JsonHintsProofs

  /** Lower-casing twice changes nothing more. */
  lemma LowerIdempotent(s: string)
    ensures Lower(Lower(s)) == Lower(s)
  {
    forall i | 0 <= i < |s|
      ensures Lower(Lower(s))[i] == Lower(s)[i]
    {
      var c := s[i];
      assert Lower(s)[i] == LowerChar(c);
    }
  }

  /** Keys are classified case-insensitively. */
  lemma KeyOfIgnoresCase(key: string)
    ensures KeyOf(Lower(key)) == KeyOf(key)
  {
    LowerIdempotent(key);
  }

  lemma KeyOfLiterals()
    ensures KeyOf("path") == PathKey && KeyOf("Path") == PathKey && KeyOf("PATH") == PathKey
    ensures KeyOf("hints") == HintsKey && KeyOf("Hints") == HintsKey
    ensures KeyOf("field") == OtherKey
  {
    assert Lower("path") == "path";
    assert Lower("Path") == "path";
    assert Lower("PATH") == "path";
    assert Lower("hints") == "hints";
    assert Lower("Hints") == "hints";
    assert Lower("field")[0] == 'f';
  }

  // ---------------------------------------------------------------------------
  // Value level

  lemma {:induction false} StringItemsOfStrings(hs: seq<string>)
    ensures StringItems(Strings(hs)) == Ok(hs)
  {
    if hs != [] {
      assert Strings(hs)[1..] == Strings(hs[1..]);
      StringItemsOfStrings(hs[1..]);
      assert [hs[0]] + hs[1..] == hs;
    }
  }

  /** decodeHints on its four kinds of input: a string is a one-hint list, an
      array of strings the list of them in order (none for `[]`), and a null or
      a non-string element is rejected. */
  lemma DecodeHintsCases(s: string, hs: seq<string>)
    ensures DecodeHintsAt([Str(s)], 0) == Ok(Parsed([s], 1))
    ensures DecodeHintsAt(Tokens(Array(Strings(hs))), 0) == Ok(Parsed(hs, |Tokens(Array(Strings(hs)))|))
    ensures DecodeHintsAt([Scalar], 0) == Err(ExpectedStringOrArray)
    ensures DecodeHintsAt([ArrOpen, Str(s), Scalar, ArrClose], 0) == Err(ExpectedString)
  {
    var ts := Tokens(Array(Strings(hs)));
    AtSuffix(ts, 0);
    assert ts[0..] == ts;
    DecodeHintsAgrees(ts, 0, Array(Strings(hs)));
    StringItemsOfStrings(hs);
    var bad := [ArrOpen, Str(s), Scalar, ArrClose];
    assert HintItemsAt(bad, 2, [s]) == Err(ExpectedString);
    assert HintItemsAt(bad, 1, []) == HintItemsAt(bad, 2, [] + [s]);
  }

  /** A non-empty hint list reads back as itself; an empty one was written as
      null, which the hints reader rejects. */
  lemma HintsRoundTrip(hs: seq<string>)
    ensures HintsOfValue(EncodeHints(hs)) == if hs == [] then Err(ExpectedStringOrArray) else Ok(hs)
  {
    if hs != [] {
      StringItemsOfStrings(hs);
    }
  }

  lemma RuleRoundTrip(r: Rule)
    ensures RuleOfMembers(EncodeRule(r).members, "", [])
         == if r.hints == [] then Err(ExpectedStringOrArray) else Ok(r)
  {
    var ms := EncodeRule(r).members;
    KeyOfLiterals();
    HintsRoundTrip(r.hints);
    assert ms[1..][1..] == [];
    if r.hints != [] {
      assert RuleOfMembers(ms[1..], r.path, []) == RuleOfMembers([], r.path, r.hints);
    }
  }

  /** Every rule has a non-empty hint list. */
  predicate AllHinted(rules: seq<Rule>)
  {
    forall i :: 0 <= i < |rules| ==> rules[i].hints != []
  }

  /** The first rule without hints, if any, stops the array reading. */
  lemma {:induction false} EncodedItemsRoundTrip(rules: seq<Rule>)
    ensures RulesOfItems(seq(|rules|, i requires 0 <= i < |rules| => EncodeRule(rules[i])))
         == if AllHinted(rules) then Ok(rules) else Err(ExpectedStringOrArray)
  {
    var items := seq(|rules|, i requires 0 <= i < |rules| => EncodeRule(rules[i]));
    if rules != [] {
      assert items[0] == EncodeRule(rules[0]);
      assert items[1..] == seq(|rules[1..]|, i requires 0 <= i < |rules[1..]| => EncodeRule(rules[1..][i]));
      RuleRoundTrip(rules[0]);
      EncodedItemsRoundTrip(rules[1..]);
      assert AllHinted(rules) <==> rules[0].hints != [] && AllHinted(rules[1..]) by {
        if rules[0].hints != [] && AllHinted(rules[1..]) {
          forall i | 0 <= i < |rules|
            ensures rules[i].hints != []
          {
            if i > 0 {
              assert rules[i] == rules[1..][i - 1];
            }
          }
        }
      }
      assert [rules[0]] + rules[1..] == rules;
    }
  }

  /** The encoder writes the array shape; it reads back as the same rules exactly
      when every rule has hints. No rules at all are written as null, which is
      neither shape. */
  lemma EncodedRulesRoundTrip(rules: seq<Rule>)
    ensures RulesOfValue(EncodeRules(rules))
         == if rules == [] then Err(ExpectedObjectOrArray)
            else if AllHinted(rules) then Ok(rules)
            else Err(ExpectedStringOrArray)
  {
    if rules != [] {
      EncodedItemsRoundTrip(rules);
    }
  }

  /** The same round trip through the token decoder. */
  lemma EncodedRulesDecode(rules: seq<Rule>)
    ensures DecodeRules(Tokens(EncodeRules(rules)))
         == if rules == [] then Err(ExpectedObjectOrArray)
            else if AllHinted(rules) then Ok(rules)
            else Err(ExpectedStringOrArray)
  {
    DecodeRulesAgrees(EncodeRules(rules));
    EncodedRulesRoundTrip(rules);
  }

  // ---------------------------------------------------------------------------
  // The object shape: {"<path>": <hints>, ...}

  /** The rules written in the object shape, hints always as an array. */
  function ObjectShape(rules: seq<Rule>): (v: Value)
    ensures v.Object? && |v.members| == |rules|
  {
    Object(seq(|rules|, i requires 0 <= i < |rules| => Member(rules[i].path, Array(Strings(rules[i].hints)))))
  }

  /** The object shape reads back as the rules it was written from, whatever
      their hints, including none. */
  lemma {:induction false} ObjectShapeRoundTrip(rules: seq<Rule>)
    ensures RulesOfValue(ObjectShape(rules)) == Ok(rules)
  {
    var ms := ObjectShape(rules).members;
    if rules != [] {
      assert ms[1..] == ObjectShape(rules[1..]).members;
      StringItemsOfStrings(rules[0].hints);
      ObjectShapeRoundTrip(rules[1..]);
      assert [Rule(rules[0].path, rules[0].hints)] + rules[1..] == rules;
    }
  }

  /** Where both shapes succeed they denote the same rules. */
  lemma ShapesAgree(rules: seq<Rule>)
    requires rules != [] && AllHinted(rules)
    ensures DecodeRules(Tokens(ObjectShape(rules))) == DecodeRules(Tokens(EncodeRules(rules))) == Ok(rules)
  {
    ObjectShapeRoundTrip(rules);
    DecodeRulesAgrees(ObjectShape(rules));
    EncodedRulesDecode(rules);
  }

  /** A rule object's "field" member is not recognised: it is skipped, and the
      rule keeps an empty path. */
  lemma FieldKeyIgnored(f: string, h: string)
    ensures RulesOfValue(Array([Object([Member("field", String(f)), Member("hints", String(h))])]))
         == Ok([Rule("", [h])])
  {
    KeyOfLiterals();
    var ms := [Member("field", String(f)), Member("hints", String(h))];
    assert ms[1..][1..] == [];
    assert RuleOfMembers(ms[1..], "", []) == Ok(Rule("", [h]));
    assert RuleOfMembers(ms, "", []) == RuleOfMembers(ms[1..], "", []);
    assert RulesOfItems([Object(ms)][1..]) == Ok([]);
    assert [Rule("", [h])] + [] == [Rule("", [h])];
  }

  /** In a rule object, a later "path" or "hints" member overrides an earlier one. */
  lemma LaterMemberWins(p1: string, p2: string, h1: string, h2: string)
    ensures RuleOfMembers([Member("path", String(p1)), Member("Hints", String(h1)),
                           Member("PATH", String(p2)), Member("hints", String(h2))], "", [])
         == Ok(Rule(p2, [h2]))
  {
    KeyOfLiterals();
    var ms := [Member("path", String(p1)), Member("Hints", String(h1)),
               Member("PATH", String(p2)), Member("hints", String(h2))];
    assert ms[1..][1..][1..][1..] == [];
    assert RuleOfMembers(ms[1..][1..][1..], p2, [h1]) == Ok(Rule(p2, [h2]));
    assert RuleOfMembers(ms[1..][1..], p1, [h1]) == Ok(Rule(p2, [h2]));
  }
}
