/** The JSON-hint decoder as the code runs it: loops that pull tokens from a
    shared decoder and append to the receiver's rule list in place. Each
    method is proved to agree with its specification function in JsonHints. */
module JsonHintsDecoder {
  import opened Wrappers
  import opened Text
  import opened Json
  import opened JsonHints

  /** decodeHints. */
  method DecodeHints(d: Decoder) returns (r: Result<seq<string>>)
    requires d.Valid()
    modifies d
    ensures d.Valid()
    ensures Follows(r, DecodeHintsAt(d.tokens, old(d.pos)), d.pos)
  {
    var t := d.NextToken();
    if t.Err? {
      return Err(t.error);
    }
    if t.value.Str? {
      return Ok([t.value.s]);
    }
    if t.value != ArrOpen {
      return Err(ExpectedStringOrArray);
    }
    var result: seq<string> := [];
    while true
      invariant d.Valid()
      invariant HintItemsAt(d.tokens, d.pos, result) == DecodeHintsAt(d.tokens, old(d.pos))
      decreases |d.tokens| - d.pos
    {
      t := d.NextToken();
      if t.Err? {
        return Err(t.error);
      }
      if t.value == ArrClose {
        return Ok(result);
      }
      if !t.value.Str? {
        return Err(ExpectedString);
      }
      result := result + [t.value.s];
    }
  }

  /** skipValue: recursive, over the same cursor. The result is the error, if any. */
  method SkipValue(d: Decoder) returns (err: Option<Error>)
    requires d.Valid()
    modifies d
    decreases |d.tokens| - d.pos
    ensures d.Valid()
    ensures match SkipAt(d.tokens, old(d.pos))
            case Ok(q) => err == None && d.pos == q
            case Err(e) => err == Some(e) && (e == InvalidEnd ==> d.pos == old(d.pos) + 1)
  {
    var t := d.NextToken();
    if t.Err? {
      return Some(t.error);
    }
    if t.value == ArrOpen || t.value == ObjOpen {
      while true
        invariant d.Valid() && old(d.pos) < d.pos
        invariant SkipItemsAt(d.tokens, d.pos) == SkipAt(d.tokens, old(d.pos))
        decreases |d.tokens| - d.pos
      {
        var e := SkipValue(d);
        if e.Some? {
          if e.value == InvalidEnd {
            break;
          }
          return e;
        }
      }
    } else if t.value == ArrClose || t.value == ObjClose {
      return Some(InvalidEnd);
    }
    return None;
  }

  /** decodeRuleObject, entered just after the rule's `{`. */
  method DecodeRuleObject(d: Decoder) returns (r: Result<Rule>)
    requires d.Valid()
    modifies d
    ensures d.Valid()
    ensures Follows(r, RuleObjectAt(d.tokens, old(d.pos), "", []), d.pos)
  {
    var path := "";
    var hints: seq<string> := [];
    while true
      invariant d.Valid()
      invariant RuleObjectAt(d.tokens, d.pos, path, hints) == RuleObjectAt(d.tokens, old(d.pos), "", [])
      decreases |d.tokens| - d.pos
    {
      var t := d.NextToken();
      if t.Err? {
        return Err(t.error);
      }
      if t.value == ObjClose {
        break;
      }
      if !t.value.Str? {
        return Err(NotAKey);
      }
      var key := KeyOf(t.value.s);
      if key == PathKey {
        var v := d.NextToken();
        if v.Err? {
          return Err(v.error);
        }
        if !v.value.Str? {
          return Err(ExpectedString);
        }
        path := v.value.s;
      } else if key == HintsKey {
        var h := DecodeHints(d);
        if h.Err? {
          return Err(h.error);
        }
        hints := h.value;
      } else {
        var e := SkipValue(d);
        if e.Some? {
          return Err(e.value);
        }
      }
    }
    return Ok(Rule(path, hints));
  }

  /** TableInputJSONHintsModel: a rule list that decoding appends to. */
  class HintsModel {
    var rules: seq<Rule>

    constructor ()
      ensures rules == []
    {
      rules := [];
    }

    /** UnmarshalJSON: dispatch on the first token. On success the decoded rules
        follow the ones already held; on failure the rules held before remain a
        prefix (the caller discards the model). */
    method UnmarshalJSON(data: seq<Token>) returns (err: Option<Error>)
      modifies this
      ensures DecodeRules(data).Ok? ==> err == None && rules == old(rules) + DecodeRules(data).value
      ensures DecodeRules(data).Err? ==> err == Some(DecodeRules(data).error) && old(rules) <= rules
    {
      var d := new Decoder(data);
      var t := d.NextToken();
      if t.Err? {
        return Some(t.error);
      }
      if t.value == ObjOpen {
        AccumulateObject(data, 1, old(rules));
        err := DecodeRulesFromObject(d);
      } else if t.value == ArrOpen {
        AccumulateArray(data, 1, old(rules));
        err := DecodeRulesFromArray(d);
      } else {
        err := Some(ExpectedObjectOrArray);
      }
    }

    /** decodeRulesFromObject. */
    method DecodeRulesFromObject(d: Decoder) returns (err: Option<Error>)
      requires d.Valid()
      modifies this, d
      ensures d.Valid()
      ensures match RulesFromObjectAt(d.tokens, old(d.pos), old(rules))
              case Ok(p) => err == None && rules == p.value && d.pos == p.next
              case Err(e) => err == Some(e) && old(rules) <= rules
    {
      while true
        invariant d.Valid() && old(rules) <= rules
        invariant RulesFromObjectAt(d.tokens, d.pos, rules) == RulesFromObjectAt(d.tokens, old(d.pos), old(rules))
        decreases |d.tokens| - d.pos
      {
        var t := d.NextToken();
        if t.Err? {
          return Some(t.error);
        }
        if t.value == ObjClose {
          return None;
        }
        if !t.value.Str? {
          return Some(NotAKey);
        }
        var path := t.value.s;
        var hints := DecodeHints(d);
        if hints.Err? {
          return Some(hints.error);
        }
        rules := rules + [Rule(path, hints.value)];
      }
    }

    /** decodeRulesFromArray. */
    method DecodeRulesFromArray(d: Decoder) returns (err: Option<Error>)
      requires d.Valid()
      modifies this, d
      ensures d.Valid()
      ensures match RulesFromArrayAt(d.tokens, old(d.pos), old(rules))
              case Ok(p) => err == None && rules == p.value && d.pos == p.next
              case Err(e) => err == Some(e) && old(rules) <= rules
    {
      while true
        invariant d.Valid() && old(rules) <= rules
        invariant RulesFromArrayAt(d.tokens, d.pos, rules) == RulesFromArrayAt(d.tokens, old(d.pos), old(rules))
        decreases |d.tokens| - d.pos
      {
        var t := d.NextToken();
        if t.Err? {
          return Some(t.error);
        }
        if t.value == ArrClose {
          return None;
        }
        if t.value == ObjOpen {
          var rule := DecodeRuleObject(d);
          if rule.Err? {
            return Some(rule.error);
          }
          rules := rules + [rule.value];
          continue;
        }
        return Some(ExpectedObject);
      }
    }
  }

  /** `r` with the rules `acc` put in front of the ones it decoded. */
  function Shifted(acc: seq<Rule>, r: Result<Parsed<seq<Rule>>>): Result<Parsed<seq<Rule>>>
  {
    match r
    case Ok(x) => Ok(Parsed(acc + x.value, x.next))
    case Err(e) => Err(e)
  }

  lemma ShiftedSnoc(acc: seq<Rule>, rule: Rule, r: Result<Parsed<seq<Rule>>>)
    ensures Shifted(acc + [rule], r) == Shifted(acc, Shifted([rule], r))
  {
    if r.Ok? {
      assert acc + [rule] + r.value.value == acc + ([rule] + r.value.value);
    }
  }

  /** Rules already held only prefix what the object-shape loop decodes. */
  lemma {:induction false} AccumulateObject(ts: seq<Token>, p: nat, acc: seq<Rule>)
    ensures RulesFromObjectAt(ts, p, acc) == Shifted(acc, RulesFromObjectAt(ts, p, []))
    decreases |ts| - p
  {
    if p < |ts| && ts[p].Str? {
      var h := DecodeHintsAt(ts, p + 1);
      if h.Ok? {
        var rule := Rule(ts[p].s, h.value.value);
        AccumulateObject(ts, h.value.next, acc + [rule]);
        AccumulateObject(ts, h.value.next, [rule]);
        ObjectStepOk(ts, p, acc, h.value, RulesFromObjectAt(ts, h.value.next, []));
      }
    } else if p < |ts| && ts[p] == ObjClose {
      assert acc + [] == acc;
    }
  }

  lemma ObjectStepOk(ts: seq<Token>, p: nat, acc: seq<Rule>, h: Parsed<seq<string>>, rest: Result<Parsed<seq<Rule>>>)
    requires p < |ts| && ts[p].Str? && DecodeHintsAt(ts, p + 1) == Ok(h)
    requires RulesFromObjectAt(ts, h.next, acc + [Rule(ts[p].s, h.value)]) == Shifted(acc + [Rule(ts[p].s, h.value)], rest)
    requires RulesFromObjectAt(ts, h.next, [Rule(ts[p].s, h.value)]) == Shifted([Rule(ts[p].s, h.value)], rest)
    ensures RulesFromObjectAt(ts, p, acc) == Shifted(acc, RulesFromObjectAt(ts, p, []))
  {
    var rule := Rule(ts[p].s, h.value);
    assert RulesFromObjectAt(ts, p, acc) == RulesFromObjectAt(ts, h.next, acc + [rule]);
    assert RulesFromObjectAt(ts, p, []) == RulesFromObjectAt(ts, h.next, [] + [rule]);
    assert [] + [rule] == [rule];
    ShiftedSnoc(acc, rule, rest);
  }

  /** Rules already held only prefix what the array-shape loop decodes. */
  lemma {:induction false} AccumulateArray(ts: seq<Token>, p: nat, acc: seq<Rule>)
    ensures RulesFromArrayAt(ts, p, acc) == Shifted(acc, RulesFromArrayAt(ts, p, []))
    decreases |ts| - p
  {
    if p < |ts| && ts[p] == ObjOpen {
      var o := RuleObjectAt(ts, p + 1, "", []);
      if o.Ok? {
        AccumulateArray(ts, o.value.next, acc + [o.value.value]);
        AccumulateArray(ts, o.value.next, [o.value.value]);
        ArrayStepOk(ts, p, acc, o.value, RulesFromArrayAt(ts, o.value.next, []));
      } else {
        ArrayStepErr(ts, p, acc);
        ArrayStepErr(ts, p, []);
      }
    } else if p < |ts| && ts[p] == ArrClose {
      assert acc + [] == acc;
    }
  }

  lemma ArrayStepOk(ts: seq<Token>, p: nat, acc: seq<Rule>, o: Parsed<Rule>, rest: Result<Parsed<seq<Rule>>>)
    requires p < |ts| && ts[p] == ObjOpen && RuleObjectAt(ts, p + 1, "", []) == Ok(o)
    requires RulesFromArrayAt(ts, o.next, acc + [o.value]) == Shifted(acc + [o.value], rest)
    requires RulesFromArrayAt(ts, o.next, [o.value]) == Shifted([o.value], rest)
    ensures RulesFromArrayAt(ts, p, acc) == Shifted(acc, RulesFromArrayAt(ts, p, []))
  {
    ArrayStep(ts, p, acc, o);
    ArrayStep(ts, p, [], o);
    assert [] + [o.value] == [o.value];
    ShiftedSnoc(acc, o.value, rest);
  }

  lemma ArrayStep(ts: seq<Token>, p: nat, acc: seq<Rule>, o: Parsed<Rule>)
    requires p < |ts| && ts[p] == ObjOpen && RuleObjectAt(ts, p + 1, "", []) == Ok(o)
    ensures RulesFromArrayAt(ts, p, acc) == RulesFromArrayAt(ts, o.next, acc + [o.value])
  {
  }

  lemma ArrayStepErr(ts: seq<Token>, p: nat, acc: seq<Rule>)
    requires p < |ts| && ts[p] == ObjOpen && RuleObjectAt(ts, p + 1, "", []).Err?
    ensures RulesFromArrayAt(ts, p, acc) == Err(RuleObjectAt(ts, p + 1, "", []).error)
  {
  }
}
