/** The default-value plan modifiers of the provider's resources: when the
    configuration leaves an attribute null, the planned value becomes a default,
    unless an earlier modifier has already planned a known value. */
module PlanModifiers {
  import opened Wrappers

  /** A terraform attribute value as a plan modifier sees it. */
  datatype Attr<T> = Null | Unknown | Known(value: T)

  /** boolDefaultValuePlanModifier, stringDefaultValuePlanModifier and
      int64DefaultValuePlanModifier: one type per attribute kind, each holding
      its default as a known value. */
  datatype DefaultValuePlanModifier<T> = DefaultValuePlanModifier(defaultValue: T)
  {
    /** PlanModifyBool / PlanModifyString / PlanModifyInt64: the response's plan
        value, which starts out as the request's plan value. */
    function PlanModify(config: Attr<T>, plan: Attr<T>): (r: Attr<T>)
      ensures !config.Null? ==> r == plan
      ensures plan.Known? ==> r == plan
      ensures config.Null? && !plan.Known? ==> r == Known(defaultValue)
    {
      if !config.Null? then plan
      else if !plan.Unknown? && !plan.Null? then plan
      else Known(defaultValue)
    }
  }

  type BoolDefaultValuePlanModifier = DefaultValuePlanModifier<bool>
  type StringDefaultValuePlanModifier = DefaultValuePlanModifier<string>
  type Int64DefaultValuePlanModifier = DefaultValuePlanModifier<Int64>

  /** BoolDefaultValue, StringDefaultValue, Int64DefaultValue. */
  function BoolDefaultValue(v: bool): BoolDefaultValuePlanModifier { DefaultValuePlanModifier(v) }
  function StringDefaultValue(v: string): StringDefaultValuePlanModifier { DefaultValuePlanModifier(v) }
  function Int64DefaultValue(v: Int64): Int64DefaultValuePlanModifier { DefaultValuePlanModifier(v) }

  // ---------------------------------------------------------------------------

  /** With a null configuration the plan is never left null or unknown. */
  lemma NullConfigGetsKnownPlan<T>(apm: DefaultValuePlanModifier<T>, plan: Attr<T>)
    ensures apm.PlanModify(Null, plan).Known?
  {
  }

  /** Running a modifier again changes nothing more. */
  lemma Idempotent<T>(apm: DefaultValuePlanModifier<T>, config: Attr<T>, plan: Attr<T>)
    ensures apm.PlanModify(config, apm.PlanModify(config, plan)) == apm.PlanModify(config, plan)
  {
  }

  /** In a chain of default modifiers the first one decides: the later ones find
      a known plan and leave it alone. */
  lemma FirstDefaultWins<T>(first: DefaultValuePlanModifier<T>, second: DefaultValuePlanModifier<T>,
                            config: Attr<T>, plan: Attr<T>)
    ensures second.PlanModify(config, first.PlanModify(config, plan)) == first.PlanModify(config, plan)
  {
  }

  /** Applies `f` to a known value, keeping null and unknown. */
  function Map<T, U>(f: T -> U, a: Attr<T>): (b: Attr<U>)
    ensures b.Null? == a.Null? && b.Unknown? == a.Unknown?
    ensures a.Known? ==> b == Known(f(a.value))
  {
    match a
    case Null => Null
    case Unknown => Unknown
    case Known(v) => Known(f(v))
  }

  /** The rule never looks at the values themselves: renaming every value by `f`
      before or after the modifier gives the same plan. So the bool, string and
      int64 modifiers decide alike on the same null/unknown/known inputs. */
  lemma SameRuleForEveryKind<T, U>(d: T, f: T -> U, config: Attr<T>, plan: Attr<T>)
    ensures DefaultValuePlanModifier(f(d)).PlanModify(Map(f, config), Map(f, plan))
         == Map(f, DefaultValuePlanModifier(d).PlanModify(config, plan))
  {
  }

  /** An illustration, not a further property: the three constructors' modifiers
      side by side on the cases the rule distinguishes (SameRuleForEveryKind is
      the general statement). */
  lemma KindsAgree(b: bool, s: string, n: Int64)
    ensures BoolDefaultValue(b).PlanModify(Null, Unknown) == Known(b)
    ensures StringDefaultValue(s).PlanModify(Null, Null) == Known(s)
    ensures Int64DefaultValue(n).PlanModify(Known(n), Null) == Null
    ensures Int64DefaultValue(n).PlanModify(Null, Known(n)) == Known(n)
  {
  }
}
