/** The model validator: a non-empty, ordered list of validation rules, run in
    order over a manifest, whose issues are concatenated in rule order. A rule is
    abstract here: the name of its class, by which callers select or drop it,
    and the function from a manifest (of any type `M`) to the issues it reports. */
module ModelValidators {
  import opened Wrappers
  import opened Seqs
  import opened ValidationIssues

  /** A validation rule: its class name and the check it runs. Rules are told
      apart by class name, whereas Python compares the class objects; two
      distinct classes sharing a name would be one class here. */
  datatype Rule<!M> = Rule(ruleClass: string, validateManifest: M -> seq<ValidationIssue>)

  /** A validator; `NewModelValidator` only ever builds one with rules. */
  datatype ModelValidator<!M> = ModelValidator(rules: seq<Rule<M>>)

  /** Raised when a validator is configured without rules. */
  datatype ConfigurationError = NoRulesConfigured

  /** The aggregate a validation pass returns. */
  datatype ValidationIssueSet = ValidationIssueSet(allIssues: seq<ValidationIssue>)

  /** Configures a validator from an explicit `rules` argument. An explicit
      `rules=None` (`None` here) and an empty collection (list or tuple alike)
      are refused: a validator without rules would report a clean bill of
      health for every manifest. A call that omits `rules` uses the default
      rules and is written `NewModelValidator(Some(defaults))`. */
  function NewModelValidator<M>(rules: Option<seq<Rule<M>>>): (r: Result<ModelValidator<M>, ConfigurationError>)
    ensures r.Success? <==> rules.Some? && |rules.value| > 0
    ensures r.Success? ==> r.value.rules == rules.value
  {
    match rules
    case None => Failure(NoRulesConfigured)
    case Some(rs) => if |rs| == 0 then Failure(NoRulesConfigured) else Success(ModelValidator(rs))
  }

  /** What each rule reports for `manifest`, in rule order. */
  function RuleOutputs<M>(rules: seq<Rule<M>>, manifest: M): seq<seq<ValidationIssue>>
  {
    seq(|rules|, k requires 0 <= k < |rules| => rules[k].validateManifest(manifest))
  }

  /** Runs `rules` in order, appending each rule's issues. */
  function IssuesOf<M>(rules: seq<Rule<M>>, manifest: M): (issues: seq<ValidationIssue>)
    ensures issues == Flatten(RuleOutputs(rules, manifest))
  {
    if rules == [] then []
    else
      assert RuleOutputs(rules, manifest)[1..] == RuleOutputs(rules[1..], manifest);
      rules[0].validateManifest(manifest) + IssuesOf(rules[1..], manifest)
  }

  /** One validation pass: the issues of every configured rule, concatenated in
      rule order. Every issue comes from a configured rule and every issue of a
      configured rule is reported. */
  function Validate<M>(validator: ModelValidator<M>, manifest: M): (result: ValidationIssueSet)
    ensures result.allIssues == Flatten(RuleOutputs(validator.rules, manifest))
    ensures |result.allIssues| == TotalLength(RuleOutputs(validator.rules, manifest))
    ensures forall i :: i in result.allIssues <==>
      exists k :: 0 <= k < |validator.rules| && i in validator.rules[k].validateManifest(manifest)
  {
    var outputs := RuleOutputs(validator.rules, manifest);
    FlattenLength(outputs);
    InFlattenAll(outputs);
    assert forall k :: 0 <= k < |validator.rules| ==> outputs[k] == validator.rules[k].validateManifest(manifest);
    ValidationIssueSet(IssuesOf(validator.rules, manifest))
  }

  /** The rules of `rules` whose class is not `ruleClass`, in their order. */
  function WithoutRuleClass<M>(rules: seq<Rule<M>>, ruleClass: string): (kept: seq<Rule<M>>)
    ensures |kept| <= |rules|
    ensures forall k :: 0 <= k < |kept| ==> kept[k].ruleClass != ruleClass
    ensures forall k :: 0 <= k < |kept| ==> exists j :: 0 <= j < |rules| && kept[k] == rules[j]
    ensures |kept| > 0 <==> exists j :: 0 <= j < |rules| && rules[j].ruleClass != ruleClass
    ensures forall j :: 0 <= j < |rules| && rules[j].ruleClass != ruleClass ==> rules[j] in kept
  {
    if rules == [] then []
    else if rules[0].ruleClass == ruleClass then WithoutRuleClass(rules[1..], ruleClass)
    else [rules[0]] + WithoutRuleClass(rules[1..], ruleClass)
  }

  /** The rules of `rules` whose class is `ruleClass`, in their order. */
  function OnlyRuleClass<M>(rules: seq<Rule<M>>, ruleClass: string): (chosen: seq<Rule<M>>)
    ensures |chosen| <= |rules|
    ensures forall k :: 0 <= k < |chosen| ==> chosen[k].ruleClass == ruleClass
    ensures forall j :: 0 <= j < |rules| && rules[j].ruleClass == ruleClass ==> rules[j] in chosen
  {
    if rules == [] then []
    else if rules[0].ruleClass == ruleClass then [rules[0]] + OnlyRuleClass(rules[1..], ruleClass)
    else OnlyRuleClass(rules[1..], ruleClass)
  }

  /** Every chosen rule is a rule of the input: choosing invents nothing. */
  lemma {:induction false} OnlyRuleClassChoosesFromInput<M>(rules: seq<Rule<M>>, ruleClass: string, k: nat)
    requires k < |OnlyRuleClass(rules, ruleClass)|
    ensures exists j :: 0 <= j < |rules| && OnlyRuleClass(rules, ruleClass)[k] == rules[j]
  {
    var rest := OnlyRuleClass(rules[1..], ruleClass);
    if rules[0].ruleClass == ruleClass && k == 0 {
      assert OnlyRuleClass(rules, ruleClass)[0] == rules[0];
    } else {
      var k' := if rules[0].ruleClass == ruleClass then k - 1 else k;
      assert OnlyRuleClass(rules, ruleClass)[k] == rest[k'];
      OnlyRuleClassChoosesFromInput(rules[1..], ruleClass, k');
      var j :| 0 <= j < |rules[1..]| && rest[k'] == rules[1..][j];
      assert rest[k'] == rules[j + 1];
    }
  }

  /** Filtering two lists of rules one after the other keeps the first list's
      rules of other classes, then the second's: the order is kept. */
  lemma {:induction false} WithoutRuleClassConcat<M>(a: seq<Rule<M>>, b: seq<Rule<M>>, ruleClass: string)
    ensures WithoutRuleClass(a + b, ruleClass) == WithoutRuleClass(a, ruleClass) + WithoutRuleClass(b, ruleClass)
  {
    if a == [] {
      assert a + b == b;
    } else {
      var ab := a + b;
      ConcatHeadTail(a, b);
      WithoutRuleClassConcat(a[1..], b, ruleClass);
    }
  }

  /** Choosing from two lists of rules one after the other chooses the first
      list's rules of the class, then the second's. */
  lemma {:induction false} OnlyRuleClassConcat<M>(a: seq<Rule<M>>, b: seq<Rule<M>>, ruleClass: string)
    ensures OnlyRuleClass(a + b, ruleClass) == OnlyRuleClass(a, ruleClass) + OnlyRuleClass(b, ruleClass)
  {
    if a == [] {
      assert a + b == b;
    } else {
      var ab := a + b;
      ConcatHeadTail(a, b);
      OnlyRuleClassConcat(a[1..], b, ruleClass);
    }
  }

  /** Running the rules of two lists one after the other reports the first
      list's issues, then the second's. */
  lemma {:induction false} IssuesOfConcat<M>(a: seq<Rule<M>>, b: seq<Rule<M>>, manifest: M)
    ensures IssuesOf(a + b, manifest) == IssuesOf(a, manifest) + IssuesOf(b, manifest)
  {
    if a == [] {
      assert a + b == b;
    } else {
      var ab := a + b;
      ConcatHeadTail(a, b);
      IssuesOfConcat(a[1..], b, manifest);
      assert IssuesOf(ab, manifest) == a[0].validateManifest(manifest) + IssuesOf(a[1..] + b, manifest);
    }
  }

  /** Dropping the rules of one class drops exactly their issues: the issues of
      all rules are, as a multiset, those of the remaining rules plus those of
      the dropped ones. */
  lemma {:induction false} DroppingRuleClassDropsItsIssues<M>(rules: seq<Rule<M>>, ruleClass: string, manifest: M)
    ensures multiset(IssuesOf(rules, manifest))
         == multiset(IssuesOf(WithoutRuleClass(rules, ruleClass), manifest))
          + multiset(IssuesOf(OnlyRuleClass(rules, ruleClass), manifest))
  {
    if rules != [] {
      DroppingRuleClassDropsItsIssues(rules[1..], ruleClass, manifest);
      var first := rules[0];
      var kept := WithoutRuleClass(rules[1..], ruleClass);
      var chosen := OnlyRuleClass(rules[1..], ruleClass);
      if first.ruleClass == ruleClass {
        IssuesOfConcat([first], chosen, manifest);
        assert IssuesOf([first], manifest) == first.validateManifest(manifest);
      } else {
        IssuesOfConcat([first], kept, manifest);
        assert IssuesOf([first], manifest) == first.validateManifest(manifest);
      }
    }
  }

  /** Rules that all accept a manifest together report nothing for it. */
  lemma {:induction false} SilentRulesReportNothing<M>(rules: seq<Rule<M>>, manifest: M)
    requires forall k :: 0 <= k < |rules| ==> rules[k].validateManifest(manifest) == []
    ensures IssuesOf(rules, manifest) == []
  {
    if rules != [] {
      SilentRulesReportNothing(rules[1..], manifest);
    }
  }

  /** A validator is configured from the default rules (the call without a
      `rules` argument, written `NewModelValidator(Some(defaults))`), and another from the
      default rules without those of one class (`dropped`). On a manifest whose
      only defect is reported by exactly one issue of the dropped class, while
      every other default rule accepts it, the first validator reports one issue
      and the second none: issues come only from configured rules. */
  lemma DroppingTheReportingRuleSilencesValidation<M>(defaults: seq<Rule<M>>, dropped: string, manifest: M)
    requires exists j :: 0 <= j < |defaults| && defaults[j].ruleClass != dropped
    requires |IssuesOf(OnlyRuleClass(defaults, dropped), manifest)| == 1
    requires forall j :: 0 <= j < |defaults| && defaults[j].ruleClass != dropped ==>
      defaults[j].validateManifest(manifest) == []
    ensures NewModelValidator(Some(defaults)).Success?
    ensures |Validate(NewModelValidator(Some(defaults)).value, manifest).allIssues| == 1
    ensures NewModelValidator(Some(WithoutRuleClass(defaults, dropped))).Success?
    ensures Validate(NewModelValidator(Some(WithoutRuleClass(defaults, dropped))).value, manifest).allIssues == []
  {
    var kept := WithoutRuleClass(defaults, dropped);
    forall k | 0 <= k < |kept|
      ensures kept[k].validateManifest(manifest) == []
    {
      var j :| 0 <= j < |defaults| && kept[k] == defaults[j];
    }
    SilentRulesReportNothing(kept, manifest);
    DroppingRuleClassDropsItsIssues(defaults, dropped, manifest);
    assert |multiset(IssuesOf(defaults, manifest))| == 1;
  }
}
