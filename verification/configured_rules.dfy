/** The aggregation-time-dimension rule as a model validator runs it. */
module ConfiguredRules {
  import opened Wrappers
  import opened SemanticManifests
  import AggTimeDimension
  import ModelValidators

  /** The rule under its class name, checking a whole manifest. */
  function AggregationTimeDimensionRule(): ModelValidators.Rule<SemanticManifest>
  {
    ModelValidators.Rule("AggregationTimeDimensionRule", AggTimeDimension.ValidateManifest)
  }

  /** A validator configured with this rule alone is accepted and reports
      exactly the rule's issues. */
  lemma AggregationRuleAloneReportsItsIssues(manifest: SemanticManifest)
    ensures ModelValidators.NewModelValidator(Some([AggregationTimeDimensionRule()])).Success?
    ensures ModelValidators.Validate(
              ModelValidators.NewModelValidator(Some([AggregationTimeDimensionRule()])).value, manifest).allIssues
         == AggTimeDimension.ValidateManifest(manifest)
  {
    var rules := [AggregationTimeDimensionRule()];
    assert ModelValidators.IssuesOf(rules[1..], manifest) == [];
    assert ModelValidators.IssuesOf(rules, manifest) == AggTimeDimension.ValidateManifest(manifest);
  }
}
