# Where filters, the aggregation-time-dimension rule and the model validator

A Dafny model of three pieces of the semantic-manifest validation layer of
`dbt-semantic-interfaces`:

- **Where filters** (`where_filter.dfy`, module `WhereFilters`). A `WhereFilter` is one templated SQL
  where expression. A `WhereFilterIntersection` is an ordered list of them,
  read as their conjunction. Raw input is a tagged union `Raw`: string, filter
  object, dict, list, intersection, or any other value. `ConvertLegacyAndYamlInput`
  normalises raw input into an intersection with one exhaustive `match`, using
  the precedence of the Python if-chain. `FilterExpressionParameterSets` parses
  every filter's template and pairs it with its parameter sets. If some
  templates fail, it collects every failure and then fails as a whole. The
  template parser is a parameter `parse: string -> Result<P, E>`, so nothing is
  assumed about its grammar.
- **The aggregation-time-dimension rule** (`agg_time_dimension.dfy`, module
  `AggTimeDimension`). For each measure of each semantic model, the rule
  checks that the measure's aggregation time dimension names a TIME dimension
  of the same model. It emits one error per measure that fails the check.
- **The model validator** (`model_validator.dfy`, module `ModelValidators`). A
  validator holds an ordered list of rules. Each rule is its class name plus a
  function from a manifest to issues. Construction refuses an absent or empty
  rule collection. Validation concatenates the rules' issues in rule order.

Supporting modules: `Wrappers` (`Option`, `Result`), `Seqs` (concatenation of
a list of lists, its length, infixes), `ValidationIssues` (severity, element
context, issue), and `SemanticManifests` (dimensions, measures, semantic
models, manifest). `ConfiguredRules` (`configured_rules.dfy`) registers the
aggregation-time-dimension rule with the model validator, so the rule's own
module does not depend on the validator.

Where the code and its documented intent differ, the model follows the code:

- The docstring of `_convert_legacy_and_yaml_input` lists the legacy dict as
  `{"where_sql_template": str}`. The code only tests that the key is present,
  so a dict carrying the template key plus other keys is still wrapped as one
  filter, even when it also carries `where_filters`.
- `where_sql_template` is a plain `str`, so the model allows any template,
  including the empty one.
- The comment at `tests/validations/test_configurable_rules.py:37` names
  `ValidMaterializationRule`, but the code on the next line drops
  `DerivedMetricRule`. The model follows the code.

Element coercion: the intersection's `where_filters` field is a list of
filters, so building an intersection coerces each item to a filter. The
custom input parser that does this lives in `implementations/base.py`, which
is not part of this model. `CoerceWhereFilter` therefore rests on an
assumption about that parser and pydantic's construction, listed under
"## Left out":

- a dict is read field by field, only its `where_sql_template` string is
  used, and other keys are ignored;
- a filter object is kept as it is;
- any other value goes through `_from_yaml_value`.

`CoerceWhereFilters` reports every failing item.

## Model

| member | source | states |
|---|---|---|
| `WhereFilters.FromYamlValue` | dbt_semantic_interfaces/implementations/filters/where_filter.py:36-49 | a filter is built iff the input is a string, and its template is exactly that string; any other input is refused with an error carrying the input |
| `WhereFilters.FromYamlValueInvertsTemplate` | dbt_semantic_interfaces/implementations/filters/where_filter.py:46-47 | every filter is recovered from its own template string |
| `WhereFilters.CoerceWhereFilter` | dbt_semantic_interfaces/implementations/filters/where_filter.py:22-34 | a filter object is kept unchanged and a string becomes the filter with that template; a dict coerces iff its template field is present and a string, and then becomes the filter with that template; any other input is refused as not a string; only strings, filters and dicts can succeed |
| `WhereFilters.CoerceInvertsToDict` | dbt_semantic_interfaces/implementations/filters/where_filter.py:33-34 | a filter serialised as a dict holding its template is read back as that same filter |
| `WhereFilters.CoercedFilterParsesItsSource` | dbt_semantic_interfaces/implementations/filters/where_filter.py:51-53 | the parameter sets of a filter read from a string or a template dict are the parser's result on exactly the template written there |
| `WhereFilters.CoerceWhereFilters` | dbt_semantic_interfaces/implementations/filters/where_filter.py:63 | a list coerces iff every item coerces; on success the filters match the items one for one, in order; on failure at least one error and no more errors than items are reported, and a one-item list reports that item's own error |
| `WhereFilters.CoercionErrorsConcat` | dbt_semantic_interfaces/implementations/filters/where_filter.py:63 | the errors for two lists one after the other are the first list's errors, then the second's; with the one-item case this makes the errors exactly one per failing item, in item order |
| `WhereFilters.CoercedFiltersConcat` | dbt_semantic_interfaces/implementations/filters/where_filter.py:63 | when two lists both coerce, so do they one after the other, to the first list's filters followed by the second's |
| `WhereFilters.FromWhereFilters` | dbt_semantic_interfaces/implementations/filters/where_filter.py:104-106 | constructing with `where_filters` set to a list succeeds iff every item coerces, and then the filters are the coerced items, one for one and in order; otherwise it fails with the list's coercion errors |
| `WhereFilters.FromFields` | dbt_semantic_interfaces/implementations/filters/where_filter.py:107-108 | constructing from a dict's fields succeeds iff `where_filters` is present, is a list, and every item coerces (other keys assumed ignored), and then the filters are the coerced items in order; a missing `where_filters` and a non-list value are refused with errors naming them |
| `WhereFilters.IsLegacyWhereFilter` | dbt_semantic_interfaces/implementations/filters/where_filter.py:100-101 | strings and filter objects are legacy filters; a dict is one iff it carries the template key, whatever else it carries; lists, intersections and other values never are |
| `WhereFilters.ConvertLegacyAndYamlInput` | dbt_semantic_interfaces/implementations/filters/where_filter.py:74-115 | a string or filter object becomes a one-filter intersection of exactly that filter; a dict with the template key becomes one filter even if it also carries `where_filters`; a list keeps its length and order; any other dict succeeds iff it carries a list under `where_filters` whose every item coerces, and its filters are those items coerced, in order; an intersection is returned unchanged; the unsupported-input error is returned exactly for values of any other type |
| `WhereFilters.NormalizationIsIdempotent` | dbt_semantic_interfaces/implementations/filters/where_filter.py:109-110 | normalising the result of a successful normalisation gives the same result |
| `WhereFilters.ParsedExpressions` | dbt_semantic_interfaces/implementations/filters/where_filter.py:120-124 | when every template parses, there is one (template, parameter sets) pair per filter, in filter order, each template paired with its own parse |
| `WhereFilters.InvalidExpressions` | dbt_semantic_interfaces/implementations/filters/where_filter.py:121-126 | empty iff every template parses; each entry pairs a failing template with its own error |
| `WhereFilters.EveryInvalidExpressionCollected` | dbt_semantic_interfaces/implementations/filters/where_filter.py:122-126 | every filter whose template fails to parse has its (template, error) entry among the invalid expressions: no failure is lost |
| `WhereFilters.ParseOutcomesPartition` | dbt_semantic_interfaces/implementations/filters/where_filter.py:122-126 | the parsed and the invalid entries together are exactly as many as the filters |
| `WhereFilters.OneFilterOutcome` | dbt_semantic_interfaces/implementations/filters/where_filter.py:122-126 | a single filter lands in exactly one list: paired with its parameter sets when its template parses, paired with its error otherwise |
| `WhereFilters.ParsedExpressionsConcat` | dbt_semantic_interfaces/implementations/filters/where_filter.py:122-124 | the parsed entries of two runs of filters are the first run's, then the second's; with the one-filter case this fixes them in filter order |
| `WhereFilters.InvalidExpressionsConcat` | dbt_semantic_interfaces/implementations/filters/where_filter.py:122-126 | the invalid entries of two runs of filters are the first run's, then the second's; with the one-filter case this fixes them as one per failing filter, in filter order |
| `WhereFilters.SingleInvalidExpression` | dbt_semantic_interfaces/implementations/filters/where_filter.py:122-133 | with exactly one malformed template, the aggregate error lists exactly that template and its error, and all other filters parse |
| `WhereFilters.FilterExpressionParameterSets` | dbt_semantic_interfaces/implementations/filters/where_filter.py:117-135 | succeeds iff every template parses, then returns one pair per filter in filter order; otherwise fails as a whole with an error carrying all filters and every failing template with its error, and no partial list |
| `AggTimeDimension.HasTimeDimensionNamed` | dbt_semantic_interfaces/validations/agg_time_dimension.py:37-40 | the in-order scan finds a match iff some dimension is a TIME dimension with the given name |
| `AggTimeDimension.TimeDimensionInModel` | dbt_semantic_interfaces/validations/agg_time_dimension.py:33-40 | true iff the model declares a TIME dimension named by the reference; a same-named dimension of another type does not satisfy it |
| `AggTimeDimension.MeasureIssueMessage` | dbt_semantic_interfaces/validations/agg_time_dimension.py:62-64 | the message names the semantic model, the measure and the invalid reference |
| `AggTimeDimension.MeasureIssue` | dbt_semantic_interfaces/validations/agg_time_dimension.py:48-65 | the issue is an Error, in a MEASURE context naming the semantic model and the measure, with the model's file context and a message naming model, measure and reference |
| `AggTimeDimension.InvalidMeasures` | dbt_semantic_interfaces/validations/agg_time_dimension.py:47-58 | holds only measures of the list whose aggregation time dimension is not in the model |
| `AggTimeDimension.InvalidMeasuresComplete` | dbt_semantic_interfaces/validations/agg_time_dimension.py:47-58 | every measure of the list whose aggregation time dimension is not in the model is among the invalid measures |
| `AggTimeDimension.MeasureIssues` | dbt_semantic_interfaces/validations/agg_time_dimension.py:45-68 | exactly one issue per invalid measure, the k-th issue being the issue of the k-th invalid measure |
| `AggTimeDimension.MeasureIssuesConcat` | dbt_semantic_interfaces/validations/agg_time_dimension.py:47-68 | issues follow measure order: two runs of measures report the first run's issues, then the second's |
| `AggTimeDimension.ValidateSemanticModel` | dbt_semantic_interfaces/validations/agg_time_dimension.py:42-68 | one issue per invalid measure, in measure order (the k-th issue is that of the k-th invalid measure); every issue is an Error in a MEASURE context of this model |
| `AggTimeDimension.ValidateSemanticModelReportsExactlyInvalidMeasures` | dbt_semantic_interfaces/validations/agg_time_dimension.py:47-66 | an invalid measure always gets its issue; every issue is the issue of an invalid measure of the model; no issues iff every measure is valid, so none for a model without measures |
| `AggTimeDimension.ModelsIssues` | dbt_semantic_interfaces/validations/agg_time_dimension.py:27-31 | visiting models in order yields the concatenation of the per-model issue lists |
| `AggTimeDimension.ValidateManifest` | dbt_semantic_interfaces/validations/agg_time_dimension.py:24-31 | the manifest's issues are the per-model issue lists concatenated in model order, and their number is the sum of the per-model counts |
| `AggTimeDimension.ModelsIssuesConcat` | dbt_semantic_interfaces/validations/agg_time_dimension.py:27-31 | visiting two runs of models one after the other reports the first run's issues, then the second's |
| `AggTimeDimension.ValidateManifestConcat` | dbt_semantic_interfaces/validations/agg_time_dimension.py:24-31 | a manifest whose models are those of two manifests in turn reports the first manifest's issues, then the second's |
| `AggTimeDimension.ValidateManifestIssueOrigin` | dbt_semantic_interfaces/validations/agg_time_dimension.py:27-31 | an issue is reported for the manifest iff one of its semantic models reports it |
| `ConfiguredRules.AggregationRuleAloneReportsItsIssues` | dbt_semantic_interfaces/validations/agg_time_dimension.py:21-26 | a validator configured with this rule alone is accepted and reports exactly the rule's issues |
| `ModelValidators.NewModelValidator` | tests/validations/test_configurable_rules.py:43-51 | construction from an explicit `rules` argument succeeds iff it is not `None` and is non-empty (an empty list or tuple and an explicit `rules=None` are refused), and the validator keeps the rules as given |
| `ModelValidators.IssuesOf` | tests/validations/test_configurable_rules.py:34-35 | running the rules in order yields the concatenation of their outputs in rule order |
| `ModelValidators.Validate` | tests/validations/test_configurable_rules.py:33-40 | the issue set is the rules' outputs concatenated in rule order, its size is the sum of their sizes, and an issue is reported iff some configured rule reports it |
| `ModelValidators.WithoutRuleClass` | tests/validations/test_configurable_rules.py:38 | keeps only rules of other classes, each a rule of the input, keeps every rule of another class, and is non-empty iff the input has a rule of another class |
| `ModelValidators.OnlyRuleClass` | tests/validations/test_configurable_rules.py:38 | chooses only rules of the class, and every rule of the input that belongs to the class |
| `ModelValidators.OnlyRuleClassChoosesFromInput` | tests/validations/test_configurable_rules.py:38 | every chosen rule is a rule of the input: choosing invents nothing |
| `ModelValidators.WithoutRuleClassConcat` | tests/validations/test_configurable_rules.py:38 | filtering two lists one after the other keeps the first list's other-class rules, then the second's: the comprehension keeps rule order |
| `ModelValidators.OnlyRuleClassConcat` | tests/validations/test_configurable_rules.py:38 | choosing from two lists one after the other chooses the first list's rules of the class, then the second's |
| `ModelValidators.IssuesOfConcat` | tests/validations/test_configurable_rules.py:37-40 | running two lists of rules one after the other reports the first list's issues, then the second's |
| `ModelValidators.DroppingRuleClassDropsItsIssues` | tests/validations/test_configurable_rules.py:37-40 | as a multiset, all rules' issues are the remaining rules' issues plus the dropped class's issues |
| `ModelValidators.SilentRulesReportNothing` | tests/validations/test_configurable_rules.py:39-40 | rules that each report nothing together report nothing |
| `ModelValidators.DroppingTheReportingRuleSilencesValidation` | tests/validations/test_configurable_rules.py:18-40 | suppose the one defect of a manifest is reported by exactly one issue of the dropped class, and every other default rule accepts the manifest; then the default validator reports one issue, and the validator without that class is accepted and reports none |

## Left out

- The template parser's grammar. `WhereFilterParser.parse_call_parameter_sets` is a parameter `parse: string -> Result<P, E>`, and `WhereFilter.CallParameterSets` applies it on each access.
- Pydantic plumbing: validator registration, hashing, and pydantic's own error objects. Also left out: pydantic's coercion of numbers to strings and of tuples or sets to lists. A template field holding a non-string is refused, and only a list is accepted for `where_filters`.
- Message texts. The text of `ParseWhereFilterException` is not modelled: the error carries the filters and every (template, error) pair. Issue messages are checked only for the names they contain.
- `validate_safely`. Its body is not part of this model, and no rule raises here, so the conversion of a rule's exception into an issue is not modelled.
- `measure.checked_agg_time_dimension`. Its body is not part of this model. A measure carries its aggregation time dimension as a present field, so the failure when it is missing is not modelled.
- `FileContext.from_metadata`. A semantic model carries its file context directly, and the derivation from metadata is not modelled.
- `model_validator.py` is not part of this model. Construction is modelled from what the tests assert: an explicit `rules=None` and empty collections are refused.
- `ModelValidators.NewModelValidator`: models only construction with an explicit `rules` argument. A call without `rules` (`ModelValidator()`) uses `DEFAULT_RULES`, which are not part of this model; it is written `NewModelValidator(Some(defaults))`, with the default rules as a parameter, as in `ModelValidators.DroppingTheReportingRuleSilencesValidation`.
- `ModelValidators.Validate`: that validation concatenates the rules' issues in rule order is an assumption. The tests assert only the number of issues, and the code that combines them is not part of this model.
- `ModelValidators.IssuesOf`: same assumption as `ModelValidators.Validate`; `ModelValidators.IssuesOfConcat` and `ModelValidators.DroppingRuleClassDropsItsIssues` rest on it too.
- `WhereFilters.CoerceWhereFilter`: its handling of dicts, filter objects and other values is an assumption about the custom input parser in `implementations/base.py` and pydantic's construction, neither of which is part of this model. Whether extra keys are ignored depends on that unseen configuration. So does the success of `WhereFilters.ConvertLegacyAndYamlInput` on a dict that carries the template key and `where_filters` together.
- `WhereFilters.FromFields`: that keys other than `where_filters` are ignored when an intersection is built from a dict's fields is an assumption. Whether `cls(**input)` accepts extra keys depends on the base model's configuration, which is not part of this model. `WhereFilters.ConvertLegacyAndYamlInput` inherits the assumption for dicts without the template key.
- Issue contexts: only the semantic-model-element context is modelled, the one the aggregation-time-dimension rule reports against. The file and metric contexts that other rules use are not part of this model. The validator only passes issues through, so nothing here depends on the context's kind.
- Class identity: rules are told apart by class name (`ModelValidators.Rule.ruleClass`). The test compares class objects (`rule.__class__ is not DerivedMetricRule`), so two distinct classes sharing a name would be one class here.
- `DEFAULT_RULES`, `DerivedMetricRule`, `metric_with_guaranteed_meta` and the test fixture manifest are not part of this model. In `ModelValidators.DroppingTheReportingRuleSilencesValidation`, what the fixture and the rules do on that manifest appears as hypotheses.
- Concurrency: the code modelled here is sequential and pure.
