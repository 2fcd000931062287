/** The aggregation-time-dimension rule: the aggregation time dimension of every
    measure must name a TIME dimension declared in the measure's own semantic
    model. */
module AggTimeDimension {
  import opened Seqs
  import opened ValidationIssues
  import opened SemanticManifests
  import opened Wrappers

  /** `d` is a TIME dimension called `name`. */
  predicate IsTimeDimensionNamed(d: Dimension, name: string)
  {
    d.dimensionType == Time && d.name == name
  }

  /** Scans `dimensions` in order for a TIME dimension called `name`, stopping
      at the first one. */
  function HasTimeDimensionNamed(dimensions: seq<Dimension>, name: string): (found: bool)
    ensures found <==> exists k :: 0 <= k < |dimensions| && IsTimeDimensionNamed(dimensions[k], name)
  {
    if dimensions == [] then false
    else if IsTimeDimensionNamed(dimensions[0], name) then true
    else HasTimeDimensionNamed(dimensions[1..], name)
  }

  /** Whether `model` declares a TIME dimension with the referenced name. A
      dimension with that name but another type does not count. */
  function TimeDimensionInModel(reference: TimeDimensionReference, model: SemanticModel): (found: bool)
    ensures found <==> exists d :: d in model.dimensions && d.dimensionType == Time && d.name == reference.elementName
    ensures (forall d :: d in model.dimensions && d.name == reference.elementName ==> d.dimensionType != Time) ==> !found
  {
    HasTimeDimensionNamed(model.dimensions, reference.elementName)
  }

  /** `measure` aggregates over a time dimension its model declares. */
  predicate HasValidAggTimeDimension(model: SemanticModel, measure: Measure)
  {
    TimeDimensionInModel(measure.aggTimeDimension, model)
  }

  /** The message of the error reported for `measure` of `model`, naming the
      model, the measure and the dimension it wrongly refers to. */
  function MeasureIssueMessage(model: SemanticModel, measure: Measure): (message: string)
    ensures IsInfix(model.name, message)
    ensures IsInfix(measure.name, message)
    ensures IsInfix(measure.aggTimeDimension.elementName, message)
  {
    var reference := measure.aggTimeDimension.elementName;
    var afterMeasure := "' has the aggregation time dimension set to '" + reference
      + "', which is not a valid time dimension in the semantic model";
    var afterModel := "', measure '" + measure.name + afterMeasure;
    var message := "In semantic model '" + model.name + afterModel;
    InfixOfConcat("In semantic model '", model.name, afterModel);
    InfixOfConcat("', measure '", measure.name, afterMeasure);
    InfixOfSuffix(measure.name, "In semantic model '" + model.name, afterModel);
    InfixOfConcat("' has the aggregation time dimension set to '", reference,
      "', which is not a valid time dimension in the semantic model");
    InfixOfSuffix(reference, "', measure '" + measure.name, afterMeasure);
    InfixOfSuffix(reference, "In semantic model '" + model.name, afterModel);
    message
  }

  /** The error reported for a measure of `model` whose aggregation time
      dimension is not a time dimension of `model`: it is reported against that
      measure of that model. */
  function MeasureIssue(model: SemanticModel, measure: Measure): (issue: ValidationIssue)
    ensures issue.severity == Error
    ensures issue.context.elementType == MeasureElement
    ensures issue.context.semanticModelElement == SemanticModelElementReference(model.name, measure.name)
    ensures issue.context.fileContext == model.fileContext
    ensures IsInfix(model.name, issue.message)
    ensures IsInfix(measure.name, issue.message)
    ensures IsInfix(measure.aggTimeDimension.elementName, issue.message)
  {
    ValidationIssue(
      Error,
      SemanticModelElementContext(
        model.fileContext,
        SemanticModelElementReference(model.name, measure.name),
        MeasureElement),
      MeasureIssueMessage(model, measure))
  }

  /** The measures among `measures` whose aggregation time dimension is not in
      `model`, in their original order. */
  function InvalidMeasures(model: SemanticModel, measures: seq<Measure>): (invalid: seq<Measure>)
    ensures |invalid| <= |measures|
    ensures forall k :: 0 <= k < |invalid| ==> invalid[k] in measures && !HasValidAggTimeDimension(model, invalid[k])
  {
    if measures == [] then []
    else if HasValidAggTimeDimension(model, measures[0]) then InvalidMeasures(model, measures[1..])
    else [measures[0]] + InvalidMeasures(model, measures[1..])
  }

  /** No invalid measure is skipped. */
  lemma {:induction false} InvalidMeasuresComplete(model: SemanticModel, measures: seq<Measure>, m: Measure)
    requires m in measures && !HasValidAggTimeDimension(model, m)
    ensures m in InvalidMeasures(model, measures)
  {
    if measures[0] != m {
      assert m in measures[1..];
      InvalidMeasuresComplete(model, measures[1..], m);
    }
  }

  /** Visits `measures` in order and reports one issue for each measure whose
      aggregation time dimension is not in `model`. */
  function MeasureIssues(model: SemanticModel, measures: seq<Measure>): (issues: seq<ValidationIssue>)
    ensures |issues| == |InvalidMeasures(model, measures)|
    ensures forall k :: 0 <= k < |issues| ==> issues[k] == MeasureIssue(model, InvalidMeasures(model, measures)[k])
  {
    if measures == [] then []
    else if HasValidAggTimeDimension(model, measures[0]) then MeasureIssues(model, measures[1..])
    else [MeasureIssue(model, measures[0])] + MeasureIssues(model, measures[1..])
  }

  /** Issues follow measure order: checking two runs of measures one after the
      other reports the first run's issues, then the second's. */
  lemma {:induction false} MeasureIssuesConcat(model: SemanticModel, a: seq<Measure>, b: seq<Measure>)
    ensures MeasureIssues(model, a + b) == MeasureIssues(model, a) + MeasureIssues(model, b)
  {
    if a == [] {
      assert a + b == b;
    } else {
      var ab := a + b;
      ConcatHeadTail(a, b);
      MeasureIssuesConcat(model, a[1..], b);
      if HasValidAggTimeDimension(model, a[0]) {
        assert MeasureIssues(model, ab) == MeasureIssues(model, a[1..] + b);
      } else {
        assert MeasureIssues(model, ab) == [MeasureIssue(model, a[0])] + MeasureIssues(model, a[1..] + b);
      }
    }
  }

  /** The issues of one semantic model: exactly one error per measure with an
      invalid aggregation time dimension, in measure order, each reported
      against its measure of this model. */
  function ValidateSemanticModel(model: SemanticModel): (issues: seq<ValidationIssue>)
    ensures |issues| == |InvalidMeasures(model, model.measures)|
    ensures forall k :: 0 <= k < |issues| ==>
      issues[k] == MeasureIssue(model, InvalidMeasures(model, model.measures)[k])
    ensures forall k :: 0 <= k < |issues| ==>
      && issues[k].severity == Error
      && issues[k].context.elementType == MeasureElement
      && issues[k].context.semanticModelElement.semanticModelName == model.name
  {
    MeasureIssues(model, model.measures)
  }

  /** A semantic model reports an issue for a measure iff that measure's
      aggregation time dimension is not in the model, and nothing else; so it
      reports nothing iff every measure is valid (in particular when it has no
      measures). */
  lemma ValidateSemanticModelReportsExactlyInvalidMeasures(model: SemanticModel)
    ensures forall m :: m in model.measures && !HasValidAggTimeDimension(model, m) ==>
      MeasureIssue(model, m) in ValidateSemanticModel(model)
    ensures forall i :: i in ValidateSemanticModel(model) ==>
      exists m :: m in model.measures && !HasValidAggTimeDimension(model, m) && i == MeasureIssue(model, m)
    ensures ValidateSemanticModel(model) == [] <==>
      forall m :: m in model.measures ==> HasValidAggTimeDimension(model, m)
  {
    var issues := ValidateSemanticModel(model);
    var invalid := InvalidMeasures(model, model.measures);
    forall m | m in model.measures && !HasValidAggTimeDimension(model, m)
      ensures MeasureIssue(model, m) in issues
    {
      InvalidMeasuresComplete(model, model.measures, m);
      var k :| 0 <= k < |invalid| && invalid[k] == m;
      assert issues[k] == MeasureIssue(model, m);
    }
    forall i | i in issues
      ensures exists m :: m in model.measures && !HasValidAggTimeDimension(model, m) && i == MeasureIssue(model, m)
    {
      var k :| 0 <= k < |issues| && issues[k] == i;
      assert invalid[k] in model.measures && !HasValidAggTimeDimension(model, invalid[k]);
    }
    if |invalid| > 0 {
      assert invalid[0] in model.measures && !HasValidAggTimeDimension(model, invalid[0]);
    }
  }

  /** The issues of each semantic model, in model order. */
  function PerModelIssues(models: seq<SemanticModel>): (perModel: seq<seq<ValidationIssue>>)
  {
    seq(|models|, k requires 0 <= k < |models| => ValidateSemanticModel(models[k]))
  }

  /** Visits `models` in order, appending each model's issues. */
  function ModelsIssues(models: seq<SemanticModel>): (issues: seq<ValidationIssue>)
    ensures issues == Flatten(PerModelIssues(models))
  {
    if models == [] then []
    else
      assert PerModelIssues(models)[1..] == PerModelIssues(models[1..]);
      ValidateSemanticModel(models[0]) + ModelsIssues(models[1..])
  }

  /** The rule over a whole manifest: the issues of every semantic model,
      concatenated in model order, as many as all models report together. */
  function ValidateManifest(manifest: SemanticManifest): (issues: seq<ValidationIssue>)
    ensures issues == Flatten(PerModelIssues(manifest.semanticModels))
    ensures |issues| == TotalLength(PerModelIssues(manifest.semanticModels))
  {
    FlattenLength(PerModelIssues(manifest.semanticModels));
    ModelsIssues(manifest.semanticModels)
  }

  /** Visiting two runs of models one after the other reports the first run's
      issues, then the second's. */
  lemma {:induction false} ModelsIssuesConcat(a: seq<SemanticModel>, b: seq<SemanticModel>)
    ensures ModelsIssues(a + b) == ModelsIssues(a) + ModelsIssues(b)
  {
    if a == [] {
      assert a + b == b;
    } else {
      ConcatHeadTail(a, b);
      ModelsIssuesConcat(a[1..], b);
      ConcatAssoc(ValidateSemanticModel(a[0]), ModelsIssues(a[1..]), ModelsIssues(b));
    }
  }

  /** The rule splits over the semantic models: a manifest whose models are
      those of two manifests, one run after the other, reports the first
      manifest's issues, then the second's. */
  lemma ValidateManifestConcat(a: SemanticManifest, b: SemanticManifest)
    ensures ValidateManifest(SemanticManifest(a.semanticModels + b.semanticModels))
         == ValidateManifest(a) + ValidateManifest(b)
  {
    ModelsIssuesConcat(a.semanticModels, b.semanticModels);
  }

  /** Every issue of the manifest is an issue of one of its semantic models, and
      every issue of each of its semantic models is reported. */
  lemma ValidateManifestIssueOrigin(manifest: SemanticManifest, i: ValidationIssue)
    ensures i in ValidateManifest(manifest) <==>
      exists k :: 0 <= k < |manifest.semanticModels| && i in ValidateSemanticModel(manifest.semanticModels[k])
  {
    var perModel := PerModelIssues(manifest.semanticModels);
    InFlatten(perModel, i);
    if i in ValidateManifest(manifest) {
      var k :| 0 <= k < |perModel| && i in perModel[k];
      assert i in ValidateSemanticModel(manifest.semanticModels[k]);
    }
    if exists k :: 0 <= k < |manifest.semanticModels| && i in ValidateSemanticModel(manifest.semanticModels[k]) {
      var k :| 0 <= k < |manifest.semanticModels| && i in ValidateSemanticModel(manifest.semanticModels[k]);
      assert i in perModel[k];
    }
  }
}
