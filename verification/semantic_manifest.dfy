/** The part of a semantic manifest that the aggregation-time-dimension rule reads. */
module SemanticManifests {
  import opened ValidationIssues

  datatype DimensionType = Categorical | Time

  datatype Dimension = Dimension(name: string, dimensionType: DimensionType)

  /** A reference, by element name, to a time dimension. */
  datatype TimeDimensionReference = TimeDimensionReference(elementName: string)

  /** A measure with its aggregation time dimension already resolved. */
  datatype Measure = Measure(name: string, aggTimeDimension: TimeDimensionReference)

  /** A semantic model; `fileContext` is the context derived from its metadata. */
  datatype SemanticModel = SemanticModel(
    name: string,
    dimensions: seq<Dimension>,
    measures: seq<Measure>,
    fileContext: FileContext)

  datatype SemanticManifest = SemanticManifest(semanticModels: seq<SemanticModel>)
}
