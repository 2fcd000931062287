/** Validation issues: severity-tagged findings together with the semantic
    model element they concern. */
module ValidationIssues {
  import opened Wrappers

  /** ValidationError, ValidationWarning and ValidationFutureError. */
  datatype Severity = Error | Warning | FutureError

  /** Where in the project's files an element was declared. */
  datatype FileContext = FileContext(fileName: Option<string>, lineNumber: Option<nat>)

  /** The kinds of element a semantic model declares. */
  datatype SemanticModelElementType = EntityElement | MeasureElement | DimensionElement

  /** An element named `elementName` inside the semantic model `semanticModelName`. */
  datatype SemanticModelElementReference =
    SemanticModelElementReference(semanticModelName: string, elementName: string)

  /** The location an issue is reported against. */
  datatype SemanticModelElementContext = SemanticModelElementContext(
    fileContext: FileContext,
    semanticModelElement: SemanticModelElementReference,
    elementType: SemanticModelElementType)

  /** One finding; never changed after a rule creates it. */
  datatype ValidationIssue =
    ValidationIssue(severity: Severity, context: SemanticModelElementContext, message: string)
}
