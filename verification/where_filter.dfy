/** Where filters: the templated SQL filters of a semantic manifest, the
    normalisation of the raw shapes they arrive in into an intersection, and the
    batch extraction of the parameters each template references.

    The template parser is not part of this model: every operation that needs it
    takes it as a parameter `parse`, a total function from a template to either
    the parameter sets it references (`P`) or the error it raised (`E`). */
module WhereFilters {
  import opened Wrappers
  import opened Seqs

  /** A templated SQL where expression. */
  datatype WhereFilter = WhereFilter(whereSqlTemplate: string)
  {
    /** The parameter sets this filter's template references, computed on each
        access by the template parser. */
    function CallParameterSets<P, E>(parse: string -> Result<P, E>): Result<P, E>
    {
      parse(whereSqlTemplate)
    }
  }

  /** The conjunction of an ordered list of filters. */
  datatype WhereFilterIntersection = WhereFilterIntersection(whereFilters: seq<WhereFilter>)

  /** The field of a filter, and the key whose presence marks a legacy filter dict. */
  const WhereSqlTemplateField: string := "where_sql_template"

  /** The field of an intersection. */
  const WhereFiltersField: string := "where_filters"

  /** A value as it reaches the filter parsers: deserialised YAML/JSON (strings,
      dicts, lists), an object built in code, or anything else (`RawOther`,
      carrying the name of its type). */
  datatype Raw =
    | RawStr(s: string)
    | RawWhereFilter(filter: WhereFilter)
    | RawDict(fields: map<string, Raw>)
    | RawList(items: seq<Raw>)
    | RawIntersection(intersection: WhereFilterIntersection)
    | RawOther(typeName: string)

  /** Why a raw value could not become a single filter. */
  datatype FilterError =
    | NotAString(input: Raw)
    | TemplateMissing(fields: map<string, Raw>)
    | TemplateNotAString(value: Raw)

  /** Why a raw value could not become an intersection. */
  datatype ConversionError =
    | UnsupportedInput(input: Raw)
    | WhereFiltersMissing(fields: map<string, Raw>)
    | WhereFiltersNotAList(value: Raw)
    | InvalidWhereFilters(errors: seq<FilterError>)

  /** Builds a filter from a string found in a manifest; any other value is refused. */
  function FromYamlValue(input: Raw): (r: Result<WhereFilter, FilterError>)
    ensures r.Success? <==> input.RawStr?
    ensures r.Success? ==> r.value.whereSqlTemplate == input.s
    ensures r.Failure? ==> r.error == NotAString(input)
  {
    match input
    case RawStr(s) => Success(WhereFilter(s))
    case _ => Failure(NotAString(input))
  }

  /** Every filter is recovered from its own template. */
  lemma FromYamlValueInvertsTemplate(f: WhereFilter)
    ensures FromYamlValue(RawStr(f.whereSqlTemplate)) == Success(f)
  {
  }

  /** How a value given for a filter-typed field becomes a filter: a dict is
      read field by field (only its template field matters), a filter is kept,
      and anything else goes through `FromYamlValue`. */
  function CoerceWhereFilter(input: Raw): (r: Result<WhereFilter, FilterError>)
    ensures input.RawWhereFilter? ==> r == Success(input.filter)
    ensures input.RawStr? ==> r == Success(WhereFilter(input.s))
    ensures input.RawDict? ==>
      (r.Success? <==> WhereSqlTemplateField in input.fields && input.fields[WhereSqlTemplateField].RawStr?)
    ensures input.RawDict? && r.Success? ==> r.value == WhereFilter(input.fields[WhereSqlTemplateField].s)
    ensures r.Success? ==> input.RawStr? || input.RawWhereFilter? || input.RawDict?
    ensures r.Failure? && !input.RawDict? ==> r.error == NotAString(input)
  {
    match input
    case RawDict(fields) =>
      if WhereSqlTemplateField !in fields then Failure(TemplateMissing(fields))
      else if fields[WhereSqlTemplateField].RawStr? then Success(WhereFilter(fields[WhereSqlTemplateField].s))
      else Failure(TemplateNotAString(fields[WhereSqlTemplateField]))
    case RawWhereFilter(f) => Success(f)
    case _ => FromYamlValue(input)
  }

  /** A filter as it is serialised: a dict holding its template. */
  function ToDict(f: WhereFilter): Raw
  {
    RawDict(map[WhereSqlTemplateField := RawStr(f.whereSqlTemplate)])
  }

  /** Coercion inverts serialisation: a serialised filter is read back as itself. */
  lemma CoerceInvertsToDict(f: WhereFilter)
    ensures CoerceWhereFilter(ToDict(f)) == Success(f)
  {
  }

  /** The parameter sets of a filter read from a string or a template dict are
      the parse of exactly the template written there. */
  lemma CoercedFilterParsesItsSource<P, E>(input: Raw, parse: string -> Result<P, E>)
    requires input.RawStr? || (input.RawDict? && WhereSqlTemplateField in input.fields && input.fields[WhereSqlTemplateField].RawStr?)
    ensures CoerceWhereFilter(input).Success?
    ensures input.RawStr? ==> CoerceWhereFilter(input).value.CallParameterSets(parse) == parse(input.s)
    ensures input.RawDict? ==>
      CoerceWhereFilter(input).value.CallParameterSets(parse) == parse(input.fields[WhereSqlTemplateField].s)
  {
  }

  /** Coerces every item of a list of filters; every failing item is reported,
      not only the first. */
  function CoerceWhereFilters(items: seq<Raw>): (r: Result<seq<WhereFilter>, seq<FilterError>>)
    ensures r.Success? <==> forall k :: 0 <= k < |items| ==> CoerceWhereFilter(items[k]).Success?
    ensures r.Success? ==> |r.value| == |items|
    ensures r.Success? ==> forall k :: 0 <= k < |items| ==> r.value[k] == CoerceWhereFilter(items[k]).value
    ensures r.Failure? ==> 0 < |r.error| <= |items|
    ensures |items| == 1 && r.Failure? ==> r.error == [CoerceWhereFilter(items[0]).error]
  {
    if items == [] then Success([])
    else
      match (CoerceWhereFilter(items[0]), CoerceWhereFilters(items[1..]))
      case (Success(f), Success(fs)) => Success([f] + fs)
      case (Success(_), Failure(es)) => Failure(es)
      case (Failure(e), Success(_)) => Failure([e])
      case (Failure(e), Failure(es)) => Failure([e] + es)
  }

  /** The errors a coercion of a list reports: none when it succeeds. */
  function CoercionErrors(r: Result<seq<WhereFilter>, seq<FilterError>>): seq<FilterError>
  {
    match r
    case Success(_) => []
    case Failure(errors) => errors
  }

  /** The error one item contributes: its own, if it fails to coerce. */
  function ItemErrors(item: Raw): seq<FilterError>
  {
    match CoerceWhereFilter(item)
    case Success(_) => []
    case Failure(e) => [e]
  }

  /** One step of `CoerceWhereFilters` on its errors. */
  lemma CoercionErrorsStep(items: seq<Raw>)
    requires items != []
    ensures CoercionErrors(CoerceWhereFilters(items))
         == ItemErrors(items[0]) + CoercionErrors(CoerceWhereFilters(items[1..]))
  {
  }

  /** One step of `CoerceWhereFilters` on a list that coerces. */
  lemma CoercedFiltersStep(items: seq<Raw>)
    requires items != [] && CoerceWhereFilters(items).Success?
    ensures CoerceWhereFilters(items[1..]).Success?
    ensures CoerceWhereFilters(items).value
         == [CoerceWhereFilter(items[0]).value] + CoerceWhereFilters(items[1..]).value
  {
  }

  /** Coercing two lists one after the other reports the first list's errors,
      then the second's. With the one-item case of `CoerceWhereFilters`, this
      fixes the errors as exactly one per failing item, in item order. */
  lemma {:induction false} CoercionErrorsConcat(a: seq<Raw>, b: seq<Raw>)
    ensures CoercionErrors(CoerceWhereFilters(a + b))
         == CoercionErrors(CoerceWhereFilters(a)) + CoercionErrors(CoerceWhereFilters(b))
  {
    if a == [] {
      assert a + b == b;
    } else {
      var ab := a + b;
      ConcatHeadTail(a, b);
      CoercionErrorsConcat(a[1..], b);
      CoercionErrorsStep(ab);
      CoercionErrorsStep(a);
      var head := ItemErrors(a[0]);
      var restA := CoercionErrors(CoerceWhereFilters(a[1..]));
      var errorsB := CoercionErrors(CoerceWhereFilters(b));
      ConcatAssoc(head, restA, errorsB);
    }
  }

  /** When two lists both coerce, so does the one after the other, to the
      first list's filters followed by the second's. */
  lemma {:induction false} CoercedFiltersConcat(a: seq<Raw>, b: seq<Raw>)
    requires CoerceWhereFilters(a).Success? && CoerceWhereFilters(b).Success?
    ensures CoerceWhereFilters(a + b) == Success(CoerceWhereFilters(a).value + CoerceWhereFilters(b).value)
  {
    if a == [] {
      assert a + b == b;
      assert CoerceWhereFilters(a).value == [];
      assert [] + CoerceWhereFilters(b).value == CoerceWhereFilters(b).value;
    } else {
      var ab := a + b;
      ConcatHeadTail(a, b);
      CoercedFiltersStep(a);
      CoercedFiltersConcat(a[1..], b);
      CoercionErrorsConcat(a, b);
      assert CoerceWhereFilters(ab).Success?;
      CoercedFiltersStep(ab);
      var head := [CoerceWhereFilter(a[0]).value];
      var restA := CoerceWhereFilters(a[1..]).value;
      var tail := CoerceWhereFilters(b).value;
      ConcatAssoc(head, restA, tail);
    }
  }

  /** An intersection constructed with `where_filters` set to `items`. */
  function FromWhereFilters(items: seq<Raw>): (r: Result<WhereFilterIntersection, ConversionError>)
    ensures r.Success? <==> forall k :: 0 <= k < |items| ==> CoerceWhereFilter(items[k]).Success?
    ensures r.Success? ==>
      && |r.value.whereFilters| == |items|
      && forall k :: 0 <= k < |items| ==> r.value.whereFilters[k] == CoerceWhereFilter(items[k]).value
    ensures r.Failure? ==> r == Failure(InvalidWhereFilters(CoerceWhereFilters(items).error))
  {
    match CoerceWhereFilters(items)
    case Success(filters) => Success(WhereFilterIntersection(filters))
    case Failure(errors) => Failure(InvalidWhereFilters(errors))
  }

  /** An intersection constructed from the fields of a dict. Keys other than
      `where_filters` are assumed to be ignored, as the model's configuration
      for extra fields is not part of this model. */
  function FromFields(fields: map<string, Raw>): (r: Result<WhereFilterIntersection, ConversionError>)
    ensures r.Success? <==>
      && WhereFiltersField in fields
      && fields[WhereFiltersField].RawList?
      && forall k :: 0 <= k < |fields[WhereFiltersField].items| ==>
           CoerceWhereFilter(fields[WhereFiltersField].items[k]).Success?
    ensures r.Success? ==>
      && |r.value.whereFilters| == |fields[WhereFiltersField].items|
      && forall k :: 0 <= k < |r.value.whereFilters| ==>
           r.value.whereFilters[k] == CoerceWhereFilter(fields[WhereFiltersField].items[k]).value
    ensures WhereFiltersField !in fields ==> r == Failure(WhereFiltersMissing(fields))
    ensures WhereFiltersField in fields && !fields[WhereFiltersField].RawList? ==>
      r == Failure(WhereFiltersNotAList(fields[WhereFiltersField]))
  {
    if WhereFiltersField !in fields then Failure(WhereFiltersMissing(fields))
    else
      match fields[WhereFiltersField]
      case RawList(items) => FromWhereFilters(items)
      case other => Failure(WhereFiltersNotAList(other))
  }

  /** The raw shapes a single legacy filter arrived in: a bare string, a filter
      object, or a dict carrying the template key (whatever else it carries). */
  function IsLegacyWhereFilter(input: Raw): (legacy: bool)
    ensures input.RawStr? || input.RawWhereFilter? ==> legacy
    ensures input.RawDict? ==> (legacy <==> WhereSqlTemplateField in input.fields)
    ensures input.RawList? || input.RawIntersection? || input.RawOther? ==> !legacy
  {
    || input.RawStr?
    || input.RawWhereFilter?
    || (input.RawDict? && WhereSqlTemplateField in input.fields)
  }

  /** Normalises a raw value into an intersection. Legacy single filters are
      wrapped as a one-element intersection, a list is taken as the filters, any
      other dict is read field by field, an intersection is kept, and every other
      value is refused. The legacy test comes first, so a dict carrying the
      template key is never read field by field. */
  function ConvertLegacyAndYamlInput(input: Raw): (r: Result<WhereFilterIntersection, ConversionError>)
    // a legacy filter becomes an intersection of exactly that one filter
    ensures IsLegacyWhereFilter(input) ==> (r.Success? <==> CoerceWhereFilter(input).Success?)
    ensures IsLegacyWhereFilter(input) && r.Success? ==> r.value.whereFilters == [CoerceWhereFilter(input).value]
    ensures input.RawStr? ==> r == Success(WhereFilterIntersection([WhereFilter(input.s)]))
    ensures input.RawWhereFilter? ==> r == Success(WhereFilterIntersection([input.filter]))
    // the template key wins over `where_filters`
    ensures input.RawDict? && WhereSqlTemplateField in input.fields && input.fields[WhereSqlTemplateField].RawStr? ==>
      r == Success(WhereFilterIntersection([WhereFilter(input.fields[WhereSqlTemplateField].s)]))
    // a list keeps its length and order
    ensures input.RawList? ==> (r.Success? <==> forall k :: 0 <= k < |input.items| ==> CoerceWhereFilter(input.items[k]).Success?)
    ensures input.RawList? && r.Success? ==>
      && |r.value.whereFilters| == |input.items|
      && forall k :: 0 <= k < |input.items| ==> r.value.whereFilters[k] == CoerceWhereFilter(input.items[k]).value
    // any other dict is read field by field: it must carry a list under
    // `where_filters` whose every item coerces, and those items become the filters
    ensures input.RawDict? && !IsLegacyWhereFilter(input) ==>
      (r.Success? <==>
        && WhereFiltersField in input.fields
        && input.fields[WhereFiltersField].RawList?
        && forall k :: 0 <= k < |input.fields[WhereFiltersField].items| ==>
             CoerceWhereFilter(input.fields[WhereFiltersField].items[k]).Success?)
    ensures input.RawDict? && !IsLegacyWhereFilter(input) && r.Success? ==>
      && |r.value.whereFilters| == |input.fields[WhereFiltersField].items|
      && forall k :: 0 <= k < |r.value.whereFilters| ==>
           r.value.whereFilters[k] == CoerceWhereFilter(input.fields[WhereFiltersField].items[k]).value
    // an intersection is returned unchanged
    ensures input.RawIntersection? ==> r == Success(input.intersection)
    // exactly the unsupported shapes are refused as such
    ensures r == Failure(UnsupportedInput(input)) <==> input.RawOther?
  {
    match input
    case RawStr(_) => FromWhereFilters([input])
    case RawWhereFilter(_) => FromWhereFilters([input])
    case RawDict(fields) =>
      if WhereSqlTemplateField in fields then FromWhereFilters([input]) else FromFields(fields)
    case RawList(items) => FromWhereFilters(items)
    case RawIntersection(intersection) => Success(intersection)
    case RawOther(_) => Failure(UnsupportedInput(input))
  }

  /** Normalising the result of a successful normalisation changes nothing. */
  lemma NormalizationIsIdempotent(input: Raw)
    requires ConvertLegacyAndYamlInput(input).Success?
    ensures ConvertLegacyAndYamlInput(RawIntersection(ConvertLegacyAndYamlInput(input).value))
         == ConvertLegacyAndYamlInput(input)
  {
  }

  /** The aggregate error: all the filters, and every template that failed to
      parse together with its own error, in filter order. */
  datatype ParseWhereFilterError<E> =
    ParseWhereFilterError(whereFilters: seq<WhereFilter>, invalidExpressions: seq<(string, E)>)

  /** The templates that parse, each paired with its own parse, in filter order. */
  function ParsedExpressions<P, E>(filters: seq<WhereFilter>, parse: string -> Result<P, E>): (parsed: seq<(string, P)>)
    ensures |parsed| <= |filters|
    ensures (forall k :: 0 <= k < |filters| ==> parse(filters[k].whereSqlTemplate).Success?) ==>
      && |parsed| == |filters|
      && forall k :: 0 <= k < |filters| ==>
           parsed[k] == (filters[k].whereSqlTemplate, parse(filters[k].whereSqlTemplate).value)
  {
    if filters == [] then []
    else
      var last := filters[|filters| - 1];
      var before := ParsedExpressions(filters[..|filters| - 1], parse);
      match last.CallParameterSets(parse)
      case Success(p) => before + [(last.whereSqlTemplate, p)]
      case Failure(_) => before
  }

  /** The templates that fail to parse, each paired with its own error, in filter order. */
  function InvalidExpressions<P, E>(filters: seq<WhereFilter>, parse: string -> Result<P, E>): (invalid: seq<(string, E)>)
    ensures |invalid| <= |filters|
    ensures invalid == [] <==> forall k :: 0 <= k < |filters| ==> parse(filters[k].whereSqlTemplate).Success?
    ensures forall j :: 0 <= j < |invalid| ==> exists k ::
      && 0 <= k < |filters|
      && parse(filters[k].whereSqlTemplate).Failure?
      && invalid[j] == (filters[k].whereSqlTemplate, parse(filters[k].whereSqlTemplate).error)
  {
    if filters == [] then []
    else
      var last := filters[|filters| - 1];
      var before := InvalidExpressions(filters[..|filters| - 1], parse);
      match last.CallParameterSets(parse)
      case Success(_) => before
      case Failure(e) => before + [(last.whereSqlTemplate, e)]
  }

  /** No failure is lost: every filter whose template fails to parse has its
      (template, error) entry among the invalid expressions. */
  lemma {:induction false} EveryInvalidExpressionCollected<P, E>(filters: seq<WhereFilter>, parse: string -> Result<P, E>, k: nat)
    requires k < |filters|
    requires parse(filters[k].whereSqlTemplate).Failure?
    ensures (filters[k].whereSqlTemplate, parse(filters[k].whereSqlTemplate).error) in InvalidExpressions(filters, parse)
  {
    var before := filters[..|filters| - 1];
    if k < |filters| - 1 {
      assert before[k] == filters[k];
      EveryInvalidExpressionCollected(before, parse, k);
    }
  }

  /** The parsed and the invalid entries together are exactly as many as the
      filters. */
  lemma {:induction false} ParseOutcomesPartition<P, E>(filters: seq<WhereFilter>, parse: string -> Result<P, E>)
    ensures |ParsedExpressions(filters, parse)| + |InvalidExpressions(filters, parse)| == |filters|
  {
    if filters != [] {
      ParseOutcomesPartition(filters[..|filters| - 1], parse);
    }
  }

  /** A single filter lands in exactly one of the two lists: with its template
      and parameter sets when its template parses, with its template and error
      otherwise. */
  lemma OneFilterOutcome<P, E>(f: WhereFilter, parse: string -> Result<P, E>)
    ensures f.CallParameterSets(parse).Success? ==>
      && ParsedExpressions([f], parse) == [(f.whereSqlTemplate, f.CallParameterSets(parse).value)]
      && InvalidExpressions([f], parse) == []
    ensures f.CallParameterSets(parse).Failure? ==>
      && ParsedExpressions([f], parse) == []
      && InvalidExpressions([f], parse) == [(f.whereSqlTemplate, f.CallParameterSets(parse).error)]
  {
    assert [f][..0] == [];
  }

  /** What one filter contributes to the parsed list. */
  function ParsedEntry<P, E>(f: WhereFilter, parse: string -> Result<P, E>): seq<(string, P)>
  {
    match f.CallParameterSets(parse)
    case Success(p) => [(f.whereSqlTemplate, p)]
    case Failure(_) => []
  }

  /** What one filter contributes to the invalid list. */
  function InvalidEntry<P, E>(f: WhereFilter, parse: string -> Result<P, E>): seq<(string, E)>
  {
    match f.CallParameterSets(parse)
    case Success(_) => []
    case Failure(e) => [(f.whereSqlTemplate, e)]
  }

  /** One step of the two lists, on the last filter. */
  lemma ParseStep<P, E>(filters: seq<WhereFilter>, parse: string -> Result<P, E>)
    requires filters != []
    ensures ParsedExpressions(filters, parse)
         == ParsedExpressions(filters[..|filters| - 1], parse) + ParsedEntry(filters[|filters| - 1], parse)
    ensures InvalidExpressions(filters, parse)
         == InvalidExpressions(filters[..|filters| - 1], parse) + InvalidEntry(filters[|filters| - 1], parse)
  {
  }

  /** Parsing two runs of filters one after the other lists the first run's
      parsed templates, then the second's. */
  lemma {:induction false} ParsedExpressionsConcat<P, E>(a: seq<WhereFilter>, b: seq<WhereFilter>, parse: string -> Result<P, E>)
    ensures ParsedExpressions(a + b, parse) == ParsedExpressions(a, parse) + ParsedExpressions(b, parse)
  {
    if b == [] {
      assert a + b == a;
    } else {
      var front := b[..|b| - 1];
      ConcatFrontLast(a, b);
      ParsedExpressionsConcat(a, front, parse);
      ParseStep(a + b, parse);
      ParseStep(b, parse);
      ConcatAssoc(ParsedExpressions(a, parse), ParsedExpressions(front, parse), ParsedEntry(b[|b| - 1], parse));
    }
  }

  /** Parsing two runs of filters one after the other lists the first run's
      failures, then the second's. */
  lemma {:induction false} InvalidExpressionsConcat<P, E>(a: seq<WhereFilter>, b: seq<WhereFilter>, parse: string -> Result<P, E>)
    ensures InvalidExpressions(a + b, parse) == InvalidExpressions(a, parse) + InvalidExpressions(b, parse)
  {
    if b == [] {
      assert a + b == a;
    } else {
      var front := b[..|b| - 1];
      ConcatFrontLast(a, b);
      InvalidExpressionsConcat(a, front, parse);
      ParseStep(a + b, parse);
      ParseStep(b, parse);
      ConcatAssoc(InvalidExpressions(a, parse), InvalidExpressions(front, parse), InvalidEntry(b[|b| - 1], parse));
    }
  }

  /** With exactly one malformed template, the aggregate error names exactly
      that template and its error, and every other filter parses. */
  lemma {:induction false} SingleInvalidExpression<P, E>(filters: seq<WhereFilter>, parse: string -> Result<P, E>, j: nat)
    requires j < |filters|
    requires parse(filters[j].whereSqlTemplate).Failure?
    requires forall k :: 0 <= k < |filters| && k != j ==> parse(filters[k].whereSqlTemplate).Success?
    ensures InvalidExpressions(filters, parse)
         == [(filters[j].whereSqlTemplate, parse(filters[j].whereSqlTemplate).error)]
    ensures |ParsedExpressions(filters, parse)| == |filters| - 1
  {
    var before := filters[..|filters| - 1];
    if j == |filters| - 1 {
      assert forall k :: 0 <= k < |before| ==> before[k] == filters[k];
      assert InvalidExpressions(before, parse) == [];
    } else {
      assert forall k :: 0 <= k < |before| ==> before[k] == filters[k];
      SingleInvalidExpression(before, parse, j);
    }
    ParseOutcomesPartition(filters, parse);
  }

  /** The parameter sets of every filter of `intersection`, paired with its
      template. Every filter is parsed, so that one failure does not hide the
      next; if any failed, the call fails as a whole, listing every failure and
      returning none of the successful parses. */
  method FilterExpressionParameterSets<P, E>(intersection: WhereFilterIntersection, parse: string -> Result<P, E>)
    returns (r: Result<seq<(string, P)>, ParseWhereFilterError<E>>)
    ensures r.Success? <==>
      forall k :: 0 <= k < |intersection.whereFilters| ==> parse(intersection.whereFilters[k].whereSqlTemplate).Success?
    ensures r.Success? ==>
      && |r.value| == |intersection.whereFilters|
      && forall k :: 0 <= k < |intersection.whereFilters| ==>
           r.value[k] == (intersection.whereFilters[k].whereSqlTemplate,
                          parse(intersection.whereFilters[k].whereSqlTemplate).value)
    ensures r.Failure? ==>
      r.error == ParseWhereFilterError(intersection.whereFilters, InvalidExpressions(intersection.whereFilters, parse))
  {
    var filters := intersection.whereFilters;
    var parsed: seq<(string, P)> := [];
    var invalid: seq<(string, E)> := [];
    for i := 0 to |filters|
      invariant parsed == ParsedExpressions(filters[..i], parse)
      invariant invalid == InvalidExpressions(filters[..i], parse)
    {
      var whereFilter := filters[i];
      assert filters[..i + 1][..i] == filters[..i];
      match whereFilter.CallParameterSets(parse) {
        case Success(p) =>
          parsed := parsed + [(whereFilter.whereSqlTemplate, p)];
        case Failure(e) =>
          invalid := invalid + [(whereFilter.whereSqlTemplate, e)];
      }
    }
    assert filters[..|filters|] == filters;
    if |invalid| > 0 {
      return Failure(ParseWhereFilterError(filters, invalid));
    }
    return Success(parsed);
  }
}
