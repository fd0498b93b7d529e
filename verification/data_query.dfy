/**
 * A data fetcher: a named query, built once from a template, a state value and a year, and
 * later run against BigQuery.
 */
module DataQueries {
  import opened Wrappers
  import opened PercentFormat
  import opened TemplateLayout

  /** The name, state and year the fetcher was built with, and the finished SQL text. */
  datatype DataQuery = DataQuery(name: string, state: string, year: int, query: string)

  /**
   * Builds a fetcher. The template is formatted with the mapping {'state': state, 'year': year};
   * an error of the `%` operator stops the construction.
   */
  function NewDataQuery(name: string, template: string, state: string, year: int): (r: Result<DataQuery, FormatError>)
    ensures r.Success? <==> Scan(template).Success?
    ensures r.Success? ==> r.value.name == name && r.value.state == state && r.value.year == year
    ensures r.Failure? ==> Format(template, state, year) == Failure(r.error)
  {
    var query :- Format(template, state, year);
    Success(DataQuery(name, state, year, query))
  }

  /** A fetcher built from a well-formed layout holds the layout's texts with the state and the
      year's decimal text in its holes. */
  lemma NewDataQueryFromLayout(name: string, l: Layout, state: string, year: int)
    requires WellFormed(l)
    ensures NewDataQuery(name, Compose(l), state, year)
         == Success(DataQuery(name, state, year, Fill(l, state, DecimalText(year))))
  {
    FormatLayout(l, state, year);
  }

  /** Its query then has no '%' left unless the state value brought one. */
  lemma NewDataQueryResolvesPlaceholders(name: string, l: Layout, state: string, year: int)
    requires WellFormed(l) && '%' !in state
    ensures NewDataQuery(name, Compose(l), state, year).Success?
    ensures '%' !in NewDataQuery(name, Compose(l), state, year).value.query
  {
    NewDataQueryFromLayout(name, l, state, year);
    FillHasNoPercent(l, state, DecimalText(year));
  }

  /** The query keeps every character of the template except the placeholders' spellings: a
      character that is neither part of a placeholder spelling nor in the state value or the
      year's text occurs in the query exactly as often as in the template. */
  lemma NewDataQueryKeepsText(name: string, template: string, state: string, year: int, c: char)
    requires Scan(template).Success?
    requires c !in TokenChars && c !in state && c !in DecimalText(year)
    ensures NewDataQuery(name, template, state, year).Success?
    ensures multiset(NewDataQuery(name, template, state, year).value.query)[c] == multiset(template)[c]
  {
    var ps := Scan(template).value;
    ScanYieldsSpelling(template, ps);
    RenderKeepsCharCount(ps, state, DecimalText(year), c);
  }
}
