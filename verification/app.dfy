/**
 * The dashboard's flow from a selection in the sidebar to the queries it runs or prices.
 *
 * The flow reads the query catalog through a `Catalog` value; `Sql` is the catalog of
 * `SqlQueries`. The properties are proved for every catalog satisfying `Valid`, and
 * `SqlIsValid` shows that `Sql` is such a catalog. BigQuery, the concurrent runner and the
 * size estimator are not modelled: each is a function parameter. `run` takes the batch of
 * fetchers and returns the results or an error message; `estimate` takes one query text and
 * returns the value `estimate_gigabytes_scanned` gives for it or an error message.
 */
module App {
  import opened Wrappers
  import opened PercentFormat
  import opened TemplateLayout
  import opened SqlQueries
  import opened DataQueries

  /** What the flow reads from the catalog: the two select-box lists, the name-to-code lookup
      and the three templates, as layouts. */
  datatype Catalog = Catalog(
    states: seq<StatePair>,
    years: seq<int>,
    namesToCodes: map<string, string>,
    temperature: Layout,
    pollution: Layout,
    precipitation: Layout)

  const Sql: Catalog := Catalog(States, Years, NamesToCodes, TemperatureLayout, PollutionLayout, PrecipitationLayout)

  /** What the flow relies on: well-formed templates, a code for every selectable name, and
      names and codes free of '%'. */
  predicate Valid(c: Catalog) {
    && WellFormed(c.temperature) && WellFormed(c.pollution) && WellFormed(c.precipitation)
    && (forall i :: 0 <= i < |c.states| ==> c.states[i].name in c.namesToCodes)
    && (forall n :: n in c.namesToCodes ==> '%' !in n && '%' !in c.namesToCodes[n])
  }

  lemma SqlIsValid()
    ensures Valid(Sql)
    ensures Compose(Sql.temperature) == QueryTemperature && Compose(Sql.pollution) == QueryPollution
    ensures Compose(Sql.precipitation) == QueryPrecipitation
  {
    TemplatesAreWellFormed();
    Lookups();
    LookupValuesAreSafe();
  }

  datatype AppError =
    | UnknownState(state: string)    // the state name is not a key of the lookup (KeyError)
    | TemplateError(e: FormatError)  // the `%` operator rejected a template
    | Remote(message: string)        // the runner or the estimator failed

  /** One entry of the queries map: a template and the value for its state placeholder. */
  datatype QuerySpec = QuerySpec(template: string, state: string)

  /** The keys of the queries map, in insertion order, which is the order of the batch. */
  const Topics: seq<string> := ["temperature", "pollution", "precipitations"]

  /**
   * The queries map for a state name. Temperature and precipitation are filtered by the
   * state's code, pollution by its name. The code is looked up while the map is built, so an
   * unknown name fails before any fetcher exists.
   */
  function QueriesMap(c: Catalog, state: string): (r: Result<seq<(string, QuerySpec)>, AppError>)
    requires Valid(c)
    ensures r.Success? <==> state in c.namesToCodes
    ensures r.Success? ==> |r.value| == |Topics| && forall i :: 0 <= i < |Topics| ==> r.value[i].0 == Topics[i]
  {
    if state !in c.namesToCodes then Failure(UnknownState(state))
    else
      var code := c.namesToCodes[state];
      Success([ ("temperature", QuerySpec(Compose(c.temperature), code)),
                ("pollution", QuerySpec(Compose(c.pollution), state)),
                ("precipitations", QuerySpec(Compose(c.precipitation), code)) ])
  }

  /** One fetcher per entry, in order; the first template error stops the list. */
  function BuildAll(entries: seq<(string, QuerySpec)>, year: int): (r: Result<seq<DataQuery>, AppError>)
    ensures r.Failure? ==> r.error.TemplateError?
    ensures r.Success? ==> |r.value| == |entries|
    decreases |entries|
  {
    if |entries| == 0 then Success([])
    else
      var e := entries[0];
      match NewDataQuery(e.0, e.1.template, e.1.state, year)
      case Failure(err) => Failure(TemplateError(err))
      case Success(q) =>
        var rest :- BuildAll(entries[1..], year);
        Success([q] + rest)
  }

  /** The list is built exactly when every template scans, and then the `i`th fetcher is the
      `i`th entry's name and state value with its template formatted. */
  lemma {:induction false} BuildAllFormatsEach(entries: seq<(string, QuerySpec)>, year: int)
    ensures BuildAll(entries, year).Success? <==>
      forall i :: 0 <= i < |entries| ==> Scan(entries[i].1.template).Success?
    ensures BuildAll(entries, year).Success? ==> forall i :: 0 <= i < |entries| ==>
      BuildAll(entries, year).value[i]
      == DataQuery(entries[i].0, entries[i].1.state, year,
                   Format(entries[i].1.template, entries[i].1.state, year).value)
    decreases |entries|
  {
    if |entries| > 0 {
      var e, tail := entries[0], entries[1..];
      assert forall i :: 0 <= i < |tail| ==> tail[i] == entries[i + 1];
      BuildAllFormatsEach(tail, year);
    }
  }

  /** A fetcher with this name, state value and year. */
  predicate Fetches(q: DataQuery, name: string, state: string, year: int) {
    q.name == name && q.state == state && q.year == year
  }

  /**
   * The fetchers for a state name and a year (`get_data` and `compute_size_query` build the
   * same). They exist exactly for a known name: one per topic, in topic order, with the
   * selected year, the code for temperature and precipitation and the name for pollution.
   */
  function BuildFetchers(c: Catalog, state: string, year: int): (r: Result<seq<DataQuery>, AppError>)
    requires Valid(c)
    ensures r.Success? <==> state in c.namesToCodes
    ensures r.Failure? ==> r.error == UnknownState(state)
    ensures r.Success? ==> var code := c.namesToCodes[state];
      && |r.value| == 3
      && Fetches(r.value[0], "temperature", code, year)
      && Fetches(r.value[1], "pollution", state, year)
      && Fetches(r.value[2], "precipitations", code, year)
  {
    var entries :- QueriesMap(c, state);
    BuildTopics(c, state, year);
    BuildAll(entries, year)
  }

  /** For a known name, the map's three entries all build, in topic order. */
  lemma BuildTopics(c: Catalog, state: string, year: int)
    requires Valid(c) && state in c.namesToCodes
    ensures var code, r := c.namesToCodes[state], BuildAll(QueriesMap(c, state).value, year);
      && r.Success? && |r.value| == 3
      && Fetches(r.value[0], "temperature", code, year)
      && Fetches(r.value[1], "pollution", state, year)
      && Fetches(r.value[2], "precipitations", code, year)
  {
    BuildAllFormatsEach(QueriesMap(c, state).value, year);
    ScanLayout(c.temperature);
    ScanLayout(c.pollution);
    ScanLayout(c.precipitation);
  }

  /**
   * The batch written out independently of the `%` operator: each layout's texts with the
   * year and the state value in its holes; the state value is the code for temperature and
   * precipitation and the name for pollution.
   */
  function ExpectedBatch(c: Catalog, state: string, year: int): seq<DataQuery>
    requires Valid(c) && state in c.namesToCodes
  {
    var code, y := c.namesToCodes[state], DecimalText(year);
    [ DataQuery("temperature", code, year, Fill(c.temperature, code, y)),
      DataQuery("pollution", state, year, Fill(c.pollution, state, y)),
      DataQuery("precipitations", code, year, Fill(c.precipitation, code, y)) ]
  }

  lemma BuildThree(n1: string, t1: string, s1: string, n2: string, t2: string, s2: string,
                   n3: string, t3: string, s3: string, year: int, q1: DataQuery, q2: DataQuery, q3: DataQuery)
    requires NewDataQuery(n1, t1, s1, year) == Success(q1)
    requires NewDataQuery(n2, t2, s2, year) == Success(q2)
    requires NewDataQuery(n3, t3, s3, year) == Success(q3)
    ensures BuildAll([(n1, QuerySpec(t1, s1)), (n2, QuerySpec(t2, s2)), (n3, QuerySpec(t3, s3))], year)
         == Success([q1, q2, q3])
  {
    var e1: (string, QuerySpec) := (n1, QuerySpec(t1, s1));
    var e2: (string, QuerySpec) := (n2, QuerySpec(t2, s2));
    var e3: (string, QuerySpec) := (n3, QuerySpec(t3, s3));
    assert [e3][1..] == [];
    assert BuildAll([e3][1..], year) == Success([]);
    assert [q3] + [] == [q3];
    assert [e2, e3][1..] == [e3];
    assert BuildAll([e2, e3][1..], year) == Success([q3]);
    assert [q2] + [q3] == [q2, q3];
    assert [e1, e2, e3][1..] == [e2, e3];
    assert BuildAll([e1, e2, e3][1..], year) == Success([q2, q3]);
    assert [q1] + [q2, q3] == [q1, q2, q3];
  }

  /** Building the fetchers fails exactly for an unknown state name and otherwise yields the
      expected batch; no template error can occur. */
  lemma BuildFetchersMatchesExpected(c: Catalog, state: string, year: int)
    requires Valid(c)
    ensures state !in c.namesToCodes ==> BuildFetchers(c, state, year) == Failure(UnknownState(state))
    ensures state in c.namesToCodes ==> BuildFetchers(c, state, year) == Success(ExpectedBatch(c, state, year))
  {
    if state in c.namesToCodes {
      var code := c.namesToCodes[state];
      var b := ExpectedBatch(c, state, year);
      NewDataQueryFromLayout("temperature", c.temperature, code, year);
      NewDataQueryFromLayout("pollution", c.pollution, state, year);
      NewDataQueryFromLayout("precipitations", c.precipitation, code, year);
      BuildThree("temperature", Compose(c.temperature), code, "pollution", Compose(c.pollution), state,
                 "precipitations", Compose(c.precipitation), code, year, b[0], b[1], b[2]);
    }
  }

  /** A batch holds one fetcher per topic, in topic order, each with the selected year, and
      none of their queries has a placeholder left. */
  lemma BatchIsResolved(c: Catalog, state: string, year: int)
    requires Valid(c) && state in c.namesToCodes
    ensures BuildFetchers(c, state, year).Success?
    ensures |BuildFetchers(c, state, year).value| == |Topics|
    ensures forall i :: 0 <= i < |Topics| ==>
      var q := BuildFetchers(c, state, year).value[i];
      q.name == Topics[i] && q.year == year && '%' !in q.query
  {
    BuildFetchersMatchesExpected(c, state, year);
    var code, y := c.namesToCodes[state], DecimalText(year);
    FillHasNoPercent(c.pollution, state, y);
    FillHasNoPercent(c.temperature, code, y);
    FillHasNoPercent(c.precipitation, code, y);
  }

  /** A runner's outcome, its error message wrapped as a remote error. */
  function AsRemote<R>(outcome: Result<R, string>): Result<R, AppError> {
    match outcome
    case Success(v) => Success(v)
    case Failure(m) => Failure(Remote(m))
  }

  /** `get_data`: build the batch and hand it to the runner. It fails only for an unknown name
      or when the runner does; no template error can reach it. */
  function GetData<R>(c: Catalog, state: string, year: int, run: seq<DataQuery> -> Result<R, string>): (r: Result<R, AppError>)
    requires Valid(c)
    ensures r.Success? <==> state in c.namesToCodes && run(BuildFetchers(c, state, year).value).Success?
    ensures r.Failure? ==> r.error == UnknownState(state) || r.error.Remote?
  {
    var fetchers :- BuildFetchers(c, state, year);
    AsRemote(run(fetchers))
  }

  /** The runner sees exactly the expected batch, and only a runner error or an unknown state
      name makes the call fail. */
  lemma GetDataRunsExpectedBatch<R>(c: Catalog, state: string, year: int, run: seq<DataQuery> -> Result<R, string>)
    requires Valid(c)
    ensures state !in c.namesToCodes ==> GetData(c, state, year, run) == Failure(UnknownState(state))
    ensures state in c.namesToCodes ==> GetData(c, state, year, run) == AsRemote(run(ExpectedBatch(c, state, year)))
  {
    BuildFetchersMatchesExpected(c, state, year);
  }

  /** Python's `sum` over the estimates, left to right from 0; the first failing estimate stops it. */
  function SumEstimates(queries: seq<string>, estimate: string -> Result<real, string>): (r: Result<real, AppError>)
    ensures r.Failure? ==> r.error.Remote?
    decreases |queries|
  {
    if |queries| == 0 then Success(0.0)
    else
      var front :- SumEstimates(queries[..|queries| - 1], estimate);
      match estimate(queries[|queries| - 1])
      case Success(g) => Success(front + g)
      case Failure(m) => Failure(Remote(m))
  }

  /** The sum over a concatenation is the sum of the two sums. */
  lemma {:induction false} SumEstimatesAppend(a: seq<string>, b: seq<string>, estimate: string -> Result<real, string>)
    requires SumEstimates(a, estimate).Success? && SumEstimates(b, estimate).Success?
    ensures SumEstimates(a + b, estimate) == Success(SumEstimates(a, estimate).value + SumEstimates(b, estimate).value)
    decreases |b|
  {
    if |b| > 0 {
      var b' := b[..|b| - 1];
      assert (a + b)[..|a + b| - 1] == a + b';
      assert (a + b)[|a + b| - 1] == b[|b| - 1];
      SumEstimatesAppend(a, b', estimate);
    } else {
      assert a + b == a;
    }
  }

  /** The estimate of the `i`th query is the first to fail. */
  predicate FirstFailure(queries: seq<string>, estimate: string -> Result<real, string>, i: int) {
    && 0 <= i < |queries| && estimate(queries[i]).Failure?
    && forall j :: 0 <= j < i ==> estimate(queries[j]).Success?
  }

  /** The sum fails exactly when some estimate fails, with the message of the first one. */
  lemma {:induction false} SumEstimatesFailure(queries: seq<string>, estimate: string -> Result<real, string>)
    ensures SumEstimates(queries, estimate).Success? <==> forall i :: 0 <= i < |queries| ==> estimate(queries[i]).Success?
    ensures SumEstimates(queries, estimate).Failure? ==>
      exists i :: FirstFailure(queries, estimate, i) &&
        SumEstimates(queries, estimate) == Failure(Remote(estimate(queries[i]).error))
    decreases |queries|
  {
    if |queries| > 0 {
      var front := queries[..|queries| - 1];
      SumEstimatesFailure(front, estimate);
      assert forall i :: 0 <= i < |front| ==> front[i] == queries[i];
    }
  }

  lemma SumOfThree(q1: string, q2: string, q3: string, estimate: string -> Result<real, string>)
    requires estimate(q1).Success? && estimate(q2).Success? && estimate(q3).Success?
    ensures SumEstimates([q1, q2, q3], estimate)
         == Success(estimate(q1).value + estimate(q2).value + estimate(q3).value)
  {
    assert [q1, q2, q3][..2] == [q1, q2];
    assert [q1, q2][..1] == [q1];
    assert [q1][..0] == [];
    assert SumEstimates([], estimate) == Success(0.0);
    assert SumEstimates([q1], estimate) == Success(0.0 + estimate(q1).value);
    assert SumEstimates([q1, q2], estimate) == Success(0.0 + estimate(q1).value + estimate(q2).value);
  }

  function Queries(fetchers: seq<DataQuery>): (r: seq<string>)
    ensures |r| == |fetchers| && forall i :: 0 <= i < |r| ==> r[i] == fetchers[i].query
  {
    seq(|fetchers|, i requires 0 <= i < |fetchers| => fetchers[i].query)
  }

  /** `compute_size_query`: build the batch and add up the estimates of its queries.
      An unknown name fails before any estimate; otherwise only an estimate can fail. */
  function ComputeSizeQuery(c: Catalog, state: string, year: int, estimate: string -> Result<real, string>): (r: Result<real, AppError>)
    requires Valid(c)
    ensures state !in c.namesToCodes ==> r == Failure(UnknownState(state))
    ensures r.Failure? ==> r.error == UnknownState(state) || r.error.Remote?
  {
    var fetchers :- BuildFetchers(c, state, year);
    SumEstimates(Queries(fetchers), estimate)
  }

  /** The size is known exactly for a known name whose three queries all have an estimate. */
  lemma ComputeSizeQuerySucceeds(c: Catalog, state: string, year: int, estimate: string -> Result<real, string>)
    requires Valid(c)
    ensures ComputeSizeQuery(c, state, year, estimate).Success? <==>
      && state in c.namesToCodes
      && var b := BuildFetchers(c, state, year).value;
         && estimate(b[0].query).Success?
         && estimate(b[1].query).Success?
         && estimate(b[2].query).Success?
  {
    if state in c.namesToCodes {
      var b := BuildFetchers(c, state, year).value;
      SumEstimatesFailure(Queries(b), estimate);
      assert Queries(b) == [b[0].query, b[1].query, b[2].query];
    }
  }

  /** A batch of three fetchers whose queries all have an estimate sums to those estimates,
      added in fetcher order. */
  lemma BatchSize(b: seq<DataQuery>, estimate: string -> Result<real, string>)
    requires |b| == 3
    requires estimate(b[0].query).Success? && estimate(b[1].query).Success? && estimate(b[2].query).Success?
    ensures SumEstimates(Queries(b), estimate)
         == Success(estimate(b[0].query).value + estimate(b[1].query).value + estimate(b[2].query).value)
  {
    assert Queries(b) == [b[0].query, b[1].query, b[2].query];
    SumOfThree(b[0].query, b[1].query, b[2].query, estimate);
  }

  /** Once the fetchers are built, the size is the sum over their queries. */
  lemma SizeOfBuilt(c: Catalog, state: string, year: int, estimate: string -> Result<real, string>, b: seq<DataQuery>)
    requires Valid(c) && BuildFetchers(c, state, year) == Success(b)
    ensures ComputeSizeQuery(c, state, year, estimate) == SumEstimates(Queries(b), estimate)
  {
  }

  /** With the three queries' estimates available, the size is those estimates added in topic
      order. */
  lemma ComputeSizeQueryIsSum(c: Catalog, state: string, year: int, estimate: string -> Result<real, string>)
    requires Valid(c) && state in c.namesToCodes
    requires var b := ExpectedBatch(c, state, year);
      estimate(b[0].query).Success? && estimate(b[1].query).Success? && estimate(b[2].query).Success?
    ensures var b := ExpectedBatch(c, state, year);
      ComputeSizeQuery(c, state, year, estimate)
      == Success(estimate(b[0].query).value + estimate(b[1].query).value + estimate(b[2].query).value)
  {
    BuildFetchersMatchesExpected(c, state, year);
    var b := ExpectedBatch(c, state, year);
    SizeOfBuilt(c, state, year, estimate, b);
    BatchSize(b, estimate);
  }

  // ---------------------------------------------------------------- the sidebar

  /** The positions chosen in the two select boxes. */
  datatype Selection = Selection(row: nat, yearIndex: nat)

  /** The positions the select boxes start on. */
  const DefaultSelection: Selection := Selection(4, 20)

  predicate ValidSelection(c: Catalog, s: Selection) {
    s.row < |c.states| && s.yearIndex < |c.years|
  }

  /** What the page shows: the plotted results after Run, the estimated size otherwise. */
  datatype Shown<R> = Plotted(results: R) | SizeEstimated(gigabytes: real)

  /** The sidebar returns the selected row and year along with what it showed. */
  datatype Sidebar<R> = Sidebar(row: StatePair, year: int, shown: Shown<R>)

  /**
   * `frame_selector_ui`: the selected row's name (its second component) and the selected year
   * go to the runner when Run is clicked, and to the size estimate otherwise.
   */
  function FrameSelector<R>(c: Catalog, s: Selection, runClicked: bool, run: seq<DataQuery> -> Result<R, string>,
                            estimate: string -> Result<real, string>): (r: Result<Sidebar<R>, AppError>)
    requires Valid(c) && ValidSelection(c, s)
    ensures r.Success? ==> r.value.row == c.states[s.row] && r.value.year == c.years[s.yearIndex]
    ensures r.Success? ==> r.value.shown.Plotted? == runClicked
  {
    var row, year := c.states[s.row], c.years[s.yearIndex];
    if runClicked then
      var results :- GetData(c, row.name, year, run);
      Success(Sidebar(row, year, Plotted(results)))
    else
      var size :- ComputeSizeQuery(c, row.name, year, estimate);
      Success(Sidebar(row, year, SizeEstimated(size)))
  }

  /** The sidebar hands the selected row's name and the selected year on: Run plots what the
      runner returns for that name's batch, otherwise the size is the sum over that batch. */
  lemma FrameSelectorUsesName<R>(c: Catalog, s: Selection, runClicked: bool, run: seq<DataQuery> -> Result<R, string>,
                                 estimate: string -> Result<real, string>)
    requires Valid(c) && ValidSelection(c, s)
    ensures var r, b := FrameSelector(c, s, runClicked, run, estimate), ExpectedBatch(c, c.states[s.row].name, c.years[s.yearIndex]);
      && (r.Success? && runClicked ==> run(b) == Success(r.value.shown.results))
      && (r.Success? && !runClicked ==> SumEstimates(Queries(b), estimate) == Success(r.value.shown.gigabytes))
  {
    BuildFetchersMatchesExpected(c, c.states[s.row].name, c.years[s.yearIndex]);
  }

  /** Every selection names a known state: the page fails only when the runner or the
      estimator does, and it succeeds whenever they do. */
  lemma SelectionNeverUnknown<R>(c: Catalog, s: Selection, runClicked: bool, run: seq<DataQuery> -> Result<R, string>,
                                 estimate: string -> Result<real, string>)
    requires Valid(c) && ValidSelection(c, s)
    ensures FrameSelector(c, s, runClicked, run, estimate).Failure? ==>
      FrameSelector(c, s, runClicked, run, estimate).error.Remote?
    ensures runClicked && run(ExpectedBatch(c, c.states[s.row].name, c.years[s.yearIndex])).Success? ==>
      FrameSelector(c, s, runClicked, run, estimate).Success?
  {
    var row, year := c.states[s.row], c.years[s.yearIndex];
    BuildFetchersMatchesExpected(c, row.name, year);
    if !runClicked {
      var fetchers := ExpectedBatch(c, row.name, year);
      SumEstimatesFailure(Queries(fetchers), estimate);
    }
  }

  /** The keys the page reads from the results, in the order it reads them. */
  const ConsumedKeys: seq<string> := ["pollution", "temperature", "precipitations"]

  /** The names of a batch's fetchers, in order. */
  function BatchNames(fetchers: seq<DataQuery>): (r: seq<string>)
    ensures |r| == |fetchers| && forall i :: 0 <= i < |r| ==> r[i] == fetchers[i].name
  {
    seq(|fetchers|, i requires 0 <= i < |fetchers| => fetchers[i].name)
  }

  /** The keys the page reads are the batch's names, each once: a permutation of them. */
  lemma ConsumedKeysAreBuilt(c: Catalog, state: string, year: int)
    requires Valid(c) && state in c.namesToCodes
    ensures BuildFetchers(c, state, year).Success?
    ensures multiset(ConsumedKeys) == multiset(BatchNames(BuildFetchers(c, state, year).value))
    ensures Distinct(BatchNames(BuildFetchers(c, state, year).value))
  {
    var f := BuildFetchers(c, state, year).value;
    assert BatchNames(f) == Topics;
    TopicsAreConsumedKeys();
  }

  lemma TopicsAreConsumedKeys()
    ensures multiset(ConsumedKeys) == multiset(Topics) && Distinct(Topics)
  {
    assert ConsumedKeys == [Topics[1], Topics[0], Topics[2]];
  }

  // ---------------------------------------------------------------- the catalog in use

  /** Each fetcher's query is its template after the `%` operator, given the code or the name
      and the year. */
  lemma BatchFormatsTemplates(c: Catalog, state: string, year: int)
    requires Valid(c) && state in c.namesToCodes
    ensures var code, b := c.namesToCodes[state], ExpectedBatch(c, state, year);
      && Format(Compose(c.temperature), code, year) == Success(b[0].query)
      && Format(Compose(c.pollution), state, year) == Success(b[1].query)
      && Format(Compose(c.precipitation), code, year) == Success(b[2].query)
  {
    var code := c.namesToCodes[state];
    FormatLayout(c.temperature, code, year);
    FormatLayout(c.pollution, state, year);
    FormatLayout(c.precipitation, code, year);
  }

  /** The select boxes start on California and 2010, whose code is CA. */
  lemma SqlDefaults()
    ensures ValidSelection(Sql, DefaultSelection)
    ensures Sql.states[DefaultSelection.row] == StatePair("CA", "California")
    ensures Sql.years[DefaultSelection.yearIndex] == 2010
    ensures "California" in Sql.namesToCodes && Sql.namesToCodes["California"] == "CA"
    ensures Sql.temperature == Layout([TemperatureSelect, TemperatureFilter, TemperatureOrder], [YearS, State])
  {
    DefaultSelections();
    YearsCatalog();
    Lookups();
    assert States[4].name in NamesToCodes && NamesToCodes[States[4].name] == States[4].code;
  }

  lemma YearText2010()
    ensures DecimalText(2010) == "2010"
  {
    assert Digits(2) == "2";
    assert Digits(20) == Digits(2) + "0";
    assert Digits(201) == Digits(20) + "1";
    assert Digits(2010) == Digits(201) + "0";
  }

  /** For the default selection, a temperature template laid out as select, year, filter,
      state, order (as `TemperatureLayout` is) yields the select text, "2010", the filter text,
      "CA" and the order text: table gsod2010, stations in 'CA'. */
  lemma DefaultTemperatureQuery(c: Catalog, select: string, filter: string, order: string)
    requires Valid(c) && c.temperature == Layout([select, filter, order], [YearS, State])
    requires "California" in c.namesToCodes && c.namesToCodes["California"] == "CA"
    ensures BuildFetchers(c, "California", 2010).Success?
    ensures BuildFetchers(c, "California", 2010).value[0].query == select + "2010" + filter + "CA" + order
  {
    BuildFetchersMatchesExpected(c, "California", 2010);
    YearText2010();
    FillTwoHoles(select, filter, order, YearS, State, "CA", "2010");
  }
}
