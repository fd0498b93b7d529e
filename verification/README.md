# A Dafny model of the Bigquery-Streamlit query core

The dashboard lets a user pick a US state and a year in a sidebar. It then builds three
parametric Standard SQL queries: daily temperature, monthly pollution and daily
precipitation. When Run is clicked it sends them to BigQuery. Otherwise it only asks for an
estimate of the data the queries would process (`estimate_gigabytes_scanned`, app.py:98).

This project models the part of the dashboard that decides which SQL is sent:

- the query catalog (`YEARS`, the three templates, `STATES` and the lookups derived from it);
- the `DataQuery` fetcher, which fills a template with Python's
  `template % {'state': ..., 'year': ...}`;
- the flow in `app.py` from the sidebar's selection to the batch of fetchers that is run
  or priced.

The modules are:

| file | module | what it holds |
|---|---|---|
| `wrappers.dfy` | `Wrappers` | `Option` and `Result` |
| `percent_format.dfy` | `PercentFormat` | the `%` operator for the placeholders the templates use (`Scan` reads a template into pieces, `Render` writes their values), and decimal text of integers |
| `template_layout.dfy` | `TemplateLayout` | a template seen as texts and placeholders (`Layout`); `Compose` gives the template string, `Fill` the expected query |
| `sql_queries.dfy` | `SqlQueries` | `Years`, the three templates as layouts, `States`, `Names`, `CodeToNames`, `NamesToCodes` |
| `data_query.dfy` | `DataQueries` | `DataQuery` and `NewDataQuery` (the constructor) |
| `app.dfy` | `App` | the queries map, `BuildFetchers`, `GetData`, `ComputeSizeQuery`, `FrameSelector`; every property is proved for any `Valid` catalog, and `SqlIsValid` shows that `Sql`, the catalog of `SqlQueries`, is such a catalog |

Each SQL template is written as a concatenation of short text fragments. Together the
fragments spell the source's template character for character. The `%` operator is modelled
independently of the templates, by `Scan` and `Render`. Each template's layout is then proved
to scan to exactly its placeholders. So the query the app sends is `Fill` of the layout: the
texts unchanged, the state or the year in each hole.

A few facts about the code shape the model:

- The third topic is keyed `"precipitations"` (app.py:73, 90).
- An unknown state name raises `KeyError` while the queries map is built (app.py:71, 88),
  before any fetcher exists. The model calls this `UnknownState`.
- Each fetcher's `state` field holds what its template was filled with: the two-letter
  code for temperature and precipitation, and the full name for pollution
  (app.py:71-73, modules/data_query.py:28).
- Errors from the runner or the estimator propagate unchanged out of `get_data` and
  `compute_size_query` (app.py:81, 98). The
  model keeps only their message, as `Remote`.
- `compute_size_query` adds the three values the estimator returns (app.py:98).

## Model

| member | source | states |
|---|---|---|
| PercentFormat.Format | modules/data_query.py:30 | `template % {'state': ..., 'year': ...}` fails exactly when the template has a conversion it cannot read, with that error, and a template without `%` comes back unchanged |
| PercentFormat.DecimalText | modules/data_query.py:30 | `str(year)` / `%d` of the year: reading the text back gives the year, it has no `%` or quote, a non-negative year is plain digits without a leading zero, and a negative one is `-` followed by such digits |
| PercentFormat.FourDigitYear | modules/sql_queries.py:6 | every year from 1000 to 9999, so every year in `YEARS`, is written with exactly four digits |
| PercentFormat.ScanYieldsSpelling | modules/data_query.py:30 | whatever the `%` operator reads from a template spells the template back exactly, and never reads `%` as plain text |
| PercentFormat.SpellingScans | modules/data_query.py:30 | the converse: the spelling of any sequence of pieces without a literal `%` is read back as those pieces |
| PercentFormat.ScanCharacterization | modules/data_query.py:30 | a template is accepted, with given pieces, exactly when it is their spelling (both directions) |
| PercentFormat.ScanAppend | modules/data_query.py:30 | reading two accepted templates one after the other reads their pieces one after the other |
| PercentFormat.FormatAppend | modules/data_query.py:30 | `(a + b) % m == (a % m) + (b % m)` for templates the operator accepts |
| PercentFormat.InsertedStateIsNotRescanned | modules/data_query.py:30 | the state text is inserted verbatim and never read again as a template, even if it contains placeholders |
| PercentFormat.YearPlaceholdersYieldDecimal | modules/data_query.py:30 | both `%(year)d` and `%(year)s` yield the year's decimal text |
| PercentFormat.PlainTextIsUnchanged | modules/data_query.py:30 | a template without `%` is returned unchanged |
| PercentFormat.RenderLength | modules/data_query.py:30 | the result's length is the template's, with each placeholder's spelling replaced by its value and each `%%` by one character |
| PercentFormat.FormatLength | modules/data_query.py:30 | the same length equation for an accepted template, stated on the operator's result |
| PercentFormat.RenderHasNoPercent | modules/data_query.py:30 | with no `%%` and values free of `%`, the result has no `%` left |
| PercentFormat.RenderKeepsCharCount | modules/data_query.py:30 | a character in no placeholder spelling and in neither value occurs in the result exactly as often as in the template |
| TemplateLayout.ExpandSpellsTemplate | modules/sql_queries.py:8-112 | the pieces of a layout spell its template string |
| TemplateLayout.ExpandRendersFill | modules/sql_queries.py:8-112 | rendering those pieces gives the layout filled hole by hole |
| TemplateLayout.ScanLayout | modules/sql_queries.py:8-112 | a well-formed layout's template is read as exactly its texts and holes |
| TemplateLayout.FormatLayout | modules/data_query.py:30 | formatting a well-formed layout's template keeps every text and puts the state or the year's text in each hole |
| TemplateLayout.ExpandCounts | modules/sql_queries.py:8-112 | the operator finds each kind of placeholder as often as the layout has holes of that kind |
| TemplateLayout.FillHasNoPercent | modules/data_query.py:30 | with values free of `%`, a filled well-formed layout has no `%` left |
| TemplateLayout.FillTwoHoles | modules/sql_queries.py:61-112 | a layout with two holes fills to text, value, text, value, text |
| TemplateLayout.FillLength | modules/data_query.py:30 | a filled query's length, from the template's length and its counts of state and year holes |
| SqlQueries.Range | modules/sql_queries.py:6 | `list(range(lo, hi, 1))`: `hi - lo` consecutive integers from `lo`, or none |
| SqlQueries.YearsCatalog | modules/sql_queries.py:6 | `YEARS` holds the 29 years 1990 to 2018 in ascending order, each written with four digits |
| SqlQueries.StateYearPairs | modules/sql_queries.py:8-56 | the pollution template's holes alternate state, year (`%(year)d`) |
| SqlQueries.PollutionTemplate | modules/sql_queries.py:8-56 | the pollution template is read as its layout: six `%(state)s`, six `%(year)d`, no `%(year)s`, no `%%`; formatting it fills the layout |
| SqlQueries.PollutionQueryLength | modules/sql_queries.py:8-56 | the pollution query is the template's length, plus six times the state's length less 9, plus six times the year text's length less 8 |
| SqlQueries.TemperatureTemplate | modules/sql_queries.py:61-86 | the temperature template has exactly one `%(state)s` and one `%(year)s`, and nothing else to substitute |
| SqlQueries.TemperatureQuery | modules/sql_queries.py:61-86 | the temperature query is the text before `gsod`, the year, the text up to `state = '`, the state, the rest |
| SqlQueries.PrecipitationTemplate | modules/sql_queries.py:89-112 | the precipitation template has exactly one `%(state)s` and one `%(year)s`, and nothing else to substitute |
| SqlQueries.PrecipitationQuery | modules/sql_queries.py:89-112 | the precipitation query is the text before `ghcnd_`, the year, the text up to `stations.state = '`, the state, the rest |
| SqlQueries.PlaceholderSurroundings | modules/sql_queries.py:21-106 | the year is appended to the table names `gsod` and `ghcnd_`; every state placeholder sits between single quotes in a comparison |
| SqlQueries.TemperatureExample | modules/sql_queries.py:61-86 | California's code with 2015 gives the temperature query over table `gsod2015` for `state = 'CA'` |
| SqlQueries.SpelledValuesAreSafe | modules/sql_queries.py:119-171 | a two-capital code or a name of letters and spaces holds no `%` and no quote |
| SqlQueries.DictOf | modules/sql_queries.py:174-175 | a dict comprehension's keys are the rows' keys |
| SqlQueries.DictOfLookup | modules/sql_queries.py:174-175 | a key maps to the value of its last row (Python's last-write-wins) |
| SqlQueries.DictOfSize | modules/sql_queries.py:174-175 | with distinct keys, the dict has one entry per row |
| SqlQueries.StatesCatalog | modules/sql_queries.py:119-173 | `STATES` has 51 rows, every code is two capitals, every name is letters and spaces, and the codes are distinct, as are the entries of `NAMES` |
| SqlQueries.Lookups | modules/sql_queries.py:173-175 | both lookups have 51 entries; each row's code maps to its name and its name to its code; the names are exactly the keys of `NAMES_TO_CODES` |
| SqlQueries.LookupsRoundTrip | modules/sql_queries.py:174-175 | `CODE_TO_NAMES` and `NAMES_TO_CODES` are inverse to each other |
| SqlQueries.LookupValuesAreSafe | modules/sql_queries.py:175 | no key or value of `NAMES_TO_CODES` holds `%` or a quote |
| SqlQueries.DefaultSelections | app.py:106-110 | row 4 of `STATES` is ('CA', 'California') and entry 20 of `YEARS` is 2010 |
| DataQueries.NewDataQuery | modules/data_query.py:20-30 | construction succeeds exactly when the operator accepts the template, keeps name, state and year, and otherwise fails with the operator's error |
| DataQueries.NewDataQueryFromLayout | modules/data_query.py:20-30 | a fetcher built from a well-formed template holds that template filled with the state and the year |
| DataQueries.NewDataQueryResolvesPlaceholders | modules/data_query.py:30 | with a state free of `%`, the fetcher's query has no placeholder left |
| DataQueries.NewDataQueryKeepsText | modules/data_query.py:30 | the query keeps the template's characters: one that is in no placeholder and in neither value occurs as often as in the template |
| App.SqlIsValid | modules/sql_queries.py:8-175 | the catalog in use is valid: well-formed templates, a code for every selectable name, no `%` in names or codes |
| App.QueriesMap | app.py:70-74 | the map exists exactly when the name is a key of `NAMES_TO_CODES`, and its keys are temperature, pollution, precipitations in that order |
| App.BuildAll | app.py:76-79 | the list comprehension over the map fails only with a template error, and otherwise has one fetcher per entry |
| App.BuildAllFormatsEach | app.py:76-79 | the fetchers are built exactly when every template is accepted, and then the `i`th fetcher carries the `i`th key, its state value, the year and its template after the `%` operator |
| App.BuildFetchers | app.py:70-79 | the fetchers exist exactly for a name in `NAMES_TO_CODES`, and otherwise the failure is `UnknownState`; they are three, named temperature, pollution, precipitations, all with the selected year, the first and last holding the code and the second the name |
| App.BuildThree | app.py:76-79 | three accepted entries give three fetchers, in entry order |
| App.BuildFetchersMatchesExpected | app.py:67-79 | an unknown name fails with `UnknownState`; a known one yields the three fetchers filled independently from the layouts, and no template error occurs |
| App.BatchIsResolved | app.py:76-79 | the batch has one fetcher per topic, in order, each with the selected year and no placeholder left |
| App.GetData | app.py:67-83 | `get_data` succeeds exactly when the name is known and the runner succeeds on the fetchers; it fails only with `UnknownState` or a runner error, never a template error |
| App.GetDataRunsExpectedBatch | app.py:67-83 | `get_data` hands the runner exactly the expected batch; only an unknown name or the runner's error makes it fail |
| App.SumEstimates | app.py:98 | `sum` over the estimates fails only with an estimator error |
| App.SumEstimatesAppend | app.py:98 | the sum over two lists of queries is the sum of the two sums |
| App.SumEstimatesFailure | app.py:98 | the sum fails exactly when some estimate fails, and then with the first failing estimate's message |
| App.SumOfThree | app.py:98 | three available estimates add up left to right |
| App.ComputeSizeQuery | app.py:86-98 | an unknown name fails with `UnknownState` before any estimate; otherwise only an estimator error can make it fail |
| App.ComputeSizeQuerySucceeds | app.py:86-98 | the size is computed exactly when the name is known and each of the three fetchers' queries has an estimate |
| App.BatchSize | app.py:98 | for three fetchers whose queries all have an estimate, `sum` gives those estimates added in fetcher order |
| App.ComputeSizeQueryIsSum | app.py:86-98 | when the three queries of the expected batch have estimates, the size is their sum in topic order |
| App.FrameSelector | app.py:102-142 | the sidebar returns the selected row and year, and plots exactly when Run was clicked |
| App.FrameSelectorUsesName | app.py:114-135 | the name component of the selected row and the selected year reach the runner or the estimator: the plotted results are the runner's on that name's batch, the size is the sum over that batch |
| App.SelectionNeverUnknown | app.py:106-135 | a name picked in the select box is always known: the page fails only through the runner or the estimator, and with a succeeding runner Run succeeds |
| App.ConsumedKeysAreBuilt | app.py:121-129 | the keys the page reads are a permutation of the batch's names, which are pairwise distinct |
| App.BatchFormatsTemplates | app.py:76-79 | each fetcher's query is its template after the `%` operator with the code or the name and the year |
| App.SqlDefaults | app.py:106-110 | the select boxes start on ('CA', 'California') and 2010, and California's code is CA |
| App.DefaultTemperatureQuery | app.py:117 | with the default selection, the temperature query reads table `gsod2010` for `state = 'CA'` |

## Left out

- BigQuery: `bigquery.Client()`, `_fetch_data_bigquery` (location `"US"`) and the
  credentials setup in `modules/data_query.py`. `DataQuery.get_data`
  (modules/data_query.py:33-37) only prints and sends one query to BigQuery. It is reached
  only through the runner parameter of `GetData`, so it has no member of its own.
- `run_concurrent_queries` and `estimate_gigabytes_scanned` are parameters of `GetData` and
  `ComputeSizeQuery`. `modules/utils.py` is not part of this model, so neither their
  concurrency nor their results are modelled. The result is an opaque `R`.
- `st.cache`, the Streamlit widgets, `main`, `run_the_app`, the map and the plots
  (`modules/plot.py`) are left out. The sidebar is a selected row, a selected year index and
  whether Run was clicked.
- `SumEstimates` adds `real` numbers, so floating-point rounding is not modelled. The
  `%6.2f` message that shows the size is left out.
- PercentFormat.Scan: only the conversions the templates use are modelled (`%%`,
  `%(state)s`, `%(year)d`, `%(year)s`). A lone trailing `%` is `IncompleteFormat`. Every
  other conversion is `UnmodelledSpec`, although Python formats some of them and raises
  other errors for the rest.
- PercentFormat.DecimalText: `%(year)d` and `%(year)s` are modelled only for an integer year.
  The years come from `YEARS`, so they are always integers.
- App.FrameSelector: the sidebar's `st.warning` and `st.success` messages are left out.
- App.SumOfThree, App.ComputeSizeQueryIsSum, App.BatchSize: the value is stated only when
  the three estimates succeed. The failing cases are `App.SumEstimatesFailure` and
  `App.ComputeSizeQuerySucceeds`.
