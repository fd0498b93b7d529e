/**
 * The query catalog: the list of selectable years, the three parametrised SQL templates and
 * the table of US states with the lookups derived from it.
 *
 * Every template is written as a `Layout` (the text between its placeholders); the template
 * string itself is `Compose` of that layout. The long SQL text is kept as concatenations of
 * short literals, one SQL line (or part of one) each.
 */
module SqlQueries {
  import opened Wrappers
  import opened PercentFormat
  import opened TemplateLayout

  // ---------------------------------------------------------------- years

  /** The integers lo, lo + 1, ..., hi - 1, like Python's `range(lo, hi, 1)`. */
  function Range(lo: int, hi: int): (r: seq<int>)
    ensures |r| == if lo < hi then hi - lo else 0
    ensures forall i :: 0 <= i < |r| ==> r[i] == lo + i
    decreases hi - lo
  {
    if hi <= lo then [] else [lo] + Range(lo + 1, hi)
  }

  /** The years a user may select. */
  const Years: seq<int> := Range(1990, 2019)

  // ---------------------------------------------------------------- pollution

  /** The column list of the pollution query, up to its FROM. */
  const PollutionColumns: string :=
    "\n" +
    "    SELECT\n" +
    "      pm10.year as year,\n" +
    "      pm10.month AS" +
    " month,\n" +
    "      pm10.avg AS pm10,\n" +
    "      pm25_frm.avg AS" +
    " pm25_frm,\n" +
    "      pm25_nonfrm.avg AS" +
    " pm25_nonfrm,\n" +
    "      co.avg as co,\n" +
    "      so2.avg as so2,\n" +
    "      lead.avg AS lead\n" +
    "    FROM\n"

  /** A sub-select starts with the monthly mean of the table's arithmetic means. */
  const MeanOpening: string :=
    "      ( SELECT" +
    " avg(arithmetic_mean)"

  /** The month and the year of each row. */
  const MonthYearColumns: string :=
    " as avg, EXTRACT(MONTH" +
    " FROM date_local) as" +
    " month, EXTRACT(YEAR" +
    " FROM date_local) as" +
    " year\n"

  /** The public EPA dataset holding the daily-summary tables. */
  const EpaDataset: string :=
    "        FROM" +
    " `bigquery-public-data." +
    "epa_historical_air_quality."

  /** The end of the table name and the start of the state filter. */
  const StateCondition: string :=
    "_daily_summary`\n" +
    "        WHERE state_name" +
    " = '"

  /** Between the state and the year placeholders of every sub-select. */
  const YearCondition: string :=
    "' and EXTRACT(YEAR FROM" +
    " date_local) = "

  /** A sub-select groups its rows by year and month and ends with its alias. */
  const GroupByMonth: string :=
    "\n" +
    "        GROUP BY year," +
    " month\n" +
    "      ) AS "

  /** The keyword between two sub-selects. */
  const Join: string :=
    "    JOIN\n"

  /** The end of the pollution query. */
  const PollutionOrder: string :=
    "    ORDER BY\n" +
    "      month\n"

  /** A sub-select averaging one EPA daily-summary table, up to the state placeholder. */
  function SubqueryOpening(scale: string, table: string): string {
    MeanOpening + scale + MonthYearColumns + EpaDataset + table + StateCondition
  }

  /** The end of a sub-select: grouping, its alias and the condition it is joined on. */
  function SubqueryClosing(alias: string, on: string): string {
    GroupByMonth + alias + on + "\n"
  }

  /** The condition joining a sub-select to the pm10 one on year and month. */
  function JoinCondition(alias: string): string {
    " ON pm10.year = " + alias + ".year AND pm10.month = " + alias + ".month"
  }

  /** One sub-select of the pollution query: the EPA daily-summary table it averages (named by
      its prefix), the factor applied to the mean, and the sub-select's alias. */
  datatype Pollutant = Pollutant(table: string, scale: string, alias: string)

  /** The sub-selects in query order; pm10 comes first and the others are joined to it. */
  const Pollutants: seq<Pollutant> := [
    Pollutant("pm10", "", "pm10"),
    Pollutant("pm25_frm", "", "pm25_frm"),
    Pollutant("pm25_nonfrm", "", "pm25_nonfrm"),
    Pollutant("lead", " * 100", "lead"),
    Pollutant("voc", "", "co"),
    Pollutant("so2", " * 10", "so2")
  ]

  function Opening(i: nat): string
    requires i < |Pollutants|
  {
    SubqueryOpening(Pollutants[i].scale, Pollutants[i].table)
  }

  /** The first sub-select is the base of the join and has no join condition. */
  function Closing(i: nat): string
    requires i < |Pollutants|
  {
    SubqueryClosing(Pollutants[i].alias, if i == 0 then "" else JoinCondition(Pollutants[i].alias))
  }

  /** Placeholders alternating state, year (`%(year)d`), n times. */
  function StateYearPairs(n: nat): (r: seq<Piece>)
    ensures |r| == 2 * n
    ensures forall i :: 0 <= i < |r| ==> r[i] == if i % 2 == 0 then State else YearD
  {
    if n == 0 then [] else [State, YearD] + StateYearPairs(n - 1)
  }

  /** Six sub-selects, each filtered by state name and then by year. */
  const PollutionLayout: Layout := Layout(
    [ PollutionColumns + Opening(0), YearCondition,
      Closing(0) + Join + Opening(1), YearCondition,
      Closing(1) + Join + Opening(2), YearCondition,
      Closing(2) + Join + Opening(3), YearCondition,
      Closing(3) + Join + Opening(4), YearCondition,
      Closing(4) + Join + Opening(5), YearCondition,
      Closing(5) + PollutionOrder ],
    StateYearPairs(|Pollutants|))

  const QueryPollution: string := Compose(PollutionLayout)

  // ---------------------------------------------------------------- temperature

  /** The columns of the temperature query. */
  const TemperatureColumns: string :=
    "\n" +
    "    SELECT\n" +
    "      year,\n" +
    "      mo as month,\n" +
    "      da as day,\n" +
    "      MAX(max) as" +
    " max_temp,\n" +
    "      MIN(min) as" +
    " min_temp,\n" +
    "      AVG(temp) as" +
    " avg_temp,\n" +
    "      state\n" +
    "    FROM\n"

  /** The start of the GSOD table name the year completes. */
  const TemperatureTable: string :=
    "      `bigquery-public-data." +
    "noaa_gsod.gsod"

  /** The stations table, joined to find the state of each station. */
  const TemperatureJoin: string :=
    "` a\n" +
    "    JOIN\n" +
    "      `bigquery-public-data." +
    "noaa_gsod.stations` b\n" +
    "    ON\n" +
    "      a.stn=b.usaf\n" +
    "      AND a.wban=b.wban\n"

  /** The filters, ending inside the quotes around the state code. */
  const TemperatureWhere: string :=
    "    WHERE\n" +
    "      state IS NOT NULL\n" +
    "      AND max < 1000\n" +
    "      AND country = 'US'\n" +
    "      AND state = '"

  /** After the state placeholder. */
  const TemperatureOrder: string :=
    "'\n" +
    "    GROUP BY\n" +
    "      year, month, day," +
    " state\n" +
    "    ORDER BY\n" +
    "      year, month, day," +
    " state\n"

  /** The text before the year placeholder. */
  const TemperatureSelect: string := TemperatureColumns + TemperatureTable

  /** The text between the year and the state placeholders. */
  const TemperatureFilter: string := TemperatureJoin + TemperatureWhere

  /** The year completes the table name; the state (a code) is compared with the station's state. */
  const TemperatureLayout: Layout :=
    Layout([TemperatureSelect, TemperatureFilter, TemperatureOrder], [YearS, State])

  const QueryTemperature: string := Compose(TemperatureLayout)

  // ---------------------------------------------------------------- precipitation

  /** The columns of the precipitation query, read from a sub-select. */
  const PrecipitationColumns: string :=
    "\n" +
    "    SELECT\n" +
    "      EXTRACT(YEAR FROM" +
    " date) as year,\n" +
    "      EXTRACT(MONTH FROM" +
    " date) as month,\n" +
    "      EXTRACT(DAY FROM" +
    " date) as day,\n" +
    "      AVG(prcp) AS prcp\n" +
    "    FROM (\n"

  /** The sub-select, up to the GHCN-D table name the year completes. */
  const PrecipitationReadings: string :=
    "      SELECT\n" +
    "        date AS date,\n" +
    "        IF (element =" +
    " 'PRCP', value/10, NULL)" +
    " AS prcp\n" +
    "      FROM\n" +
    "        `bigquery-public-data." +
    "ghcn_d.ghcnd_"

  /** The stations table, joined to find the state of each station. */
  const PrecipitationJoin: string :=
    "` AS weather\n" +
    "      JOIN\n" +
    "        `bigquery-public-data." +
    "ghcn_d.ghcnd_stations`" +
    " as stations\n" +
    "      ON\n" +
    "        weather.id =" +
    " stations.id\n"

  /** The filter, ending inside the quotes around the state code. */
  const PrecipitationWhere: string :=
    "      WHERE\n" +
    "        stations.state =" +
    " '"

  /** After the state placeholder. */
  const PrecipitationOrder: string :=
    "'\n" +
    "    )\n" +
    "    GROUP BY\n" +
    "      year, month, day\n" +
    "    ORDER BY\n" +
    "      year, month, day\n"

  const PrecipitationSelect: string := PrecipitationColumns + PrecipitationReadings

  const PrecipitationFilter: string := PrecipitationJoin + PrecipitationWhere

  const PrecipitationLayout: Layout :=
    Layout([PrecipitationSelect, PrecipitationFilter, PrecipitationOrder], [YearS, State])

  const QueryPrecipitation: string := Compose(PrecipitationLayout)

  // ---------------------------------------------------------------- states

  /** A two-letter postal code and the state's display name. */
  datatype StatePair = StatePair(code: string, name: string)

  // The table is written in four parts only to keep each display short.
  const StatesPart1: seq<StatePair> := [
    StatePair("AK", "Alaska"),
    StatePair("AL", "Alabama"),
    StatePair("AZ", "Arizona"),
    StatePair("AR", "Arkansas"),
    StatePair("CA", "California"),
    StatePair("CO", "Colorado"),
    StatePair("CT", "Connecticut"),
    StatePair("DE", "Delaware"),
    StatePair("DC", "District of Columbia"),
    StatePair("FL", "Florida"),
    StatePair("GA", "Georgia"),
    StatePair("HI", "Hawaii"),
    StatePair("ID", "Idaho")
  ]

  const StatesPart2: seq<StatePair> := [
    StatePair("IL", "Illinois"),
    StatePair("IN", "Indiana"),
    StatePair("IA", "Iowa"),
    StatePair("KS", "Kansas"),
    StatePair("KY", "Kentucky"),
    StatePair("LA", "Louisiana"),
    StatePair("ME", "Maine"),
    StatePair("MD", "Maryland"),
    StatePair("MA", "Massachusetts"),
    StatePair("MI", "Michigan"),
    StatePair("MN", "Minnesota"),
    StatePair("MS", "Mississippi"),
    StatePair("MO", "Missouri")
  ]

  const StatesPart3: seq<StatePair> := [
    StatePair("MT", "Montana"),
    StatePair("NE", "Nebraska"),
    StatePair("NV", "Nevada"),
    StatePair("NH", "New Hampshire"),
    StatePair("NJ", "New Jersey"),
    StatePair("NM", "New Mexico"),
    StatePair("NY", "New York"),
    StatePair("NC", "North Carolina"),
    StatePair("ND", "North Dakota"),
    StatePair("OH", "Ohio"),
    StatePair("OK", "Oklahoma"),
    StatePair("OR", "Oregon"),
    StatePair("PA", "Pennsylvania")
  ]

  const StatesPart4: seq<StatePair> := [
    StatePair("RI", "Rhode Island"),
    StatePair("SC", "South Carolina"),
    StatePair("SD", "South Dakota"),
    StatePair("TN", "Tennessee"),
    StatePair("TX", "Texas"),
    StatePair("UT", "Utah"),
    StatePair("VT", "Vermont"),
    StatePair("VA", "Virginia"),
    StatePair("WA", "Washington"),
    StatePair("WV", "West Virginia"),
    StatePair("WI", "Wisconsin"),
    StatePair("WY", "Wyoming")
  ]

  /** The 50 states and the District of Columbia, in the catalog's order. */
  const States: seq<StatePair> := StatesPart1 + StatesPart2 + StatesPart3 + StatesPart4

  function CodesOf(s: seq<StatePair>): (r: seq<string>)
    ensures |r| == |s| && forall i :: 0 <= i < |s| ==> r[i] == s[i].code
  {
    seq(|s|, i requires 0 <= i < |s| => s[i].code)
  }

  function NamesOf(s: seq<StatePair>): (r: seq<string>)
    ensures |r| == |s| && forall i :: 0 <= i < |s| ==> r[i] == s[i].name
  {
    seq(|s|, i requires 0 <= i < |s| => s[i].name)
  }

  /** The display names, in table order. */
  const Names: seq<string> := NamesOf(States)

  /** A dict comprehension over key/value pairs: a later pair overwrites an earlier one with the same key. */
  function DictOf(pairs: seq<(string, string)>): (m: map<string, string>)
    ensures m.Keys == set i | 0 <= i < |pairs| :: pairs[i].0
    decreases |pairs|
  {
    if |pairs| == 0 then map[]
    else
      var last := pairs[|pairs| - 1];
      var front := pairs[..|pairs| - 1];
      assert forall i :: 0 <= i < |front| ==> front[i] == pairs[i];
      DictOf(front)[last.0 := last.1]
  }

  /** (code, name) for every row. */
  function CodeNamePairs(s: seq<StatePair>): (r: seq<(string, string)>)
    ensures |r| == |s| && forall i :: 0 <= i < |s| ==> r[i] == (s[i].code, s[i].name)
  {
    seq(|s|, i requires 0 <= i < |s| => (s[i].code, s[i].name))
  }

  /** (name, code) for every row. */
  function NameCodePairs(s: seq<StatePair>): (r: seq<(string, string)>)
    ensures |r| == |s| && forall i :: 0 <= i < |s| ==> r[i] == (s[i].name, s[i].code)
  {
    seq(|s|, i requires 0 <= i < |s| => (s[i].name, s[i].code))
  }

  const CodeToNames: map<string, string> := DictOf(CodeNamePairs(States))

  const NamesToCodes: map<string, string> := DictOf(NameCodePairs(States))

  // ---------------------------------------------------------------- properties of the years

  /** Twenty-nine years, 1990 to 2018 in ascending order, each written with four digits. */
  lemma YearsCatalog()
    ensures |Years| == 29 && Years[0] == 1990 && Years[|Years| - 1] == 2018
    ensures forall i, j :: 0 <= i < j < |Years| ==> Years[i] < Years[j]
    ensures forall i :: 0 <= i < |Years| ==> |DecimalText(Years[i])| == 4 && AllDigits(DecimalText(Years[i]))
  {
    forall i | 0 <= i < |Years|
      ensures |DecimalText(Years[i])| == 4 && AllDigits(DecimalText(Years[i]))
    {
      FourDigitYear(Years[i]);
    }
  }

  // ---------------------------------------------------------------- properties of the templates

  lemma PollutantsArePlain()
    ensures forall i :: 0 <= i < |Pollutants| ==> '%' !in Pollutants[i].table
    ensures forall i :: 0 <= i < |Pollutants| ==> '%' !in Pollutants[i].scale && '%' !in Pollutants[i].alias
  {
  }

  lemma {:induction false} StateYearPairsCount(n: nat)
    ensures Count(StateYearPairs(n), State) == n && Count(StateYearPairs(n), YearD) == n
    ensures Count(StateYearPairs(n), YearS) == 0 && Count(StateYearPairs(n), Escape) == 0
  {
    if n > 0 {
      StateYearPairsCount(n - 1);
      var r := StateYearPairs(n - 1);
      forall q: Piece ensures Count([State, YearD] + r, q) == Count([State, YearD], q) + Count(r, q) {
        CountAppend([State, YearD], r, q);
      }
      assert [State, YearD][1..] == [YearD] && [YearD][1..] == [];
    }
  }

  lemma PollutionColumnsIsPlain()
    ensures '%' !in PollutionColumns
  {
  }

  lemma MeanOpeningIsPlain()
    ensures '%' !in MeanOpening
  {
  }

  lemma MonthYearColumnsIsPlain()
    ensures '%' !in MonthYearColumns
  {
  }

  lemma EpaDatasetIsPlain()
    ensures '%' !in EpaDataset
  {
  }

  lemma StateConditionIsPlain()
    ensures '%' !in StateCondition
  {
  }

  lemma YearConditionIsPlain()
    ensures '%' !in YearCondition
  {
  }

  lemma GroupByMonthIsPlain()
    ensures '%' !in GroupByMonth
  {
  }

  lemma JoinIsPlain()
    ensures '%' !in Join
  {
  }

  lemma PollutionOrderIsPlain()
    ensures '%' !in PollutionOrder
  {
  }

  lemma TemperatureColumnsIsPlain()
    ensures '%' !in TemperatureColumns
  {
  }

  lemma TemperatureTableIsPlain()
    ensures '%' !in TemperatureTable
  {
  }

  lemma TemperatureJoinIsPlain()
    ensures '%' !in TemperatureJoin
  {
  }

  lemma TemperatureWhereIsPlain()
    ensures '%' !in TemperatureWhere
  {
  }

  lemma TemperatureOrderIsPlain()
    ensures '%' !in TemperatureOrder
  {
  }

  lemma PrecipitationColumnsIsPlain()
    ensures '%' !in PrecipitationColumns
  {
  }

  lemma PrecipitationReadingsIsPlain()
    ensures '%' !in PrecipitationReadings
  {
  }

  lemma PrecipitationJoinIsPlain()
    ensures '%' !in PrecipitationJoin
  {
  }

  lemma PrecipitationWhereIsPlain()
    ensures '%' !in PrecipitationWhere
  {
  }

  lemma PrecipitationOrderIsPlain()
    ensures '%' !in PrecipitationOrder
  {
  }

  lemma OpeningIsPlain(scale: string, table: string)
    requires '%' !in scale && '%' !in table
    ensures '%' !in SubqueryOpening(scale, table)
  {
    MeanOpeningIsPlain();
    MonthYearColumnsIsPlain();
    EpaDatasetIsPlain();
    StateConditionIsPlain();
  }

  lemma ClosingIsPlain(alias: string, on: string)
    requires '%' !in alias && '%' !in on
    ensures '%' !in SubqueryClosing(alias, on) && '%' !in JoinCondition(alias)
  {
    GroupByMonthIsPlain();
  }

  lemma PollutionTextsArePlain()
    ensures forall i :: 0 <= i < |Pollutants| ==> '%' !in Opening(i) && '%' !in Closing(i)
  {
    PollutantsArePlain();
    forall i | 0 <= i < |Pollutants|
      ensures '%' !in Opening(i) && '%' !in Closing(i)
    {
      var p := Pollutants[i];
      OpeningIsPlain(p.scale, p.table);
      ClosingIsPlain(p.alias, "");
      ClosingIsPlain(p.alias, JoinCondition(p.alias));
    }
  }

  /** The pollution template has only state and `%(year)d` placeholders, and no '%' outside them. */
  lemma PollutionLayoutIsWellFormed()
    ensures WellFormed(PollutionLayout)
  {
    PollutionTextsArePlain();
    PollutionColumnsIsPlain();
    YearConditionIsPlain();
    JoinIsPlain();
    PollutionOrderIsPlain();
  }

  lemma TemperatureLayoutIsWellFormed()
    ensures WellFormed(TemperatureLayout)
  {
    TemperatureColumnsIsPlain();
    TemperatureTableIsPlain();
    TemperatureJoinIsPlain();
    TemperatureWhereIsPlain();
    TemperatureOrderIsPlain();
  }

  lemma PrecipitationLayoutIsWellFormed()
    ensures WellFormed(PrecipitationLayout)
  {
    PrecipitationColumnsIsPlain();
    PrecipitationReadingsIsPlain();
    PrecipitationJoinIsPlain();
    PrecipitationWhereIsPlain();
    PrecipitationOrderIsPlain();
  }

  lemma TemplatesAreWellFormed()
    ensures WellFormed(PollutionLayout) && WellFormed(TemperatureLayout) && WellFormed(PrecipitationLayout)
  {
    PollutionLayoutIsWellFormed();
    TemperatureLayoutIsWellFormed();
    PrecipitationLayoutIsWellFormed();
  }

  /** The pollution template asks six times for the state and six times for the year as `%d`,
      and holds no "%%"; for every state and year the `%` operator accepts it, keeps each of its
      texts and puts the values where the placeholders were. */
  lemma PollutionTemplate(state: string, year: int)
    ensures Scan(QueryPollution) == Success(Expand(PollutionLayout))
    ensures Count(Expand(PollutionLayout), State) == 6 && Count(Expand(PollutionLayout), YearD) == 6
    ensures Count(Expand(PollutionLayout), YearS) == 0 && Count(Expand(PollutionLayout), Escape) == 0
    ensures Format(QueryPollution, state, year) == Success(Fill(PollutionLayout, state, DecimalText(year)))
  {
    PollutionLayoutIsWellFormed();
    ScanLayout(PollutionLayout);
    FormatLayout(PollutionLayout, state, year);
    StateYearPairsCount(6);
    ExpandCounts(PollutionLayout, State);
    ExpandCounts(PollutionLayout, YearD);
    ExpandCounts(PollutionLayout, YearS);
    ExpandCounts(PollutionLayout, Escape);
  }

  /** Hence the pollution query is the template's length, less twelve placeholder spellings,
      plus six copies of the state and six of the year. */
  lemma PollutionQueryLength(state: string, year: int)
    ensures |Fill(PollutionLayout, state, DecimalText(year))|
         == |QueryPollution| + (|state| - |StateToken|) * 6 + (|DecimalText(year)| - |YearDToken|) * 6
  {
    PollutionLayoutIsWellFormed();
    assert PollutionLayout.holes == StateYearPairs(6);
    StateYearPairsCount(6);
    FillLength(PollutionLayout, state, year, 6, 6);
  }

  lemma TwoHolesCount(q: Piece)
    ensures Count([YearS, State], q) == (if q == YearS then 1 else 0) + (if q == State then 1 else 0)
  {
    assert [YearS, State][1..] == [State] && [State][1..] == [];
    assert Count([State], q) == (if q == State then 1 else 0) + Count([], q);
  }

  /** The temperature template asks once for the year, as `%s`, and once for the state. */
  lemma TemperatureTemplate()
    ensures Scan(QueryTemperature) == Success(Expand(TemperatureLayout))
    ensures Count(Expand(TemperatureLayout), State) == 1 && Count(Expand(TemperatureLayout), YearS) == 1
    ensures Count(Expand(TemperatureLayout), YearD) == 0 && Count(Expand(TemperatureLayout), Escape) == 0
  {
    TemperatureLayoutIsWellFormed();
    ScanLayout(TemperatureLayout);
    ExpandCounts(TemperatureLayout, State);
    ExpandCounts(TemperatureLayout, YearS);
    ExpandCounts(TemperatureLayout, YearD);
    ExpandCounts(TemperatureLayout, Escape);
    TwoHolesCount(State);
    TwoHolesCount(YearS);
    TwoHolesCount(YearD);
    TwoHolesCount(Escape);
  }

  /** The temperature query for a state and a year: the year completes the name of the table
      read (see `PlaceholderSurroundings`), the state is the value stations are compared with. */
  lemma TemperatureQuery(state: string, year: int)
    ensures Format(QueryTemperature, state, year)
         == Success(TemperatureSelect + DecimalText(year) + TemperatureFilter + state + TemperatureOrder)
  {
    TemperatureLayoutIsWellFormed();
    FormatLayout(TemperatureLayout, state, year);
    FillTwoHoles(TemperatureSelect, TemperatureFilter, TemperatureOrder, YearS, State, state, DecimalText(year));
  }

  /** The precipitation template asks once for the year, as `%s`, and once for the state. */
  lemma PrecipitationTemplate()
    ensures Scan(QueryPrecipitation) == Success(Expand(PrecipitationLayout))
    ensures Count(Expand(PrecipitationLayout), State) == 1 && Count(Expand(PrecipitationLayout), YearS) == 1
    ensures Count(Expand(PrecipitationLayout), YearD) == 0 && Count(Expand(PrecipitationLayout), Escape) == 0
  {
    PrecipitationLayoutIsWellFormed();
    ScanLayout(PrecipitationLayout);
    ExpandCounts(PrecipitationLayout, State);
    ExpandCounts(PrecipitationLayout, YearS);
    ExpandCounts(PrecipitationLayout, YearD);
    ExpandCounts(PrecipitationLayout, Escape);
    TwoHolesCount(State);
    TwoHolesCount(YearS);
    TwoHolesCount(YearD);
    TwoHolesCount(Escape);
  }

  lemma PrecipitationQuery(state: string, year: int)
    ensures Format(QueryPrecipitation, state, year)
         == Success(PrecipitationSelect + DecimalText(year) + PrecipitationFilter + state + PrecipitationOrder)
  {
    PrecipitationLayoutIsWellFormed();
    FormatLayout(PrecipitationLayout, state, year);
    FillTwoHoles(PrecipitationSelect, PrecipitationFilter, PrecipitationOrder, YearS, State, state, DecimalText(year));
  }

  predicate EndsWith(s: string, suffix: string) {
    |suffix| <= |s| && s[|s| - |suffix|..] == suffix
  }

  /** Where the values land: the year right after a table-name prefix, the state between single quotes. */
  lemma PlaceholderSurroundings()
    ensures EndsWith(TemperatureTable, "noaa_gsod.gsod") && EndsWith(PrecipitationReadings, "ghcn_d.ghcnd_")
    ensures EndsWith(TemperatureWhere, "AND state = '") && TemperatureOrder[0] == '\''
    ensures EndsWith(PrecipitationWhere, "stations.state = '") && PrecipitationOrder[0] == '\''
    ensures EndsWith(StateCondition, "state_name = '") && YearCondition[0] == '\''
  {
  }

  /** For example, California in 2015 reads table gsod2015 for stations in state 'CA'. */
  lemma TemperatureExample()
    ensures Format(QueryTemperature, "CA", 2015)
         == Success(TemperatureSelect + "2015" + TemperatureFilter + "CA" + TemperatureOrder)
  {
    assert DecimalText(2015) == "2015" by {
      assert Digits(2) == "2";
      assert Digits(20) == Digits(2) + "0";
      assert Digits(201) == Digits(20) + "1";
      assert Digits(2015) == Digits(201) + "5";
    }
    TemperatureQuery("CA", 2015);
  }

  // ---------------------------------------------------------------- properties of the states

  predicate IsUpper(c: char) {
    'A' <= c <= 'Z'
  }

  predicate IsLetter(c: char) {
    'A' <= c <= 'Z' || 'a' <= c <= 'z'
  }

  /** Two capital letters. */
  predicate IsCode(s: string) {
    |s| == 2 && IsUpper(s[0]) && IsUpper(s[1])
  }

  /** A capital letter followed by letters and spaces. */
  predicate IsStateName(s: string) {
    |s| > 0 && IsUpper(s[0]) && forall i :: 0 <= i < |s| ==> IsLetter(s[i]) || s[i] == ' '
  }

  predicate WellSpelled(s: seq<StatePair>) {
    forall i :: 0 <= i < |s| ==> IsCode(s[i].code) && IsStateName(s[i].name)
  }

  predicate Distinct(s: seq<string>) {
    forall i, j :: 0 <= i < j < |s| ==> s[i] != s[j]
  }

  /** No element of a equals an element of b. */
  predicate Apart(a: seq<string>, b: seq<string>) {
    forall i, j :: 0 <= i < |a| && 0 <= j < |b| ==> a[i] != b[j]
  }

  /** Codes and names contain neither a quote nor '%', so placed between single quotes in a
      query they stay one SQL string literal. */
  lemma SpelledValuesAreSafe(s: string)
    requires IsCode(s) || IsStateName(s)
    ensures '%' !in s && '\'' !in s
  {
  }

  lemma DistinctConcat(a: seq<string>, b: seq<string>)
    requires Distinct(a) && Distinct(b) && Apart(a, b)
    ensures Distinct(a + b)
  {
  }

  lemma ApartConcat(a: seq<string>, b: seq<string>, c: seq<string>)
    requires Apart(a, c) && Apart(b, c)
    ensures Apart(a + b, c)
  {
  }

  lemma ColumnsConcat(a: seq<StatePair>, b: seq<StatePair>)
    ensures CodesOf(a + b) == CodesOf(a) + CodesOf(b) && NamesOf(a + b) == NamesOf(a) + NamesOf(b)
    ensures WellSpelled(a) && WellSpelled(b) ==> WellSpelled(a + b)
  {
    assert CodesOf(a + b) == CodesOf(a) + CodesOf(b);
    assert NamesOf(a + b) == NamesOf(a) + NamesOf(b);
  }

  // Facts about each part of the table, checked part by part (and pair of parts by pair of parts).

  lemma PartCodesAreCodes()
    ensures forall i :: 0 <= i < |StatesPart1| ==> IsCode(StatesPart1[i].code)
    ensures forall i :: 0 <= i < |StatesPart2| ==> IsCode(StatesPart2[i].code)
    ensures forall i :: 0 <= i < |StatesPart3| ==> IsCode(StatesPart3[i].code)
    ensures forall i :: 0 <= i < |StatesPart4| ==> IsCode(StatesPart4[i].code)
  {
  }

  lemma Part1NamesAreNames()
    ensures forall i :: 0 <= i < |StatesPart1| ==> IsStateName(StatesPart1[i].name)
  {
  }

  lemma Part2NamesAreNames()
    ensures forall i :: 0 <= i < |StatesPart2| ==> IsStateName(StatesPart2[i].name)
  {
  }

  lemma Part3NamesAreNames()
    ensures forall i :: 0 <= i < |StatesPart3| ==> IsStateName(StatesPart3[i].name)
  {
  }

  lemma Part4NamesAreNames()
    ensures forall i :: 0 <= i < |StatesPart4| ==> IsStateName(StatesPart4[i].name)
  {
  }

  lemma PartCodesDistinct()
    ensures Distinct(CodesOf(StatesPart1))
    ensures Distinct(CodesOf(StatesPart2))
  {
  }

  lemma MorePartCodesDistinct()
    ensures Distinct(CodesOf(StatesPart3))
    ensures Distinct(CodesOf(StatesPart4))
  {
  }

  lemma Part1NamesDistinct()
    ensures Distinct(NamesOf(StatesPart1))
  {
  }

  lemma Part2NamesDistinct()
    ensures Distinct(NamesOf(StatesPart2))
  {
  }

  lemma Part3NamesDistinct()
    ensures Distinct(NamesOf(StatesPart3))
  {
  }

  lemma Part4NamesDistinct()
    ensures Distinct(NamesOf(StatesPart4))
  {
  }

  lemma PartCodesApart1()
    ensures Apart(CodesOf(StatesPart1), CodesOf(StatesPart2))
  {
  }

  lemma PartCodesApart2()
    ensures Apart(CodesOf(StatesPart1), CodesOf(StatesPart3))
  {
  }

  lemma PartCodesApart3()
    ensures Apart(CodesOf(StatesPart1), CodesOf(StatesPart4))
  {
  }

  lemma PartCodesApart4()
    ensures Apart(CodesOf(StatesPart2), CodesOf(StatesPart3))
  {
  }

  lemma PartCodesApart5()
    ensures Apart(CodesOf(StatesPart2), CodesOf(StatesPart4))
  {
  }

  lemma PartCodesApart6()
    ensures Apart(CodesOf(StatesPart3), CodesOf(StatesPart4))
  {
  }

  lemma PartNamesApart1()
    ensures Apart(NamesOf(StatesPart1), NamesOf(StatesPart2))
  {
  }

  lemma PartNamesApart2()
    ensures Apart(NamesOf(StatesPart1), NamesOf(StatesPart3))
  {
  }

  lemma PartNamesApart3()
    ensures Apart(NamesOf(StatesPart1), NamesOf(StatesPart4))
  {
  }

  lemma PartNamesApart4()
    ensures Apart(NamesOf(StatesPart2), NamesOf(StatesPart3))
  {
  }

  lemma PartNamesApart5()
    ensures Apart(NamesOf(StatesPart2), NamesOf(StatesPart4))
  {
  }

  lemma PartNamesApart6()
    ensures Apart(NamesOf(StatesPart3), NamesOf(StatesPart4))
  {
  }

  /** The table has 51 rows; every code is two capitals, every name a capitalised run of
      letters and spaces; no two rows share a code and no two share a name. */
  lemma StatesCatalog()
    ensures |States| == 51
    ensures WellSpelled(States)
    ensures Distinct(CodesOf(States)) && Distinct(Names)
  {
    PartCodesAreCodes();
    Part1NamesAreNames();
    Part2NamesAreNames();
    Part3NamesAreNames();
    Part4NamesAreNames();
    ColumnsConcat(StatesPart1, StatesPart2);
    ColumnsConcat(StatesPart1 + StatesPart2, StatesPart3);
    ColumnsConcat(StatesPart1 + StatesPart2 + StatesPart3, StatesPart4);
    var c1, c2, c3, c4 := CodesOf(StatesPart1), CodesOf(StatesPart2), CodesOf(StatesPart3), CodesOf(StatesPart4);
    var n1, n2, n3, n4 := NamesOf(StatesPart1), NamesOf(StatesPart2), NamesOf(StatesPart3), NamesOf(StatesPart4);
    PartCodesDistinct();
    MorePartCodesDistinct();
    Part1NamesDistinct();
    Part2NamesDistinct();
    Part3NamesDistinct();
    Part4NamesDistinct();
    PartCodesApart1();
    PartCodesApart2();
    PartCodesApart3();
    PartCodesApart4();
    PartCodesApart5();
    PartCodesApart6();
    PartNamesApart1();
    PartNamesApart2();
    PartNamesApart3();
    PartNamesApart4();
    PartNamesApart5();
    PartNamesApart6();
    Joined(c1, c2, c3, c4);
    Joined(n1, n2, n3, n4);
  }

  lemma Joined(s1: seq<string>, s2: seq<string>, s3: seq<string>, s4: seq<string>)
    requires Distinct(s1) && Distinct(s2) && Distinct(s3) && Distinct(s4)
    requires Apart(s1, s2) && Apart(s1, s3) && Apart(s1, s4)
    requires Apart(s2, s3) && Apart(s2, s4) && Apart(s3, s4)
    ensures Distinct(s1 + s2 + s3 + s4)
  {
    DistinctConcat(s1, s2);
    ApartConcat(s1, s2, s3);
    DistinctConcat(s1 + s2, s3);
    ApartConcat(s1, s2, s4);
    ApartConcat(s1 + s2, s3, s4);
    DistinctConcat(s1 + s2 + s3, s4);
  }

  // ---------------------------------------------------------------- the lookups

  predicate KeysDistinct(pairs: seq<(string, string)>) {
    forall i, j :: 0 <= i < j < |pairs| ==> pairs[i].0 != pairs[j].0
  }

  /** A key maps to the value of the last pair that carries it. */
  lemma {:induction false} DictOfLookup(pairs: seq<(string, string)>, i: nat)
    requires i < |pairs|
    requires forall j :: i < j < |pairs| ==> pairs[j].0 != pairs[i].0
    ensures pairs[i].0 in DictOf(pairs) && DictOf(pairs)[pairs[i].0] == pairs[i].1
    decreases |pairs|
  {
    var front := pairs[..|pairs| - 1];
    if i < |pairs| - 1 {
      assert front[i] == pairs[i];
      DictOfLookup(front, i);
    }
  }

  /** With distinct keys there is one entry per pair. */
  lemma {:induction false} DictOfSize(pairs: seq<(string, string)>)
    requires KeysDistinct(pairs)
    ensures |DictOf(pairs)| == |pairs|
    decreases |pairs|
  {
    if |pairs| > 0 {
      var front := pairs[..|pairs| - 1];
      assert KeysDistinct(front);
      DictOfSize(front);
      assert pairs[|pairs| - 1].0 !in DictOf(front);
    }
  }

  /** Each code looks up its own row's name and each name its own row's code; there are as many
      entries as rows, and the names looked up are exactly the display names. */
  lemma Lookups()
    ensures |CodeToNames| == |States| && |NamesToCodes| == |States|
    ensures forall i :: 0 <= i < |States| ==>
      States[i].code in CodeToNames && CodeToNames[States[i].code] == States[i].name
    ensures forall i :: 0 <= i < |States| ==>
      States[i].name in NamesToCodes && NamesToCodes[States[i].name] == States[i].code
    ensures NamesToCodes.Keys == set i | 0 <= i < |Names| :: Names[i]
  {
    StatesCatalog();
    var cn, nc := CodeNamePairs(States), NameCodePairs(States);
    assert KeysDistinct(cn) by {
      assert forall i :: 0 <= i < |cn| ==> cn[i].0 == CodesOf(States)[i];
    }
    assert KeysDistinct(nc) by {
      assert forall i :: 0 <= i < |nc| ==> nc[i].0 == Names[i];
    }
    DictOfSize(cn);
    DictOfSize(nc);
    forall i | 0 <= i < |States|
      ensures States[i].code in CodeToNames && CodeToNames[States[i].code] == States[i].name
      ensures States[i].name in NamesToCodes && NamesToCodes[States[i].name] == States[i].code
    {
      DictOfLookup(cn, i);
      DictOfLookup(nc, i);
    }
  }

  /** The two lookups are inverse to each other. */
  lemma LookupsRoundTrip()
    ensures forall c :: c in CodeToNames ==> CodeToNames[c] in NamesToCodes && NamesToCodes[CodeToNames[c]] == c
    ensures forall n :: n in NamesToCodes ==> NamesToCodes[n] in CodeToNames && CodeToNames[NamesToCodes[n]] == n
  {
    Lookups();
    forall c | c in CodeToNames
      ensures CodeToNames[c] in NamesToCodes && NamesToCodes[CodeToNames[c]] == c
    {
      var i :| 0 <= i < |States| && CodeNamePairs(States)[i].0 == c;
    }
    forall n | n in NamesToCodes
      ensures NamesToCodes[n] in CodeToNames && CodeToNames[NamesToCodes[n]] == n
    {
      var i :| 0 <= i < |States| && NameCodePairs(States)[i].0 == n;
    }
  }

  /** Every key and value of the lookups is safe between single quotes. */
  lemma LookupValuesAreSafe()
    ensures forall n :: n in NamesToCodes ==> '%' !in n && '\'' !in n
    ensures forall n :: n in NamesToCodes ==> '%' !in NamesToCodes[n] && '\'' !in NamesToCodes[n]
  {
    Lookups();
    StatesCatalog();
    forall n | n in NamesToCodes
      ensures '%' !in n && '\'' !in n && '%' !in NamesToCodes[n] && '\'' !in NamesToCodes[n]
    {
      var i :| 0 <= i < |States| && NameCodePairs(States)[i].0 == n;
      var row := States[i];
      assert IsCode(row.code) && IsStateName(row.name);
      SpelledValuesAreSafe(row.name);
      SpelledValuesAreSafe(row.code);
    }
  }

  /** The rows and the year the selection widgets start on. */
  lemma DefaultSelections()
    ensures States[4] == StatePair("CA", "California")
    ensures Years[20] == 2010
  {
  }
}
