/** The builder of prompt contexts: allowlisted copies of the catalog's observations, sorted. */
module ContextBuilder {
  import opened Prelude
  import opened Json
  import opened Sorting
  import opened PromptContext

  const FACT_NAMES := {"id", "service", START, END}
  const METRIC_NAMES := {"family", "unit", "samples", "min", "median", "max", "returned_point_coverage", "state"}
  const COMPARISON_NAMES := {"expected_at_observed_load", "residual_iqr", "absolute_residual_p90", "method",
                             "healthy_start_unix", "healthy_end_unix", "load_comparability"}
  const BIN_NAMES := {"start_unix", "end_unix", "min", "max", "mean", "samples"}
  const TRACE_NAMES := {"state", "observed_spans", "observed_error_spans", "sampling", "retention", "example_selection"}
  const SPAN_NAMES := {"trace_id", "span_id", "start_time_us", "duration_us", "error"}
  const TIMING_NAMES := {"unit", "selection", "timed_spans", "median_us", "p90_us", "max_us", "wait_state", "meaning",
                         "observed_client_wait_median_us", "observed_exclusive_median_us", "unresolved_parent_spans"}
  const DEPENDENCY_NAMES := {"state", "meaning", "external_edge_observations"}
  const EDGE_NAMES := {"source", "target", "observed_edges"}

  /** Unit and statistic of the supplemental HTTP families. */
  const HTTP := map["http_request_rate" := ("requests_per_second", "per_second_completed_request_rate"),
                    "http_error_ratio" := ("ratio", "5xx_response_fraction_of_completed_requests"),
                    "http_latency_p95" := ("seconds", "histogram_estimated_p95_of_completed_server_requests")]

  type Error = string

  function Pick(record: Fields, names: set<string>): Fields {
    map k | k in record && k in names :: record[k]
  }

  function PickItems(items: seq<Json>, names: set<string>): Result<seq<Json>, Error> {
    if items == [] then Ok([])
    else
      match (items[0], PickItems(items[1..], names))
      case (Obj(fields), Ok(rest)) => Ok([Obj(Pick(fields, names))] + rest)
      case (_, _) => Err("item is no record")
  }

  function PickEach(record: Fields, key: string, names: set<string>): Result<Fields, Error> {
    match Get(record, key, Null)
    case Arr(items) =>
      (match PickItems(items, names)
       case Ok(picked) => Ok(map[key := Arr(picked)])
       case Err(e) => Err(e))
    case _ => Err("list is missing")
  }

  /** The allowlisted comparison of a metric, or nothing when there is none. */
  function CleanComparison(values: Fields): Json {
    if COMPARISON in values && values[COMPARISON].Obj? && values[COMPARISON].fields != map[]
    then Obj(Pick(values[COMPARISON].fields, COMPARISON_NAMES)) else Null
  }

  /** What a supplemental HTTP metric must say about itself, and carries along. */
  function HttpValues(values: Fields): Result<Fields, Error> {
    var family := Get(values, "family", Null);
    if family.Str? && family.s in HTTP then
      var (unit, statistic) := HTTP[family.s];
      if Get(values, "unit", Null) != Str(unit) || Get(values, "statistic", Null) != Str(statistic)
         || !PyEq(Get(values, "model_input", Null), Bool(false)) then Err("invalid supplemental HTTP observation semantics")
      else
        match Get(values, "query_lookback_seconds", Null)
        case Int(n) =>
          if 1 <= n <= 3600
          then Ok(map["statistic" := Str(statistic), "model_input" := Bool(false), "query_lookback_seconds" := Int(n)])
          else Err("invalid HTTP observation lookback")
        case _ => Err("invalid HTTP observation lookback")
    else Ok(map[])
  }

  function MetricValues(values: Fields, summaryOnly: bool): Result<Fields, Error> {
    match (HttpValues(values), if summaryOnly then Ok(map[]) else PickEach(values, "series", BIN_NAMES))
    case (Ok(http), Ok(series)) => Ok((Pick(values, METRIC_NAMES) + http)[COMPARISON := CleanComparison(values)] + series)
    case (Err(e), _) => Err(e)
    case (_, Err(e)) => Err(e)
  }

  function TimingValues(values: Fields): Result<Fields, Error> {
    match Get(values, "timing", Null)
    case Null => Ok(map[])
    case Obj(timing) => Ok(map["timing" := Obj(Pick(timing, TIMING_NAMES))])
    case _ => Err("timing is no record")
  }

  function TraceValues(values: Fields, summaryOnly: bool): Result<Fields, Error> {
    match (if summaryOnly then Ok(map[]) else PickEach(values, "examples", SPAN_NAMES), TimingValues(values))
    case (Ok(examples), Ok(timing)) => Ok(Pick(values, TRACE_NAMES) + examples + timing)
    case (Err(e), _) => Err(e)
    case (_, Err(e)) => Err(e)
  }

  function DependencyValues(values: Fields): Result<Fields, Error> {
    match PickEach(values, "edges", EDGE_NAMES)
    case Ok(edges) => Ok(Pick(values, DEPENDENCY_NAMES) + edges)
    case Err(e) => Err(e)
  }

  /** The projection of an incident context: nothing when it stays local. */
  type Projection = Fields -> Result<Option<Fields>, Error>

  /** It has names of its own, and none is the comparison's. */
  ghost predicate Discreet(project: Projection) {
    forall values :: project(values).Ok? && project(values).value.Some? ==> COMPARISON !in project(values).value.value
  }

  function CleanValues(f: Fact, summaryOnly: bool, project: Projection): Result<Option<Fields>, Error> {
    if f.kind == "context" then project(f.values)
    else
      var values := if f.kind == "metric" then MetricValues(f.values, summaryOnly)
                    else if f.kind == "traces" then TraceValues(f.values, summaryOnly)
                    else if f.kind == "dependencies" then DependencyValues(f.values)
                    else Err("unsupported assistant observation kind");
      match values
      case Ok(v) => Ok(Some(v))
      case Err(e) => Err(e)
  }

  function Clean(f: Fact, summaryOnly: bool, project: Projection): Result<Option<Fact>, Error> {
    match CleanValues(f, summaryOnly, project)
    case Ok(Some(values)) => Ok(Some(Fact(f.kind, Pick(f.fields, FACT_NAMES), values)))
    case Ok(None) => Ok(None)
    case Err(e) => Err(e)
  }

  function CleanAll(sources: seq<Fact>, summaryOnly: bool, project: Projection): Result<seq<Fact>, Error> {
    if sources == [] then Ok([])
    else
      var n := |sources| - 1;
      match CleanAll(sources[..n], summaryOnly, project)
      case Err(e) => Err(e)
      case Ok(facts) =>
        match Clean(sources[n], summaryOnly, project)
        case Err(e) => Err(e)
        case Ok(None) => Ok(facts)
        case Ok(Some(f)) => Ok(facts + [f])
  }

  /** The context of a catalog; `top` is everything in it but the observations. */
  function Build(top: Fields, sources: seq<Fact>, summaryOnly: bool, project: Projection): Result<Context, Error> {
    match CleanAll(sources, summaryOnly, project)
    case Err(e) => Err(e)
    case Ok(facts) => Ok(Context(top, Sort(facts, FactLeq)))
  }

  // ----- one observation -----

  /** Picked fields, and a comparison exactly in a metric. */
  ghost predicate Cleaned(source: Fact, f: Fact) {
    && f.kind == source.kind
    && f.fields == Pick(source.fields, FACT_NAMES)
    && (COMPARISON in f.values <==> f.kind == "metric")
    && (COMPARISON in f.values ==> f.values[COMPARISON] == CleanComparison(source.values))
  }

  lemma PickedKeys(record: Fields, key: string, names: set<string>)
    ensures PickEach(record, key, names).Ok? ==> PickEach(record, key, names).value.Keys == {key}
  {
  }

  lemma MetricCompares(values: Fields, summaryOnly: bool)
    requires MetricValues(values, summaryOnly).Ok?
    ensures var r := MetricValues(values, summaryOnly).value; COMPARISON in r && r[COMPARISON] == CleanComparison(values)
  {
    PickedKeys(values, "series", BIN_NAMES);
    assert COMPARISON[0] == 'b' && "series"[0] == 's';
  }

  lemma TracesDoNot(values: Fields, summaryOnly: bool)
    requires TraceValues(values, summaryOnly).Ok?
    ensures COMPARISON !in TraceValues(values, summaryOnly).value
  {
    PickedKeys(values, "examples", SPAN_NAMES);
    assert COMPARISON[0] == 'b' && "examples"[0] == 'e' && "timing"[0] == 't';
  }

  lemma DependenciesDoNot(values: Fields)
    requires DependencyValues(values).Ok?
    ensures COMPARISON !in DependencyValues(values).value
  {
    PickedKeys(values, "edges", EDGE_NAMES);
    assert COMPARISON[0] == 'b' && "edges"[0] == 'e';
  }

  lemma CleanIsCleaned(source: Fact, summaryOnly: bool, project: Projection, f: Fact)
    requires Discreet(project) && Clean(source, summaryOnly, project) == Ok(Some(f))
    ensures Cleaned(source, f)
  {
    hide MetricValues, TraceValues, DependencyValues, CleanComparison;
    if source.kind == "metric" {
      assert source.kind != "context" by { assert source.kind[0] == 'm'; }
      MetricCompares(source.values, summaryOnly);
    } else if source.kind == "traces" {
      assert source.kind[0] == 't' && "context"[0] == 'c';
      TracesDoNot(source.values, summaryOnly);
    } else if source.kind == "dependencies" {
      assert source.kind[0] == 'd' && "context"[0] == 'c';
      DependenciesDoNot(source.values);
    }
  }

  // ----- all of them -----

  function IdOf(f: Fact): string {
    TextOf(f, "id")
  }

  ghost predicate CleanedFrom(sources: seq<Fact>, f: Fact) {
    exists s :: s in sources && Cleaned(s, f)
  }

  /** Cleaning keeps the identifiers distinct. */
  lemma {:induction false} CleanAllKeeps(sources: seq<Fact>, summaryOnly: bool, project: Projection)
    requires Discreet(project) && DistinctBy(sources, IdOf) && CleanAll(sources, summaryOnly, project).Ok?
    ensures var facts := CleanAll(sources, summaryOnly, project).value;
            DistinctBy(facts, IdOf) && forall f :: f in facts ==> CleanedFrom(sources, f)
  {
    if sources != [] {
      hide Clean, Cleaned;
      var n := |sources| - 1;
      CleanAllKeeps(sources[..n], summaryOnly, project);
      var facts := CleanAll(sources[..n], summaryOnly, project).value;
      assert forall f :: CleanedFrom(sources[..n], f) ==> CleanedFrom(sources, f);
      var last := Clean(sources[n], summaryOnly, project).value;
      if last.Some? {
        CleanIsCleaned(sources[n], summaryOnly, project, last.value);
        assert CleanedFrom(sources, last.value);
        forall i | 0 <= i < |facts|
          ensures IdOf(facts[i]) != IdOf(last.value)
        {
          assert facts[i] in facts;
          var s :| s in sources[..n] && Cleaned(s, facts[i]);
          SameId(s, facts[i]);
          SameId(sources[n], last.value);
        }
      }
    }
  }

  lemma SameId(source: Fact, f: Fact)
    requires Cleaned(source, f)
    ensures IdOf(f) == IdOf(source)
  {
    assert "id" in FACT_NAMES;
  }

  lemma DistinctIdsDistinctKeys(facts: seq<Fact>)
    requires DistinctBy(facts, IdOf)
    ensures DistinctKeys(facts)
  {
    forall i, j | 0 <= i < j < |facts|
      ensures SortKey(facts[i]) != SortKey(facts[j])
    {
      assert IdOf(facts[i]) != IdOf(facts[j]);
    }
  }

  /** From a catalog with unique identifiers the builder makes an ascending list with distinct keys, whose observations
      are allowlisted copies of the catalog's. */
  lemma BuiltInOrder(top: Fields, sources: seq<Fact>, summaryOnly: bool, project: Projection)
    requires Discreet(project) && DistinctBy(sources, IdOf) && Build(top, sources, summaryOnly, project).Ok?
    ensures var context := Build(top, sources, summaryOnly, project).value;
            && context.top == top
            && Ascending(context.observations, FactLeq) && DistinctKeys(context.observations)
            && forall f :: f in context.observations ==> CleanedFrom(sources, f)
  {
    var facts := CleanAll(sources, summaryOnly, project).value;
    CleanAllKeeps(sources, summaryOnly, project);
    FactOrder();
    SortKeeps(facts, FactLeq);
    SortAscends(facts, FactLeq);
    PermutedDistinct(facts, Sort(facts, FactLeq), IdOf);
    DistinctIdsDistinctKeys(Sort(facts, FactLeq));
  }

  // ----- the round trip -----

  /** The catalog gives every fact its own interval, which is the context's. */
  ghost predicate SharesInterval(top: Fields, source: Fact) {
    && START in top && END in top
    && START in source.fields && source.fields[START] == top[START]
    && END in source.fields && source.fields[END] == top[END]
  }

  lemma CleanedIsRestorable(top: Fields, source: Fact, f: Fact)
    requires SharesInterval(top, source) && Cleaned(source, f)
    ensures ShapedFact(f) && Restorable(top, f)
  {
    assert REFERENCE !in COMPARISON_NAMES by {
      assert REFERENCE[0] == 'c';
    }
    assert START in FACT_NAMES && END in FACT_NAMES;
  }

  /** Every context the builder makes survives encoding, decoding and sorting unchanged. */
  lemma BuiltContextsSurvive(top: Fields, sources: seq<Fact>, summaryOnly: bool, project: Projection)
    requires START in top && END in top && !top[START].Null? && !top[END].Null?
    requires DistinctBy(sources, IdOf) && forall s :: s in sources ==> SharesInterval(top, s)
    requires Discreet(project) && Build(top, sources, summaryOnly, project).Ok?
    ensures var context := Build(top, sources, summaryOnly, project).value;
            Sort(Expand(Compact(context)).observations, FactLeq) == context.observations
  {
    hide Build, Cleaned, Restorable, ShapedFact;
    var context := Build(top, sources, summaryOnly, project).value;
    BuiltInOrder(top, sources, summaryOnly, project);
    forall f | f in context.observations
      ensures ShapedFact(f) && Restorable(top, f)
    {
      var s :| s in sources && Cleaned(s, f);
      CleanedIsRestorable(top, s, f);
    }
    LosslessIff(context);
  }
}
