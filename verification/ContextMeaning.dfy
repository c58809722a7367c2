/** What the builder makes of a catalog: which fields of an observation it copies, what a supplemental metric must say of
    itself, and in which order the copies stand. */
module ContextMeaning {
  import opened Prelude
  import opened Json
  import opened Sorting
  import opened PromptContext
  import opened ContextBuilder

  /** The fields of these names, as they are, and no others. */
  ghost predicate Copies(record: Fields, names: set<string>, copy: Fields) {
    && (forall k :: k in copy <==> k in record && k in names)
    && (forall k :: k in copy ==> copy[k] == record[k])
  }

  lemma PickIff(record: Fields, names: set<string>, copy: Fields)
    ensures Pick(record, names) == copy <==> Copies(record, names, copy)
  {
    if Copies(record, names, copy) {
      assert Pick(record, names).Keys == copy.Keys;
    }
  }

  /** Each item is a record, copied in its place. */
  ghost predicate CopiesEach(items: seq<Json>, names: set<string>, copies: seq<Json>) {
    && |items| == |copies|
    && forall i :: 0 <= i < |items| ==> items[i].Obj? && copies[i].Obj? && Copies(items[i].fields, names, copies[i].fields)
  }

  lemma {:induction false} PickItemsIff(items: seq<Json>, names: set<string>, copies: seq<Json>)
    ensures PickItems(items, names) == Ok(copies) <==> CopiesEach(items, names, copies)
  {
    if items != [] && copies != [] {
      hide Copies;
      PickItemsIff(items[1..], names, copies[1..]);
      if items[0].Obj? && copies[0].Obj? {
        PickIff(items[0].fields, names, copies[0].fields);
      }
      assert copies == [copies[0]] + copies[1..] && items == [items[0]] + items[1..];
      CopiesSplit(items, names, copies);
    }
  }

  lemma CopiesSplit(items: seq<Json>, names: set<string>, copies: seq<Json>)
    requires items != [] && copies != []
    ensures CopiesEach(items, names, copies)
            <==> CopiesEach(items[1..], names, copies[1..])
                 && items[0].Obj? && copies[0].Obj? && Copies(items[0].fields, names, copies[0].fields)
  {
    hide Copies;
    if CopiesEach(items[1..], names, copies[1..]) && items[0].Obj? && copies[0].Obj? && Copies(items[0].fields, names, copies[0].fields) {
      forall i | 0 <= i < |items|
        ensures items[i].Obj? && copies[i].Obj? && Copies(items[i].fields, names, copies[i].fields)
      {
        if i > 0 {
          assert items[1..][i - 1] == items[i] && copies[1..][i - 1] == copies[i];
        }
      }
    }
  }

  /** The list under this key, item by item. */
  ghost predicate ListPart(values: Fields, key: string, names: set<string>, part: Fields) {
    && key in values && values[key].Arr?
    && exists copies :: CopiesEach(values[key].items, names, copies) && part == map[key := Arr(copies)]
  }

  lemma ListIff(values: Fields, key: string, names: set<string>, part: Fields)
    ensures PickEach(values, key, names) == Ok(part) <==> ListPart(values, key, names, part)
  {
    hide CopiesEach, PickItems;
    if key in values && values[key].Arr? {
      var items := values[key].items;
      forall copies { PickItemsIff(items, names, copies); }
      if PickItems(items, names).Ok? {
        assert CopiesEach(items, names, PickItems(items, names).value);
      }
    }
  }

  // ----- metrics -----

  /** The unit and the statistic a supplemental HTTP family stands for. */
  ghost predicate HttpFamily(family: Json, unit: string, statistic: string) {
    || (family == Str("http_request_rate") && unit == "requests_per_second" && statistic == "per_second_completed_request_rate")
    || (family == Str("http_error_ratio") && unit == "ratio" && statistic == "5xx_response_fraction_of_completed_requests")
    || (family == Str("http_latency_p95") && unit == "seconds"
        && statistic == "histogram_estimated_p95_of_completed_server_requests")
  }

  ghost predicate Supplemental(family: Json) {
    exists unit, statistic :: HttpFamily(family, unit, statistic)
  }

  /** A supplemental metric states its unit and statistic, that it is no model input, and a lookback of at most an hour. */
  ghost predicate HttpPart(values: Fields, part: Fields) {
    var family := Get(values, "family", Null);
    if !Supplemental(family) then part == map[]
    else exists unit, statistic, lookback ::
           && HttpFamily(family, unit, statistic) && 1 <= lookback <= 3600
           && Get(values, "unit", Null) == Str(unit) && Get(values, "statistic", Null) == Str(statistic)
           && PyEq(Get(values, "model_input", Null), Bool(false))
           && Get(values, "query_lookback_seconds", Null) == Int(lookback)
           && part == map["statistic" := Str(statistic), "model_input" := Bool(false), "query_lookback_seconds" := Int(lookback)]
  }

  lemma FamilyIff(family: Json, unit: string, statistic: string)
    ensures HttpFamily(family, unit, statistic) <==> family.Str? && family.s in HTTP && HTTP[family.s] == (unit, statistic)
  {
    assert "http_request_rate"[5] == 'r' && "http_error_ratio"[5] == 'e' && "http_latency_p95"[5] == 'l';
  }

  lemma HttpIff(values: Fields, part: Fields)
    ensures HttpValues(values) == Ok(part) <==> HttpPart(values, part)
  {
    hide PyEq;
    var family := Get(values, "family", Null);
    forall unit, statistic { FamilyIff(family, unit, statistic); }
    if family.Str? && family.s in HTTP {
      var (unit, statistic) := HTTP[family.s];
      assert HttpFamily(family, unit, statistic);
    }
    hide HttpFamily;
  }

  /** The comparison of a metric, allowlisted; nothing when it has none, or an empty one. */
  ghost predicate ComparisonPart(values: Fields, part: Json) {
    if "baseline_comparison" in values && values["baseline_comparison"].Obj? && values["baseline_comparison"].fields != map[] then
      part.Obj? && Copies(values["baseline_comparison"].fields,
                          {"expected_at_observed_load", "residual_iqr", "absolute_residual_p90", "method",
                           "healthy_start_unix", "healthy_end_unix", "load_comparability"}, part.fields)
    else part == Null
  }

  lemma ComparisonIff(values: Fields, part: Json)
    ensures CleanComparison(values) == part <==> ComparisonPart(values, part)
  {
    if COMPARISON in values && values[COMPARISON].Obj? && part.Obj? {
      PickIff(values[COMPARISON].fields, COMPARISON_NAMES, part.fields);
    }
  }

  ghost predicate MetricSays(values: Fields, summaryOnly: bool, out: Fields, picked: Fields, http: Fields, comparison: Json,
                             series: Fields) {
    && Copies(values, {"family", "unit", "samples", "min", "median", "max", "returned_point_coverage", "state"}, picked)
    && HttpPart(values, http) && ComparisonPart(values, comparison)
    && (if summaryOnly then series == map[]
        else ListPart(values, "series", {"start_unix", "end_unix", "min", "max", "mean", "samples"}, series))
    && out == (picked + http)["baseline_comparison" := comparison] + series
  }

  ghost predicate MetricMeans(values: Fields, summaryOnly: bool, out: Fields) {
    exists picked, http, comparison, series :: MetricSays(values, summaryOnly, out, picked, http, comparison, series)
  }

  lemma MetricIff(values: Fields, summaryOnly: bool, out: Fields)
    ensures MetricValues(values, summaryOnly) == Ok(out) <==> MetricMeans(values, summaryOnly, out)
  {
    forall picked { PickIff(values, METRIC_NAMES, picked); }
    forall http { HttpIff(values, http); }
    forall comparison { ComparisonIff(values, comparison); }
    forall series { ListIff(values, "series", BIN_NAMES, series); }
    hide Copies, HttpPart, ComparisonPart, ListPart, Pick, HttpValues, CleanComparison, PickEach;
    if MetricValues(values, summaryOnly) == Ok(out) {
      var series := if summaryOnly then map[] else PickEach(values, "series", BIN_NAMES).value;
      assert MetricSays(values, summaryOnly, out, Pick(values, METRIC_NAMES), HttpValues(values).value, CleanComparison(values), series);
    }
  }

  // ----- traces and dependencies -----

  ghost predicate TimingPart(values: Fields, part: Fields) {
    match Get(values, "timing", Null)
    case Null => part == map[]
    case Obj(timing) =>
      exists copy :: part == map["timing" := Obj(copy)]
                     && Copies(timing, {"unit", "selection", "timed_spans", "median_us", "p90_us", "max_us", "wait_state", "meaning",
                                        "observed_client_wait_median_us", "observed_exclusive_median_us",
                                        "unresolved_parent_spans"}, copy)
    case _ => false
  }

  lemma TimingIff(values: Fields, part: Fields)
    ensures TimingValues(values) == Ok(part) <==> TimingPart(values, part)
  {
    if Get(values, "timing", Null).Obj? {
      var timing := Get(values, "timing", Null).fields;
      forall copy { PickIff(timing, TIMING_NAMES, copy); }
    }
    hide Copies, Pick;
  }

  ghost predicate TraceSays(values: Fields, summaryOnly: bool, out: Fields, picked: Fields, examples: Fields, timing: Fields) {
    && Copies(values, {"state", "observed_spans", "observed_error_spans", "sampling", "retention", "example_selection"}, picked)
    && (if summaryOnly then examples == map[]
        else ListPart(values, "examples", {"trace_id", "span_id", "start_time_us", "duration_us", "error"}, examples))
    && TimingPart(values, timing) && out == picked + examples + timing
  }

  ghost predicate TraceMeans(values: Fields, summaryOnly: bool, out: Fields) {
    exists picked, examples, timing :: TraceSays(values, summaryOnly, out, picked, examples, timing)
  }

  lemma TraceIff(values: Fields, summaryOnly: bool, out: Fields)
    ensures TraceValues(values, summaryOnly) == Ok(out) <==> TraceMeans(values, summaryOnly, out)
  {
    forall picked { PickIff(values, TRACE_NAMES, picked); }
    forall examples { ListIff(values, "examples", SPAN_NAMES, examples); }
    forall timing { TimingIff(values, timing); }
    hide Copies, ListPart, TimingPart, Pick, PickEach, TimingValues;
    if TraceValues(values, summaryOnly) == Ok(out) {
      var examples := if summaryOnly then map[] else PickEach(values, "examples", SPAN_NAMES).value;
      assert TraceSays(values, summaryOnly, out, Pick(values, TRACE_NAMES), examples, TimingValues(values).value);
    }
  }

  ghost predicate DependencySays(values: Fields, out: Fields, picked: Fields, edges: Fields) {
    && Copies(values, {"state", "meaning", "external_edge_observations"}, picked)
    && ListPart(values, "edges", {"source", "target", "observed_edges"}, edges) && out == picked + edges
  }

  ghost predicate DependencyMeans(values: Fields, out: Fields) {
    exists picked, edges :: DependencySays(values, out, picked, edges)
  }

  lemma DependencyIff(values: Fields, out: Fields)
    ensures DependencyValues(values) == Ok(out) <==> DependencyMeans(values, out)
  {
    forall picked { PickIff(values, DEPENDENCY_NAMES, picked); }
    forall edges { ListIff(values, "edges", EDGE_NAMES, edges); }
    hide Copies, ListPart, Pick, PickEach;
    if DependencyValues(values) == Ok(out) {
      assert DependencySays(values, out, Pick(values, DEPENDENCY_NAMES), PickEach(values, "edges", EDGE_NAMES).value);
    }
  }

  // ----- a whole observation, and all of them -----

  ghost predicate ValuesMean(source: Fact, summaryOnly: bool, project: Projection, out: Fields) {
    || (source.kind == "metric" && MetricMeans(source.values, summaryOnly, out))
    || (source.kind == "traces" && TraceMeans(source.values, summaryOnly, out))
    || (source.kind == "dependencies" && DependencyMeans(source.values, out))
    || (source.kind == "context" && project(source.values) == Ok(Some(out)))
  }

  /** The copy of an observation: its names, service and times, and of its values what its kind allows. */
  ghost predicate Means(source: Fact, summaryOnly: bool, project: Projection, f: Fact) {
    && f.kind == source.kind && Copies(source.fields, {"id", "service", "start_unix", "end_unix"}, f.fields)
    && ValuesMean(source, summaryOnly, project, f.values)
  }

  /** Only an incident context may be left out, and only when its projection says so. */
  ghost predicate LeftOut(source: Fact, project: Projection) {
    source.kind == "context" && project(source.values) == Ok(None)
  }

  lemma ValuesIff(source: Fact, summaryOnly: bool, project: Projection, out: Fields)
    ensures CleanValues(source, summaryOnly, project) == Ok(Some(out)) <==> ValuesMean(source, summaryOnly, project, out)
    ensures CleanValues(source, summaryOnly, project) == Ok(None) <==> LeftOut(source, project)
  {
    hide MetricMeans, TraceMeans, DependencyMeans, MetricValues, TraceValues, DependencyValues;
    KindsApart();
    MetricIff(source.values, summaryOnly, out);
    TraceIff(source.values, summaryOnly, out);
    DependencyIff(source.values, out);
  }

  lemma KindsApart()
    ensures "context" != "metric" && "context" != "traces" && "context" != "dependencies"
    ensures "metric" != "traces" && "metric" != "dependencies" && "traces" != "dependencies"
  {
    assert |"context"| == 7 && |"metric"| == 6 && |"traces"| == 6 && |"dependencies"| == 12 && "metric"[0] != "traces"[0];
  }

  lemma CleanIff(source: Fact, summaryOnly: bool, project: Projection, f: Fact)
    ensures Clean(source, summaryOnly, project) == Ok(Some(f)) <==> Means(source, summaryOnly, project, f)
    ensures Clean(source, summaryOnly, project) == Ok(None) <==> LeftOut(source, project)
  {
    ValuesIff(source, summaryOnly, project, f.values);
    PickIff(source.fields, FACT_NAMES, f.fields);
    hide CleanValues, ValuesMean, Pick, Copies;
  }

  /** The copies of the sources that are not left out, in their order. */
  ghost predicate CopiesOf(sources: seq<Fact>, summaryOnly: bool, project: Projection, facts: seq<Fact>)
    decreases |sources|
  {
    if sources == [] then facts == []
    else if LeftOut(sources[0], project) then CopiesOf(sources[1..], summaryOnly, project, facts)
    else facts != [] && Means(sources[0], summaryOnly, project, facts[0]) && CopiesOf(sources[1..], summaryOnly, project, facts[1..])
  }

  lemma {:induction false} CopiesSnoc(sources: seq<Fact>, source: Fact, summaryOnly: bool, project: Projection,
                                      facts: seq<Fact>, more: seq<Fact>)
    requires CopiesOf(sources, summaryOnly, project, facts) && CopiesOf([source], summaryOnly, project, more)
    ensures CopiesOf(sources + [source], summaryOnly, project, facts + more)
    decreases |sources|
  {
    hide Means, LeftOut;
    if sources == [] {
      assert sources + [source] == [source] && facts + more == more;
    } else {
      assert (sources + [source])[1..] == sources[1..] + [source];
      if LeftOut(sources[0], project) {
        CopiesSnoc(sources[1..], source, summaryOnly, project, facts, more);
      } else {
        CopiesSnoc(sources[1..], source, summaryOnly, project, facts[1..], more);
        assert (facts + more)[1..] == facts[1..] + more;
      }
    }
  }

  lemma {:induction false} CleanAllCopies(sources: seq<Fact>, summaryOnly: bool, project: Projection)
    ensures CleanAll(sources, summaryOnly, project).Ok? ==>
              CopiesOf(sources, summaryOnly, project, CleanAll(sources, summaryOnly, project).value)
  {
    if sources != [] {
      hide Means, LeftOut, Clean;
      var n := |sources| - 1;
      CleanAllCopies(sources[..n], summaryOnly, project);
      forall f { CleanIff(sources[n], summaryOnly, project, f); }
      if CleanAll(sources, summaryOnly, project).Ok? {
        var before := CleanAll(sources[..n], summaryOnly, project).value;
        var one := Clean(sources[n], summaryOnly, project).value;
        var more := if one.Some? then [one.value] else [];
        assert sources[n..][1..] == [] && [sources[n]][1..] == [] && (more != [] ==> more[1..] == []);
        OneCopy(sources[n], summaryOnly, project, one);
        CopiesSnoc(sources[..n], sources[n], summaryOnly, project, before, more);
        assert sources == sources[..n] + [sources[n]];
        assert CleanAll(sources, summaryOnly, project).value == before + more;
      }
    }
  }

  lemma OneCopy(source: Fact, summaryOnly: bool, project: Projection, one: Option<Fact>)
    requires Clean(source, summaryOnly, project) == Ok(one)
    ensures CopiesOf([source], summaryOnly, project, if one.Some? then [one.value] else [])
  {
    hide Means, LeftOut, Clean;
    assert [source][1..] == [];
    if one.Some? {
      CleanIff(source, summaryOnly, project, one.value);
      CleanIffNone(source, summaryOnly, project);
      assert [one.value][1..] == [];
    } else {
      CleanIffNone(source, summaryOnly, project);
    }
  }

  lemma CleanIffNone(source: Fact, summaryOnly: bool, project: Projection)
    ensures Clean(source, summaryOnly, project) == Ok(None) <==> LeftOut(source, project)
  {
    CleanIff(source, summaryOnly, project, source);
  }

  ghost predicate Readable(source: Fact, summaryOnly: bool, project: Projection) {
    LeftOut(source, project) || exists f :: Means(source, summaryOnly, project, f)
  }

  lemma {:induction false} CleanAllIff(sources: seq<Fact>, summaryOnly: bool, project: Projection)
    ensures CleanAll(sources, summaryOnly, project).Ok? <==> forall s :: s in sources ==> Readable(s, summaryOnly, project)
  {
    if sources != [] {
      hide Means, LeftOut, Clean;
      var n := |sources| - 1;
      CleanAllIff(sources[..n], summaryOnly, project);
      forall f { CleanIff(sources[n], summaryOnly, project, f); }
      CleanIffNone(sources[n], summaryOnly, project);
      assert sources == sources[..n] + [sources[n]];
      assert Clean(sources[n], summaryOnly, project).Ok? <==> Readable(sources[n], summaryOnly, project) by {
        if Clean(sources[n], summaryOnly, project).Ok? && Clean(sources[n], summaryOnly, project).value.Some? {
          assert Means(sources[n], summaryOnly, project, Clean(sources[n], summaryOnly, project).value.value);
        }
      }
    }
  }

  /** By service, then by kind, then by identifier; a name that is missing counts as the empty one. */
  ghost predicate InOrder(a: Fact, b: Fact) {
    var s, t := TextOf(a, "service"), TextOf(b, "service");
    if s != t then StringLeq(s, t) else if a.kind != b.kind then StringLeq(a.kind, b.kind)
    else StringLeq(TextOf(a, "id"), TextOf(b, "id"))
  }

  /** The builder succeeds exactly when every observation can be copied, and then puts the copies in order; copies that tie
      stay in the order of their sources. */
  lemma BuildIs(top: Fields, sources: seq<Fact>, summaryOnly: bool, project: Projection)
    ensures Build(top, sources, summaryOnly, project).Ok? <==> forall s :: s in sources ==> Readable(s, summaryOnly, project)
    ensures Build(top, sources, summaryOnly, project).Ok? ==>
              var r := Build(top, sources, summaryOnly, project).value;
              && r.top == top
              && (forall i, j :: 0 <= i < j < |r.observations| ==> InOrder(r.observations[i], r.observations[j]))
              && exists facts ::
                   && CopiesOf(sources, summaryOnly, project, facts) && multiset(facts) == multiset(r.observations)
                   && forall f :: Filter(Ties(FactLeq, f), r.observations) == Filter(Ties(FactLeq, f), facts)
  {
    hide CopiesOf, Readable, CleanAll, Ties, Filter;
    CleanAllIff(sources, summaryOnly, project);
    CleanAllCopies(sources, summaryOnly, project);
    if CleanAll(sources, summaryOnly, project).Ok? {
      var facts := CleanAll(sources, summaryOnly, project).value;
      FactOrder();
      SortKeeps(facts, FactLeq);
      SortAscends(facts, FactLeq);
      forall f { SortIsStable(facts, FactLeq, f); }
      var sorted := Sort(facts, FactLeq);
      forall i, j | 0 <= i < j < |sorted|
        ensures InOrder(sorted[i], sorted[j])
      {
        assert FactLeq(sorted[i], sorted[j]);
      }
    }
  }
}
