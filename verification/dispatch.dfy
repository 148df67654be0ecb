/** The statistics callback of the web application (src/index.py): which analyses a
    click on the enrichment button runs, how their results are put together, and
    what is made of them for the UpSet diagram.

    A run is planned as a list of jobs, each one call of an analysis, whose frames are
    concatenated in order. The six branches (general, within-subset and combined
    analyses, each for Fisher's exact test and for the hypergeometric test) share the
    same plans, up to the defects listed with the plans written as in the source. */
module Dispatch {
  import opened Wrappers
  import opened Seqs
  import opened Tables
  import opened Enrichment
  import Acyls
  import SubsetEnrichment
  import AdvancedEnrichment
  import Intersection
  import TermMapper
  import UniqueNames

  const FisherTest := "Fisher exact test"
  const HyperTest := "Hypergeometric"
  const ButtonTrigger := "enrichment-button"
  const QueryTrigger := "datatable-query-session"
  const SignificantOnly := "Filter statistically significant results"
  const PValueColumn := "p-value"
  const SubsetListName := "dfs_subset_to_concat"
  const TotalC := "Total #C"
  const TotalDB := "Total #DB"

  /** The carbon and double-bond options of the callback: the filter texts of the bins. */
  const CarbonOptions: seq<string> := [
    AdvancedEnrichment.FilterText(AdvancedEnrichment.Below16),
    AdvancedEnrichment.FilterText(AdvancedEnrichment.From16To18),
    AdvancedEnrichment.FilterText(AdvancedEnrichment.Above18)]
  const DoubleBondOptions: seq<string> := [
    AdvancedEnrichment.FilterText(AdvancedEnrichment.Saturated),
    AdvancedEnrichment.FilterText(AdvancedEnrichment.Monounsaturated),
    AdvancedEnrichment.FilterText(AdvancedEnrichment.Polyunsaturated)]

  // ---------------------------------------------------------------- the parameter checklist

  /** `generate_param_checklist`: the columns from the eleventh on, then 'Acyls', as
      both the options and the selected values. */
  function ParamChecklist(data: seq<string>): (r: (seq<string>, seq<string>))
    ensures r.0 == r.1
    ensures |r.0| == (if |data| > 10 then |data| - 10 else 0) + 1
    ensures r.0[|r.0| - 1] == AcylsLevel
    ensures forall i :: 0 <= i < |r.0| - 1 ==> r.0[i] == data[10 + i]
  {
    var sliced := if |data| > 10 then data[10..] else [];
    (sliced + [AcylsLevel], sliced + [AcylsLevel])
  }

  // ---------------------------------------------------------------- jobs and plans

  /** The tables an analysis runs on: as uploaded, or melted to one row per chain. */
  datatype Source = Raw | Melted

  /** One call of an analysis. */
  datatype Job =
    | General(levels: seq<string>, source: Source)   // calculate_enrichment_*
    | Within(params: seq<string>, source: Source)    // calculate_enrichment_within_subset_*
    | Bin(specific: string, filter: string)          // calculate_enrichment_*_advanced

  /** The jobs, whose frames are concatenated, unless the code raises after them. */
  datatype Plan = Plan(jobs: seq<Job>, raise: Option<Failure>)

  function IsNotAcyls(x: string): bool {
    x != AcylsLevel
  }

  /** `[item for item in xs if item != 'Acyls']`. */
  function Without(xs: seq<string>): (r: seq<string>)
    ensures forall x :: x in r <==> x in xs && x != AcylsLevel
  {
    FilterMembers(xs, IsNotAcyls);
    Filter(xs, IsNotAcyls)
  }

  function BinJobs(specific: string, options: seq<string>): (r: seq<Job>)
    ensures |r| == |options|
    ensures forall i :: 0 <= i < |r| ==> r[i] == Bin(specific, options[i])
  {
    seq(|options|, i requires 0 <= i < |options| => Bin(specific, options[i]))
  }

  /** The carbon bins when 'Total #C' is a parameter, then the double-bond bins when
      'Total #DB' is. */
  function AdvancedJobs(params: seq<string>): seq<Job> {
    (if TotalC in params then BinJobs(AdvancedEnrichment.Carbons, CarbonOptions) else [])
    + (if TotalDB in params then BinJobs(AdvancedEnrichment.DoubleBonds, DoubleBondOptions) else [])
  }

  /** The general analysis of the checklist (lines 2161-2172): 'Acyls' alone on the
      melted tables, mixed with other levels as a second job after them. */
  function GeneralPlan(checklist: seq<string>): Plan {
    if checklist == [AcylsLevel] then Plan([General(checklist, Melted)], None)
    else if AcylsLevel in checklist then Plan([General(Without(checklist), Raw), General([AcylsLevel], Melted)], None)
    else Plan([General(checklist, Raw)], None)
  }

  /** The within-subset analysis of the parameters, as the source evidently intends it:
      the plan of lines 2229-2285 where a run without 'Acyls', 'Total #C' and
      'Total #DB' keeps the one frame it computed. */
  function WithinPlan(params: seq<string>): Plan {
    if params == [AcylsLevel] then Plan([Within(params, Melted)], None)
    else if AcylsLevel in params then
      var excluded := Without(params);
      Plan([Within(excluded, Raw), Within([AcylsLevel], Melted)] + AdvancedJobs(excluded), None)
    else Plan([Within(params, Raw)] + AdvancedJobs(params), None)
  }

  /** The within-subset plan as written (lines 2229-2285, 2351-2409 and 2527-2588):
      without 'Acyls', 'Total #C' and 'Total #DB', the frame computed is replaced by
      `pd.concat([])`. */
  function WithinPlanAsWritten(params: seq<string>): Plan {
    if params == [AcylsLevel] then Plan([Within(params, Melted)], None)
    else if AcylsLevel in params then
      var excluded := Without(params);
      Plan([Within(excluded, Raw), Within([AcylsLevel], Melted)] + AdvancedJobs(excluded), None)
    else if TotalC !in params && TotalDB !in params then Plan([Within(params, Raw)], Some(NothingToConcatenate))
    else Plan([Within(params, Raw)] + AdvancedJobs(params), None)
  }

  /** The subset part of the hypergeometric combined analysis as written
      (lines 2656-2712): the double-bond-only case passes all parameters, 'Acyls'
      included, to the raw tables; without 'Acyls' the list the frames go to is never
      assigned. */
  function HyperCombinedPlanAsWritten(params: seq<string>): Plan {
    if params == [AcylsLevel] then Plan([Within(params, Melted)], None)
    else if AcylsLevel in params then
      var excluded := Without(params);
      var first := if TotalC !in excluded && TotalDB in excluded then params else excluded;
      Plan([Within(first, Raw), Within([AcylsLevel], Melted)] + AdvancedJobs(excluded), None)
    else if TotalC !in params && TotalDB !in params then Plan([Within(params, Raw)], Some(UnboundVariable(SubsetListName)))
    else Plan([], Some(UnboundVariable(SubsetListName)))
  }

  // ---------------------------------------------------------------- running a plan

  function TablesOf(source: Source, query: Table, universe: Table): (r: Result<(Table, Table), Failure>)
    ensures source == Raw ==> r == Ok((query, universe))
  {
    if source == Raw then Ok((query, universe))
    else
      var q :- Acyls.GetFADf(query);
      var u :- Acyls.GetFADf(universe);
      Ok((q, u))
  }

  /** One analysis. `subsets` is the subset checklist: the levels ('Lipid Maps
      Category', 'Lipid Maps Main Class') the within-subset and advanced analyses
      group by; a within-subset job's parameters are the subsets it tests within. */
  function RunJob(job: Job, subsets: seq<string>, query: Table, universe: Table, s: Settings): Result<Frame, Failure> {
    match job
    case General(levels, source) =>
      var (q, u) :- TablesOf(source, query, universe);
      Enrich(levels, q, u, s)
    case Within(params, source) =>
      var (q, u) :- TablesOf(source, query, universe);
      SubsetEnrichment.WithinSubset(subsets, params, q, u, s)
    case Bin(specific, filter) =>
      AdvancedEnrichment.Advanced(subsets, query, universe, specific, filter, s)
  }

  /** The jobs in order; the first failure is the one raised. */
  function RunJobs(jobs: seq<Job>, subsets: seq<string>, query: Table, universe: Table, s: Settings): (r: Result<seq<Frame>, Failure>)
    ensures r.Ok? <==> forall i :: 0 <= i < |jobs| ==> RunJob(jobs[i], subsets, query, universe, s).Ok?
    ensures r.Ok? ==> |r.value| == |jobs| && forall i :: 0 <= i < |jobs| ==> r.value[i] == RunJob(jobs[i], subsets, query, universe, s).value
  {
    if |jobs| == 0 then Ok([])
    else
      var f :- RunJob(jobs[0], subsets, query, universe, s);
      var rest :- RunJobs(jobs[1..], subsets, query, universe, s);
      assert forall i :: 1 <= i < |jobs| ==> jobs[i] == jobs[1..][i - 1];
      Ok([f] + rest)
  }

  predicate AllColumnless(frames: seq<Frame>) {
    forall i :: 0 <= i < |frames| ==> frames[i].Columnless?
  }

  /** `pd.concat(frames)`: no frame raises; frames without columns are skipped. */
  function Concat(frames: seq<Frame>): (r: Result<Frame, Failure>)
    ensures |frames| == 0 <==> r == Err(NothingToConcatenate)
    ensures r.Ok? ==> (r.value.Columnless? <==> AllColumnless(frames))
  {
    if |frames| == 0 then Err(NothingToConcatenate)
    else if AllColumnless(frames) then Ok(Columnless)
    else Ok(Terms(Flatten(Map(frames, RowsOf))))
  }

  function Execute(p: Plan, subsets: seq<string>, query: Table, universe: Table, s: Settings): (r: Result<Frame, Failure>)
    ensures r.Ok? ==> p.raise.None? && |p.jobs| > 0
  {
    var frames :- RunJobs(p.jobs, subsets, query, universe, s);
    if p.raise.Some? then Err(p.raise.value) else Concat(frames)
  }

  // ---------------------------------------------------------------- the callback

  /** The callback's inputs; the uploaded tables and settings are passed separately. */
  datatype Request = Request(
    trigger: string, clicks: Option<nat>,
    checklist: seq<string>, subsets: seq<string>, params: seq<string>,
    test: string, filter: seq<string>)

  datatype Design = GeneralOnly | WithinOnly | Combined

  /** The branch conditions (lines 2155, 2224, 2334, 2460, 2525 and 2637). */
  function DesignOf(req: Request): (d: Option<Design>)
    ensures d == Some(GeneralOnly) <==>
      req.trigger == ButtonTrigger && (req.test == FisherTest || req.test == HyperTest) &&
      |req.checklist| > 0 && |req.subsets| == 0 && |req.params| == 0
  {
    if req.trigger != ButtonTrigger || (req.test != FisherTest && req.test != HyperTest) then None
    else if |req.checklist| > 0 && |req.subsets| == 0 && |req.params| == 0 then Some(GeneralOnly)
    else if |req.checklist| == 0 && |req.subsets| > 0 && |req.params| > 0 then Some(WithinOnly)
    else if |req.checklist| > 0 && |req.subsets| > 0 && |req.params| > 0 then Some(Combined)
    else None
  }

  /** The subset plan of a branch as written: the Fisher branches and the
      hypergeometric within-subset branch share one plan (lines 2229-2285, 2353-2409
      and 2527-2588), the hypergeometric combined branch has its own (lines 2656-2712). */
  function SubsetPlanAsWritten(d: Design, test: string, params: seq<string>): Plan {
    if d == Combined && test == HyperTest then HyperCombinedPlanAsWritten(params) else WithinPlanAsWritten(params)
  }

  /** The settings of the test the request names. */
  function SettingsFor(req: Request, fisher: Settings, hyper: Settings): Settings {
    if req.test == FisherTest then fisher else hyper
  }

  /** The frame of the analyses, as written; the hypergeometric branches run the same
      analyses with the hypergeometric test's settings. The combined branches compute
      the general frame first. */
  function Analyse(d: Design, req: Request, query: Table, universe: Table, s: Settings): Result<Frame, Failure> {
    match d
    case GeneralOnly => Execute(GeneralPlan(req.checklist), req.subsets, query, universe, s)
    case WithinOnly => Execute(SubsetPlanAsWritten(d, req.test, req.params), req.subsets, query, universe, s)
    case Combined =>
      var general :- Execute(GeneralPlan(req.checklist), req.subsets, query, universe, s);
      var subset :- Execute(SubsetPlanAsWritten(d, req.test, req.params), req.subsets, query, universe, s);
      Concat([general, subset])
  }

  function IsRejected(t: Term): bool {
    t.rejected
  }

  /** `int(x)` of a float classifier, then `astype(str)`: NaN has no integer. */
  function ClassifierText(t: Term): (r: Result<Term, Failure>)
    ensures r.Err? <==> t.test.classifier == Missing
    ensures r.Ok? ==> r.value.test.classifier == Str(ValueText(t.test.classifier))
    ensures r.Ok? ==> r.value.(test := r.value.test.(classifier := t.test.classifier)) == t
  {
    if t.test.classifier == Missing then Err(Failure.NotANumber)
    else Ok(t.(test := t.test.(classifier := Str(ValueText(t.test.classifier)))))
  }

  function ClassifiersText(ts: seq<Term>): (r: Result<seq<Term>, Failure>)
    ensures r.Err? <==> exists i :: 0 <= i < |ts| && ts[i].test.classifier == Missing
    ensures r.Ok? ==> |r.value| == |ts| && forall i :: 0 <= i < |ts| ==> ClassifierText(ts[i]) == Ok(r.value[i])
  {
    if |ts| == 0 then Ok([])
    else
      var t :- ClassifierText(ts[0]);
      var rest :- ClassifiersText(ts[1..]);
      assert forall i :: 1 <= i < |ts| ==> ts[i] == ts[1..][i - 1];
      Ok([t] + rest)
  }

  /** `df_get_sig['p-value'].max()`: NaN, here `None`, when nothing is significant. */
  function LimMax(ts: seq<Term>): (m: Option<real>)
    ensures m.None? <==> |ts| == 0
    ensures m.Some? ==> (forall i :: 0 <= i < |ts| ==> ts[i].test.p <= m.value) && exists i :: 0 <= i < |ts| && ts[i].test.p == m.value
  {
    if |ts| == 0 then None
    else
      var rest := LimMax(ts[1..]);
      assert forall i :: 1 <= i < |ts| ==> ts[i] == ts[1..][i - 1];
      if rest.None? || ts[0].test.p >= rest.value then Some(ts[0].test.p as real) else rest
  }

  /** What the callback shows: the result rows (after the optional significance filter),
      all result rows, the UpSet table, the diagram's limit and its pivot. */
  datatype Statistics = Statistics(
    shown: seq<Term>, all: seq<Term>, upset: Table, limit: Option<real>, pivot: Option<Intersection.Pivot>)

  /** The post-processing shared by all branches. The upset table is built whatever the
      number of rows; the diagram only for two rows or more. With no significant term
      the table has no 'Names' column and the pivot fails before reading the limit. */
  function Present(df: Frame, filterOn: bool, query: Table): (r: Result<Statistics, Failure>)
    ensures df.Columnless? ==> r == Err(MissingColumn(PValueColumn))
    ensures r.Ok? ==> |r.value.shown| <= |r.value.all|
    ensures r.Ok? ==> (r.value.pivot.Some? <==> |r.value.shown| >= 2)
  {
    if df.Columnless? then Err(MissingColumn(PValueColumn))
    else
      var all :- ClassifiersText(df.terms);
      var shown := if filterOn then Filter(all, IsRejected) else all;
      var significant := Filter(shown, IsRejected);
      var limit := LimMax(significant);
      var upset :- TermMapper.TableForUpset(significant, query);
      if |shown| < 2 then Ok(Statistics(shown, all, upset, limit, None))
      else
        var pivot :- Intersection.UpsetPivot(upset, if limit.Some? then limit.value else 0.0);
        Ok(Statistics(shown, all, upset, limit, Some(pivot)))
  }

  datatype Outcome = NoUpdate | Cleared | Unmatched | Computed(stats: Statistics)

  /** `create_table_statistics`. */
  function CreateTableStatistics(req: Request, query: Table, universe: Table, fisher: Settings, hyper: Settings): (r: Result<Outcome, Failure>)
    ensures req.clicks.None? ==> r == Ok(NoUpdate)
    ensures req.clicks.Some? && req.trigger == QueryTrigger ==> r == Ok(Cleared)
    ensures req.clicks.Some? && req.trigger != QueryTrigger && DesignOf(req).None? ==> r == Ok(Unmatched)
    ensures r.Ok? && r.value.Computed? ==> req.clicks.Some? && req.trigger == ButtonTrigger && DesignOf(req).Some?
  {
    if req.clicks.None? then Ok(NoUpdate)
    else if req.trigger == QueryTrigger then Ok(Cleared)
    else match DesignOf(req)
      case None => Ok(Unmatched)
      case Some(d) =>
        var s := SettingsFor(req, fisher, hyper);
        var df :- Analyse(d, req, query, universe, s);
        var stats :- Present(df, req.filter == [SignificantOnly], query);
        Ok(Computed(stats))
  }

  /** What the callback shows is the presentation of the frame the request's plans
      compute: the general plan, the subset plan as written, or both concatenated. */
  lemma ComputedFromPlans(req: Request, query: Table, universe: Table, fisher: Settings, hyper: Settings)
    requires CreateTableStatistics(req, query, universe, fisher, hyper).Ok?
    requires CreateTableStatistics(req, query, universe, fisher, hyper).value.Computed?
    ensures DesignOf(req).Some?
    ensures var stats := CreateTableStatistics(req, query, universe, fisher, hyper).value.stats;
      var s := SettingsFor(req, fisher, hyper);
      var filterOn := req.filter == [SignificantOnly];
      var general := Execute(GeneralPlan(req.checklist), req.subsets, query, universe, s);
      var subset := Execute(SubsetPlanAsWritten(DesignOf(req).value, req.test, req.params), req.subsets, query, universe, s);
      match DesignOf(req).value
      case GeneralOnly => general.Ok? && Present(general.value, filterOn, query) == Ok(stats)
      case WithinOnly => subset.Ok? && Present(subset.value, filterOn, query) == Ok(stats)
      case Combined =>
        && general.Ok? && subset.Ok?
        && Concat([general.value, subset.value]).Ok?
        && Present(Concat([general.value, subset.value]).value, filterOn, query) == Ok(stats)
  {
  }

  // ---------------------------------------------------------------- properties of the plans

  function LevelsOf(job: Job): seq<string> {
    match job
    case General(levels, _) => levels
    case Within(params, _) => params
    case Bin(_, _) => []
  }

  /** The acyl level is analysed on the melted tables, every other level on the tables
      as uploaded. */
  predicate Separated(jobs: seq<Job>) {
    forall i :: 0 <= i < |jobs| && !jobs[i].Bin? ==> (AcylsLevel in LevelsOf(jobs[i]) <==> jobs[i].source == Melted)
  }

  /** Some job analyses level `x`. */
  predicate Analysed(jobs: seq<Job>, x: string) {
    exists i :: 0 <= i < |jobs| && x in LevelsOf(jobs[i])
  }

  /** The general plan runs one general analysis per table kind, analyses every level
      of the checklist and nothing else, and keeps the acyl level on the melted tables. */
  lemma GeneralPlanSound(checklist: seq<string>)
    ensures GeneralPlan(checklist).raise.None? && |GeneralPlan(checklist).jobs| > 0
    ensures forall i :: 0 <= i < |GeneralPlan(checklist).jobs| ==> GeneralPlan(checklist).jobs[i].General?
    ensures Separated(GeneralPlan(checklist).jobs)
    ensures forall x :: Analysed(GeneralPlan(checklist).jobs, x) <==> x in checklist
  {
    var jobs := GeneralPlan(checklist).jobs;
    forall x | x in checklist
      ensures Analysed(jobs, x)
    {
      if checklist != [AcylsLevel] && AcylsLevel in checklist && x != AcylsLevel {
        assert x in LevelsOf(jobs[0]);
      } else if checklist != [AcylsLevel] && AcylsLevel in checklist {
        assert x in LevelsOf(jobs[1]);
      } else {
        assert x in LevelsOf(jobs[0]);
      }
    }
  }

  /** The advanced jobs are bins only: the carbon bins exactly when 'Total #C' is a
      parameter, the double-bond bins exactly when 'Total #DB' is, carbons first. */
  lemma AdvancedJobsSound(params: seq<string>)
    ensures forall i :: 0 <= i < |AdvancedJobs(params)| ==> AdvancedJobs(params)[i].Bin?
    ensures forall o :: Bin(AdvancedEnrichment.Carbons, o) in AdvancedJobs(params) <==> TotalC in params && o in CarbonOptions
    ensures forall o :: Bin(AdvancedEnrichment.DoubleBonds, o) in AdvancedJobs(params) <==> TotalDB in params && o in DoubleBondOptions
    ensures forall i, j :: 0 <= i < j < |AdvancedJobs(params)| && AdvancedJobs(params)[i].specific == AdvancedEnrichment.DoubleBonds ==>
      AdvancedJobs(params)[j].specific == AdvancedEnrichment.DoubleBonds
  {
    var c: seq<Job> := if TotalC in params then BinJobs(AdvancedEnrichment.Carbons, CarbonOptions) else [];
    var d: seq<Job> := if TotalDB in params then BinJobs(AdvancedEnrichment.DoubleBonds, DoubleBondOptions) else [];
    assert AdvancedJobs(params) == c + d;
    OneKind(c, AdvancedEnrichment.Carbons, TotalC in params, CarbonOptions);
    OneKind(d, AdvancedEnrichment.DoubleBonds, TotalDB in params, DoubleBondOptions);
    KindsInOrder(c, d, TotalC in params, TotalDB in params, CarbonOptions, DoubleBondOptions);
  }

  /** Carbon bins, when wanted, followed by double-bond bins, when wanted. */
  lemma KindsInOrder(c: seq<Job>, d: seq<Job>, wantC: bool, wantDB: bool, cOptions: seq<string>, dbOptions: seq<string>)
    requires forall i :: 0 <= i < |c| ==> c[i].Bin? && c[i].specific == AdvancedEnrichment.Carbons
    requires forall s, o :: Bin(s, o) in c <==> wantC && s == AdvancedEnrichment.Carbons && o in cOptions
    requires forall i :: 0 <= i < |d| ==> d[i].Bin? && d[i].specific == AdvancedEnrichment.DoubleBonds
    requires forall s, o :: Bin(s, o) in d <==> wantDB && s == AdvancedEnrichment.DoubleBonds && o in dbOptions
    ensures forall i :: 0 <= i < |c + d| ==> (c + d)[i].Bin?
    ensures forall o :: Bin(AdvancedEnrichment.Carbons, o) in c + d <==> wantC && o in cOptions
    ensures forall o :: Bin(AdvancedEnrichment.DoubleBonds, o) in c + d <==> wantDB && o in dbOptions
    ensures forall i, j :: 0 <= i < j < |c + d| && (c + d)[i].specific == AdvancedEnrichment.DoubleBonds ==>
      (c + d)[j].specific == AdvancedEnrichment.DoubleBonds
  {
    assert AdvancedEnrichment.Carbons != AdvancedEnrichment.DoubleBonds by {
      assert AdvancedEnrichment.Carbons[0] != AdvancedEnrichment.DoubleBonds[0];
    }
    forall o ensures Bin(AdvancedEnrichment.Carbons, o) in c + d <==> Bin(AdvancedEnrichment.Carbons, o) in c {
      ConcatHas(c, d, Bin(AdvancedEnrichment.Carbons, o));
    }
    forall o ensures Bin(AdvancedEnrichment.DoubleBonds, o) in c + d <==> Bin(AdvancedEnrichment.DoubleBonds, o) in d {
      ConcatHas(c, d, Bin(AdvancedEnrichment.DoubleBonds, o));
    }
    forall i, j | 0 <= i < j < |c + d| && (c + d)[i].specific == AdvancedEnrichment.DoubleBonds
      ensures (c + d)[j].specific == AdvancedEnrichment.DoubleBonds
    {
      assert i >= |c|;
      assert (c + d)[j] == d[j - |c|];
    }
  }

  /** The bins of one kind, when wanted: bins of that kind, exactly for its options. */
  lemma OneKind(c: seq<Job>, kind: string, want: bool, options: seq<string>)
    requires c == if want then BinJobs(kind, options) else []
    ensures forall i :: 0 <= i < |c| ==> c[i].Bin? && c[i].specific == kind
    ensures forall s, o :: Bin(s, o) in c <==> want && s == kind && o in options
  {
    BinJobsHas(kind, options);
  }

  /** Membership in a concatenation. */
  lemma ConcatHas<T>(c: seq<T>, d: seq<T>, x: T)
    ensures x in c + d <==> x in c || x in d
  {
    if x in c + d {
      var i :| 0 <= i < |c + d| && (c + d)[i] == x;
      if i < |c| { assert c[i] == x; } else { assert d[i - |c|] == x; }
    }
    if x in c {
      var i :| 0 <= i < |c| && c[i] == x;
      assert (c + d)[i] == x;
    }
    if x in d {
      var i :| 0 <= i < |d| && d[i] == x;
      assert (c + d)[|c| + i] == x;
    }
  }

  /** The bins of one kind are exactly that kind's options. */
  lemma BinJobsHas(specific: string, options: seq<string>)
    ensures forall s, o :: Bin(s, o) in BinJobs(specific, options) <==> s == specific && o in options
  {
    var r := BinJobs(specific, options);
    forall s, o | s == specific && o in options
      ensures Bin(s, o) in r
    {
      var i :| 0 <= i < |options| && options[i] == o;
      assert r[i] == Bin(s, o);
    }
  }

  /** The analyses the within-subset plan opens with, before the bins. */
  function WithinHead(params: seq<string>): (r: seq<Job>)
    ensures forall i :: 0 <= i < |r| ==> r[i].Within?
  {
    if params == [AcylsLevel] then [Within(params, Melted)]
    else if AcylsLevel in params then [Within(Without(params), Raw), Within([AcylsLevel], Melted)]
    else [Within(params, Raw)]
  }

  lemma WithinPlanSplit(params: seq<string>)
    ensures WithinPlan(params).raise.None?
    ensures WithinPlan(params).jobs == WithinHead(params) + (if params == [AcylsLevel] then [] else AdvancedJobs(Without(params)))
  {
    if params != [AcylsLevel] && AcylsLevel !in params {
      FilterAll(params, IsNotAcyls);
    }
  }

  /** Bins after the analyses neither analyse a level nor use a table kind. */
  lemma BinsAfter(head: seq<Job>, tail: seq<Job>)
    requires forall i :: 0 <= i < |tail| ==> tail[i].Bin?
    ensures Separated(head) ==> Separated(head + tail)
    ensures forall x :: Analysed(head + tail, x) <==> Analysed(head, x)
  {
    forall x | Analysed(head + tail, x)
      ensures Analysed(head, x)
    {
      var i :| 0 <= i < |head + tail| && x in LevelsOf((head + tail)[i]);
      assert i < |head|;
      assert (head + tail)[i] == head[i];
    }
    forall x | Analysed(head, x)
      ensures Analysed(head + tail, x)
    {
      var i :| 0 <= i < |head| && x in LevelsOf(head[i]);
      assert (head + tail)[i] == head[i];
    }
  }

  /** The analyses opening the within-subset plan cover every parameter and nothing
      else, with the acyl level on the melted tables. */
  lemma WithinHeadSound(params: seq<string>)
    requires |params| > 0
    ensures |WithinHead(params)| > 0
    ensures Separated(WithinHead(params))
    ensures forall x :: Analysed(WithinHead(params), x) <==> x in params
  {
    var head := WithinHead(params);
    forall x | x in params
      ensures Analysed(head, x)
    {
      if params != [AcylsLevel] && AcylsLevel in params && x == AcylsLevel {
        assert x in LevelsOf(head[1]);
      } else {
        assert x in LevelsOf(head[0]);
      }
    }
  }

  /** The within-subset plan (as intended) analyses every parameter and nothing else,
      and keeps the acyl level on the melted tables. */
  lemma WithinPlanSound(params: seq<string>)
    requires |params| > 0
    ensures WithinPlan(params).raise.None? && |WithinPlan(params).jobs| > 0
    ensures Separated(WithinPlan(params).jobs)
    ensures forall x :: Analysed(WithinPlan(params).jobs, x) <==> x in params
  {
    var head := WithinHead(params);
    var tail := if params == [AcylsLevel] then [] else AdvancedJobs(Without(params));
    WithinPlanSplit(params);
    AdvancedJobsSound(Without(params));
    WithinHeadSound(params);
    BinsAfter(head, tail);
  }

  /** The within-subset plan runs the carbon bins exactly when 'Total #C' is a
      parameter and the double-bond bins exactly when 'Total #DB' is, after every other
      analysis, carbons before double bonds. */
  lemma WithinPlanBins(params: seq<string>)
    requires params != [AcylsLevel]
    ensures forall o :: Bin(AdvancedEnrichment.Carbons, o) in WithinPlan(params).jobs <==> TotalC in params && o in CarbonOptions
    ensures forall o :: Bin(AdvancedEnrichment.DoubleBonds, o) in WithinPlan(params).jobs <==> TotalDB in params && o in DoubleBondOptions
    ensures forall i, j :: 0 <= i < j < |WithinPlan(params).jobs| && WithinPlan(params).jobs[i].Bin? ==>
      WithinPlan(params).jobs[j].Bin? &&
      (WithinPlan(params).jobs[i].specific == AdvancedEnrichment.DoubleBonds ==> WithinPlan(params).jobs[j].specific == AdvancedEnrichment.DoubleBonds)
  {
    var head := WithinHead(params);
    var tail := AdvancedJobs(Without(params));
    WithinPlanSplit(params);
    AdvancedJobsSound(Without(params));
    WithoutKeepsTotals(params);
    BinsBehind(head, tail);
  }

  /** Dropping the acyl level keeps both totals. */
  lemma WithoutKeepsTotals(params: seq<string>)
    ensures TotalC in Without(params) <==> TotalC in params
    ensures TotalDB in Without(params) <==> TotalDB in params
  {
    assert TotalC != AcylsLevel by { assert TotalC[0] != AcylsLevel[0]; }
    assert TotalDB != AcylsLevel by { assert TotalDB[0] != AcylsLevel[0]; }
  }

  /** Bins placed behind analyses that are not bins: the bins of the whole plan are
      those of the tail, and their order carries over. */
  lemma BinsBehind(head: seq<Job>, tail: seq<Job>)
    requires forall i :: 0 <= i < |head| ==> head[i].Within?
    requires forall i :: 0 <= i < |tail| ==> tail[i].Bin?
    requires forall i, j :: 0 <= i < j < |tail| && tail[i].specific == AdvancedEnrichment.DoubleBonds ==>
      tail[j].specific == AdvancedEnrichment.DoubleBonds
    ensures forall s, o :: Bin(s, o) in head + tail <==> Bin(s, o) in tail
    ensures forall i, j :: 0 <= i < j < |head + tail| && (head + tail)[i].Bin? ==>
      (head + tail)[j].Bin? &&
      ((head + tail)[i].specific == AdvancedEnrichment.DoubleBonds ==> (head + tail)[j].specific == AdvancedEnrichment.DoubleBonds)
  {
    forall s, o | Bin(s, o) in head + tail
      ensures Bin(s, o) in tail
    {
      var i :| 0 <= i < |head + tail| && (head + tail)[i] == Bin(s, o);
      assert i >= |head|;
      assert tail[i - |head|] == Bin(s, o);
    }
    forall i, j | 0 <= i < j < |head + tail| && (head + tail)[i].Bin?
      ensures (head + tail)[j].Bin?
      ensures (head + tail)[i].specific == AdvancedEnrichment.DoubleBonds ==> (head + tail)[j].specific == AdvancedEnrichment.DoubleBonds
    {
      assert (head + tail)[i] == tail[i - |head|];
      assert (head + tail)[j] == tail[j - |head|];
    }
  }

  // ---------------------------------------------------------------- the defects as written

  /** `pd.concat([f]) == f`. */
  lemma ConcatOne(f: Frame)
    ensures Concat([f]) == Ok(f)
  {
    if f.Terms? {
      assert [f][0].Terms?;
      assert Map([f], RowsOf) == [f.terms];
      assert [f.terms][1..] == [];
      assert Flatten([f.terms]) == f.terms + Flatten([f.terms][1..]);
      assert Flatten(Map([f], RowsOf)) == f.terms;
      assert Concat([f]) == Ok(Terms(f.terms));
    }
  }

  /** As written, a within-subset run without 'Acyls', 'Total #C' and 'Total #DB'
      computes its frame and then raises on concatenating an empty list. */
  lemma WithinAsWrittenDiscards(params: seq<string>, subsets: seq<string>, query: Table, universe: Table, s: Settings)
    requires AcylsLevel !in params && TotalC !in params && TotalDB !in params
    ensures RunJob(Within(params, Raw), subsets, query, universe, s).Ok? ==>
      Execute(WithinPlanAsWritten(params), subsets, query, universe, s) == Err(NothingToConcatenate)
    ensures !Execute(WithinPlanAsWritten(params), subsets, query, universe, s).Ok?
  {
    assert params != [AcylsLevel];
    assert WithinPlanAsWritten(params) == Plan([Within(params, Raw)], Some(NothingToConcatenate));
  }

  /** Outside that case the within-subset plan as written is the intended one. */
  lemma WithinAsWrittenElsewhere(params: seq<string>)
    requires AcylsLevel in params || TotalC in params || TotalDB in params
    ensures WithinPlanAsWritten(params) == WithinPlan(params)
  {
  }

  /** A plan of one job that raises nothing yields that job's frame. */
  lemma ExecuteOne(job: Job, subsets: seq<string>, query: Table, universe: Table, s: Settings)
    ensures Execute(Plan([job], None), subsets, query, universe, s) == RunJob(job, subsets, query, universe, s)
  {
    var f := RunJob(job, subsets, query, universe, s);
    var fs := RunJobs([job], subsets, query, universe, s);
    assert [job][1..] == [] && [job][0] == job;
    if f.Ok? {
      assert fs.value == [f.value];
      ConcatOne(f.value);
    } else {
      assert fs == Err(f.error);
    }
  }

  /** As intended, such a run returns the one frame it computed. */
  lemma WithinPlanKeepsFrame(params: seq<string>, subsets: seq<string>, query: Table, universe: Table, s: Settings)
    requires AcylsLevel !in params && TotalC !in params && TotalDB !in params
    ensures Execute(WithinPlan(params), subsets, query, universe, s) == RunJob(Within(params, Raw), subsets, query, universe, s)
  {
    assert params != [AcylsLevel];
    WithinPlanSplit(params);
    assert AdvancedJobs(Without(params)) == [];
    assert WithinPlan(params) == Plan([Within(params, Raw)], None);
    ExecuteOne(Within(params, Raw), subsets, query, universe, s);
  }

  /** As written, the subset part of the hypergeometric combined analysis without
      'Acyls' always raises: the list its frames go to is never assigned. */
  lemma HyperCombinedUnbound(params: seq<string>, subsets: seq<string>, query: Table, universe: Table, s: Settings)
    requires AcylsLevel !in params
    ensures !Execute(HyperCombinedPlanAsWritten(params), subsets, query, universe, s).Ok?
    ensures TotalC in params || TotalDB in params ==>
      Execute(HyperCombinedPlanAsWritten(params), subsets, query, universe, s) == Err(UnboundVariable(SubsetListName))
  {
    assert params != [AcylsLevel];
  }

  /** As written, with 'Acyls' and 'Total #DB' but not 'Total #C', the hypergeometric
      combined analysis runs the acyl level on the tables as uploaded too; the intended
      plan keeps it on the melted tables. */
  lemma HyperCombinedMixesAcyls(params: seq<string>)
    requires AcylsLevel in params && TotalDB in params && TotalC !in params
    ensures !Separated(HyperCombinedPlanAsWritten(params).jobs)
    ensures Separated(WithinPlan(params).jobs)
  {
    assert TotalDB != AcylsLevel by {
      assert TotalDB[0] != AcylsLevel[0];
    }
    var jobs := HyperCombinedPlanAsWritten(params).jobs;
    assert jobs[0] == Within(params, Raw);
    assert AcylsLevel in LevelsOf(jobs[0]);
    WithinPlanSound(params);
  }

  // ---------------------------------------------------------------- properties of the callback

  /** With the parameters the application pre-selects, a request for the general
      analysis alone matches no branch until the parameters are cleared. */
  lemma PreselectedParamsBlockGeneral(req: Request, data: seq<string>, query: Table, universe: Table, fisher: Settings, hyper: Settings)
    requires req.clicks.Some? && req.trigger == ButtonTrigger
    requires |req.subsets| == 0 && req.params == ParamChecklist(data).1
    ensures CreateTableStatistics(req, query, universe, fisher, hyper) == Ok(Unmatched)
  {
    assert ButtonTrigger != QueryTrigger by {
      assert ButtonTrigger[0] != QueryTrigger[0];
    }
    assert |req.params| > 0;
  }

  /** As written, a within-subset request (alone or combined with the general analysis)
      whose parameters hold none of 'Acyls', 'Total #C' and 'Total #DB' never shows a
      result: the Fisher and hypergeometric within-subset branches concatenate an empty
      list, the hypergeometric combined branch an unassigned one. */
  lemma PlainSubsetNeverComputed(req: Request, query: Table, universe: Table, fisher: Settings, hyper: Settings)
    requires DesignOf(req) == Some(WithinOnly) || DesignOf(req) == Some(Combined)
    requires AcylsLevel !in req.params && TotalC !in req.params && TotalDB !in req.params
    ensures var r := CreateTableStatistics(req, query, universe, fisher, hyper);
      req.clicks.Some? ==> r.Err?
  {
    var s := SettingsFor(req, fisher, hyper);
    if DesignOf(req) == Some(Combined) && req.test == HyperTest {
      HyperCombinedUnbound(req.params, req.subsets, query, universe, s);
    } else {
      WithinAsWrittenDiscards(req.params, req.subsets, query, universe, s);
    }
    SubsetFailureStops(req, query, universe, fisher, hyper);
  }

  /** As written, the hypergeometric combined analysis never shows a result unless
      'Acyls' is among the parameters. */
  lemma HyperCombinedNeedsAcyls(req: Request, query: Table, universe: Table, fisher: Settings, hyper: Settings)
    requires DesignOf(req) == Some(Combined) && req.test == HyperTest
    requires AcylsLevel !in req.params
    ensures var r := CreateTableStatistics(req, query, universe, fisher, hyper);
      req.clicks.Some? ==> r.Err?
  {
    HyperCombinedUnbound(req.params, req.subsets, query, universe, SettingsFor(req, fisher, hyper));
    SubsetFailureStops(req, query, universe, fisher, hyper);
  }

  /** A subset plan that fails fails the callback. */
  lemma SubsetFailureStops(req: Request, query: Table, universe: Table, fisher: Settings, hyper: Settings)
    requires DesignOf(req) == Some(WithinOnly) || DesignOf(req) == Some(Combined)
    requires !Execute(SubsetPlanAsWritten(DesignOf(req).value, req.test, req.params), req.subsets, query, universe,
      SettingsFor(req, fisher, hyper)).Ok?
    ensures req.clicks.Some? ==> CreateTableStatistics(req, query, universe, fisher, hyper).Err?
  {
    assert ButtonTrigger != QueryTrigger by {
      assert ButtonTrigger[0] != QueryTrigger[0];
    }
    AnalyseSubsetFails(DesignOf(req).value, req, query, universe, SettingsFor(req, fisher, hyper));
  }

  /** The analyses fail when the subset plan does. */
  lemma AnalyseSubsetFails(d: Design, req: Request, query: Table, universe: Table, s: Settings)
    requires d == WithinOnly || d == Combined
    requires !Execute(SubsetPlanAsWritten(d, req.test, req.params), req.subsets, query, universe, s).Ok?
    ensures Analyse(d, req, query, universe, s).Err?
  {
  }

  /** With the significance filter on, the shown rows are exactly the rejected ones
      and the diagram's limit is the largest p-value among them. */
  lemma SignificantOnlyShown(df: Frame, query: Table)
    requires Present(df, true, query).Ok?
    ensures var st := Present(df, true, query).value;
      (forall t :: t in st.shown <==> t in st.all && t.rejected) &&
      st.limit == LimMax(st.shown)
  {
    var st := Present(df, true, query).value;
    PresentParts(df, true, query);
    FilterMembers(st.all, IsRejected);
    FilterAll(st.shown, IsRejected);
  }

  /** How the parts of a presented analysis come from the frame. */
  lemma PresentParts(df: Frame, filterOn: bool, query: Table)
    requires Present(df, filterOn, query).Ok?
    ensures var st := Present(df, filterOn, query).value;
      && df.Terms? && ClassifiersText(df.terms) == Ok(st.all)
      && st.shown == (if filterOn then Filter(st.all, IsRejected) else st.all)
      && st.limit == LimMax(Filter(st.shown, IsRejected))
  {
  }

  /** Two or more results, none significant, and no filter: the upset table is empty and
      has no 'Names' column, so drawing the diagram fails. */
  lemma NothingSignificantFails(df: Frame, query: Table)
    requires df.Terms? && |df.terms| >= 2
    requires forall i :: 0 <= i < |df.terms| ==> !df.terms[i].rejected && df.terms[i].test.classifier != Missing
    requires UniqueNames.AddUniqueNames(query).Ok?
    ensures Present(df, false, query) == Err(MissingColumn(Intersection.NamesColumn))
  {
    var all := ClassifiersText(df.terms).value;
    assert forall i :: 0 <= i < |all| ==> !IsRejected(all[i]);
    FilterNone(all, IsRejected);
    assert Intersection.NamesColumn !in [TermMapper.IndexColumn];
  }
}
