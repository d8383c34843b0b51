/** The entry point of `hephai_pr_doctor/main.py`: the mode read from the
    environment selects what runs and which report file, if any, is
    written. The callees are this model's own functions or, where the
    source calls them with the wrong arguments, their abstract results. */
module Entry {
  import opened Wrappers
  import opened Dicts
  import opened PyValues
  import opened PyStrings
  import opened Config
  import opened PullRequest
  import opened Reports

  const RepoReportFile := "repo_analysis_report.md"
  const PrReportFile := "pr_review_report.md"

  /** The PR record development mode scores. */
  const DevelopmentPr: Dict<Value> := [
    ("changed_files", VNum(3.0)), ("additions", VNum(50.0)), ("deletions", VNum(10.0)),
    ("files", VList([VDict([("filename", VStr("src/auth.py"))]),
                     VDict([("filename", VStr("tests/test_auth.py"))])]))]

  /** How a run ends: a report written (and whether the below-threshold
      warning was logged), a PR scored and logged without a file, an
      invalid mode logged as an error, or an exception escaping. */
  datatype Outcome =
    | Wrote(filename: string, report: string, warned: bool)
    | ScoredOnly(warned: bool)
    | InvalidMode
    | Raised

  /** What a run depends on besides its code: the HEPHAI_MODE variable,
      the scoring parameters, the repository analysis of standalone mode
      (None when it raised), the repository analysis the PR modes hand to
      the scorer, the event file and HTTP GET of GitHub mode, the language model's
      parsed answer, and Python's `str()`. */
  datatype Inputs = Inputs(
    mode: Option<string>,
    cfg: ScoringConfig,
    repoAnalysis: Option<Value>,
    repoContext: Value,
    event: Option<Value>,
    getDiffs: string -> Option<HttpResponse>,
    llm: Option<Value>,
    show: Value -> string)

  /** `os.getenv("HEPHAI_MODE", "standalone").lower()`. */
  function ModeOf(mode: Option<string>): (m: string)
    ensures mode.None? ==> m == "standalone"
    ensures mode.Some? ==> m == Lower(mode.value) && |m| == |mode.value|
  {
    Lower(mode.GetOr("standalone"))
  }

  /** `analysis_result.get("flagged", False)` read as a truth value. */
  predicate Warns(result: Dict<Value>) {
    Truthy(GetOr(result, "flagged", VBool(false)))
  }

  /** The PR modes' analysis: development scores its fixture, GitHub mode
      the PR data it loads. */
  function PrAnalysis(inp: Inputs, development: bool): Option<Dict<Value>> {
    var pr := if development then DevelopmentPr else FetchPrData(inp.event, inp.getDiffs);
    AnalyzePrChanges(pr, inp.repoContext, inp.cfg, inp.llm)
  }

  /** `main()`. */
  function Run(inp: Inputs): (r: Outcome)
    ensures ModeOf(inp.mode) !in {"standalone", "development", "github"} ==> r == InvalidMode
    ensures r.Wrote? ==> (r.filename == RepoReportFile <==> ModeOf(inp.mode) == "standalone")
    ensures r.Wrote? ==> (r.filename == PrReportFile <==> ModeOf(inp.mode) == "development")
    ensures ModeOf(inp.mode) == "github" ==> !r.Wrote?
    ensures ModeOf(inp.mode) == "standalone" ==>
              (r.Wrote? <==> inp.repoAnalysis.Some? && GenerateMarkdownReport(inp.repoAnalysis.value, false, inp.show).Some?)
              && (!r.Wrote? ==> r == Raised)
    ensures ModeOf(inp.mode) == "development" && PrAnalysis(inp, true).Some? ==> r.Wrote?
    ensures ModeOf(inp.mode) == "github" && PrAnalysis(inp, false).Some? ==> r.ScoredOnly?
    ensures ModeOf(inp.mode) == "standalone" && r.Wrote? ==>
              && !r.warned && inp.repoAnalysis.Some?
              && Some(r.report) == GenerateMarkdownReport(inp.repoAnalysis.value, false, inp.show)
    ensures ModeOf(inp.mode) == "development" && r.Wrote? ==>
              && PrAnalysis(inp, true).Some?
              && Some(r.report) == GenerateMarkdownReport(VDict(PrAnalysis(inp, true).value), true, inp.show)
    ensures ModeOf(inp.mode) in {"development", "github"} ==>
              (r == Raised <==> PrAnalysis(inp, ModeOf(inp.mode) == "development").None?)
    ensures (r.Wrote? || r.ScoredOnly?) && ModeOf(inp.mode) != "standalone" ==>
              PrAnalysis(inp, ModeOf(inp.mode) == "development").Some? &&
              r.warned == Warns(PrAnalysis(inp, ModeOf(inp.mode) == "development").value)
  {
    var mode := ModeOf(inp.mode);
    if mode == "standalone" then
      match inp.repoAnalysis
      case None => Raised
      case Some(analysis) =>
        (match GenerateMarkdownReport(analysis, false, inp.show)
         case None => Raised
         case Some(report) => Wrote(RepoReportFile, report, false))
    else if mode == "development" then
      match PrAnalysis(inp, true)
      case None => Raised
      case Some(result) =>
        Wrote(PrReportFile, GenerateMarkdownReport(VDict(result), true, inp.show).value, Warns(result))
    else if mode == "github" then
      match PrAnalysis(inp, false)
      case None => Raised
      case Some(result) => ScoredOnly(Warns(result))
    else InvalidMode
  }

  /** An unset HEPHAI_MODE runs standalone mode, and the mode is compared
      after lower-casing. */
  lemma ModeDefaultsToStandalone(inp: Inputs)
    ensures Run(inp.(mode := None)) == Run(inp.(mode := Some("standalone")))
    ensures Run(inp.(mode := Some("StandAlone"))) == Run(inp.(mode := Some("standalone")))
  {
    assert ModeOf(Some("StandAlone")) == "standalone";
    assert ModeOf(Some("standalone")) == "standalone";
  }

  /** In the PR modes the warning is logged exactly when the computed score
      is below the threshold, unless the language model's answer has its own
      `flagged` key. */
  lemma WarnsIffFlagged(pr: Dict<Value>, repoAnalysis: Value, cfg: ScoringConfig, llm: Option<Value>)
    requires StatsOf(pr).Some? && repoAnalysis.VDict? && ReviewDict(llm).Some?
    requires "flagged" !in Keys(ReviewDict(llm).value)
    ensures AnalyzePrChanges(pr, repoAnalysis, cfg, llm).Some?
    ensures Warns(AnalyzePrChanges(pr, repoAnalysis, cfg, llm).value)
            <==> Flagged(cfg, RawScore(cfg, StatsOf(pr).value))
  {
  }

  /** The fixture's counts. */
  lemma DevelopmentStats()
    ensures StatsOf(DevelopmentPr) == Some(PrStats(3.0, 50.0, 10.0))
  {
    assert Keys(DevelopmentPr) == ["changed_files", "additions", "deletions", "files"];
    IndexOfIs(DevelopmentPr, "changed_files", 0);
    IndexOfIs(DevelopmentPr, "additions", 1);
    IndexOfIs(DevelopmentPr, "deletions", 2);
  }

  /** With the default parameters and a failed language-model call the fixture
      scores 80 and is not flagged. */
  lemma DevelopmentAnalysis(inp: Inputs)
    requires inp.cfg == Defaults() && inp.llm.None? && inp.repoContext.VDict?
    ensures PrAnalysis(inp, true) == Some([("score", VNum(80.0)), ("flagged", VBool(false))])
  {
    DevelopmentStats();
    DefaultScoringExamples();
    LlmFailureKeepsOnlyScore(DevelopmentPr, inp.repoContext, inp.cfg);
  }

  /** Development mode with the default parameters and a failed language-model call
      writes the PR report, scores the fixture 80 and logs no warning. */
  lemma DevelopmentWithDefaults(inp: Inputs)
    requires inp.mode == Some("development") && inp.cfg == Defaults()
    requires inp.llm.None? && inp.repoContext.VDict?
    ensures PrAnalysis(inp, true) == Some([("score", VNum(80.0)), ("flagged", VBool(false))])
    ensures Run(inp).Wrote? && Run(inp).filename == PrReportFile && !Run(inp).warned
  {
    LowerKeepsLower("development");
    assert ModeOf(inp.mode) == "development";
    DevelopmentAnalysis(inp);
    var result := PrAnalysis(inp, true).value;
    assert !Warns(result) by {
      assert Keys(result) == ["score", "flagged"];
      IndexOfIs(result, "flagged", 1);
    }
    var r := Run(inp);
    assert r.Wrote? && r.filename == PrReportFile;
    assert r.warned == Warns(result);
  }

  /** `main()` as written. Each valid mode's first analysis call does not
      match its callee's signature: standalone mode passes the structure
      and an unknown keyword `pr_data` to `analyze_repo_with_ai(repo_name,
      local)`, and the PR modes call `analyze_pr_changes` without its
      `repo_analysis` argument. Python raises TypeError at those calls, so
      every valid mode ends in an exception before any report is written
      or any score logged. */
  function RunAsWritten(inp: Inputs): (r: Outcome)
    ensures r == InvalidMode <==> ModeOf(inp.mode) !in {"standalone", "development", "github"}
    ensures r == Raised <==> ModeOf(inp.mode) in {"standalone", "development", "github"}
  {
    var mode := ModeOf(inp.mode);
    if mode == "standalone" then Raised       // analyze_repo_with_ai: unexpected arguments
    else if mode == "development" then Raised // analyze_pr_changes: missing repo_analysis
    else if mode == "github" then Raised      // analyze_pr_changes: missing repo_analysis
    else InvalidMode
  }

  /** The code as written writes no report and scores nothing, where the
      dispatch with the callees' real arguments writes the development
      report. */
  lemma AsWrittenNeverReports(inp: Inputs)
    requires inp.mode == Some("development") && inp.cfg == Defaults()
    requires inp.llm.None? && inp.repoContext.VDict?
    ensures RunAsWritten(inp) == Raised
    ensures Run(inp).Wrote?
  {
    DevelopmentWithDefaults(inp);
  }
}
