/** `pull_request.py`: the PR score, its threshold flag, the merge with the
    language model's qualitative review, and the loading of the PR data. */
module PullRequest {
  import opened Wrappers
  import opened Dicts
  import opened PyValues
  import opened Config

  /** The three PR counts the score is computed from. */
  datatype PrStats = PrStats(changedFiles: real, additions: real, deletions: real)

  /** `pr_data.get(key, 0)` used as a number; None when the operation on
      it raises. */
  function CountOf(pr: Dict<Value>, key: string): (r: Option<real>)
    ensures key !in Keys(pr) ==> r == Some(0.0)
    ensures key in Keys(pr) ==> r == AsNumber(Get(pr, key).value)
  {
    AsNumber(GetOr(pr, key, VNum(0.0)))
  }

  /** The counts of the PR data, each 0 when absent. */
  function StatsOf(pr: Dict<Value>): (r: Option<PrStats>)
    ensures r.Some? <==> CountOf(pr, "changed_files").Some? && CountOf(pr, "additions").Some?
                         && CountOf(pr, "deletions").Some?
    ensures r.Some? ==> r.value == PrStats(CountOf(pr, "changed_files").value, CountOf(pr, "additions").value,
                                           CountOf(pr, "deletions").value)
    ensures pr == [] ==> r == Some(PrStats(0.0, 0.0, 0.0))
  {
    match (CountOf(pr, "changed_files"), CountOf(pr, "additions"), CountOf(pr, "deletions"))
    case (Some(c), Some(a), Some(d)) => Some(PrStats(c, a, d))
    case _ => None
  }

  /** The score before clamping: the base score less each count times its
      weight. */
  function RawScore(cfg: ScoringConfig, s: PrStats): (r: real)
    ensures s == PrStats(0.0, 0.0, 0.0) ==> r == cfg.baseScore.AsReal()
    ensures && cfg.changeFileWeight.AsReal() >= 0.0 && cfg.additionWeight.AsReal() >= 0.0
            && cfg.deletionWeight.AsReal() >= 0.0
            && s.changedFiles >= 0.0 && s.additions >= 0.0 && s.deletions >= 0.0
            ==> r <= cfg.baseScore.AsReal()
  {
    cfg.baseScore.AsReal()
    - s.changedFiles * cfg.changeFileWeight.AsReal()
    - s.additions * cfg.additionWeight.AsReal()
    - s.deletions * cfg.deletionWeight.AsReal()
  }

  /** `max(0, min(100, x))`. */
  function Clamp(x: real): (r: real)
    ensures 0.0 <= r <= 100.0
    ensures 0.0 <= x <= 100.0 ==> r == x
    ensures x < 0.0 ==> r == 0.0
    ensures x > 100.0 ==> r == 100.0
  {
    if x < 0.0 then 0.0 else if x > 100.0 then 100.0 else x
  }

  /** `flagged`: the unclamped score is below the threshold. For a
      threshold in (0, 100] this is the same as the reported, clamped
      score being below it. */
  predicate Flagged(cfg: ScoringConfig, raw: real): (b: bool)
    ensures 0.0 < cfg.prScoreThreshold.AsReal() <= 100.0 ==> (b <==> Clamp(raw) < cfg.prScoreThreshold.AsReal())
  {
    raw < cfg.prScoreThreshold.AsReal()
  }

  /** The qualitative review as the `**ai_analysis` spread sees it: `{}`
      when the language-model call or `json.loads` raised, the parsed dict
      otherwise; spreading a parsed value that is not a dict raises. */
  function ReviewDict(llm: Option<Value>): (r: Option<Dict<Value>>)
    ensures llm.None? ==> r == Some([])
    ensures r.Some? <==> llm.None? || llm.value.VDict?
    ensures r.Some? && llm.Some? ==> llm.value == VDict(r.value)
  {
    match llm
    case None => Some([])
    case Some(VDict(d)) => Some(d)
    case Some(_) => None
  }

  /** `analyze_pr_changes(pr_data, repo_name, repo_analysis)`. `llm` is
      the language model's parsed answer, None when the request or the parse raised.
      The result is None when the function raises: a count that is not a
      number, a `repo_analysis` that is not a dict, or a parsed answer that
      is not a dict. */
  function AnalyzePrChanges(pr: Dict<Value>, repoAnalysis: Value, cfg: ScoringConfig,
                            llm: Option<Value>): (r: Option<Dict<Value>>)
    ensures r.Some? <==> StatsOf(pr).Some? && repoAnalysis.VDict? && ReviewDict(llm).Some?
    ensures r.Some? ==> |r.value| >= 2 && Keys(r.value)[..2] == ["score", "flagged"]
    ensures r.Some? && "score" !in Keys(ReviewDict(llm).value) ==>
              Get(r.value, "score") == Some(VNum(Clamp(RawScore(cfg, StatsOf(pr).value))))
    ensures r.Some? && "flagged" !in Keys(ReviewDict(llm).value) ==>
              Get(r.value, "flagged") == Some(VBool(Flagged(cfg, RawScore(cfg, StatsOf(pr).value))))
    ensures r.Some? && Unique(ReviewDict(llm).value) ==>
              forall k :: k in Keys(ReviewDict(llm).value) ==> Get(r.value, k) == Get(ReviewDict(llm).value, k)
    ensures r.Some? ==>
              forall k :: k in Keys(r.value) <==> k == "score" || k == "flagged" || k in Keys(ReviewDict(llm).value)
  {
    match StatsOf(pr)
    case None => None
    case Some(stats) =>
      if !repoAnalysis.VDict? then None
      else
        match ReviewDict(llm)
        case None => None
        case Some(review) =>
          Some(MergeReview(cfg, RawScore(cfg, stats), review))
  }

  /** `{"score": ..., "flagged": ..., **ai_analysis}`: the score and flag
      come first, and every key of the review, including `score` or
      `flagged`, takes the review's value. */
  function MergeReview(cfg: ScoringConfig, raw: real, review: Dict<Value>): (r: Dict<Value>)
    ensures |r| >= 2 && Keys(r)[..2] == ["score", "flagged"]
    ensures "score" !in Keys(review) ==> Get(r, "score") == Some(VNum(Clamp(raw)))
    ensures "flagged" !in Keys(review) ==> Get(r, "flagged") == Some(VBool(Flagged(cfg, raw)))
    ensures Unique(review) ==> forall k :: k in Keys(review) ==> Get(r, k) == Get(review, k)
    ensures forall k :: k in Keys(r) <==> k == "score" || k == "flagged" || k in Keys(review)
  {
    SpreadValues(cfg, raw, review);
    SpreadKeys(cfg, raw, review);
    Update(Computed(cfg, raw), review)
  }

  /** The values the spread leaves: the computed ones where the review is
      silent, the review's elsewhere. */
  lemma SpreadValues(cfg: ScoringConfig, raw: real, review: Dict<Value>)
    ensures var r := Update(Computed(cfg, raw), review);
            && ("score" !in Keys(review) ==> Get(r, "score") == Some(VNum(Clamp(raw))))
            && ("flagged" !in Keys(review) ==> Get(r, "flagged") == Some(VBool(Flagged(cfg, raw))))
            && (Unique(review) ==> forall k :: k in Keys(review) ==> Get(r, k) == Get(review, k))
  {
    var base := Computed(cfg, raw);
    ComputedFields(cfg, raw);
    if "score" !in Keys(review) {
      GetUpdateAbsent(base, review, "score");
    }
    if "flagged" !in Keys(review) {
      GetUpdateAbsent(base, review, "flagged");
    }
    if Unique(review) {
      forall k | k in Keys(review) ensures Get(Update(base, review), k) == Get(review, k) {
        GetUpdate(base, review, k);
      }
    }
  }

  /** The keys after the spread: `score` and `flagged` first, then the
      review's keys and no other. */
  lemma SpreadKeys(cfg: ScoringConfig, raw: real, review: Dict<Value>)
    ensures var r := Update(Computed(cfg, raw), review);
            && |r| >= 2 && Keys(r)[..2] == ["score", "flagged"]
            && forall k :: k in Keys(r) <==> k == "score" || k == "flagged" || k in Keys(review)
  {
    var base := Computed(cfg, raw);
    ComputedFields(cfg, raw);
    KeysUpdatePrefix(base, review);
    forall k ensures k in Keys(Update(base, review)) <==> k in Keys(base) || k in Keys(review) {
      KeysUpdate(base, review, k);
    }
  }

  /** The dict the function builds before spreading the review into it. */
  function Computed(cfg: ScoringConfig, raw: real): Dict<Value> {
    [("score", VNum(Clamp(raw))), ("flagged", VBool(Flagged(cfg, raw)))]
  }

  lemma ComputedFields(cfg: ScoringConfig, raw: real)
    ensures Keys(Computed(cfg, raw)) == ["score", "flagged"]
    ensures Get(Computed(cfg, raw), "score") == Some(VNum(Clamp(raw)))
    ensures Get(Computed(cfg, raw), "flagged") == Some(VBool(Flagged(cfg, raw)))
  {
    var base := Computed(cfg, raw);
    assert Keys(base) == ["score", "flagged"];
    IndexOfIs(base, "score", 0);
    IndexOfIs(base, "flagged", 1);
  }

  /** When the language-model call fails, the result holds exactly the clamped score and
      the flag, in that order. */
  lemma LlmFailureKeepsOnlyScore(pr: Dict<Value>, repoAnalysis: Value, cfg: ScoringConfig)
    requires StatsOf(pr).Some? && repoAnalysis.VDict?
    ensures var raw := RawScore(cfg, StatsOf(pr).value);
            AnalyzePrChanges(pr, repoAnalysis, cfg, None)
            == Some([("score", VNum(Clamp(raw))), ("flagged", VBool(Flagged(cfg, raw)))])
  {
  }

  /** The score and the flag do not depend on the language model's answer unless
      the answer itself carries a `score` or `flagged` key. */
  lemma ScoreIndependentOfLlm(pr: Dict<Value>, repoAnalysis: Value, cfg: ScoringConfig, llm: Option<Value>)
    requires AnalyzePrChanges(pr, repoAnalysis, cfg, llm).Some?
    requires "score" !in Keys(ReviewDict(llm).value) && "flagged" !in Keys(ReviewDict(llm).value)
    ensures var r, f := AnalyzePrChanges(pr, repoAnalysis, cfg, llm).value,
                        AnalyzePrChanges(pr, repoAnalysis, cfg, None).value;
            Get(r, "score") == Get(f, "score") && Get(r, "flagged") == Get(f, "flagged")
  {
    LlmFailureKeepsOnlyScore(pr, repoAnalysis, cfg);
  }

  /** A `score` key in the language model's answer replaces the computed score: the
      value need not be a number, let alone lie in [0, 100]. */
  lemma LlmScoreOverrides(pr: Dict<Value>, repoAnalysis: Value, cfg: ScoringConfig, review: Dict<Value>)
    requires StatsOf(pr).Some? && repoAnalysis.VDict?
    requires Unique(review) && "score" in Keys(review)
    ensures Get(AnalyzePrChanges(pr, repoAnalysis, cfg, Some(VDict(review))).value, "score")
            == Get(review, "score")
  {
  }

  /** An empty PR record scores the base score. */
  lemma EmptyPrScoresBase(cfg: ScoringConfig)
    ensures StatsOf([]) == Some(PrStats(0.0, 0.0, 0.0))
    ensures RawScore(cfg, StatsOf([]).value) == cfg.baseScore.AsReal()
  {
  }

  /** For a threshold in (0, 100], flagging the unclamped score and
      flagging the clamped score agree. */
  lemma FlagOnRawMatchesClamped(cfg: ScoringConfig, raw: real)
    requires 0.0 < cfg.prScoreThreshold.AsReal() <= 100.0
    ensures Flagged(cfg, raw) <==> Clamp(raw) < cfg.prScoreThreshold.AsReal()
  {
  }

  /** Outside (0, 100] they can disagree: with threshold 0 a negative raw
      score is flagged although its clamped score 0 is not below 0. */
  lemma FlagOnRawDiffersAtZeroThreshold(cfg: ScoringConfig)
    requires cfg.prScoreThreshold.AsReal() == 0.0
    ensures Flagged(cfg, -1.0) && !(Clamp(-1.0) < cfg.prScoreThreshold.AsReal())
  {
  }

  /** A non-negative difference times a non-negative weight is
      non-negative. */
  lemma ScaleNonNegative(d: real, w: real)
    requires d >= 0.0 && w >= 0.0
    ensures d * w >= 0.0
  {
  }

  /** With non-negative weights, a larger count never raises the score. */
  lemma RawScoreMonotone(cfg: ScoringConfig, s: PrStats, t: PrStats)
    requires cfg.changeFileWeight.AsReal() >= 0.0 && cfg.additionWeight.AsReal() >= 0.0
    requires cfg.deletionWeight.AsReal() >= 0.0
    requires s.changedFiles <= t.changedFiles && s.additions <= t.additions && s.deletions <= t.deletions
    ensures RawScore(cfg, t) <= RawScore(cfg, s)
  {
    var w1, w2, w3 := cfg.changeFileWeight.AsReal(), cfg.additionWeight.AsReal(), cfg.deletionWeight.AsReal();
    var d1 := (t.changedFiles - s.changedFiles) * w1;
    var d2 := (t.additions - s.additions) * w2;
    var d3 := (t.deletions - s.deletions) * w3;
    assert d1 == t.changedFiles * w1 - s.changedFiles * w1;
    assert d2 == t.additions * w2 - s.additions * w2;
    assert d3 == t.deletions * w3 - s.deletions * w3;
    ScaleNonNegative(t.changedFiles - s.changedFiles, w1);
    ScaleNonNegative(t.additions - s.additions, w2);
    ScaleNonNegative(t.deletions - s.deletions, w3);
    assert RawScore(cfg, s) - RawScore(cfg, t) == d1 + d2 + d3;
  }

  /** The two worked examples with the default parameters: (3, 50, 10)
      scores 80 and is not flagged; (20, 500, 500) has raw score -110,
      scores 0 and is flagged. */
  lemma DefaultScoringExamples()
    ensures RawScore(Defaults(), PrStats(3.0, 50.0, 10.0)) == 80.0
    ensures Clamp(80.0) == 80.0 && !Flagged(Defaults(), 80.0)
    ensures RawScore(Defaults(), PrStats(20.0, 500.0, 500.0)) == -110.0
    ensures Clamp(-110.0) == 0.0 && Flagged(Defaults(), -110.0)
  {
  }

  /** The loaded PR record: the event's `pull_request` object, `{}` when
      absent. None when the event could not be read, or either is not a
      dict (its `.get` raises). */
  function PrObject(event: Option<Value>): (r: Option<Dict<Value>>)
    ensures event.None? ==> r.None?
    ensures r.Some? <==> event.Some? && event.value.VDict?
                         && GetOr(event.value.entries, "pull_request", VDict([])).VDict?
    ensures event.Some? && event.value.VDict? && "pull_request" !in Keys(event.value.entries) ==> r == Some([])
    ensures r.Some? ==> && event.Some? && event.value.VDict?
                        && ("pull_request" in Keys(event.value.entries) ==>
                              Get(event.value.entries, "pull_request") == Some(VDict(r.value)))
  {
    match event
    case Some(VDict(e)) =>
      (match GetOr(e, "pull_request", VDict([]))
       case VDict(p) => Some(p)
       case _ => None)
    case _ => None
  }

  /** `fetch_pr_data()`. `event` is the parsed event file, None when
      opening or parsing it raised; `getDiffs` is the HTTP GET of a URL,
      None when the request raises, and a 200 reply's body is None when
      `response.json()` raises. Any exception gives `{}`; status 200 stores
      the decoded body as `diffs`, any other status stores `[]`, and every
      other field is kept. */
  function FetchPrData(event: Option<Value>, getDiffs: string -> Option<HttpResponse>): (r: Dict<Value>)
    ensures PrObject(event).None? ==> r == []
    ensures r != [] ==> PrObject(event).Some?
                        && forall k :: k != "diffs" ==> Get(r, k) == Get(PrObject(event).value, k)
    ensures r != [] ==> Get(r, "diffs").Some?
    ensures forall p, u, status, body ::
              PrObject(event) == Some(p) && GetOr(p, "url", VStr("")) == VStr(u)
              && getDiffs(u + "/files") == Some(HttpResponse(status, body)) && status != 200
              ==> Get(r, "diffs") == Some(VList([])) && r == Set(p, "diffs", VList([]))
    ensures forall p, u, b ::
              PrObject(event) == Some(p) && GetOr(p, "url", VStr("")) == VStr(u)
              && getDiffs(u + "/files") == Some(HttpResponse(200, Some(b)))
              ==> Get(r, "diffs") == Some(b) && r == Set(p, "diffs", b)
    ensures forall p, u ::
              PrObject(event) == Some(p) && GetOr(p, "url", VStr("")) == VStr(u)
              && (getDiffs(u + "/files").None? || getDiffs(u + "/files") == Some(HttpResponse(200, None)))
              ==> r == []
    ensures forall p :: PrObject(event) == Some(p) && !GetOr(p, "url", VStr("")).VStr? ==> r == []
  {
    match PrObject(event)
    case None => []
    case Some(p) =>
      match GetOr(p, "url", VStr(""))
      case VStr(u) =>
        (match getDiffs(u + "/files")
         case None => []
         case Some(HttpResponse(status, body)) =>
           if status == 200 then
             (match body
              case None => []
              case Some(b) =>
                SetKeepsOthers(p, "diffs", b);
                Set(p, "diffs", b))
           else
             SetKeepsOthers(p, "diffs", VList([]));
             Set(p, "diffs", VList([])))
      case _ => []
  }

  /** Loading the diffs never changes the score: a loaded record has the
      counts of the event's PR object. */
  lemma LoadedRecordKeepsCounts(event: Option<Value>, getDiffs: string -> Option<HttpResponse>)
    requires FetchPrData(event, getDiffs) != []
    ensures StatsOf(FetchPrData(event, getDiffs)) == StatsOf(PrObject(event).value)
  {
    var r, p := FetchPrData(event, getDiffs), PrObject(event).value;
    forall k | k in {"changed_files", "additions", "deletions"} ensures CountOf(r, k) == CountOf(p, k) {
      assert Get(r, k) == Get(p, k);
    }
  }
}
