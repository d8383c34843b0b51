# HEPHAI PR Doctor — a Dafny model of the scoring and relevance core

HEPHAI PR Doctor reviews pull requests and repositories. It has three parts:

- It scores a PR from three counts (changed files, additions, deletions) against configurable weights. It flags PRs whose score falls below a threshold. It merges the score with a qualitative review produced by a language model.
- It lists a repository's files. The listing comes either from a local directory walk, filtered through `.gitignore`, or from the hosting API's tree, falling back to the local walk.
- It renders the analysis as a markdown report. A mode switch in `main.py` picks what runs and which report file is written.

A separate GitHub action in `action/main.py` keeps the PR's Python and JavaScript files. It asks the language model to review each one and posts the reviews as one comment.

This project restates that deterministic core as pure Dafny functions and proves what the code promises about it. Modules and what each models:

| module | models |
|---|---|
| `Wrappers` | `Option` |
| `Dicts` | insertion-ordered Python dicts |
| `PyValues` | JSON-shaped values and the built-ins the core applies to them |
| `PyStrings` | `strip`, `startswith`, `endswith`, `in`, `lower` |
| `Seqs` | filtering and the subsequence order |
| `RepoScan` | the directory walk and the remote tree listing that both scanners share |
| `FetchRepository` | the prefix-or-suffix scanner |
| `AnalyzeRepository` | the substring scanner and the repository analysis |
| `Config` | the environment-driven parameters |
| `PullRequest` | the score, the merge and the PR loading |
| `Reports` | the markdown renderer |
| `Entry` | the mode dispatch |
| `Action` | the GitHub action |

How Python is represented:

- A Python exception that escapes a function is the `None` of an `Option` result. An exception the code catches is replaced by the code's own fallback value.
- Network, file and model calls are parameters: an HTTP reply (status and decoded body), the directory walk, the ignore file's lines, the language model's parsed answer.
- Python's `str()` of a non-string value is an abstract function `show`.
- Numbers are Dafny reals.

Three behaviours of the code are easy to misread:

- `flagged` compares the unclamped score with the threshold.
- Keys in the language model's answer, `score` and `flagged` included, override the computed ones.
- A failed repository analysis returns `{}`, not a record of default values.

## Model

| member | source | states |
|---|---|---|
| `Dicts.Get` | hephai_pr_doctor/reviews/pull_request.py:73-76 | `d.get(k)` is None exactly when `k` is absent, and otherwise a value paired with `k` in the dict |
| `Dicts.GetUnique` | hephai_pr_doctor/reviews/pull_request.py:127-131 | with distinct keys, the value looked up is the one stored with the key wherever it sits |
| `Dicts.Set` | hephai_pr_doctor/reviews/pull_request.py:49-52 | after `d[k] = v`, looking up `k` gives `v` |
| `Dicts.GetSet` | hephai_pr_doctor/reviews/pull_request.py:49-52 | assigning `k` changes the lookup of `k` only; every other key keeps its value |
| `Dicts.KeysSet` | hephai_pr_doctor/reviews/pull_request.py:49-52 | assigning keeps the key order; a new key is appended at the end |
| `Dicts.SetUnique` | hephai_pr_doctor/reviews/pull_request.py:49-52 | assigning keeps the keys pairwise distinct |
| `Dicts.GetUpdate` | hephai_pr_doctor/reviews/pull_request.py:127-131 | in `{**a, **b}` a key of `b` takes `b`'s value and any other key keeps `a`'s value |
| `Dicts.Update` | hephai_pr_doctor/reviews/pull_request.py:127-131 | the spread `{**a, **b}` keeps at least `a`'s entries and adds at most `b`'s; with `b` empty it is `a` |
| `Dicts.GetUpdateAbsent` | hephai_pr_doctor/reviews/pull_request.py:127-131 | a key that `b` lacks keeps `a`'s value, even when `b` repeats keys |
| `Dicts.UpdateUnique` | hephai_pr_doctor/reviews/pull_request.py:127-131 | spreading any dict into one with distinct keys gives distinct keys |
| `Dicts.KeysUpdatePrefix` | hephai_pr_doctor/reviews/pull_request.py:127-131 | the keys of `a` come first in `{**a, **b}`, in their order |
| `Dicts.KeysUpdate` | hephai_pr_doctor/reviews/pull_request.py:127-131 | the keys of `{**a, **b}` are exactly those of `a` and of `b` |
| `Dicts.KeysUpdateOrder` | hephai_pr_doctor/reviews/pull_request.py:127-131 | with distinct keys in `b`, the keys of `{**a, **b}` are `a`'s in their order, then the keys `b` adds in `b`'s order |
| `PyStrings.Strip` | hephai_pr_doctor/repositories/fetch_repository.py:71 | `strip()` leaves a result that is empty or starts and ends with a non-space character |
| `PyStrings.StripIsTrimmedSlice` | hephai_pr_doctor/repositories/fetch_repository.py:71 | the stripped line is the slice between a leading and a trailing run of whitespace |
| `PyStrings.StripBounds` | hephai_pr_doctor/repositories/fetch_repository.py:71 | `strip()` leaves the slice `s[i..j]`, everything before `i` and from `j` on being whitespace |
| `PyStrings.StripPadded` | hephai_pr_doctor/repositories/analyze_repository.py:74 | a word padded with whitespace strips to the word |
| `PyStrings.PrefixOrSuffixIsSubstring` | hephai_pr_doctor/repositories/analyze_repository.py:80 | a prefix or a suffix of a path is a substring of it |
| `PyStrings.Lower` | hephai_pr_doctor/main.py:35 | `lower()` keeps the length and lower-cases each ASCII letter |
| `Seqs.Filter` | action/main.py:28-32 | a comprehension with a condition keeps exactly the elements that satisfy it, never more elements than its input has; `Seqs.FilterCounts` states that every occurrence is kept |
| `Seqs.FilterIsSubseq` | hephai_pr_doctor/repositories/fetch_repository.py:91-94 | the kept elements stay in input order |
| `Seqs.FilterCounts` | action/main.py:28-32 | the comprehension keeps every occurrence of a kept element and none of a dropped one |
| `Seqs.FilterMono` | hephai_pr_doctor/repositories/analyze_repository.py:85-88 | a filter that keeps less gives a subsequence of one that keeps more |
| `RepoScan.Scan` | hephai_pr_doctor/repositories/fetch_repository.py:86-96 | no path the walk loop returns is ignored; `RepoScan.ScanMembership` states which paths it returns |
| `RepoScan.ScanProvenance` | hephai_pr_doctor/repositories/fetch_repository.py:86-94 | every returned path is a file of a directory whose root contains no pattern |
| `RepoScan.RootSkipped` | hephai_pr_doctor/repositories/fetch_repository.py:86-89 | a directory is skipped when its root equals a pattern or has one as prefix or suffix; with no patterns nothing is skipped |
| `RepoScan.ScanComplete` | hephai_pr_doctor/repositories/fetch_repository.py:86-94 | every file of a directory whose root contains no pattern is returned unless it is ignored |
| `RepoScan.ScanMembership` | hephai_pr_doctor/repositories/fetch_repository.py:86-94 | a path is returned exactly when it is not ignored and is a file of a directory whose root contains no pattern |
| `RepoScan.ScanIsSubseqOfWalk` | hephai_pr_doctor/repositories/fetch_repository.py:86-96 | the result is a subsequence of all walked files, in walk order |
| `RepoScan.ScanAppend` | hephai_pr_doctor/repositories/fetch_repository.py:86-96 | scanning two walk segments gives the concatenation of their scans |
| `RepoScan.SkippedRootContributesNothing` | hephai_pr_doctor/repositories/fetch_repository.py:86-89 | a directory whose root contains a pattern as a substring contributes no files |
| `RepoScan.ScanMono` | hephai_pr_doctor/repositories/analyze_repository.py:82-88 | more patterns and a stronger ignore test give a subsequence of the scan |
| `RepoScan.BlobPaths` | hephai_pr_doctor/repositories/fetch_repository.py:49-50 | the remote listing succeeds exactly when every entry is readable, and is the paths of the `blob` entries in tree order |
| `RepoScan.RemoteTree` | hephai_pr_doctor/repositories/fetch_repository.py:49-50 | a body that fails to decode or is not a dict raises; a dict without `tree` gives `[]`; a `tree` list gives its blob paths |
| `RepoScan.FetchStructure` | hephai_pr_doctor/repositories/fetch_repository.py:38-50 | local mode scans locally; a non-200 status falls back to the local scan; a failed request raises; status 200 lists the remote tree |
| `RepoScan.RemoteListingKeepsBlobs` | hephai_pr_doctor/repositories/fetch_repository.py:49-50 | a readable tree yields exactly the blob paths, in order |
| `RepoScan.FilePatterns` | hephai_pr_doctor/repositories/fetch_repository.py:68-73 | a pattern comes from the ignore file exactly when it is the stripped form of a line the scanner's line test accepts |
| `RepoScan.ParsePatterns` | hephai_pr_doctor/repositories/fetch_repository.py:67-76 | the pattern set always holds `.git` and `__pycache__`, and otherwise exactly the ignore file's accepted lines, stripped |
| `RepoScan.KeptLineIsPattern` | hephai_pr_doctor/repositories/fetch_repository.py:70-73 | a kept line contributes its stripped form |
| `FetchRepository.SuffixIsIgnored` | hephai_pr_doctor/repositories/fetch_repository.py:78-83 | a pattern that is a suffix of a path makes it ignored |
| `FetchRepository.KeepsLine` | hephai_pr_doctor/repositories/fetch_repository.py:70-73 | a line starting with `#` and a line of whitespace only yield no pattern |
| `FetchRepository.IsIgnored` | hephai_pr_doctor/repositories/fetch_repository.py:78-83 | a path equal to a pattern is ignored, and an ignored path contains some pattern as a substring |
| `FetchRepository.LocalScan` | hephai_pr_doctor/repositories/fetch_repository.py:53-96 | a path is returned exactly when it is a file of a directory whose root contains no pattern and no pattern is a prefix or suffix of it; none starts or ends with `.git` or `__pycache__`; the result keeps walk order |
| `FetchRepository.FetchRepoStructure` | hephai_pr_doctor/repositories/fetch_repository.py:27-50 | local mode and non-200 replies give the local scan; a failed request raises; status 200 gives the remote listing |
| `FetchRepository.SuffixPatternIgnoresUnrelatedPath` | hephai_pr_doctor/repositories/fetch_repository.py:78-83 | the ignore line `test` ignores the path `latest` |
| `FetchRepository.StripTestLine` | hephai_pr_doctor/repositories/fetch_repository.py:71 | the line `test\n` strips to `test` |
| `AnalyzeRepository.LocalScan` | hephai_pr_doctor/repositories/analyze_repository.py:54-90 | a path is returned exactly when it is a file of a directory whose root contains no pattern and it contains no pattern; none contains `.git` or `__pycache__`; the result keeps walk order |
| `AnalyzeRepository.FetchRepoStructure` | hephai_pr_doctor/repositories/analyze_repository.py:26-51 | the same local, fallback, raise and remote cases as the other scanner |
| `AnalyzeRepository.AnalyzeRepoWithAi` | hephai_pr_doctor/repositories/analyze_repository.py:105-177 | raises only when the structure fetch raised; a missing or empty API key gives `{}` whatever the language model does; a failed language-model call gives `{}`; with a key and a successful call, the language model's parsed answer |
| `AnalyzeRepository.IgnoredRefines` | hephai_pr_doctor/repositories/analyze_repository.py:79-80 | for the same patterns, prefix-or-suffix ignored implies substring ignored |
| `AnalyzeRepository.KeepsLine` | hephai_pr_doctor/repositories/analyze_repository.py:73-75 | every line the other scanner keeps is kept here too; the only extra lines are comments indented by whitespace |
| `AnalyzeRepository.IsIgnored` | hephai_pr_doctor/repositories/analyze_repository.py:79-80 | a path the other scanner ignores is ignored here too, and a path equal to a pattern is ignored |
| `PyStrings.CommentSurvivesStrip` | hephai_pr_doctor/repositories/analyze_repository.py:74 | a line starting with `#` still starts with `#` once stripped |
| `PyStrings.StripBlank` | hephai_pr_doctor/repositories/fetch_repository.py:71-72 | a line of whitespace only strips to the empty string, which the line test rejects |
| `AnalyzeRepository.PatternsInclude` | hephai_pr_doctor/repositories/analyze_repository.py:71-77 | every pattern the other scanner reads from an ignore file, this one reads too |
| `AnalyzeRepository.LocalScanRefines` | hephai_pr_doctor/repositories/analyze_repository.py:54-90 | for the same ignore file and walk, this scanner's local result is a subsequence of the other's |
| `AnalyzeRepository.IndentedCommentBecomesPattern` | hephai_pr_doctor/repositories/analyze_repository.py:73-75 | the line `  #x` is the pattern `#x` here, and no pattern of the other scanner |
| `Config.Convert` | hephai_pr_doctor/config/config.py:31 | the text is read by `int()` for an integer default and by `float()` for a float default; the conversion fails exactly when that reader fails, and otherwise gives its value with the default's type |
| `Config.GetEnvVariable` | hephai_pr_doctor/config/config.py:19-33 | the result has the default's type; an unset variable or a failed conversion gives the default; otherwise the converted value |
| `Config.LoadConfig` | hephai_pr_doctor/config/config.py:45-57 | each field is `get_env_variable` of its own variable and default; an unset variable gives its literal default (100, 70, 3, 0.2, 0.1, 5, 10, 20, 10, 5, 3), with its type |
| `Config.ThresholdFromEnvironment` | hephai_pr_doctor/config/config.py:45-47 | a PR_SCORE_THRESHOLD that `int()` reads as `n` makes the threshold `n`; one it cannot read leaves 70 |
| `Config.Defaults` | hephai_pr_doctor/config/config.py:46-51 | with nothing set: base 100, threshold 70, file weight 3, addition weight 0.2, deletion weight 0.1 |
| `PullRequest.CountOf` | hephai_pr_doctor/reviews/pull_request.py:73-75 | an absent count reads as 0, a present one as its number, and a non-number raises |
| `PullRequest.StatsOf` | hephai_pr_doctor/reviews/pull_request.py:73-82 | the counts are read exactly when all three are numbers, and are then those three numbers; an empty record gives zeros |
| `PullRequest.Clamp` | hephai_pr_doctor/reviews/pull_request.py:128 | `max(0, min(100, x))` lies in [0, 100], equals `x` inside it, 0 below it and 100 above it |
| `PullRequest.RawScore` | hephai_pr_doctor/reviews/pull_request.py:79-82 | with no changed files, additions or deletions the score is the base score; with non-negative counts and weights it never exceeds the base score |
| `PullRequest.Flagged` | hephai_pr_doctor/reviews/pull_request.py:129 | for a threshold in (0, 100], flagging the unclamped score agrees with flagging the reported, clamped score |
| `PullRequest.ReviewDict` | hephai_pr_doctor/reviews/pull_request.py:111-125 | a failed language-model call gives `{}`; the spread succeeds exactly when the call failed or the answer is a dict, and then spreads that dict |
| `PullRequest.AnalyzePrChanges` | hephai_pr_doctor/reviews/pull_request.py:60-131 | succeeds exactly when the counts are numbers, the repository analysis is a dict and the answer is a dict; `score` and `flagged` are the first keys; when the answer lacks them they are the clamped score and `raw < threshold`; when the answer's keys are distinct, every one of them keeps the answer's value; the keys are exactly `score`, `flagged` and the answer's |
| `PullRequest.MergeReview` | hephai_pr_doctor/reviews/pull_request.py:127-131 | the spread keeps `score` and `flagged` first, keeps them computed unless the review has them, gives every key of a review with distinct keys the review's value, and adds no other key |
| `PullRequest.SpreadValues` | hephai_pr_doctor/reviews/pull_request.py:127-131 | after the spread, `score` and `flagged` keep their computed values unless the review has them, and each review key has the review's value |
| `PullRequest.SpreadKeys` | hephai_pr_doctor/reviews/pull_request.py:127-131 | after the spread, `score` and `flagged` lead, and the keys are exactly those two and the review's |
| `PullRequest.ComputedFields` | hephai_pr_doctor/reviews/pull_request.py:127-129 | before the spread the dict is `score`, then `flagged`, holding the clamped score and the flag |
| `PullRequest.LlmFailureKeepsOnlyScore` | hephai_pr_doctor/reviews/pull_request.py:123-131 | when the language model fails, the result is exactly `{score, flagged}` |
| `PullRequest.ScoreIndependentOfLlm` | hephai_pr_doctor/reviews/pull_request.py:79-82 | without `score`/`flagged` in the answer, the score and flag equal those of a failed language-model call |
| `PullRequest.LlmScoreOverrides` | hephai_pr_doctor/reviews/pull_request.py:127-131 | a `score` key in the answer replaces the computed score |
| `PullRequest.EmptyPrScoresBase` | hephai_pr_doctor/reviews/pull_request.py:73-82 | an empty PR record has raw score equal to the base score |
| `PullRequest.FlagOnRawMatchesClamped` | hephai_pr_doctor/reviews/pull_request.py:128-129 | for a threshold in (0, 100], flagging the raw score equals flagging the clamped score |
| `PullRequest.FlagOnRawDiffersAtZeroThreshold` | hephai_pr_doctor/reviews/pull_request.py:128-129 | at threshold 0 a negative raw score is flagged though its clamped score is not below 0 |
| `PullRequest.RawScoreMonotone` | hephai_pr_doctor/reviews/pull_request.py:79-82 | with non-negative weights, larger counts never raise the raw score |
| `PullRequest.DefaultScoringExamples` | hephai_pr_doctor/reviews/pull_request.py:79-82 | with the defaults, (3, 50, 10) scores 80 unflagged; (20, 500, 500) has raw score -110, scores 0 and is flagged |
| `PullRequest.FetchPrData` | hephai_pr_doctor/reviews/pull_request.py:30-57 | an unreadable event, a non-string `url`, a raising request or an undecodable 200 body gives `{}`; a 200 reply stores its decoded body as `diffs`; another status stores `[]`; every other field is kept |
| `PullRequest.PrObject` | hephai_pr_doctor/reviews/pull_request.py:39-41 | succeeds exactly when the event is a readable dict whose `pull_request`, defaulting to `{}`, is a dict; it is then that dict, `{}` when absent |
| `PullRequest.LoadedRecordKeepsCounts` | hephai_pr_doctor/reviews/pull_request.py:44-53 | storing the diffs never changes the counts the score reads |
| `Reports.SlotAt` | hephai_pr_doctor/reports/generate_reports.py:31-60 | the four sub-scores fall back to `N/A`; the summary and second section read `pr_summary`/`impact` in PR mode and `purpose`/`key_components` otherwise |
| `Reports.Field` | hephai_pr_doctor/reports/generate_reports.py:31-60 | an absent key shows its fallback, a present one its value |
| `Reports.WeightLinesAppend` | hephai_pr_doctor/reports/generate_reports.py:25-26 | each further entry appends its own line at the end |
| `Reports.WeightsSection` | hephai_pr_doctor/reports/generate_reports.py:21-26 | empty in PR mode; in repository mode it raises exactly when `file_weights` is present and not a dict, starts with the weights heading, and is only the heading when `file_weights` is absent |
| `Reports.JoinSplit` | hephai_pr_doctor/reports/generate_reports.py:28-62 | the text is the parts before a part, the part, and the parts after it |
| `Reports.Parts` | hephai_pr_doctor/reports/generate_reports.py:28-62 | the template is the title, twelve filled placeholders and the weights section |
| `Reports.GenerateMarkdownReport` | hephai_pr_doctor/reports/generate_reports.py:6-62 | renders exactly when the result is a dict whose weights section can be built: always in PR mode, and in repository mode exactly when `file_weights` is absent or a dict; starts with the heading; in PR mode contains the literal score placeholder; ends with the weights section |
| `Reports.TitleShape` | hephai_pr_doctor/reports/generate_reports.py:17-19 | the title starts with the heading, and in PR mode carries `{analysis_result.get('score', 'N/A')}` verbatim |
| `Reports.TextShape` | hephai_pr_doctor/reports/generate_reports.py:28-62 | the first part begins the text and the last part ends it |
| `Reports.OnlyReadKeysMatter` | hephai_pr_doctor/reports/generate_reports.py:17-62 | two dicts that agree on the keys the mode reads render the same text |
| `Reports.PrModeReadKeys` | hephai_pr_doctor/reports/generate_reports.py:39-42 | PR mode reads `pr_summary` and `impact`, and neither `purpose`, `file_weights` nor `score` |
| `Reports.RepoModeReadKeys` | hephai_pr_doctor/reports/generate_reports.py:22-42 | repository mode reads `purpose`, `key_components` and `file_weights`, and neither `pr_summary` nor `score` |
| `Reports.FallbackShown` | hephai_pr_doctor/reports/generate_reports.py:31-60 | a placeholder whose key is absent shows its fallback right after its literal text |
| `Reports.ValueShown` | hephai_pr_doctor/reports/generate_reports.py:31-60 | when the report can be built (PR mode, or a `file_weights` that is a dict or absent), it is built, and a placeholder whose key is present shows the key's value right after its literal text |
| `Reports.NoIssuesFallback` | hephai_pr_doctor/reports/generate_reports.py:44-45 | without `issues_found` the report shows `No issues detected.` under its heading |
| `Reports.RepoReportListsWeights` | hephai_pr_doctor/reports/generate_reports.py:22-26 | a repository report ends with the weights heading and one line per entry, in dict order |
| `Entry.ModeOf` | hephai_pr_doctor/main.py:35 | an unset mode is `standalone`; a set mode is its lower-cased value |
| `Entry.Run` | hephai_pr_doctor/main.py:29-96 | an unknown mode is an error; standalone writes `repo_analysis_report.md` with the repository report exactly when the analysis and its report succeed, and raises otherwise; development writes `pr_review_report.md` with the PR report whenever the analysis succeeds; github only scores; the PR modes raise exactly when the analysis does; the warning is logged exactly when `flagged` is truthy |
| `Entry.ModeDefaultsToStandalone` | hephai_pr_doctor/main.py:35 | an unset mode and `StandAlone` both run as `standalone` |
| `Entry.WarnsIffFlagged` | hephai_pr_doctor/main.py:67-70 | when the counts are numbers, the repository analysis and the answer are dicts and the answer has no `flagged` key, the analysis succeeds and the warning is logged exactly when the raw score is below the threshold |
| `Entry.DevelopmentStats` | hephai_pr_doctor/main.py:57-62 | the development fixture has counts (3, 50, 10) |
| `Entry.DevelopmentAnalysis` | hephai_pr_doctor/main.py:57-65 | with defaults and a failed language-model call the fixture's result is score 80, not flagged |
| `Entry.DevelopmentWithDefaults` | hephai_pr_doctor/main.py:55-79 | development mode then writes `pr_review_report.md` and logs no warning |
| `Entry.RunAsWritten` | hephai_pr_doctor/main.py:38-96 | as written, every valid mode raises and any other mode is an error |
| `Entry.AsWrittenNeverReports` | hephai_pr_doctor/main.py:55-79 | on the development fixture the code as written raises where the dispatch with proper arguments writes the report |
| `Action.SourceFiles` | action/main.py:28-32 | the comprehension succeeds exactly when every entry has a string `filename`, and keeps exactly the names ending in `.py` or `.js`, in order |
| `Action.GetPrFiles` | action/main.py:15-33 | a failed event read or request raises; a non-200 reply gives `[]`; a 200 reply gives the listing's `.py` and `.js` names in order, and raises when its body cannot be decoded or iterated |
| `Action.GenerateReview` | action/main.py:36-47 | a reply without `choices`, or whose first choice lacks `text`, gives `No feedback generated.`; otherwise the first choice's `text` |
| `Action.ReviewOf` | action/main.py:68-72 | one file's review succeeds exactly when its read and its review succeed, and is then the shown review of its content |
| `Action.ReviewsOf` | action/main.py:67-71 | the loop succeeds exactly when every file's review does, and entry i is file i's review |
| `Action.FirstChoice` | action/main.py:47 | a reply without `choices` gives `{}`; an empty `choices` list raises; a non-empty `choices` list gives its first element |
| `Action.BlocksAppend` | action/main.py:67-72 | each further file appends its block at the end |
| `Action.Feedback` | action/main.py:66-72 | the comment starts with the feedback header |
| `Action.AssembleFeedback` | action/main.py:66-72 | the `+=` loop builds the header followed by one block per file, in order |
| `Action.Reviews` | action/main.py:67-71 | succeeds exactly when every file can be read and reviewed; entry i is the shown review of file i |
| `Action.ActionMain` | action/main.py:60-75 | an empty file list posts nothing; a failed file listing raises; with files, it posts the header plus one block per file with that file's review exactly when every review and the PR number succeed, and raises otherwise |

## Left out

- Network, GitHub and language-model clients (`requests`, PyGithub, OpenAI) are not modelled. Their answers are parameters: an `HttpResponse` with a status and a decoded body, or the language model's parsed answer, with None when the call raises.
- The prompt texts and `json.loads`/`json.dumps` are not modelled. The language model's answer arrives already parsed, and the prompts only feed the language model.
- `os.walk`, `os.getcwd`, `os.path.relpath` and `.gitignore` reading are not modelled. The walk is a given sequence of (root, relative paths) entries, and the ignore file is an optional sequence of lines.
- Report and comment writing are not modelled. `Entry.Run` returns the file name and the text.
- `post_pr_comment` is not modelled. `Action.ActionMain` returns the PR number and the body it would post.
- Logging, including `hephai_pr_doctor/debug/custom_logger.py`, is not modelled. The development and github warnings appear only as the `warned` flag.
- The package `__init__.py` files are left out; they only re-export names.
- Python's `int()` and `float()` on strings are abstract converters.
- `str()` of non-string values in f-strings is an abstract `show` function.
- Config.LoadConfig: the scoring code never reads the size-tier parameters, so no property links them to the score.
- PullRequest.RawScore: floats are idealised as exact reals, so `0.2` and `0.1` carry no rounding. Python ints and floats are not distinguished in the score.
- PyStrings.Lower: only ASCII letters are lowered; the mode names are ASCII.
- Entry.Run: the standalone repository analysis and the repository analysis handed to the PR scorer are inputs. As written, `main.py` calls `analyze_repo_with_ai` and `analyze_pr_changes` with arguments that do not fit their signatures (lines 44, 65 and 87), so their intended arguments are unknown. `Entry.RunAsWritten` models those calls as they stand.
- Action.ActionMain: each file's content is read through a `read` parameter. The completion request is an `ask` parameter from file content to parsed reply.

## Findings

| source | as written | input that shows it | evidently intended | confidence | as-written member | corrected member |
|---|---|---|---|---|---|---|
| hephai_pr_doctor/main.py:44,65,87 | `analyze_repo_with_ai(repo_structure, repo_name, pr_data=None)` does not match `analyze_repo_with_ai(repo_name, local=False)`. `analyze_pr_changes(pr_data, repo_name)` omits the required `repo_analysis`. Each raises TypeError, so no valid mode writes a report or logs a score. | `HEPHAI_MODE=development` with default parameters | call the analyses with their declared arguments, so development mode writes `pr_review_report.md` with score 80 | high (not executed) | `Entry.RunAsWritten`, `Entry.AsWrittenNeverReports` | `Entry.Run`, `Entry.DevelopmentWithDefaults` |
