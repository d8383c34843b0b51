/** The repository scanner and the repository analysis of
    `analyze_repository.py`: the comment test looks at the unstripped line,
    and a path is ignored when a pattern occurs anywhere in it. */
module AnalyzeRepository {
  import opened Wrappers
  import opened PyValues
  import opened PyStrings
  import opened Seqs
  import opened RepoScan
  import FetchRepository

  /** A line of the ignore file yields a pattern when its stripped form is
      not empty and the line itself, as read, does not start with `#`. */
  predicate KeepsLine(line: string): (b: bool)
    ensures FetchRepository.KeepsLine(line) ==> b
    ensures b && !FetchRepository.KeepsLine(line) ==> StartsWith(Strip(line), "#")
  {
    Strip(line) != "" && !StartsWith(line, "#")
  }

  /** `is_ignored`: some pattern occurs anywhere in the path. */
  predicate IsIgnored(pats: set<string>, path: string): (b: bool)
    ensures FetchRepository.IsIgnored(pats, path) ==> b
    ensures path in pats ==> b
  {
    assert path in pats ==> OccursAt(path, path, 0);
    exists pat | pat in pats :: Contains(path, pat)
  }

  /** `fetch_local_repo_structure`: no returned path contains `.git` or
      `__pycache__` anywhere. */
  function LocalScan(ignoreFile: Option<seq<string>>, walk: seq<WalkEntry>): (r: seq<string>)
    ensures forall p :: p in r ==> !IsIgnored(ParsePatterns(KeepsLine, ignoreFile), p)
    ensures forall p :: p in r ==> !Contains(p, ".git") && !Contains(p, "__pycache__")
    ensures forall p :: p in r <==>
              && !IsIgnored(ParsePatterns(KeepsLine, ignoreFile), p)
              && exists i :: 0 <= i < |walk| && !RootSkipped(ParsePatterns(KeepsLine, ignoreFile), walk[i].root)
                                             && p in walk[i].files
    ensures IsSubseq(r, AllFiles(walk))
  {
    var pats := ParsePatterns(KeepsLine, ignoreFile);
    ScanIsSubseqOfWalk(pats, p => IsIgnored(pats, p), walk);
    ScanMembership(pats, p => IsIgnored(pats, p), walk);
    Scan(pats, p => IsIgnored(pats, p), walk)
  }

  /** `fetch_repo_structure(repo_name, local)` of this scanner. */
  function FetchRepoStructure(local: bool, ignoreFile: Option<seq<string>>, walk: seq<WalkEntry>,
                              response: Option<HttpResponse>): (r: Option<seq<Value>>)
    ensures local || (response.Some? && response.value.status != 200) ==>
              r == Some(Strs(LocalScan(ignoreFile, walk)))
    ensures !local && response.None? ==> r.None?
    ensures !local && response.Some? && response.value.status == 200 ==>
              r == RemoteTree(response.value.body)
  {
    FetchStructure(local, LocalScan(ignoreFile, walk), response)
  }

  /** `analyze_repo_with_ai`. `structure` is the result of
      `fetch_repo_structure` (None when it raised), `apiKey` the value of
      OPENAI_API_KEY, and `llm` the parsed answer of the language model, None when
      the request or `json.loads` raised. The file list only feeds the
      prompt, so apart from raising it does not affect the result. */
  function AnalyzeRepoWithAi(structure: Option<seq<Value>>, apiKey: Option<string>,
                             llm: Option<Value>): (r: Option<Value>)
    ensures r.None? <==> structure.None?
    ensures structure.Some? && (apiKey.None? || apiKey == Some("")) ==> r == Some(VDict([]))
    ensures structure.Some? && llm.None? ==> r == Some(VDict([]))
    ensures r.Some? && r.value != VDict([]) ==> r == llm
    ensures structure.Some? && apiKey.Some? && apiKey != Some("") && llm.Some? ==> r == llm
  {
    match structure
    case None => None
    case Some(_) =>
      if apiKey.None? || apiKey == Some("") then Some(VDict([]))
      else
        match llm
        case None => Some(VDict([]))
        case Some(answer) => Some(answer)
  }

  /** Prefix-or-suffix matching implies substring matching. */
  lemma IgnoredRefines(pats: set<string>, path: string)
    requires FetchRepository.IsIgnored(pats, path)
    ensures IsIgnored(pats, path)
  {
    var pat :| pat in pats && (StartsWith(path, pat) || EndsWith(path, pat));
    PrefixOrSuffixIsSubstring(path, pat);
  }

  /** Every pattern the other scanner reads from an ignore file, this
      scanner reads too. */
  lemma PatternsInclude(ignoreFile: Option<seq<string>>)
    ensures ParsePatterns(FetchRepository.KeepsLine, ignoreFile) <= ParsePatterns(KeepsLine, ignoreFile)
  {
    forall p | p in ParsePatterns(FetchRepository.KeepsLine, ignoreFile) ensures p in ParsePatterns(KeepsLine, ignoreFile) {
      if p !in BuiltinPatterns {
        var l :| l in ignoreFile.value && FetchRepository.KeepsLine(l) && Strip(l) == p;
        if StartsWith(l, "#") {
          CommentSurvivesStrip(l);
        }
        assert KeepsLine(l);
      }
    }
  }

  /** For the same ignore file and the same walk, this scanner's local
      result is a subsequence of the other scanner's. */
  lemma LocalScanRefines(ignoreFile: Option<seq<string>>, walk: seq<WalkEntry>)
    ensures IsSubseq(LocalScan(ignoreFile, walk), FetchRepository.LocalScan(ignoreFile, walk))
  {
    var more, less := ParsePatterns(KeepsLine, ignoreFile), ParsePatterns(FetchRepository.KeepsLine, ignoreFile);
    PatternsInclude(ignoreFile);
    forall p | FetchRepository.IsIgnored(less, p) ensures IsIgnored(more, p) {
      IgnoredRefines(less, p);
      var pat :| pat in less && Contains(p, pat);
      assert pat in more;
    }
    ScanMono(more, less, p => IsIgnored(more, p), p => FetchRepository.IsIgnored(less, p), walk);
  }

  lemma StripIndentedComment()
    ensures Strip("  #x") == "#x"
  {
    var a, w := "  ", "#x";
    assert IsSpace(a[0]) && IsSpace(a[1]) && !IsSpace(w[0]) && !IsSpace(w[1]);
    StripPadded(a, w, "");
    assert a + w + "" == "  #x";
  }

  /** An indented comment line is a pattern here, since the line as read
      starts with spaces, but not for the other scanner. */
  lemma IndentedCommentBecomesPattern()
    ensures "#x" in ParsePatterns(KeepsLine, Some(["  #x"]))
    ensures "#x" !in ParsePatterns(FetchRepository.KeepsLine, Some(["  #x"]))
  {
    IndentedCommentKept();
    IndentedCommentDropped();
  }

  /** This scanner keeps the indented comment line and strips it to `#x`. */
  lemma IndentedCommentKept()
    ensures "#x" in ParsePatterns(KeepsLine, Some(["  #x"]))
  {
    StripIndentedComment();
    var lines := ["  #x"];
    assert KeepsLine(lines[0]);
    KeptLineIsPattern(KeepsLine, lines, lines[0]);
  }

  /** The other scanner drops the indented comment line, so its only
      patterns are the built-in ones. */
  lemma IndentedCommentDropped()
    ensures "#x" !in ParsePatterns(FetchRepository.KeepsLine, Some(["  #x"]))
  {
    StripIndentedComment();
    var lines := ["  #x"];
    assert !FetchRepository.KeepsLine(lines[0]);
    assert FilePatterns(FetchRepository.KeepsLine, lines) == {} by {
      assert lines[1..] == [];
    }
    assert "#x" !in BuiltinPatterns;
  }
}
