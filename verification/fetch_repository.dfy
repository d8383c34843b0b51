/** The repository scanner of `fetch_repository.py`: ignore-file lines are
    stripped before the comment test, and a path is ignored when a pattern
    is a prefix or a suffix of it. */
module FetchRepository {
  import opened Wrappers
  import opened PyValues
  import opened PyStrings
  import opened Seqs
  import opened RepoScan

  /** A line of the ignore file yields a pattern when, once stripped, it is
      neither empty nor a comment. */
  predicate KeepsLine(line: string): (b: bool)
    ensures StartsWith(line, "#") ==> !b
    ensures (forall k :: 0 <= k < |line| ==> IsSpace(line[k])) ==> !b
  {
    assert StartsWith(line, "#") ==> StartsWith(Strip(line), "#") by {
      if StartsWith(line, "#") {
        CommentSurvivesStrip(line);
      }
    }
    assert (forall k :: 0 <= k < |line| ==> IsSpace(line[k])) ==> Strip(line) == "" by {
      if forall k :: 0 <= k < |line| ==> IsSpace(line[k]) {
        StripBlank(line);
      }
    }
    var t := Strip(line);
    t != "" && !StartsWith(t, "#")
  }

  /** `is_ignored`: some pattern is a prefix or a suffix of the path. */
  predicate IsIgnored(pats: set<string>, path: string): (b: bool)
    ensures path in pats ==> b
    ensures b ==> exists pat | pat in pats :: Contains(path, pat)
  {
    assert path in pats ==> StartsWith(path, path);
    var b := exists pat | pat in pats :: StartsWith(path, pat) || EndsWith(path, pat);
    assert b ==> exists pat | pat in pats :: Contains(path, pat) by {
      if b {
        var pat :| pat in pats && (StartsWith(path, pat) || EndsWith(path, pat));
        PrefixOrSuffixIsSubstring(path, pat);
      }
    }
    b
  }

  lemma SuffixIsIgnored(pats: set<string>, pat: string, path: string)
    requires pat in pats && EndsWith(path, pat)
    ensures IsIgnored(pats, path)
  {
  }

  /** `_fetch_local_repo_structure`: no returned path is ignored, so none
      starts or ends with `.git` or `__pycache__`. */
  function LocalScan(ignoreFile: Option<seq<string>>, walk: seq<WalkEntry>): (r: seq<string>)
    ensures forall p :: p in r ==> !IsIgnored(ParsePatterns(KeepsLine, ignoreFile), p)
    ensures forall p :: p in r ==>
              && !StartsWith(p, ".git") && !EndsWith(p, ".git")
              && !StartsWith(p, "__pycache__") && !EndsWith(p, "__pycache__")
    ensures forall p :: p in r <==>
              && !IsIgnored(ParsePatterns(KeepsLine, ignoreFile), p)
              && exists i :: 0 <= i < |walk| && !RootSkipped(ParsePatterns(KeepsLine, ignoreFile), walk[i].root)
                                             && p in walk[i].files
    ensures IsSubseq(r, AllFiles(walk))
  {
    var pats := ParsePatterns(KeepsLine, ignoreFile);
    ScanIsSubseqOfWalk(pats, p => IsIgnored(pats, p), walk);
    ScanMembership(pats, p => IsIgnored(pats, p), walk);
    Scan(pats, p => IsIgnored(pats, p), walk)
  }

  /** `fetch_repo_structure(repo_name, local)` of this scanner. */
  function FetchRepoStructure(local: bool, ignoreFile: Option<seq<string>>, walk: seq<WalkEntry>,
                              response: Option<HttpResponse>): (r: Option<seq<Value>>)
    ensures local || (response.Some? && response.value.status != 200) ==>
              r == Some(Strs(LocalScan(ignoreFile, walk)))
    ensures !local && response.None? ==> r.None?
    ensures !local && response.Some? && response.value.status == 200 ==>
              r == RemoteTree(response.value.body)
  {
    FetchStructure(local, LocalScan(ignoreFile, walk), response)
  }

  const TestLine := "test\n"
  const Latest := "latest"

  /** The matching is looser than ignore-file globs: an ignore file whose
      one line is `test` ignores the path `latest`, because `test` is a
      suffix of it. */
  lemma SuffixPatternIgnoresUnrelatedPath()
    ensures IsIgnored(ParsePatterns(KeepsLine, Some([TestLine])), Latest)
  {
    var lines := [TestLine];
    TestLineIsKeptSuffix();
    KeptLineIsPattern(KeepsLine, lines, TestLine);
    SuffixIsIgnored(ParsePatterns(KeepsLine, Some(lines)), Strip(TestLine), Latest);
  }

  lemma TestLineIsKeptSuffix()
    ensures KeepsLine(TestLine) && EndsWith(Latest, Strip(TestLine))
  {
    var w := "test";
    StripTestLine();
    assert w[0] == 't';
    assert Latest == "la" + w;
    EndsWithAppended("la", w);
  }

  lemma StripTestLine()
    ensures Strip(TestLine) == "test"
  {
    var w, t := "test", "\n";
    assert !IsSpace(w[0]) && !IsSpace(w[3]) && IsSpace(t[0]);
    StripPadded("", w, t);
    assert "" + w + t == TestLine;
  }
}
