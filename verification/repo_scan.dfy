/** What the two repository scanners have in common: the walk over the
    local working tree, and the listing of the remote tree through the
    hosting API with its fallback to the local walk. The scanners differ
    only in how they read the ignore file and in their ignore test. */
module RepoScan {
  import opened Wrappers
  import opened PyValues
  import opened PyStrings
  import opened Seqs
  import opened Dicts

  /** One step of `os.walk(repo_root)`: the directory's absolute path, and
      the paths of the files directly inside it, already made relative to
      the repository root. */
  datatype WalkEntry = WalkEntry(root: string, files: seq<string>)

  /** The patterns both scanners always add to those of the ignore file. */
  const BuiltinPatterns: set<string> := {".git", "__pycache__"}

  /** The patterns an ignore file's lines contribute: the stripped form of
      every line the scanner's line test `keeps` accepts. */
  function FilePatterns(keeps: string -> bool, lines: seq<string>): (pats: set<string>)
    ensures forall p :: p in pats <==> exists l :: l in lines && keeps(l) && Strip(l) == p
  {
    if lines == [] then {}
    else
      var rest := FilePatterns(keeps, lines[1..]);
      assert forall l :: l in lines <==> l == lines[0] || l in lines[1..];
      (if keeps(lines[0]) then {Strip(lines[0])} else {}) + rest
  }

  /** The pattern set: the ignore file's patterns, when the file exists,
      and always `.git` and `__pycache__`. */
  function ParsePatterns(keeps: string -> bool, ignoreFile: Option<seq<string>>): (pats: set<string>)
    ensures BuiltinPatterns <= pats
    ensures forall p :: p in pats <==>
              p in BuiltinPatterns
              || (ignoreFile.Some? && exists l :: l in ignoreFile.value && keeps(l) && Strip(l) == p)
  {
    match ignoreFile
    case None => BuiltinPatterns
    case Some(lines) => FilePatterns(keeps, lines) + BuiltinPatterns
  }

  /** A kept line contributes its stripped form to the patterns. */
  lemma KeptLineIsPattern(keeps: string -> bool, lines: seq<string>, line: string)
    requires line in lines && keeps(line)
    ensures Strip(line) in ParsePatterns(keeps, Some(lines))
  {
  }

  /** The walk skips every file of a directory whose absolute path contains
      some pattern as a substring. */
  predicate RootSkipped(pats: set<string>, root: string): (b: bool)
    ensures root in pats ==> b
    ensures forall pat :: pat in pats && (StartsWith(root, pat) || EndsWith(root, pat)) ==> b
    ensures pats == {} ==> !b
  {
    assert root in pats ==> OccursAt(root, root, 0);
    assert forall pat :: pat in pats && (StartsWith(root, pat) || EndsWith(root, pat)) ==> Contains(root, pat) by {
      forall pat | pat in pats && (StartsWith(root, pat) || EndsWith(root, pat)) ensures Contains(root, pat) {
        PrefixOrSuffixIsSubstring(root, pat);
      }
    }
    exists pat | pat in pats :: Contains(root, pat)
  }

  /** Every file the walk visits, in walk order. */
  function AllFiles(walk: seq<WalkEntry>): seq<string> {
    if walk == [] then [] else walk[0].files + AllFiles(walk[1..])
  }

  /** The files one walk step contributes. */
  function EntryFiles(pats: set<string>, ignored: string -> bool, e: WalkEntry): seq<string> {
    if RootSkipped(pats, e.root) then [] else Filter(p => !ignored(p), e.files)
  }

  /** The local scan loop: for each directory the walk visits, unless its
      root is skipped, the relative paths of its files that are not
      ignored, appended in order. */
  function Scan(pats: set<string>, ignored: string -> bool, walk: seq<WalkEntry>): (r: seq<string>)
    ensures forall p :: p in r ==> !ignored(p)
  {
    if walk == [] then []
    else
      var head := EntryFiles(pats, ignored, walk[0]);
      var rest := Scan(pats, ignored, walk[1..]);
      head + rest
  }

  /** Every scanned path is a file of a directory whose root is not
      skipped. */
  lemma {:induction false} ScanProvenance(pats: set<string>, ignored: string -> bool, walk: seq<WalkEntry>, p: string)
    requires p in Scan(pats, ignored, walk)
    ensures exists i :: 0 <= i < |walk| && !RootSkipped(pats, walk[i].root) && p in walk[i].files
    decreases |walk|
  {
    if p !in EntryFiles(pats, ignored, walk[0]) {
      ScanProvenance(pats, ignored, walk[1..], p);
      var j :| 0 <= j < |walk[1..]| && !RootSkipped(pats, walk[1..][j].root) && p in walk[1..][j].files;
      assert walk[1..][j] == walk[j + 1];
    }
  }

  /** Every file of a directory whose root is not skipped is scanned,
      unless it is ignored. */
  lemma {:induction false} ScanComplete(pats: set<string>, ignored: string -> bool, walk: seq<WalkEntry>, i: nat, p: string)
    requires i < |walk| && !RootSkipped(pats, walk[i].root) && p in walk[i].files && !ignored(p)
    ensures p in Scan(pats, ignored, walk)
    decreases i
  {
    if i == 0 {
      assert p in EntryFiles(pats, ignored, walk[0]);
    } else {
      assert walk[1..][i - 1] == walk[i];
      ScanComplete(pats, ignored, walk[1..], i - 1, p);
    }
  }

  /** A path is scanned exactly when it is not ignored and is a file of a
      directory whose root is not skipped. */
  lemma {:induction false} ScanMembership(pats: set<string>, ignored: string -> bool, walk: seq<WalkEntry>)
    ensures forall p :: p in Scan(pats, ignored, walk) <==>
              !ignored(p) && exists i :: 0 <= i < |walk| && !RootSkipped(pats, walk[i].root) && p in walk[i].files
  {
    forall p | p in Scan(pats, ignored, walk) {
      ScanProvenance(pats, ignored, walk, p);
    }
    forall p, i | 0 <= i < |walk| && !RootSkipped(pats, walk[i].root) && p in walk[i].files && !ignored(p)
      ensures p in Scan(pats, ignored, walk)
    {
      ScanComplete(pats, ignored, walk, i, p);
    }
  }

  /** The scan keeps a selection of the walked files, in walk order. */
  lemma {:induction false} ScanIsSubseqOfWalk(pats: set<string>, ignored: string -> bool, walk: seq<WalkEntry>)
    ensures IsSubseq(Scan(pats, ignored, walk), AllFiles(walk))
    decreases |walk|
  {
    if walk != [] {
      ScanIsSubseqOfWalk(pats, ignored, walk[1..]);
      var e := walk[0];
      if RootSkipped(pats, e.root) {
        SubseqPrepend<string>([], e.files, []);
      } else {
        FilterIsSubseq(p => !ignored(p), e.files);
      }
      SubseqConcat(EntryFiles(pats, ignored, e), e.files,
                   Scan(pats, ignored, walk[1..]), AllFiles(walk[1..]));
    }
  }

  lemma {:induction false} ScanAppend(pats: set<string>, ignored: string -> bool, w1: seq<WalkEntry>, w2: seq<WalkEntry>)
    ensures Scan(pats, ignored, w1 + w2) == Scan(pats, ignored, w1) + Scan(pats, ignored, w2)
    decreases |w1|
  {
    if w1 == [] {
      assert w1 + w2 == w2;
    } else {
      var h := EntryFiles(pats, ignored, w1[0]);
      assert (w1 + w2)[0] == w1[0];
      assert (w1 + w2)[1..] == w1[1..] + w2;
      ScanAppend(pats, ignored, w1[1..], w2);
      assert Scan(pats, ignored, w1 + w2) == h + Scan(pats, ignored, w1[1..] + w2);
      assert Scan(pats, ignored, w1) == h + Scan(pats, ignored, w1[1..]);
      ConcatAssoc(h, Scan(pats, ignored, w1[1..]), Scan(pats, ignored, w2));
    }
  }

  /** A directory whose root is skipped contributes no file: the scan is
      the same with its walk step removed. */
  lemma SkippedRootContributesNothing(pats: set<string>, ignored: string -> bool, walk: seq<WalkEntry>, i: nat)
    requires i < |walk| && RootSkipped(pats, walk[i].root)
    ensures Scan(pats, ignored, walk) == Scan(pats, ignored, walk[..i] + walk[i + 1..])
  {
    var pre, post := walk[..i], walk[i + 1..];
    var mid := [walk[i]] + post;
    assert walk == pre + mid;
    assert mid[0] == walk[i] && mid[1..] == post;
    assert EntryFiles(pats, ignored, walk[i]) == [];
    assert Scan(pats, ignored, mid) == Scan(pats, ignored, post);
    ScanAppend(pats, ignored, pre, mid);
    ScanAppend(pats, ignored, pre, post);
  }

  /** A scanner with more patterns and an ignore test that ignores more
      keeps a subsequence of what one with fewer patterns and a test that
      ignores less keeps, on the same walk. */
  lemma {:induction false} ScanMono(patsMore: set<string>, patsLess: set<string>,
                                    more: string -> bool, less: string -> bool, walk: seq<WalkEntry>)
    requires patsLess <= patsMore
    requires forall p :: less(p) ==> more(p)
    ensures IsSubseq(Scan(patsMore, more, walk), Scan(patsLess, less, walk))
    decreases |walk|
  {
    if walk != [] {
      ScanMono(patsMore, patsLess, more, less, walk[1..]);
      var e := walk[0];
      var hm, hl := EntryFiles(patsMore, more, e), EntryFiles(patsLess, less, e);
      if RootSkipped(patsLess, e.root) {
        var pat :| pat in patsLess && Contains(e.root, pat);
        assert pat in patsMore;
        assert hm == [] && hl == [];
      } else if RootSkipped(patsMore, e.root) {
        assert hm == [];
      } else {
        FilterMono(p => !more(p), p => !less(p), e.files);
      }
      assert IsSubseq(hm, hl);
      SubseqConcat(hm, hl, Scan(patsMore, more, walk[1..]), Scan(patsLess, less, walk[1..]));
    }
  }

  /** `file["type"] == "blob"` for an entry of the remote tree. */
  predicate IsBlob(entry: Value) {
    Subscript(entry, "type") == Some(VStr("blob"))
  }

  /** `file["path"]`, for an entry known to have one. */
  function PathOf(entry: Value): Value {
    Subscript(entry, "path").GetOr(VNone)
  }

  /** An entry the list comprehension can read: it has a "type", and a
      "path" too when it is a blob. */
  predicate Readable(entry: Value) {
    Subscript(entry, "type").Some? && (IsBlob(entry) ==> Subscript(entry, "path").Some?)
  }

  /** `[file["path"] for file in repo_tree if file["type"] == "blob"]`: the
      paths of the blob entries, in tree order; an entry it cannot read
      raises. */
  function BlobPaths(tree: seq<Value>): (r: Option<seq<Value>>)
    ensures r.Some? <==> forall i :: 0 <= i < |tree| ==> Readable(tree[i])
    ensures r.Some? ==> r.value == Map(PathOf, Filter(IsBlob, tree))
  {
    if tree == [] then Some([])
    else if !Readable(tree[0]) then None
    else
      match BlobPaths(tree[1..])
      case None =>
        assert !Readable(tree[1..][(var i :| 0 <= i < |tree[1..]| && !Readable(tree[1..][i]); i)]);
        None
      case Some(rest) =>
        assert forall i :: 1 <= i < |tree| ==> tree[i] == tree[1..][i - 1];
        MapFilterCons(PathOf, IsBlob, tree);
        Some((if IsBlob(tree[0]) then [PathOf(tree[0])] else []) + rest)
  }

  /** `response.json().get("tree", [])` iterated by the comprehension. */
  function RemoteTree(body: Option<Value>): (r: Option<seq<Value>>)
    ensures body.None? ==> r.None?
    ensures body.Some? && body.value.VDict? && "tree" !in Keys(body.value.entries) ==> r == Some([])
    ensures r.Some? ==> body.Some? && body.value.VDict?
    ensures && body.Some? && body.value.VDict? && Get(body.value.entries, "tree").Some?
            && Get(body.value.entries, "tree").value.VList?
            ==> r == BlobPaths(Get(body.value.entries, "tree").value.items)
  {
    match body
    case None => None
    case Some(b) =>
      match GetMethod(b, "tree", VList([]))
      case None => None
      case Some(tree) =>
        match Iterate(tree)
        case None => None
        case Some(entries) => BlobPaths(entries)
  }

  /** `fetch_repo_structure(repo_name, local)`: the local scan when asked
      for, otherwise the remote listing, falling back to the local scan
      when the API answers with any status other than 200. `response` is
      the API's answer, None when the request raises. */
  function FetchStructure(local: bool, localScan: seq<string>, response: Option<HttpResponse>): (r: Option<seq<Value>>)
    ensures local ==> r == Some(Strs(localScan))
    ensures !local && response.Some? && response.value.status != 200 ==> r == Some(Strs(localScan))
    ensures !local && response.None? ==> r.None?
    ensures !local && response.Some? && response.value.status == 200 ==>
              r == RemoteTree(response.value.body)
  {
    if local then Some(Strs(localScan))
    else
      match response
      case None => None
      case Some(resp) =>
        if resp.status != 200 then Some(Strs(localScan)) else RemoteTree(resp.body)
  }

  /** A successful remote listing holds only the paths of blob entries, in
      tree order. */
  lemma RemoteListingKeepsBlobs(body: Value, entries: seq<Value>)
    requires GetMethod(body, "tree", VList([])) == Some(VList(entries))
    requires forall i :: 0 <= i < |entries| ==> Readable(entries[i])
    ensures FetchStructure(false, [], Some(HttpResponse(200, Some(body))))
            == Some(Map(PathOf, Filter(IsBlob, entries)))
  {
  }
}
