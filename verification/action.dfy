/** The standalone GitHub action of `action/main.py`: it keeps the PR's
    Python and JavaScript files, asks the language model to review each, and posts
    the reviews as one comment. */
module Action {
  import opened Wrappers
  import opened Dicts
  import opened PyValues
  import opened PyStrings
  import opened Seqs

  const NoFeedback := "No feedback generated."
  const FeedbackHeader := "### AI-Powered PR Review Feedback\n"

  /** `filename.endswith((".py", ".js"))`. */
  predicate IsSourceFile(name: string) {
    EndsWith(name, ".py") || EndsWith(name, ".js")
  }

  /** `file["filename"]` when it is a string; any other entry makes the
      lookup or the `.endswith` call raise. */
  function FilenameOf(entry: Value): Option<string> {
    match Subscript(entry, "filename")
    case Some(VStr(name)) => Some(name)
    case _ => None
  }

  function FilenameOrEmpty(entry: Value): string {
    FilenameOf(entry).GetOr("")
  }

  /** The comprehension over the listed files: the names ending in `.py`
      or `.js`, in listing order; an unreadable entry raises. */
  function SourceFiles(entries: seq<Value>): (r: Option<seq<string>>)
    ensures r.Some? <==> forall i :: 0 <= i < |entries| ==> FilenameOf(entries[i]).Some?
    ensures r.Some? ==> r.value == Filter(IsSourceFile, Map(FilenameOrEmpty, entries))
  {
    if entries == [] then Some([])
    else
      match FilenameOf(entries[0])
      case None => None
      case Some(name) =>
        var names := Map(FilenameOrEmpty, entries);
        assert names == [name] + Map(FilenameOrEmpty, entries[1..]);
        assert forall i :: 1 <= i < |entries| ==> entries[i] == entries[1..][i - 1];
        match SourceFiles(entries[1..])
        case None =>
          assert exists i :: 0 <= i < |entries| && FilenameOf(entries[i]).None? by {
            var j :| 0 <= j < |entries[1..]| && FilenameOf(entries[1..][j]).None?;
            assert entries[j + 1] == entries[1..][j];
          }
          None
        case Some(rest) =>
          Some(if IsSourceFile(name) then [name] + rest else rest)
  }

  /** `get_pr_files()`. `response` is the answer to the files listing, None
      when reading the event file or the request raised. A status other
      than 200 gives `[]`. */
  function GetPrFiles(response: Option<HttpResponse>): (r: Option<seq<string>>)
    ensures response.None? ==> r.None?
    ensures response.Some? && response.value.status != 200 ==> r == Some([])
    ensures r.Some? ==> forall f :: f in r.value ==> IsSourceFile(f)
    ensures response.Some? && response.value.status == 200 && response.value.body.Some?
            && Iterate(response.value.body.value).Some?
            ==> r == SourceFiles(Iterate(response.value.body.value).value)
    ensures response.Some? && response.value.status == 200
            && (response.value.body.None? || Iterate(response.value.body.value).None?)
            ==> r.None?
  {
    match response
    case None => None
    case Some(HttpResponse(status, body)) =>
      if status != 200 then Some([])
      else
        match body
        case None => None
        case Some(b) =>
          match Iterate(b)
          case None => None
          case Some(entries) => SourceFiles(entries)
  }

  /** `response.json().get("choices", [{}])[0]`: the first choice, None
      when a step raises. */
  function FirstChoice(body: Value): (r: Option<Value>)
    ensures body.VDict? && "choices" !in Keys(body.entries) ==> r == Some(VDict([]))
    ensures body.VDict? && Get(body.entries, "choices") == Some(VList([])) ==> r.None?
    ensures forall cs :: body.VDict? && Get(body.entries, "choices") == Some(VList(cs)) && cs != [] ==>
              r == Some(cs[0])
    ensures r.Some? ==> && body.VDict?
                        && ("choices" in Keys(body.entries) ==>
                              exists cs :: Get(body.entries, "choices") == Some(VList(cs)) && cs != [] && r.value == cs[0])
  {
    match GetMethod(body, "choices", VList([VDict([])]))
    case Some(VList(choices)) => if choices == [] then None else Some(choices[0])
    case _ => None
  }

  /** `generate_review(file_content)`, given the decoded reply of the
      completion request (None when the request or the decoding raised):
      the first choice's `text`, or the fixed text when there is none. */
  function GenerateReview(body: Option<Value>): (r: Option<Value>)
    ensures body.Some? && body.value.VDict? && "choices" !in Keys(body.value.entries) ==>
              r == Some(VStr(NoFeedback))
    ensures body.Some? && FirstChoice(body.value).Some? && FirstChoice(body.value).value.VDict? ==>
              r == Some(GetOr(FirstChoice(body.value).value.entries, "text", VStr(NoFeedback)))
    ensures r.Some? ==> body.Some? && FirstChoice(body.value).Some? && FirstChoice(body.value).value.VDict?
  {
    match body
    case None => None
    case Some(b) =>
      match FirstChoice(b)
      case None => None
      case Some(choice) => GetMethod(choice, "text", VStr(NoFeedback))
  }

  /** The feedback block of one file. */
  function Block(file: string, review: string): string {
    "#### File: " + file + "\n```\n" + review + "\n```\n"
  }

  /** The blocks of all files, in order. */
  function Blocks(files: seq<string>, reviews: seq<string>): string
    requires |files| == |reviews|
  {
    if files == [] then "" else Block(files[0], reviews[0]) + Blocks(files[1..], reviews[1..])
  }

  lemma {:induction false} BlocksAppend(files: seq<string>, reviews: seq<string>, f: string, r: string)
    requires |files| == |reviews|
    ensures Blocks(files + [f], reviews + [r]) == Blocks(files, reviews) + Block(f, r)
    decreases |files|
  {
    if files == [] {
      assert files + [f] == [f] && reviews + [r] == [r];
    } else {
      assert (files + [f])[1..] == files[1..] + [f];
      assert (reviews + [r])[1..] == reviews[1..] + [r];
      BlocksAppend(files[1..], reviews[1..], f, r);
    }
  }

  /** The comment body: the header, then one block per file in order. */
  function Feedback(files: seq<string>, reviews: seq<string>): (fb: string)
    requires |files| == |reviews|
    ensures StartsWith(fb, FeedbackHeader)
  {
    var fb := FeedbackHeader + Blocks(files, reviews);
    assert fb[..|FeedbackHeader|] == FeedbackHeader;
    fb
  }

  /** The loop of `main()` that accumulates the comment with `+=`. */
  method AssembleFeedback(files: seq<string>, reviews: seq<string>) returns (feedback: string)
    requires |files| == |reviews|
    ensures feedback == Feedback(files, reviews)
  {
    feedback := FeedbackHeader;
    var i := 0;
    while i < |files|
      invariant 0 <= i <= |files|
      invariant feedback == FeedbackHeader + Blocks(files[..i], reviews[..i])
    {
      BlocksAppend(files[..i], reviews[..i], files[i], reviews[i]);
      assert files[..i + 1] == files[..i] + [files[i]];
      assert reviews[..i + 1] == reviews[..i] + [reviews[i]];
      feedback := feedback + Block(files[i], reviews[i]);
      i := i + 1;
    }
    assert files[..i] == files && reviews[..i] == reviews;
  }

  /** A file the loop can review: its read and the review of its content
      both succeed. */
  predicate Reviewable(file: string, read: string -> Option<string>, ask: string -> Option<Value>) {
    read(file).Some? && GenerateReview(ask(read(file).value)).Some?
  }

  /** The review of one file as the f-string shows it: None when reading
      the file or reviewing its content raises. */
  function ReviewOf(file: string, read: string -> Option<string>, ask: string -> Option<Value>,
                    show: Value -> string): (r: Option<string>)
    ensures r.Some? <==> Reviewable(file, read, ask)
    ensures r.Some? ==> r.value == Shown(GenerateReview(ask(read(file).value)).value, show)
  {
    match read(file)
    case None => None
    case Some(content) =>
      match GenerateReview(ask(content))
      case None => None
      case Some(review) => Some(Shown(review, show))
  }

  /** The `for` loop over the files: each file's review in turn, None as
      soon as one of them raises. `review` is the review of one file. */
  function ReviewsOf(files: seq<string>, review: string -> Option<string>): (r: Option<seq<string>>)
    ensures r.Some? <==> forall i :: 0 <= i < |files| ==> review(files[i]).Some?
    ensures r.Some? ==> |r.value| == |files|
    ensures r.Some? ==> forall i :: 0 <= i < |files| ==> Some(r.value[i]) == review(files[i])
  {
    if files == [] then Some([])
    else
      assert forall i :: 1 <= i < |files| ==> files[i] == files[1..][i - 1];
      match (review(files[0]), ReviewsOf(files[1..], review))
      case (None, _) => None
      case (Some(_), None) => None
      case (Some(head), Some(rest)) => Some([head] + rest)
  }

  /** The reviews of the files, in order, as the f-string shows them.
      `read` is the file read (None when it raises), `ask` the decoded
      reply of the completion request for a file's content. */
  function Reviews(files: seq<string>, read: string -> Option<string>, ask: string -> Option<Value>,
                   show: Value -> string): (r: Option<seq<string>>)
    ensures r.Some? <==> forall i :: 0 <= i < |files| ==> Reviewable(files[i], read, ask)
    ensures r.Some? ==> |r.value| == |files|
    ensures r.Some? ==> forall i :: 0 <= i < |files| ==>
              r.value[i] == Shown(GenerateReview(ask(read(files[i]).value)).value, show)
  {
    var review := file => ReviewOf(file, read, ask, show);
    assert forall file :: review(file) == ReviewOf(file, read, ask, show);
    ReviewsOf(files, review)
  }

  /** How the action ends. */
  datatype ActionOutcome =
    | NoRelevantFiles
    | Commented(prNumber: Value, body: string)
    | Raised

  /** `main()`. `files` is `get_pr_files()` (None when it raised) and
      `prNumber` the event's PR number (None when reading it raised). */
  function ActionMain(files: Option<seq<string>>, read: string -> Option<string>,
                      ask: string -> Option<Value>, show: Value -> string,
                      prNumber: Option<Value>): (r: ActionOutcome)
    ensures files == Some([]) ==> r == NoRelevantFiles
    ensures files.None? ==> r == Raised
    ensures r.Commented? ==> StartsWith(r.body, FeedbackHeader) && files.Some? && files.value != []
    ensures r.Commented? ==> exists reviews :: Reviews(files.value, read, ask, show) == Some(reviews)
                               && |reviews| == |files.value| && r.body == Feedback(files.value, reviews)
    ensures files.Some? && files.value != [] && Reviews(files.value, read, ask, show).Some? && prNumber.Some? ==>
              r == Commented(prNumber.value, Feedback(files.value, Reviews(files.value, read, ask, show).value))
    ensures files.Some? && files.value != [] && (Reviews(files.value, read, ask, show).None? || prNumber.None?) ==>
              r == Raised
  {
    match files
    case None => Raised
    case Some(fs) =>
      if fs == [] then NoRelevantFiles
      else
        match Reviews(fs, read, ask, show)
        case None => Raised
        case Some(reviews) =>
          match prNumber
          case None => Raised
          case Some(n) => Commented(n, Feedback(fs, reviews))
  }
}
