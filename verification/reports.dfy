/** `generate_markdown_report`: the analysis dict rendered as markdown. The
    template is read as a title, then a run of slots — the literal text
    before a placeholder, and the key the placeholder looks up with its
    fallback text — and finally the file-weights section. */
module Reports {
  import opened Wrappers
  import opened Dicts
  import opened PyValues
  import opened PyStrings

  /** The PR title line is not an f-string, so it carries this text
      verbatim instead of the score. */
  const ScorePlaceholder := "{analysis_result.get('score', 'N/A')}"

  const Heading := "# \U{1F3C6} Scoreboard\n"

  const IssuesLead := "\n\n## \U{1F50D} Issues Found\n"

  const WeightsHeading := "\n## \U{1F4C2} File Weights & Importance\n"

  /** A placeholder of the template: the literal text before it, the key
      it reads with `.get`, and the fallback shown when the key is absent. */
  datatype Slot = Slot(lead: string, key: string, fallback: string)

  /** The number of placeholders after the title. */
  const SlotCount := 12

  /** The template's `i`-th placeholder; the mode picks the headings and
      the keys of the summary and of the second section. */
  function SlotAt(isPr: bool, i: nat): (s: Slot)
    requires i < SlotCount
    ensures i < 4 ==> s.fallback == "N/A"
    ensures i == 4 ==> s.key == (if isPr then "pr_summary" else "purpose")
    ensures i == 5 ==> s.key == (if isPr then "impact" else "key_components")
  {
    match i
    case 0 => Slot("\n\n- **Best Practices Score:** ", "best_practices_score", "N/A")
    case 1 => Slot("/10\n- **Security Score:** ", "security_score", "N/A")
    case 2 => Slot("/10\n- **Performance Score:** ", "performance_score", "N/A")
    case 3 => Slot("/10\n- **Privacy Score:** ", "privacy_score", "N/A")
    case 4 =>
      Slot("/10\n\n## \U{1F680} " + (if isPr then "PR Summary" else "Repository Overview")
           + "\n\n### " + (if isPr then "What PR Tries to Achieve" else "Repository Purpose") + "\n",
           if isPr then "pr_summary" else "purpose", "No summary available.")
    case 5 =>
      Slot("\n\n## \U{1F4A1} " + (if isPr then "Impact on the Project" else "Key Components") + "\n",
           if isPr then "impact" else "key_components", "No impact analysis available.")
    case 6 => IssuesSlot
    case 7 => Slot("\n\n## \U{1F4DD} General Suggestions\n", "suggestions", "No suggestions provided.")
    case 8 => Slot("\n\n## \U{1F539} Strengths\n", "strengths", "No strengths identified.")
    case 9 => Slot("\n\n## \U{1F53B} Weaknesses\n", "weaknesses", "No weaknesses identified.")
    case 10 => Slot("\n\n## \U{1F44F} Applause\n", "applause", "No specific praises given.")
    case _ => Slot("\n\n## \U{1F4C8} Areas to Improve\n", "areas_to_improve", "No improvement areas identified.")
  }

  const IssuesSlot := Slot(IssuesLead, "issues_found", "No issues detected.")

  /** The keys the report reads in a mode. */
  function ReadKeys(isPr: bool): set<string> {
    (set i | 0 <= i < SlotCount :: SlotAt(isPr, i).key) + (if isPr then {} else {"file_weights"})
  }

  /** `analysis_result.get(key, fallback)` as shown in the report. */
  function Field(d: Dict<Value>, key: string, fallback: string, show: Value -> string): (r: string)
    ensures key !in Keys(d) ==> r == fallback
    ensures key in Keys(d) ==> r == Shown(Get(d, key).value, show)
  {
    match Get(d, key)
    case None => fallback
    case Some(v) => Shown(v, show)
  }

  /** A slot filled in from the dict. */
  function Filled(d: Dict<Value>, slot: Slot, show: Value -> string): string {
    slot.lead + Field(d, slot.key, slot.fallback, show)
  }

  /** The title: in PR mode followed by the score line with its literal
      placeholder. */
  function Title(isPr: bool): string {
    "\n" + Heading + (if isPr then "\n- **Total PR Score:** " + ScorePlaceholder + "/100" else "")
  }

  /** One line of the file-weights section. */
  function WeightLine(entry: (string, Value), show: Value -> string): string {
    "- `" + entry.0 + "`: Weight " + Shown(entry.1, show) + "\n"
  }

  /** The weight lines, one per entry, in the dict's order. */
  function WeightLines(weights: Dict<Value>, show: Value -> string): string {
    if weights == [] then "" else WeightLine(weights[0], show) + WeightLines(weights[1..], show)
  }

  /** What the loop `file_weights_section += ...` accumulates: adding an
      entry at the end adds its line at the end. */
  lemma {:induction false} WeightLinesAppend(weights: Dict<Value>, entry: (string, Value), show: Value -> string)
    ensures WeightLines(weights + [entry], show) == WeightLines(weights, show) + WeightLine(entry, show)
    decreases |weights|
  {
    if weights == [] {
      assert [] + [entry] == [entry];
    } else {
      assert (weights + [entry])[1..] == weights[1..] + [entry];
      WeightLinesAppend(weights[1..], entry, show);
    }
  }

  /** The file-weights section: empty in PR mode; in repository mode its
      heading followed by one line per entry. None when `file_weights` is
      not a dict, so that `.items()` raises. */
  function WeightsSection(d: Dict<Value>, isPr: bool, show: Value -> string): (r: Option<string>)
    ensures isPr ==> r == Some("")
    ensures !isPr && "file_weights" !in Keys(d) ==> r == Some(WeightsHeading)
    ensures !isPr && r.Some? ==> StartsWith(r.value, WeightsHeading)
    ensures !isPr ==> (r.Some? <==> GetOr(d, "file_weights", VDict([])).VDict?)
  {
    if isPr then Some("")
    else
      match GetOr(d, "file_weights", VDict([]))
      case VDict(weights) =>
        var lines := WeightLines(weights, show);
        assert weights == [] ==> WeightsHeading + lines == WeightsHeading;
        assert (WeightsHeading + lines)[..|WeightsHeading|] == WeightsHeading;
        Some(WeightsHeading + lines)
      case _ => None
  }

  /** The concatenation of the parts, in order. */
  function Join(parts: seq<string>): string {
    if parts == [] then "" else parts[0] + Join(parts[1..])
  }

  lemma {:induction false} JoinSplit(parts: seq<string>, i: nat)
    requires i < |parts|
    ensures Join(parts) == Join(parts[..i]) + parts[i] + Join(parts[i + 1..])
    decreases i
  {
    if i > 0 {
      JoinSplit(parts[1..], i - 1);
      assert parts[1..][..i - 1] == parts[1..i];
      assert parts[1..][i - 1 + 1..] == parts[i + 1..];
      assert parts[..i] == [parts[0]] + parts[1..i];
      assert Join(parts[..i]) == parts[0] + Join(parts[1..i]);
    } else {
      assert parts[..0] == [];
      assert parts[1..] == parts[i + 1..];
    }
  }

  /** The report's parts: the title, the filled slots, the weights section. */
  function Parts(d: Dict<Value>, isPr: bool, section: string, show: Value -> string): (ps: seq<string>)
    ensures |ps| == SlotCount + 2
    ensures ps[0] == Title(isPr) && ps[SlotCount + 1] == "\n" + section + "\n"
    ensures forall i :: 0 <= i < SlotCount ==> ps[i + 1] == Filled(d, SlotAt(isPr, i), show)
  {
    var slots := seq(SlotCount, i requires 0 <= i < SlotCount => Filled(d, SlotAt(isPr, i), show));
    var ps := [Title(isPr)] + slots + ["\n" + section + "\n"];
    assert forall i :: 0 <= i < SlotCount ==> ps[i + 1] == slots[i];
    ps
  }

  /** `generate_markdown_report(analysis_result, is_pr_mode)`. None when
      it raises: the result is not a dict, or in repository mode its
      `file_weights` is not a dict. */
  function GenerateMarkdownReport(result: Value, isPr: bool, show: Value -> string): (r: Option<string>)
    ensures r.Some? <==> result.VDict? && WeightsSection(result.entries, isPr, show).Some?
    ensures !isPr && result.VDict? ==> (r.Some? <==> GetOr(result.entries, "file_weights", VDict([])).VDict?)
    ensures isPr && result.VDict? ==> r.Some?
    ensures r.Some? ==> StartsWith(r.value, "\n" + Heading)
    ensures r.Some? && isPr ==> Contains(r.value, ScorePlaceholder)
    ensures r.Some? ==> EndsWith(r.value, WeightsSection(result.entries, isPr, show).value + "\n")
  {
    match result
    case VDict(d) =>
      (match WeightsSection(d, isPr, show)
       case None => None
       case Some(section) =>
         var ps := Parts(d, isPr, section, show);
         TextShape(ps);
         TitleShape(isPr);
         assert EndsWith(ps[|ps| - 1], section + "\n") by {
           assert ps[|ps| - 1] == "\n" + (section + "\n");
           EndsWithAppended("\n", section + "\n");
         }
         Some(Join(ps)))
    case _ => None
  }

  /** The title starts with the heading and in PR mode carries the score
      placeholder. */
  lemma TitleShape(isPr: bool)
    ensures StartsWith(Title(isPr), "\n" + Heading)
    ensures isPr ==> Contains(Title(isPr), ScorePlaceholder)
  {
    if isPr {
      var before := "\n" + Heading + "\n- **Total PR Score:** ";
      assert Title(isPr) == before + ScorePlaceholder + "/100";
      ContainsMiddle(before, ScorePlaceholder, "/100");
    }
    assert Title(isPr)[..|"\n" + Heading|] == "\n" + Heading;
  }

  /** The first part begins the text and the last part ends it. */
  lemma TextShape(ps: seq<string>)
    requires ps != []
    ensures forall p :: StartsWith(ps[0], p) ==> StartsWith(Join(ps), p)
    ensures forall p :: Contains(ps[0], p) ==> Contains(Join(ps), p)
    ensures forall p :: EndsWith(ps[|ps| - 1], p) ==> EndsWith(Join(ps), p)
  {
    var rest := Join(ps[1..]);
    assert Join(ps) == ps[0] + rest;
    forall p | StartsWith(ps[0], p) ensures StartsWith(Join(ps), p) {
      assert (ps[0] + rest)[..|p|] == ps[0][..|p|];
    }
    forall p | Contains(ps[0], p) ensures Contains(Join(ps), p) {
      var i :| 0 <= i <= |ps[0]| - |p| && OccursAt(ps[0], p, i);
      assert (ps[0] + rest)[i..i + |p|] == ps[0][i..i + |p|];
      assert OccursAt(Join(ps), p, i);
    }
    var n := |ps| - 1;
    JoinSplit(ps, n);
    assert ps[n + 1..] == [];
    var front := Join(ps[..n]);
    assert Join(ps) == front + ps[n];
    forall p | EndsWith(ps[n], p) ensures EndsWith(Join(ps), p) {
      assert (front + ps[n])[|front + ps[n]| - |p|..] == ps[n][|ps[n]| - |p|..];
    }
  }

  /** The report reads only `ReadKeys`: two dicts that agree on those keys
      render the same text, so a key outside them changes nothing. */
  lemma OnlyReadKeysMatter(d1: Dict<Value>, d2: Dict<Value>, isPr: bool, show: Value -> string)
    requires forall k :: k in ReadKeys(isPr) ==> Get(d1, k) == Get(d2, k)
    ensures GenerateMarkdownReport(VDict(d1), isPr, show) == GenerateMarkdownReport(VDict(d2), isPr, show)
  {
    if !isPr {
      assert "file_weights" in ReadKeys(isPr);
      assert GetOr(d1, "file_weights", VDict([])) == GetOr(d2, "file_weights", VDict([]));
    }
    assert WeightsSection(d1, isPr, show) == WeightsSection(d2, isPr, show);
    if WeightsSection(d1, isPr, show).Some? {
      var section := WeightsSection(d1, isPr, show).value;
      SameParts(d1, d2, isPr, section, show);
    }
  }

  lemma SameParts(d1: Dict<Value>, d2: Dict<Value>, isPr: bool, section: string, show: Value -> string)
    requires forall k :: k in ReadKeys(isPr) ==> Get(d1, k) == Get(d2, k)
    ensures Parts(d1, isPr, section, show) == Parts(d2, isPr, section, show)
  {
    var p1, p2 := Parts(d1, isPr, section, show), Parts(d2, isPr, section, show);
    forall i | 0 <= i < |p1| ensures p1[i] == p2[i] {
      if 1 <= i <= SlotCount {
        assert SlotAt(isPr, i - 1).key in ReadKeys(isPr);
      }
    }
  }

  /** A key no slot of the mode reads is read only if it is the weights. */
  lemma UnreadKey(isPr: bool, k: string)
    requires forall i | 0 <= i < SlotCount :: SlotAt(isPr, i).key != k
    requires isPr || k != "file_weights"
    ensures k !in ReadKeys(isPr)
  {
  }

  /** PR mode reads the summary and the impact, but neither the purpose,
      the file weights nor the score. */
  lemma PrModeReadKeys()
    ensures "pr_summary" in ReadKeys(true) && "impact" in ReadKeys(true)
    ensures "purpose" !in ReadKeys(true) && "file_weights" !in ReadKeys(true)
    ensures "score" !in ReadKeys(true)
  {
    assert SlotAt(true, 4).key == "pr_summary" && SlotAt(true, 5).key == "impact";
    forall i | 0 <= i < SlotCount ensures SlotAt(true, i).key != "purpose" {}
    forall i | 0 <= i < SlotCount ensures SlotAt(true, i).key != "file_weights" {}
    forall i | 0 <= i < SlotCount ensures SlotAt(true, i).key != "score" {}
    UnreadKey(true, "purpose");
    UnreadKey(true, "file_weights");
    UnreadKey(true, "score");
  }

  /** Repository mode reads the purpose, the key components and the file
      weights, but neither the PR summary nor the score. */
  lemma RepoModeReadKeys()
    ensures "purpose" in ReadKeys(false) && "key_components" in ReadKeys(false)
    ensures "file_weights" in ReadKeys(false)
    ensures "pr_summary" !in ReadKeys(false) && "score" !in ReadKeys(false)
  {
    assert SlotAt(false, 4).key == "purpose" && SlotAt(false, 5).key == "key_components";
    forall i | 0 <= i < SlotCount ensures SlotAt(false, i).key != "pr_summary" {}
    forall i | 0 <= i < SlotCount ensures SlotAt(false, i).key != "score" {}
    UnreadKey(false, "pr_summary");
    UnreadKey(false, "score");
  }

  /** A slot whose key is absent shows its fallback text right after its
      literal lead, e.g. `N/A` for a sub-score and `No issues detected.`
      for the issues. */
  lemma FallbackShown(d: Dict<Value>, isPr: bool, show: Value -> string, i: nat)
    requires i < SlotCount && SlotAt(isPr, i).key !in Keys(d)
    requires GenerateMarkdownReport(VDict(d), isPr, show).Some?
    ensures Contains(GenerateMarkdownReport(VDict(d), isPr, show).value,
                     SlotAt(isPr, i).lead + SlotAt(isPr, i).fallback)
  {
    var section := WeightsSection(d, isPr, show).value;
    var ps := Parts(d, isPr, section, show);
    JoinSplit(ps, i + 1);
    assert ps[i + 1] == SlotAt(isPr, i).lead + SlotAt(isPr, i).fallback;
    ContainsMiddle(Join(ps[..i + 1]), ps[i + 1], Join(ps[i + 2..]));
  }

  /** A slot whose key is present shows the key's value right after its
      literal lead. */
  lemma ValueShown(d: Dict<Value>, isPr: bool, show: Value -> string, i: nat)
    requires i < SlotCount && Get(d, SlotAt(isPr, i).key).Some?
    requires isPr || GetOr(d, "file_weights", VDict([])).VDict?
    ensures GenerateMarkdownReport(VDict(d), isPr, show).Some?
    ensures Contains(GenerateMarkdownReport(VDict(d), isPr, show).value,
                     SlotAt(isPr, i).lead + Shown(Get(d, SlotAt(isPr, i).key).value, show))
  {
    var section := WeightsSection(d, isPr, show).value;
    var ps := Parts(d, isPr, section, show);
    JoinSplit(ps, i + 1);
    assert ps[i + 1] == SlotAt(isPr, i).lead + Shown(Get(d, SlotAt(isPr, i).key).value, show);
    ContainsMiddle(Join(ps[..i + 1]), ps[i + 1], Join(ps[i + 2..]));
  }

  /** Without `issues_found` the report says `No issues detected.` under
      its heading. */
  lemma NoIssuesFallback(d: Dict<Value>, isPr: bool, show: Value -> string)
    requires "issues_found" !in Keys(d)
    requires GenerateMarkdownReport(VDict(d), isPr, show).Some?
    ensures Contains(GenerateMarkdownReport(VDict(d), isPr, show).value,
                     IssuesLead + "No issues detected.")
  {
    assert SlotAt(isPr, 6) == IssuesSlot;
    FallbackShown(d, isPr, show, 6);
  }

  /** In repository mode the report ends with the weights heading and one
      line per entry of `file_weights`, in the dict's order. */
  lemma RepoReportListsWeights(d: Dict<Value>, weights: Dict<Value>, show: Value -> string)
    requires Get(d, "file_weights") == Some(VDict(weights))
    ensures GenerateMarkdownReport(VDict(d), false, show).Some?
    ensures EndsWith(GenerateMarkdownReport(VDict(d), false, show).value,
                     WeightsHeading + WeightLines(weights, show) + "\n")
  {
    assert WeightsSection(d, false, show) == Some(WeightsHeading + WeightLines(weights, show));
  }
}
