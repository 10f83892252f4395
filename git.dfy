/** Git archaeology: the parsing of `git log` output into signed and
    pattern-scored commits (`analyze_commits`) and the matching of branch
    names against stale prefixes (`find_stale_branches`). The `git`
    subprocess, the clock and `re.search`/`re.match` are abstracted: the
    command outputs arrive as strings (None when the command failed) and
    the patterns are decided by a `Matcher`. */
module GitArchaeology {
  import opened Common
  import opened Strings
  import opened Sorting
  import opened Scoring

  // ---------------------------------------------------------------------------
  // analyze_commits
  // ---------------------------------------------------------------------------

  /** The `--pretty` format ends every commit with this marker and separates
      hash, subject, date, author and body with `|`. */
  const EntryTerminator := "<<<END>>>"
  const FieldSeparator := "|"

  const AiCommitPatterns: seq<string> := [
    @"^(feat|fix|chore|docs|style|refactor|test|build|ci)(\(.+\))?:",
    @"update(d)?\s+(readme|documentation|docs)",
    @"add(ed)?\s+(new\s+)?(feature|functionality|support)",
    @"implement(ed)?\s+",
    @"refactor(ed)?\s+",
    @"clean(ed)?\s*up",
    @"fix(ed)?\s+(bug|issue|typo|error)",
    @"initial\s+commit",
    @"^wip\b",
    @"minor\s+(changes|updates|fixes)"
  ]

  const AiCommitSignatures: seq<string> := [
    "Generated with Claude Code",
    "Co-Authored-By: Claude",
    "Co-Authored-By: GitHub Copilot",
    "Generated with Copilot",
    "Co-Authored-By: OpenAI Codex",
    "Generated with Codex",
    "Co-Authored-By: Cursor",
    "Generated with Cursor"
  ]

  /** A commit is AI-style only when this many patterns match its subject. */
  const AiScoreThreshold := 2
  const MaxListedCommits := 10
  const MaxListedPatterns := 3

  datatype SignedCommit = SignedCommit(hash: string, message: string, date: string, author: string)

  datatype AiCommit = AiCommit(hash: string, message: string, date: string, author: string,
                               aiScore: int, patterns: seq<string>)

  function AiScore(c: AiCommit): int { c.aiScore }

  /** How one `<<<END>>>`-terminated entry is treated. */
  datatype EntryClass = NotACommit | Signed(signed: SignedCommit) | AiStyle(ai: AiCommit) | Plain

  /** The patterns that `re.search` finds in the subject, in table order. */
  function MatchedPatterns(patterns: seq<string>, subject: string, search: Matcher): (r: seq<string>)
    ensures |r| <= |patterns|
    ensures forall p :: p in r <==> p in patterns && search(p, subject)
  {
    if |patterns| == 0 then []
    else
      var init := patterns[..|patterns| - 1];
      var last := patterns[|patterns| - 1];
      assert patterns == init + [last];
      MatchedPatterns(init, subject, search) + (if search(last, subject) then [last] else [])
  }

  predicate HasSignature(message: string, signatures: seq<string>)
  {
    exists i :: 0 <= i < |signatures| && Contains(message, signatures[i])
  }

  /** The fields of one entry: `split("|", 4)` gives hash, subject, date,
      author and, when present, the body (which may itself contain `|`). */
  datatype CommitFields = CommitFields(hash: string, subject: string, date: string, author: string, body: string)

  /** None for a blank entry or one with fewer than four fields. */
  function ParseEntry(raw: string): Option<CommitFields>
  {
    var entry := Strip(raw);
    if entry == "" then None
    else
      var parts := SplitN(entry, FieldSeparator, 4);
      if |parts| < 4 then None
      else Some(CommitFields(parts[0], parts[1], parts[2], parts[3], if |parts| > 4 then parts[4] else ""))
  }

  function FullMessage(c: CommitFields): string { c.subject + "\n" + c.body }

  function ClassifyFields(c: CommitFields, signatures: seq<string>, patterns: seq<string>, search: Matcher): EntryClass
  {
    if HasSignature(FullMessage(c), signatures) then
      Signed(SignedCommit(Take(c.hash, 8), Take(c.subject, 100), Take(c.date, 10), c.author))
    else
      var matched := MatchedPatterns(patterns, c.subject, search);
      if |matched| >= AiScoreThreshold then
        AiStyle(AiCommit(Take(c.hash, 8), Take(c.subject, 100), Take(c.date, 10), c.author, |matched|,
                         Take(matched, MaxListedPatterns)))
      else Plain
  }

  function ClassifyEntry(raw: string, signatures: seq<string>, patterns: seq<string>, search: Matcher): EntryClass
  {
    match ParseEntry(raw)
    case None => NotACommit
    case Some(c) => ClassifyFields(c, signatures, patterns, search)
  }

  /** The running state of the entry loop: the commit count and the two lists. */
  datatype Tally = Tally(total: nat, signed: seq<SignedCommit>, ai: seq<AiCommit>)

  function TallyStep(t: Tally, c: EntryClass): Tally
  {
    match c
    case NotACommit => t
    case Signed(s) => Tally(t.total + 1, t.signed + [s], t.ai)
    case AiStyle(a) => Tally(t.total + 1, t.signed, t.ai + [a])
    case Plain => Tally(t.total + 1, t.signed, t.ai)
  }

  /** The tally after the given entries: a signed commit is never also
      pattern-scored, so the two lists together never outnumber the commits,
      and there are never more commits than entries. */
  function TallyOf(entries: seq<string>, signatures: seq<string>, patterns: seq<string>, search: Matcher): (t: Tally)
    ensures |t.signed| + |t.ai| <= t.total <= |entries|
  {
    if |entries| == 0 then Tally(0, [], [])
    else TallyStep(TallyOf(entries[..|entries| - 1], signatures, patterns, search),
                   ClassifyEntry(entries[|entries| - 1], signatures, patterns, search))
  }

  /** The result dictionary: no repository, an empty log, or the analysis.
      The ratio is kept as its numerator and denominator. */
  datatype CommitAnalysis =
    | NoRepository
    | EmptyLog
    | Analysed(totalCommits: nat, aiSignedCommits: seq<SignedCommit>, aiSignedCommitCount: nat,
               aiCommits: seq<AiCommit>, aiCommitCount: nat, ratioNumerator: nat, ratioDenominator: nat)

  function AnalysisOf(t: Tally): CommitAnalysis
  {
    Analysed(t.total, Take(t.signed, MaxListedCommits), |t.signed|,
             Take(SortDesc(t.ai, AiScore), MaxListedCommits), |t.ai|, |t.ai|, Max(t.total, 1))
  }

  function CommitAnalysisOf(isRepo: bool, log: Option<string>, search: Matcher): CommitAnalysis
  {
    if !isRepo then NoRepository
    else if log.None? || log.value == "" then EmptyLog
    else AnalysisOf(TallyOf(SplitN(log.value, EntryTerminator, -1), AiCommitSignatures, AiCommitPatterns, search))
  }

  // ---------------------------------------------------------------------------
  // Properties
  // ---------------------------------------------------------------------------

  /** An entry is skipped exactly when it is blank or has fewer than three
      `|` separators, i.e. fewer than four fields. */
  lemma SkippedEntries(raw: string)
    ensures ParseEntry(raw).None? <==> Strip(raw) == "" || CountChar(Strip(raw), '|') < 3
  {
    SplitNCount(Strip(raw), '|', 4);
  }

  /** A signed commit is never scored; a scored commit has at least two
      matching patterns, lists at most three of them, all matching the
      subject, and carries the shortened hash, subject and date. */
  lemma ClassifiedFields(c: CommitFields, signatures: seq<string>, patterns: seq<string>, search: Matcher)
    ensures ClassifyFields(c, signatures, patterns, search).Signed? <==> HasSignature(FullMessage(c), signatures)
    ensures ClassifyFields(c, signatures, patterns, search).AiStyle? ==>
      var a := ClassifyFields(c, signatures, patterns, search).ai;
      && AiScoreThreshold <= a.aiScore <= |patterns|
      && |a.patterns| <= MaxListedPatterns
      && (forall p :: p in a.patterns ==> p in patterns && search(p, c.subject))
      && |a.hash| <= 8 && |a.message| <= 100 && |a.date| <= 10
  {
    if ClassifyFields(c, signatures, patterns, search).AiStyle? {
      var matched := MatchedPatterns(patterns, c.subject, search);
      forall p | p in Take(matched, MaxListedPatterns) ensures p in patterns && search(p, c.subject) {
        assert p in matched;
      }
    }
  }

  /** The reported lists hold at most ten entries each while the counts are
      the full ones, and the ratio's denominator is never zero. */
  lemma AnalysisBounds(t: Tally)
    requires |t.signed| + |t.ai| <= t.total
    ensures var r := AnalysisOf(t);
      && |r.aiSignedCommits| <= MaxListedCommits && |r.aiCommits| <= MaxListedCommits
      && r.aiSignedCommitCount == |t.signed| && r.aiCommitCount == |t.ai|
      && r.aiSignedCommitCount + r.aiCommitCount <= r.totalCommits
      && r.ratioDenominator >= 1 && r.ratioNumerator <= r.ratioDenominator
      && NonIncreasing(r.aiCommits, AiScore)
  {
  }

  // ---------------------------------------------------------------------------
  // The entry loop
  // ---------------------------------------------------------------------------

  /** `any(signature in full_message for signature in AI_COMMIT_SIGNATURES)` */
  method AnySignature(message: string, signatures: seq<string>) returns (found: bool)
    ensures found == HasSignature(message, signatures)
  {
    found := false;
    for i := 0 to |signatures|
      invariant found <==> exists k :: 0 <= k < i && Contains(message, signatures[k])
    {
      if Contains(message, signatures[i]) {
        found := true;
      }
    }
  }

  /** The scoring loop over the patterns: `ai_score += 1` and
      `matched_patterns.append(pattern)` on each hit. */
  method ScoreSubject(subject: string, patterns: seq<string>, search: Matcher)
    returns (aiScore: nat, matched: seq<string>)
    ensures matched == MatchedPatterns(patterns, subject, search) && aiScore == |matched|
  {
    aiScore := 0;
    matched := [];
    for i := 0 to |patterns|
      invariant matched == MatchedPatterns(patterns[..i], subject, search) && aiScore == |matched|
    {
      assert patterns[..i + 1][..i] == patterns[..i];
      if search(patterns[i], subject) {
        aiScore := aiScore + 1;
        matched := matched + [patterns[i]];
      }
    }
    assert patterns[..|patterns|] == patterns;
  }

  /** One pass of the entry loop's body: skip, count as signed, or count
      and score. */
  method TallyEntry(t: Tally, raw: string, signatures: seq<string>, patterns: seq<string>, search: Matcher)
    returns (next: Tally)
    ensures next == TallyStep(t, ClassifyEntry(raw, signatures, patterns, search))
  {
    var fields := ParseEntry(raw);
    if fields.None? {
      return t;
    }
    var c := fields.value;
    var isSigned := AnySignature(FullMessage(c), signatures);
    if isSigned {
      return Tally(t.total + 1, t.signed + [SignedCommit(Take(c.hash, 8), Take(c.subject, 100), Take(c.date, 10), c.author)], t.ai);
    }
    var aiScore, matched := ScoreSubject(c.subject, patterns, search);
    if aiScore >= AiScoreThreshold {
      next := Tally(t.total + 1, t.signed, t.ai + [AiCommit(Take(c.hash, 8), Take(c.subject, 100), Take(c.date, 10),
                                                            c.author, aiScore, Take(matched, MaxListedPatterns))]);
    } else {
      next := Tally(t.total + 1, t.signed, t.ai);
    }
  }

  method TallyEntries(entries: seq<string>, signatures: seq<string>, patterns: seq<string>, search: Matcher)
    returns (t: Tally)
    ensures t == TallyOf(entries, signatures, patterns, search)
  {
    t := Tally(0, [], []);
    for i := 0 to |entries|
      invariant t == TallyOf(entries[..i], signatures, patterns, search)
    {
      assert entries[..i + 1][..i] == entries[..i];
      t := TallyEntry(t, entries[i], signatures, patterns, search);
    }
    assert entries[..|entries|] == entries;
  }

  /** `analyze_commits` over the repository flag and the log output. */
  method AnalyzeCommits(isRepo: bool, log: Option<string>, search: Matcher) returns (result: CommitAnalysis)
    ensures result == CommitAnalysisOf(isRepo, log, search)
    ensures result.NoRepository? <==> !isRepo
    ensures result.Analysed? ==>
      && |result.aiSignedCommits| <= MaxListedCommits && |result.aiCommits| <= MaxListedCommits
      && result.aiSignedCommitCount + result.aiCommitCount <= result.totalCommits
      && result.ratioDenominator == Max(result.totalCommits, 1) >= 1
  {
    if !isRepo {
      return NoRepository;
    }
    if log.None? || log.value == "" {
      return EmptyLog;
    }
    var entries := SplitN(log.value, EntryTerminator, -1);
    var t := TallyEntries(entries, AiCommitSignatures, AiCommitPatterns, search);
    result := Analysed(t.total, Take(t.signed, MaxListedCommits), |t.signed|,
                       Take(SortDesc(t.ai, AiScore), MaxListedCommits), |t.ai|, |t.ai|, Max(t.total, 1));
  }

  // ---------------------------------------------------------------------------
  // find_stale_branches
  // ---------------------------------------------------------------------------

  const StalePatterns: seq<string> := [
    @"^claude-", @"^cursor-", @"^copilot-", @"^codex-", @"^attempt-", @"^test-",
    @"^wip-", @"^experimental-", @"^try-", @"^debug-", @"^feature/wip-", @"^hotfix-\d{8}"
  ]

  const RemotePrefix := "remotes/origin/"
  const MaxStaleBranches := 20

  datatype StaleBranch = StaleBranch(name: string, pattern: string)

  /** The characters of `lstrip("* ")`. */
  predicate IsMarkerChar(c: char) { c == '*' || c == ' ' }

  /** `branch.strip().lstrip("* ").replace(prefix, "")` */
  function NormaliseWith(line: string, prefix: string): string
  {
    Remove(LStrip(Strip(line), IsMarkerChar), prefix)
  }

  function NormaliseBranch(line: string): string
  {
    NormaliseWith(line, RemotePrefix)
  }

  function StaleEntry(line: string, prefix: string, patterns: seq<string>, matches: Matcher): Option<StaleBranch>
  {
    var name := NormaliseWith(line, prefix);
    match FirstMatching(patterns, name, matches)
    case None => None
    case Some(p) => Some(StaleBranch(name, p))
  }

  function StaleOf(prefix: string, patterns: seq<string>, matches: Matcher): string -> Option<StaleBranch>
  {
    (line: string) => StaleEntry(line, prefix, patterns, matches)
  }

  function StaleBranchesWith(isRepo: bool, output: Option<string>, prefix: string, patterns: seq<string>,
                             matches: Matcher): seq<StaleBranch>
  {
    if !isRepo || output.None? || output.value == "" then []
    else Take(FilterMap(Split(output.value, "\n"), StaleOf(prefix, patterns, matches)), MaxStaleBranches)
  }

  function StaleBranchesOf(isRepo: bool, output: Option<string>, matches: Matcher): seq<StaleBranch>
  {
    StaleBranchesWith(isRepo, output, RemotePrefix, StalePatterns, matches)
  }

  /** Stripping a run of dropped characters in front of a string that does not
      itself start with one leaves that string. */
  lemma {:induction false} LStripPrefix(pre: string, s: string, drop: char -> bool)
    requires forall k :: 0 <= k < |pre| ==> drop(pre[k])
    requires |s| > 0 ==> !drop(s[0])
    ensures LStrip(pre + s, drop) == s
  {
    if |pre| > 0 {
      assert (pre + s)[1..] == pre[1..] + s;
      LStripPrefix(pre[1..], s, drop);
    }
  }

  /** A clean branch name: non-empty, no surrounding white space, no leading
      `*`, and no occurrence of the remote prefix inside. */
  predicate CleanBranchName(b: string, prefix: string)
  {
    |b| > 0 && !IsSpace(b[0]) && b[0] != '*' && !IsSpace(b[|b| - 1]) && !Contains(b, prefix)
  }

  lemma NormaliseCurrent(b: string, prefix: string)
    requires CleanBranchName(b, prefix) && |prefix| > 0
    ensures NormaliseWith("* " + b, prefix) == b
  {
    var l := "* " + b;
    assert l[0] == '*' && l[|l| - 1] == b[|b| - 1];
    assert LStrip(l, IsSpace) == l;
    assert RStrip(l, IsSpace) == l;
    LStripPrefix("* ", b, IsMarkerChar);
    RemoveAbsent(b, prefix);
  }

  lemma NormaliseOther(b: string, prefix: string)
    requires CleanBranchName(b, prefix) && |prefix| > 0
    ensures NormaliseWith("  " + b, prefix) == b
  {
    LStripPrefix("  ", b, IsSpace);
    assert RStrip(b, IsSpace) == b;
    assert LStrip(b, IsMarkerChar) == b;
    RemoveAbsent(b, prefix);
  }

  lemma NormaliseRemote(b: string, prefix: string)
    requires CleanBranchName(b, prefix)
    requires |prefix| > 0 && !IsSpace(prefix[0]) && !IsMarkerChar(prefix[0])
    ensures NormaliseWith("  " + prefix + b, prefix) == b
  {
    var r := prefix + b;
    assert "  " + prefix + b == "  " + r;
    LStripPrefix("  ", r, IsSpace);
    assert r[|r| - 1] == b[|b| - 1];
    assert RStrip(r, IsSpace) == r;
    assert LStrip(r, IsMarkerChar) == r;
    StartsWithConcat(prefix, b);
    assert r[|prefix|..] == b;
    assert Remove(r, prefix) == Remove(b, prefix);
    RemoveAbsent(b, prefix);
  }

  /** `git branch -a` lists the current branch as `* name`, the others as
      `  name`, and remote ones as `  remotes/origin/name`; all three come
      out as the bare name. */
  lemma NormaliseListedBranch(b: string)
    requires CleanBranchName(b, RemotePrefix)
    ensures NormaliseBranch("* " + b) == b
    ensures NormaliseBranch("  " + b) == b
    ensures NormaliseBranch("  " + RemotePrefix + b) == b
  {
    NormaliseCurrent(b, RemotePrefix);
    NormaliseOther(b, RemotePrefix);
    NormaliseRemote(b, RemotePrefix);
  }

  /** Every reported branch matched its pattern, no earlier pattern matched
      it, and at most twenty are reported. */
  lemma StaleBranchesSpec(isRepo: bool, output: Option<string>, prefix: string, patterns: seq<string>,
                          matches: Matcher, sb: StaleBranch)
    ensures |StaleBranchesWith(isRepo, output, prefix, patterns, matches)| <= MaxStaleBranches
    ensures sb in StaleBranchesWith(isRepo, output, prefix, patterns, matches) ==>
      exists k :: 0 <= k < |patterns| && patterns[k] == sb.pattern && matches(sb.pattern, sb.name)
        && forall j :: 0 <= j < k ==> !matches(patterns[j], sb.name)
  {
    if sb in StaleBranchesWith(isRepo, output, prefix, patterns, matches) {
      var lines := Split(output.value, "\n");
      assert sb in FilterMap(lines, StaleOf(prefix, patterns, matches));
      FilterMapSpec(lines, StaleOf(prefix, patterns, matches), sb);
      var line :| line in lines && StaleEntry(line, prefix, patterns, matches) == Some(sb);
      var k := FirstMatchFrom(patterns, sb.name, matches, 0);
      assert k >= 0 && patterns[k] == sb.pattern;
    }
  }

  method FindStaleBranchesWith(isRepo: bool, output: Option<string>, prefix: string, patterns: seq<string>,
                               matches: Matcher) returns (stale: seq<StaleBranch>)
    ensures stale == StaleBranchesWith(isRepo, output, prefix, patterns, matches)
  {
    if !isRepo || output.None? || output.value == "" {
      return [];
    }
    var lines := Split(output.value, "\n");
    var found: seq<StaleBranch> := [];
    for i := 0 to |lines|
      invariant found == FilterMap(lines[..i], StaleOf(prefix, patterns, matches))
    {
      FilterMapSnoc(lines[..i], lines[i], StaleOf(prefix, patterns, matches));
      assert lines[..i + 1] == lines[..i] + [lines[i]];
      var branch := Remove(LStrip(Strip(lines[i]), IsMarkerChar), prefix);
      var pattern := FirstMatch(patterns, branch, matches);
      if pattern.Some? {
        found := found + [StaleBranch(branch, pattern.value)];
      }
    }
    assert lines[..|lines|] == lines;
    stale := Take(found, MaxStaleBranches);
  }

  /** `find_stale_branches` over the repository flag and the `git branch -a` output. */
  method FindStaleBranches(isRepo: bool, output: Option<string>, matches: Matcher) returns (stale: seq<StaleBranch>)
    ensures stale == StaleBranchesOf(isRepo, output, matches)
  {
    stale := FindStaleBranchesWith(isRepo, output, RemotePrefix, StalePatterns, matches);
  }
}
