/** Category 1 (dead files): the confidence formula and the name-pattern
    classifier of analyze_repo.py (`calculate_confidence`, `find_dead_files`). */
module Scoring {
  import opened Common
  import opened Sorting

  // ---------------------------------------------------------------------------
  // Confidence bands used by the report
  // ---------------------------------------------------------------------------

  const QuickWinFloor := 80
  const DecisionFloor := 50

  predicate IsQuickWin(confidence: int) { confidence >= QuickWinFloor }

  predicate IsDecisionNeeded(confidence: int) { DecisionFloor <= confidence < QuickWinFloor }

  // ---------------------------------------------------------------------------
  // calculate_confidence
  // ---------------------------------------------------------------------------

  /** Start from 50, add the positive signals, add one age bonus (the first
      tier that applies), take off at most one recency penalty and the
      import penalty, then clamp to 0..100. */
  function CalculateConfidence(matchesPattern: bool, isAiArtifact: bool, isDuplicate: bool,
                               isImported: bool, ageDays: int): (score: int)
    ensures 0 <= score <= 100
    ensures ageDays < 14 && !isImported ==> score <= 65
    ensures isImported ==> score <= 75
    ensures !IsQuickWin(score) <== ageDays < 14 || isImported
  {
    var score := 50
      + (if matchesPattern then 20 else 0)
      + (if isAiArtifact then 15 else 0)
      + (if isDuplicate then 15 else 0)
      + (if ageDays > 180 then 15 else if ageDays > 90 then 10 else if ageDays > 60 then 5 else 0)
      - (if ageDays < 14 then 35 else if ageDays < 30 then 20 else 0)
      - (if isImported then 40 else 0);
    Max(0, Min(100, score))
  }

  /** An older file never scores lower than a newer one with the same signals. */
  lemma ConfidenceMonotoneInAge(matchesPattern: bool, isAiArtifact: bool, isDuplicate: bool,
                                isImported: bool, younger: int, older: int)
    requires younger <= older
    ensures CalculateConfidence(matchesPattern, isAiArtifact, isDuplicate, isImported, younger)
         <= CalculateConfidence(matchesPattern, isAiArtifact, isDuplicate, isImported, older)
  {
  }

  /** Being imported never raises the score; each positive signal never lowers it. */
  lemma ConfidenceMonotoneInSignals(m: bool, a: bool, d: bool, age: int)
    ensures CalculateConfidence(m, a, d, true, age) <= CalculateConfidence(m, a, d, false, age)
    ensures CalculateConfidence(false, a, d, false, age) <= CalculateConfidence(true, a, d, false, age)
    ensures CalculateConfidence(m, false, d, false, age) <= CalculateConfidence(m, true, d, false, age)
    ensures CalculateConfidence(m, a, false, false, age) <= CalculateConfidence(m, a, true, false, age)
  {
  }

  /** The two reference points of the dead-file classifier: a pattern match with
      no session-artifact name scores 85 when older than 180 days and 35 when
      five days old; at exactly 180 days it scores 80, still a quick win. */
  lemma DeadPatternReferencePoints()
    ensures forall age :: age > 180 ==> CalculateConfidence(true, false, false, false, age) == 85
    ensures CalculateConfidence(true, false, false, false, 180) == 80
    ensures CalculateConfidence(true, false, false, false, 5) == 35
  {
  }

  // ---------------------------------------------------------------------------
  // Pattern tables (matched with re.match and re.IGNORECASE)
  // ---------------------------------------------------------------------------

  const DeadFilePatterns: seq<string> := [
    @".*_old\.(md|py|js|ts|jsx|tsx|go|rs|txt|json|yaml|yml)$",
    @".*_backup\.(md|py|js|ts|jsx|tsx|go|rs|txt|json|yaml|yml)$",
    @".*_bak\.(md|py|js|ts|jsx|tsx|go|rs|txt|json|yaml|yml)$",
    @".*\.bak$",
    @".*\.backup$",
    @".*\.old$",
    @"^backup_.*",
    @"^old_.*",
    @"^temp_.*",
    @"^tmp_.*",
    @".*\.tmp$",
    @".*\.temp$",
    @".*_v\d+\.(md|py|js|ts|jsx|tsx|go|rs|txt)$",
    @".*_copy\.(md|py|js|ts|jsx|tsx|go|rs|txt)$",
    @".*_copy\d*\.(md|py|js|ts|jsx|tsx|go|rs|txt)$",
    @".*\sCopy\.(md|py|js|ts|jsx|tsx|go|rs|txt)$",
    @".*\s\(\d+\)\.(md|py|js|ts|jsx|tsx|go|rs|txt)$",
    @"^draft_.*",
    @"^scratch_.*",
    @"^notes_.*\.md$",
    @"^test_.*\.py$",
    @"^debug_.*\.(py|js|ts)$",
    @"^scratch.*\.(py|js|ts)$",
    @"^experiment.*\.(py|js|ts)$",
    @"^try_.*\.(py|js|ts)$",
    @"^check_.*\.(py|js|ts)$",
    @"^verify_.*\.(py|js|ts)$"
  ]

  const AiToolArtifacts: seq<string> := [
    @"^CLAUDE-CONTEXT\.md$",
    @"^PLAN\.md$",
    @"^DEBUG\.md$",
    @"^TODO-claude\.md$",
    @"^NOTES\.md$",
    @"^context\.md$",
    @"^session-notes\.md$",
    @"^AI-CONTEXT\.md$",
    @"^AI-NOTES\.md$",
    @"^TODO-ai\.md$"
  ]

  // ---------------------------------------------------------------------------
  // First matching pattern
  // ---------------------------------------------------------------------------

  /** Index of the first pattern at or after i that matches, or -1. */
  function FirstMatchFrom(patterns: seq<string>, subject: string, matches: Matcher, i: nat): (k: int)
    requires i <= |patterns|
    ensures k == -1 || i <= k < |patterns|
    ensures k >= 0 ==> matches(patterns[k], subject)
    ensures forall j :: i <= j < (if k < 0 then |patterns| else k) ==> !matches(patterns[j], subject)
    decreases |patterns| - i
  {
    if i == |patterns| then -1
    else if matches(patterns[i], subject) then i
    else FirstMatchFrom(patterns, subject, matches, i + 1)
  }

  /** The pattern a `for pattern in patterns: if re.match(...): ...; break`
      loop settles on: the first one in table order that matches. */
  function FirstMatching(patterns: seq<string>, subject: string, matches: Matcher): Option<string>
  {
    var k := FirstMatchFrom(patterns, subject, matches, 0);
    if k < 0 then None else Some(patterns[k])
  }

  /** p is the first pattern of the table that matches the subject. */
  predicate IsFirstMatch(patterns: seq<string>, subject: string, matches: Matcher, p: string)
  {
    exists k :: 0 <= k < |patterns| && patterns[k] == p && matches(p, subject)
                && forall j :: 0 <= j < k ==> !matches(patterns[j], subject)
  }

  lemma FirstMatchingSpec(patterns: seq<string>, subject: string, matches: Matcher)
    ensures FirstMatching(patterns, subject, matches).None?
        <==> forall j :: 0 <= j < |patterns| ==> !matches(patterns[j], subject)
    ensures FirstMatching(patterns, subject, matches).Some? ==>
              IsFirstMatch(patterns, subject, matches, FirstMatching(patterns, subject, matches).value)
  {
  }

  /** The loop with `break` itself. */
  method FirstMatch(patterns: seq<string>, subject: string, matches: Matcher) returns (matched: Option<string>)
    ensures matched == FirstMatching(patterns, subject, matches)
  {
    matched := None;
    var i := 0;
    while i < |patterns|
      invariant 0 <= i <= |patterns|
      invariant FirstMatchFrom(patterns, subject, matches, 0) == FirstMatchFrom(patterns, subject, matches, i)
    {
      if matches(patterns[i], subject) {
        matched := Some(patterns[i]);
        break;
      }
      i := i + 1;
    }
  }

  // ---------------------------------------------------------------------------
  // find_dead_files
  // ---------------------------------------------------------------------------

  /** What the walk and `os.stat` report for one file; `stat` is None when
      `os.stat` raised. */
  datatype FileStat = FileStat(sizeBytes: int, ageDays: int)
  datatype FileEntry = FileEntry(name: string, relPath: string, stat: Option<FileStat>)

  datatype DeadFile = DeadFile(path: string, pattern: string, sizeBytes: int, ageDays: int,
                               confidence: int, isAiArtifact: bool)

  function DeadFileConfidence(d: DeadFile): int { d.confidence }

  /** Session-artifact names are tried first; only when none matches are the
      stale-name patterns tried. */
  function DeadFileMatch(name: string, matches: Matcher): Option<(string, bool)>
  {
    match FirstMatching(AiToolArtifacts, name, matches)
    case Some(p) => Some((p, true))
    case None =>
      match FirstMatching(DeadFilePatterns, name, matches)
      case Some(p) => Some((p, false))
      case None => None
  }

  /** The finding for one file, if any: `matches_pattern` is always true, the
      file is never marked duplicate or imported. */
  function DeadFileEntry(f: FileEntry, matches: Matcher): Option<DeadFile>
  {
    match DeadFileMatch(f.name, matches)
    case None => None
    case Some((pattern, isAi)) =>
      match f.stat
      case None => None
      case Some(st) =>
        Some(DeadFile(f.relPath, pattern, st.sizeBytes, st.ageDays,
                      CalculateConfidence(true, isAi, false, false, st.ageDays), isAi))
  }

  /** The finding for one file, as a function of the file. */
  function DeadFileOf(matches: Matcher): FileEntry -> Option<DeadFile>
  {
    f => DeadFileEntry(f, matches)
  }

  /** The findings in walk order, before sorting. */
  function DeadFileItems(files: seq<FileEntry>, matches: Matcher): seq<DeadFile>
  {
    FilterMap(files, DeadFileOf(matches))
  }

  lemma DeadFileItemsMembers(files: seq<FileEntry>, matches: Matcher, d: DeadFile)
    ensures d in DeadFileItems(files, matches)
        <==> exists i :: 0 <= i < |files| && DeadFileEntry(files[i], matches) == Some(d)
  {
    FilterMapSpec(files, DeadFileOf(matches), d);
    if exists f :: f in files && DeadFileEntry(f, matches) == Some(d) {
      var f :| f in files && DeadFileEntry(f, matches) == Some(d);
      var i :| 0 <= i < |files| && files[i] == f;
    }
  }

  /** Every dead-file finding: its pattern matches the file name, it is a
      session artifact exactly when some artifact pattern matches, and its
      confidence is the formula with only the pattern signal and the age. */
  lemma DeadFileEntrySpec(f: FileEntry, matches: Matcher)
    ensures DeadFileEntry(f, matches).Some? ==>
      var d := DeadFileEntry(f, matches).value;
      && f.stat.Some?
      && d.path == f.relPath
      && d.ageDays == f.stat.value.ageDays
      && matches(d.pattern, f.name)
      && (d.isAiArtifact <==> exists j :: 0 <= j < |AiToolArtifacts| && matches(AiToolArtifacts[j], f.name))
      && (d.isAiArtifact ==> IsFirstMatch(AiToolArtifacts, f.name, matches, d.pattern))
      && (!d.isAiArtifact ==> IsFirstMatch(DeadFilePatterns, f.name, matches, d.pattern))
      && d.confidence == CalculateConfidence(true, d.isAiArtifact, false, false, d.ageDays)
      && 35 <= d.confidence <= 100
    ensures DeadFileEntry(f, matches).None? ==>
      f.stat.None? ||
      ((forall j :: 0 <= j < |AiToolArtifacts| ==> !matches(AiToolArtifacts[j], f.name)) &&
       (forall j :: 0 <= j < |DeadFilePatterns| ==> !matches(DeadFilePatterns[j], f.name)))
  {
    FirstMatchingSpec(AiToolArtifacts, f.name, matches);
    FirstMatchingSpec(DeadFilePatterns, f.name, matches);
  }

  lemma DeadFileItemsSnoc(files: seq<FileEntry>, f: FileEntry, matches: Matcher)
    ensures DeadFileItems(files + [f], matches)
         == DeadFileItems(files, matches) + (if DeadFileEntry(f, matches).Some? then [DeadFileEntry(f, matches).value] else [])
  {
    FilterMapSnoc(files, f, DeadFileOf(matches));
  }

  /** Sorting keeps exactly the findings of the walked files. */
  lemma SortedDeadFilesMembers(files: seq<FileEntry>, matches: Matcher)
    ensures forall d :: d in SortDesc(DeadFileItems(files, matches), DeadFileConfidence)
                  <==> exists i :: 0 <= i < |files| && DeadFileEntry(files[i], matches) == Some(d)
  {
    var found := DeadFileItems(files, matches);
    forall d ensures d in SortDesc(found, DeadFileConfidence)
                 <==> exists i :: 0 <= i < |files| && DeadFileEntry(files[i], matches) == Some(d) {
      assert d in SortDesc(found, DeadFileConfidence) <==> d in multiset(found);
      DeadFileItemsMembers(files, matches, d);
    }
  }

  /** Walks the files in order, keeps those with a matching pattern and a
      readable stat, and sorts by confidence, highest first. */
  method FindDeadFiles(files: seq<FileEntry>, matches: Matcher) returns (items: seq<DeadFile>)
    ensures items == SortDesc(DeadFileItems(files, matches), DeadFileConfidence)
    ensures NonIncreasing(items, DeadFileConfidence)
    ensures forall d :: d in items <==> exists i :: 0 <= i < |files| && DeadFileEntry(files[i], matches) == Some(d)
  {
    var found: seq<DeadFile> := [];
    for i := 0 to |files|
      invariant found == DeadFileItems(files[..i], matches)
    {
      var f := files[i];
      var pattern := FirstMatch(AiToolArtifacts, f.name, matches);
      var isAi := pattern.Some?;
      if pattern.None? {
        pattern := FirstMatch(DeadFilePatterns, f.name, matches);
      }
      var m := if pattern.Some? then Some((pattern.value, isAi)) else None;
      assert DeadFileMatch(f.name, matches) == m;
      if pattern.Some? && f.stat.Some? {
        var st := f.stat.value;
        var confidence := CalculateConfidence(true, isAi, false, false, st.ageDays);
        found := found + [DeadFile(f.relPath, pattern.value, st.sizeBytes, st.ageDays, confidence, isAi)];
      }
      assert found == DeadFileItems(files[..i + 1], matches) by {
        assert files[..i + 1] == files[..i] + [f];
        DeadFileItemsSnoc(files[..i], f, matches);
      }
    }
    assert files[..|files|] == files;
    items := SortDesc(found, DeadFileConfidence);
    SortedDeadFilesMembers(files, matches);
  }
}
