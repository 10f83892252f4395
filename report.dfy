/** The report of `analyze_repo`: the five KonMari categories, the git
    archaeology, the context-heavy files, the summary counts, the quick wins
    and the decisions drawn from the findings by confidence, and the
    cleanliness verdict (`check_cleanliness`). The filesystem walks, git and
    the clock are abstracted into `RepoInputs`: each analyser receives what
    its walk, its file reads or its git command would have produced. */
module Report {
  import opened Common
  import opened Sorting
  import opened Scoring
  import Dup = Duplicates
  import Deps = Dependencies
  import Docs = Documentation
  import Cfg = Configuration
  import Leg = Legacy
  import Heavy = ContextHeavy
  import Git = GitArchaeology

  /** A finding of one of the five categories, as it appears in
      `quick_wins` and `decisions_needed`. */
  datatype Item =
    | DeadItem(dead: DeadFile)
    | DuplicateItem(group: Dup.DuplicateGroup)
    | DependencyItem(orphan: Deps.DepOrphan)
    | DocumentationItem(issue: Docs.DriftIssue)
    | ConfigItem(config: Cfg.ConfigOrphan)
    | LegacyEntry(legacy: Leg.LegacyItem)

  /** `item.get("confidence", 0)`: every kind of finding carries one. */
  function Confidence(i: Item): int
  {
    match i
    case DeadItem(d) => d.confidence
    case DuplicateItem(g) => g.confidence
    case DependencyItem(o) => o.confidence
    case DocumentationItem(d) => d.confidence
    case ConfigItem(o) => o.confidence
    case LegacyEntry(l) => l.confidence
  }

  /** The `items` of the five categories; the first category also holds the
      duplicate groups. */
  datatype Categories = Categories(
    deadFiles: seq<DeadFile>, duplicates: seq<Dup.DuplicateGroup>, dependencies: seq<Deps.DepOrphan>,
    documentation: seq<Docs.DriftIssue>, configuration: seq<Cfg.ConfigOrphan>, legacy: seq<Leg.LegacyItem>)

  /** The `count` of each category, in the order 1 to 5. */
  function CategoryCounts(c: Categories): seq<nat>
  {
    [|c.deadFiles| + |c.duplicates|, |c.dependencies|, |c.documentation|, |c.configuration|, |c.legacy|]
  }

  /** The item belongs to the category its kind names. */
  predicate Listed(c: Categories, i: Item)
  {
    match i
    case DeadItem(d) => d in c.deadFiles
    case DuplicateItem(g) => g in c.duplicates
    case DependencyItem(o) => o in c.dependencies
    case DocumentationItem(d) => d in c.documentation
    case ConfigItem(o) => o in c.configuration
    case LegacyEntry(l) => l in c.legacy
  }

  function LegacyItems(c: Categories): seq<Item>
  {
    MapSeq(c.legacy, (l: Leg.LegacyItem) => LegacyEntry(l))
  }

  /** `all_items`: dead files, duplicate groups, dependencies, documentation
      and configuration findings, in that order; legacy code is not among them. */
  function AllItems(c: Categories): (r: seq<Item>)
    ensures |r| == |c.deadFiles| + |c.duplicates| + |c.dependencies| + |c.documentation| + |c.configuration|
  {
    MapSeq(c.deadFiles, (d: DeadFile) => DeadItem(d))
    + MapSeq(c.duplicates, (g: Dup.DuplicateGroup) => DuplicateItem(g))
    + MapSeq(c.dependencies, (o: Deps.DepOrphan) => DependencyItem(o))
    + MapSeq(c.documentation, (d: Docs.DriftIssue) => DocumentationItem(d))
    + MapSeq(c.configuration, (o: Cfg.ConfigOrphan) => ConfigItem(o))
  }

  lemma MapSeqMembers<T, U>(xs: seq<T>, f: T -> U, y: U)
    ensures y in MapSeq(xs, f) <==> exists k :: 0 <= k < |xs| && f(xs[k]) == y
  {
    if exists k :: 0 <= k < |xs| && f(xs[k]) == y {
      var k :| 0 <= k < |xs| && f(xs[k]) == y;
      assert MapSeq(xs, f)[k] == y;
    }
  }

  /** The items of `all_items` are exactly the listed findings of the first
      four categories. */
  lemma AllItemsListed(c: Categories)
    ensures forall i :: i in AllItems(c) <==> Listed(c, i) && !i.LegacyEntry?
  {
    forall i ensures i in AllItems(c) <==> Listed(c, i) && !i.LegacyEntry? {
      MapSeqMembers(c.deadFiles, (d: DeadFile) => DeadItem(d), i);
      MapSeqMembers(c.duplicates, (g: Dup.DuplicateGroup) => DuplicateItem(g), i);
      MapSeqMembers(c.dependencies, (o: Deps.DepOrphan) => DependencyItem(o), i);
      MapSeqMembers(c.documentation, (d: Docs.DriftIssue) => DocumentationItem(d), i);
      MapSeqMembers(c.configuration, (o: Cfg.ConfigOrphan) => ConfigItem(o), i);
    }
  }

  lemma LegacyItemsListed(c: Categories)
    ensures forall i :: i in LegacyItems(c) <==> Listed(c, i) && i.LegacyEntry?
  {
    forall i ensures i in LegacyItems(c) <==> Listed(c, i) && i.LegacyEntry? {
      MapSeqMembers(c.legacy, (l: Leg.LegacyItem) => LegacyEntry(l), i);
    }
  }

  function IsQuickWinItem(i: Item): bool { IsQuickWin(Confidence(i)) }

  function IsDecisionItem(i: Item): bool { IsDecisionNeeded(Confidence(i)) }

  /** `quick_wins`: the findings of the first four categories scoring at least 80. */
  function QuickWins(c: Categories): (r: seq<Item>)
    ensures forall i :: i in r <==> Listed(c, i) && !i.LegacyEntry? && Confidence(i) >= 80
  {
    AllItemsListed(c);
    Filter(AllItems(c), IsQuickWinItem)
  }

  /** `decisions_needed`: the findings of all five categories scoring at
      least 50 and below 80. */
  function DecisionsNeeded(c: Categories): (r: seq<Item>)
    ensures forall i :: i in r <==> Listed(c, i) && 50 <= Confidence(i) < 80
  {
    AllItemsListed(c);
    LegacyItemsListed(c);
    Filter(AllItems(c) + LegacyItems(c), IsDecisionItem)
  }

  datatype Summary = Summary(deadFiles: nat, duplicates: nat, orphanedDependencies: nat, documentationDrift: nat,
                             orphanedConfigs: nat, legacyMarkers: nat, contextHeavy: nat, totalIssues: nat)

  /** The `summary` block: one count per list; the context-heavy files are
      counted but are not issues. */
  function SummaryOf(c: Categories, heavy: seq<Heavy.HeavyFile>): Summary
  {
    Summary(|c.deadFiles|, |c.duplicates|, |c.dependencies|, |c.documentation|, |c.configuration|,
            |c.legacy|, |heavy|,
            |c.deadFiles| + |c.duplicates| + |c.dependencies| + |c.documentation| + |c.configuration| + |c.legacy|)
  }

  datatype Cleanliness = Clean | NearlyClean(issuesCount: nat) | NeedsTidying(issuesCount: nat)

  const NearlyCleanLimit := 5

  /** The issues `check_cleanliness` counts: legacy markers and context-heavy
      files are left out. */
  function CleanlinessIssues(s: Summary): nat
  {
    s.deadFiles + s.duplicates + s.orphanedDependencies + s.documentationDrift + s.orphanedConfigs
  }

  /** `check_cleanliness`: clean with no issue, nearly clean with one to
      four, and otherwise in need of tidying; the two last report the count. */
  function CheckCleanliness(s: Summary): (r: Cleanliness)
    ensures r.Clean? <==> CleanlinessIssues(s) == 0
    ensures r.NearlyClean? <==> 0 < CleanlinessIssues(s) < NearlyCleanLimit
    ensures r.NeedsTidying? <==> CleanlinessIssues(s) >= NearlyCleanLimit
    ensures !r.Clean? ==> r.issuesCount == CleanlinessIssues(s)
  {
    var issues := CleanlinessIssues(s);
    if issues == 0 then Clean
    else if issues < NearlyCleanLimit then NearlyClean(issues)
    else NeedsTidying(issues)
  }

  /** The analysis dictionary, without the timestamp, the path, the file
      count, the sampling flags and the monorepo detection. */
  datatype Analysis = Analysis(
    hasGit: bool, ecosystems: set<string>, categories: Categories,
    commits: Git.CommitAnalysis, staleBranches: seq<Git.StaleBranch>,
    contextHeavyFiles: seq<Heavy.HeavyFile>, summary: Summary,
    quickWins: seq<Item>, decisionsNeeded: seq<Item>, cleanliness: Cleanliness)

  function Assemble(ecosystems: set<string>, c: Categories, commits: Git.CommitAnalysis,
                    stale: seq<Git.StaleBranch>, heavy: seq<Heavy.HeavyFile>): Analysis
  {
    var summary := SummaryOf(c, heavy);
    Analysis(!commits.NoRepository?, ecosystems, c, commits, stale, heavy, summary,
             QuickWins(c), DecisionsNeeded(c), CheckCleanliness(summary))
  }

  // ---------------------------------------------------------------------------
  // Properties
  // ---------------------------------------------------------------------------

  /** The total counts every finding of the five categories once (it is the
      sum of the category counts and the length of `all_items` plus the
      legacy items), and cleanliness counts exactly `all_items`. */
  lemma SummaryCounts(c: Categories, heavy: seq<Heavy.HeavyFile>)
    ensures var s := SummaryOf(c, heavy);
      && s.totalIssues == |AllItems(c)| + |c.legacy|
      && s.totalIssues == CategoryCounts(c)[0] + CategoryCounts(c)[1] + CategoryCounts(c)[2]
                          + CategoryCounts(c)[3] + CategoryCounts(c)[4]
      && CleanlinessIssues(s) == |AllItems(c)|
      && s.contextHeavy == |heavy|
  {
  }

  /** No finding is both a quick win and a decision, and together they are
      never more than the total number of issues. */
  lemma {:induction false} BandsPartitionIssues(c: Categories, heavy: seq<Heavy.HeavyFile>)
    ensures forall i :: i in QuickWins(c) ==> i !in DecisionsNeeded(c)
    ensures |QuickWins(c)| + |DecisionsNeeded(c)| <= SummaryOf(c, heavy).totalIssues
  {
    var all, legacy := AllItems(c), LegacyItems(c);
    FilterAppend(all, legacy, IsDecisionItem);
    FilterDisjointLength(all, IsQuickWinItem, IsDecisionItem);
  }

  /** A listed finding scoring 50 or more is in exactly one of the two lists:
      the quick wins from 80 on (legacy code excepted), the decisions below. */
  lemma BandOfListedItem(c: Categories, i: Item)
    requires Listed(c, i) && Confidence(i) >= 50
    ensures i in QuickWins(c) <==> Confidence(i) >= 80 && !i.LegacyEntry?
    ensures i in DecisionsNeeded(c) <==> Confidence(i) < 80
  {
  }

  /** Legacy items score 40 and so appear in neither list. */
  lemma LegacyNeverListed(c: Categories)
    requires forall l :: l in c.legacy ==> l.confidence == Leg.LegacyConfidence
    ensures forall i :: i in QuickWins(c) ==> !i.LegacyEntry?
    ensures forall i :: i in DecisionsNeeded(c) ==> !i.LegacyEntry?
  {
  }

  /** Duplicate groups (70), unused dependencies (60 or 65) and orphaned
      configurations (55 or 70) always need a decision and are never quick
      wins. */
  lemma MidBandCategoriesNeedDecisions(c: Categories)
    requires forall g :: g in c.duplicates ==> g.confidence == Dup.DuplicateConfidence
    requires forall o :: o in c.dependencies ==> o.confidence == Deps.JsConfidence || o.confidence == Deps.PythonConfidence
    requires forall o :: o in c.configuration ==> o.confidence == 55 || o.confidence == 70
    ensures forall g :: g in c.duplicates ==> DuplicateItem(g) in DecisionsNeeded(c) && DuplicateItem(g) !in QuickWins(c)
    ensures forall o :: o in c.dependencies ==> DependencyItem(o) in DecisionsNeeded(c) && DependencyItem(o) !in QuickWins(c)
    ensures forall o :: o in c.configuration ==> ConfigItem(o) in DecisionsNeeded(c) && ConfigItem(o) !in QuickWins(c)
  {
  }

  /** A document with four or more broken references is a quick win, one
      with fewer needs a decision. */
  lemma DocumentationBands(c: Categories)
    requires forall d :: d in c.documentation ==> d.brokenCount >= 1 && d.confidence == Docs.DocConfidence(d.brokenCount)
    ensures forall d :: d in c.documentation ==>
      (DocumentationItem(d) in QuickWins(c) <==> d.brokenCount >= 4) &&
      (DocumentationItem(d) in DecisionsNeeded(c) <==> d.brokenCount < 4)
  {
  }

  /** A repository judged clean has no quick win and, legacy items scoring
      40, nothing to decide. */
  lemma CleanHasNothingToDo(c: Categories, heavy: seq<Heavy.HeavyFile>)
    requires forall l :: l in c.legacy ==> l.confidence == Leg.LegacyConfidence
    requires CheckCleanliness(SummaryOf(c, heavy)).Clean?
    ensures QuickWins(c) == [] && DecisionsNeeded(c) == []
  {
    SummaryCounts(c, heavy);
    assert AllItems(c) == [];
    assert AllItems(c) + LegacyItems(c) == LegacyItems(c);
    LegacyItemsListed(c);
    FilterNone(LegacyItems(c), IsDecisionItem);
  }

  /** Legacy markers and context-heavy files never change the cleanliness verdict. */
  lemma CleanlinessIgnoresLegacyAndContext(c: Categories, heavy: seq<Heavy.HeavyFile>,
                                           legacy: seq<Leg.LegacyItem>, heavy': seq<Heavy.HeavyFile>)
    ensures CheckCleanliness(SummaryOf(c.(legacy := legacy), heavy')) == CheckCleanliness(SummaryOf(c, heavy))
  {
  }

  /** The band facts of an assembled report, from the confidences its
      analysers guarantee. */
  lemma AssembledBands(ecosystems: set<string>, c: Categories, commits: Git.CommitAnalysis,
                       stale: seq<Git.StaleBranch>, heavy: seq<Heavy.HeavyFile>)
    requires forall g :: g in c.duplicates ==> g.confidence == Dup.DuplicateConfidence
    requires forall o :: o in c.dependencies ==> o.confidence == Deps.JsConfidence || o.confidence == Deps.PythonConfidence
    requires forall d :: d in c.documentation ==> d.brokenCount >= 1 && d.confidence == Docs.DocConfidence(d.brokenCount)
    requires forall o :: o in c.configuration ==> o.confidence == 55 || o.confidence == 70
    requires forall l :: l in c.legacy ==> l.confidence == Leg.LegacyConfidence
    ensures var a := Assemble(ecosystems, c, commits, stale, heavy);
      && (forall i :: i in a.quickWins || i in a.decisionsNeeded ==> !i.LegacyEntry?)
      && (forall g :: g in c.duplicates ==> DuplicateItem(g) in a.decisionsNeeded)
      && (forall o :: o in c.dependencies ==> DependencyItem(o) in a.decisionsNeeded)
      && (forall o :: o in c.configuration ==> ConfigItem(o) in a.decisionsNeeded)
      && (forall d :: d in c.documentation ==>
            DocumentationItem(d) in (if d.brokenCount >= 4 then a.quickWins else a.decisionsNeeded))
      && (a.cleanliness.Clean? ==> a.quickWins == [] && a.decisionsNeeded == [])
  {
    LegacyNeverListed(c);
    MidBandCategoriesNeedDecisions(c);
    DocumentationBands(c);
    if CheckCleanliness(SummaryOf(c, heavy)).Clean? {
      CleanHasNothingToDo(c, heavy);
    }
  }

  // ---------------------------------------------------------------------------
  // analyze_repo
  // ---------------------------------------------------------------------------

  /** What the walks, file reads and git commands deliver to each analyser. */
  datatype RepoInputs = RepoInputs(
    ecosystems: set<string>,
    deadCandidates: seq<FileEntry>, deadMatches: Matcher,
    namedFiles: seq<Dup.NamedFile>,
    deps: Deps.DepInputs,
    docs: seq<Docs.DocFile>, walkedNames: seq<(string, string)>,
    configFiles: seq<Cfg.ConfigFile>, rootFiles: set<string>, configMatches: Matcher,
    sourceFiles: seq<Leg.SourceFile>, findAll: Leg.FindAll,
    isRepo: bool, log: Option<string>, commitSearch: Matcher,
    branches: Option<string>, branchMatches: Matcher,
    textFiles: seq<Heavy.TextFile>)

  /** Run every analyser in the KonMari order and assemble the report; the
      `package.json` read for the JavaScript dependencies is the one the
      configuration check reads. */
  method AnalyzeRepo(inp: RepoInputs) returns (analysis: Analysis)
    ensures analysis == Assemble(inp.ecosystems, analysis.categories,
                                 Git.CommitAnalysisOf(inp.isRepo, inp.log, inp.commitSearch),
                                 Git.StaleBranchesOf(inp.isRepo, inp.branches, inp.branchMatches),
                                 analysis.contextHeavyFiles)
    ensures analysis.categories.deadFiles == SortDesc(DeadFileItems(inp.deadCandidates, inp.deadMatches), DeadFileConfidence)
    ensures analysis.categories.duplicates
            == Take(SortDesc(Dup.CandidateGroups(inp.namedFiles), Dup.GroupCount), Dup.MaxDuplicateGroups)
    ensures Deps.OrphanReport(inp.ecosystems, inp.deps, analysis.categories.dependencies)
    ensures analysis.summary.orphanedDependencies
            == (if "python" in inp.ecosystems then |Deps.PythonOrphans(inp.deps.pythonImports, inp.deps.requirements)| else 0)
             + (if "javascript" in inp.ecosystems then |Deps.JsUnused(inp.deps.packageJson, inp.deps.jsSpecs)| else 0)
             + (if "go" in inp.ecosystems then |Deps.GoUnused(inp.deps.goMod, inp.deps.goImports)| else 0)
             + (if "rust" in inp.ecosystems then |Deps.RustUnused(inp.deps.cargo, inp.deps.rustUses)| else 0)
    ensures analysis.categories.documentation == Docs.DriftIssues(inp.docs, Docs.ExistingFiles(inp.walkedNames))
    ensures analysis.categories.configuration
            == Cfg.ConfigOrphans(inp.configFiles, Cfg.ConfigPatterns, Cfg.InstalledPackages(inp.deps.packageJson),
                                 inp.rootFiles, inp.configMatches)
    ensures Leg.LegacyReport(inp.sourceFiles, inp.findAll, analysis.categories.legacy)
    ensures analysis.contextHeavyFiles
            == Take(SortDesc(Heavy.HeavyItems(inp.textFiles), Heavy.EstimatedTokens), Heavy.MaxHeavyFiles)
    ensures forall i :: i in analysis.quickWins || i in analysis.decisionsNeeded ==> !i.LegacyEntry?
    ensures forall g :: g in analysis.categories.duplicates ==> DuplicateItem(g) in analysis.decisionsNeeded
    ensures forall o :: o in analysis.categories.dependencies ==> DependencyItem(o) in analysis.decisionsNeeded
    ensures forall o :: o in analysis.categories.configuration ==> ConfigItem(o) in analysis.decisionsNeeded
    ensures forall d :: d in analysis.categories.documentation ==>
      DocumentationItem(d) in (if d.brokenCount >= 4 then analysis.quickWins else analysis.decisionsNeeded)
    ensures analysis.cleanliness.Clean? ==> analysis.quickWins == [] && analysis.decisionsNeeded == []
  {
    // Category 1: dead files
    var dead := FindDeadFiles(inp.deadCandidates, inp.deadMatches);
    var duplicates := Dup.FindDuplicates(inp.namedFiles);
    // Category 2: dependencies
    var deps := Deps.FindAllOrphanedDeps(inp.ecosystems, inp.deps);
    // Category 3: documentation
    var drift := Docs.FindDocumentationDrift(inp.docs, Docs.ExistingFiles(inp.walkedNames));
    // Category 4: configuration
    var configs := Cfg.FindOrphanedConfigs(inp.configFiles, inp.deps.packageJson, inp.rootFiles, inp.configMatches);
    // Category 5: legacy code
    var legacy := Leg.FindLegacyCode(inp.sourceFiles, inp.findAll);
    // Git archaeology and context-heavy files
    var commits := Git.AnalyzeCommits(inp.isRepo, inp.log, inp.commitSearch);
    var stale := Git.FindStaleBranches(inp.isRepo, inp.branches, inp.branchMatches);
    var heavy := Heavy.FindContextHeavyFiles(inp.textFiles);

    var c := Categories(dead, duplicates, deps, drift, configs, legacy);
    analysis := Assemble(inp.ecosystems, c, commits, stale, heavy);

    forall g | g in duplicates ensures g.confidence == Dup.DuplicateConfidence {
      assert Dup.WellFormedGroup(g, inp.namedFiles, Dup.DuplicateKey);
    }
    Deps.OrphanReportCount(inp.ecosystems, inp.deps, deps);
    AssembledBands(inp.ecosystems, c, commits, stale, heavy);
  }
}
