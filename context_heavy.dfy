/** Context-heavy files: text files large enough to crowd an assistant's
    context window (`find_context_heavy_files`, `estimate_tokens`). They are
    reported for awareness only. The walk and the reading of each file are
    abstracted: each walked file arrives with its content, or None when
    reading raised. */
module ContextHeavy {
  import opened Common
  import opened Strings
  import opened Sorting
  import opened Duplicates

  const MaxRecommendedLines := 500
  const MaxRecommendedTokens := 4000
  /** Above this many lines the advice is to split rather than to monitor. */
  const SplitLines := 1000
  const ContextHeavyExtensions: seq<string> := [".md", ".txt", ".rst", ".json", ".yaml", ".yml"]
  const MaxHeavyFiles := 15
  const ContextHeavyConfidence := 50

  datatype Recommendation = ConsiderSplitting | Monitor

  datatype TextFile = TextFile(name: string, relPath: string, content: Option<string>)

  datatype HeavyFile = HeavyFile(path: string, lines: int, estimatedTokens: int, exceedsLines: bool,
                                 exceedsTokens: bool, recommendation: Recommendation, confidence: int)

  function EstimatedTokens(h: HeavyFile): int { h.estimatedTokens }

  /** `len(text) // 4`: roughly four characters per token. */
  function EstimateTokens(text: string): (t: int)
    ensures 0 <= t && 4 * t <= |text| < 4 * t + 4
  {
    |text| / 4
  }

  /** `content.count("\n") + 1`: a text without a newline is one line. */
  function LineCount(content: string): (n: int)
    ensures 1 <= n <= |content| + 1
    ensures n == 1 <==> '\n' !in content
  {
    CountChar(content, '\n') + 1
  }

  predicate IsContextHeavyName(name: string)
  {
    Lower(PathSuffix(name)) in ContextHeavyExtensions
  }

  function HeavyEntry(relPath: string, content: string): HeavyFile
  {
    var lines := LineCount(content);
    var tokens := EstimateTokens(content);
    HeavyFile(relPath, lines, tokens, lines > MaxRecommendedLines, tokens > MaxRecommendedTokens,
              if lines > SplitLines then ConsiderSplitting else Monitor, ContextHeavyConfidence)
  }

  function HeavyOf(f: TextFile): Option<HeavyFile>
  {
    if !IsContextHeavyName(f.name) || f.content.None? then None
    else
      var h := HeavyEntry(f.relPath, f.content.value);
      if h.exceedsLines || h.exceedsTokens then Some(h) else None
  }

  function HeavyItems(files: seq<TextFile>): seq<HeavyFile>
  {
    FilterMap(files, HeavyOf)
  }

  // ---------------------------------------------------------------------------
  // Properties
  // ---------------------------------------------------------------------------

  /** A file is reported exactly when it has a listed extension, could be
      read, and exceeds 500 lines or 4000 estimated tokens; a file advised to
      split always exceeds the line limit, and every report sits in the
      decision band. */
  lemma HeavyOfSpec(f: TextFile)
    ensures HeavyOf(f).Some? <==>
      IsContextHeavyName(f.name) && f.content.Some?
      && (LineCount(f.content.value) > MaxRecommendedLines || EstimateTokens(f.content.value) > MaxRecommendedTokens)
    ensures HeavyOf(f).Some? ==>
      var h := HeavyOf(f).value;
      && h.path == f.relPath
      && (h.exceedsLines || h.exceedsTokens)
      && (h.recommendation == ConsiderSplitting ==> h.exceedsLines)
      && h.confidence == ContextHeavyConfidence
  {
  }

  /** Fewer than 500 characters can be neither 500 lines nor 4000 tokens,
      and more than 16003 characters always exceed the token limit. */
  lemma HeavyBySize(f: TextFile)
    requires f.content.Some?
    ensures |f.content.value| < MaxRecommendedLines ==> HeavyOf(f).None?
    ensures |f.content.value| > 4 * MaxRecommendedTokens + 3 && IsContextHeavyName(f.name) ==>
      HeavyOf(f).Some? && HeavyOf(f).value.exceedsTokens
  {
    var content := f.content.value;
    assert LineCount(content) <= |content| + 1;
    assert 4 * EstimateTokens(content) <= |content| < 4 * EstimateTokens(content) + 4;
  }

  // ---------------------------------------------------------------------------
  // The scanning loop
  // ---------------------------------------------------------------------------

  /** `sorted(heavy_files, key=estimated_tokens, reverse=True)[:15]` */
  method FindContextHeavyFiles(files: seq<TextFile>) returns (heavy: seq<HeavyFile>)
    ensures heavy == Take(SortDesc(HeavyItems(files), EstimatedTokens), MaxHeavyFiles)
    ensures |heavy| <= MaxHeavyFiles && NonIncreasing(heavy, EstimatedTokens)
  {
    var found: seq<HeavyFile> := [];
    for i := 0 to |files|
      invariant found == FilterMap(files[..i], HeavyOf)
    {
      var f := files[i];
      FilterMapSnoc(files[..i], f, HeavyOf);
      assert files[..i + 1] == files[..i] + [f];
      var ext := Lower(PathSuffix(f.name));
      if ext !in ContextHeavyExtensions {
        continue;
      }
      match f.content {
        case None =>
        case Some(content) =>
          var lines := LineCount(content);
          var tokens := EstimateTokens(content);
          if lines > MaxRecommendedLines || tokens > MaxRecommendedTokens {
            found := found + [HeavyEntry(f.relPath, content)];
          }
      }
    }
    assert files[..|files|] == files;
    heavy := Take(SortDesc(found, EstimatedTokens), MaxHeavyFiles);
  }
}
