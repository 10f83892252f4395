/** Category 5 (legacy code): source files carrying deprecation or removal
    markers in comments (`find_legacy_code`). The walk, the reading of each
    file, `os.stat` with the clock, and `re.findall` are abstracted: each
    walked file arrives with its content and age when they could be read,
    and the matches of a pattern in a text come from a `FindAll`
    parameter. */
module Legacy {
  import opened Common
  import opened Strings
  import opened Sorting

  /** `re.findall(pattern, content, re.IGNORECASE)`: the matched texts in order. */
  type FindAll = (string, string) -> seq<string>

  datatype MarkerPattern = MarkerPattern(pattern: string, lang: string)

  const DeprecationPatterns: seq<MarkerPattern> := [
    MarkerPattern(@"@\s*deprecated", "python"),
    MarkerPattern(@"//.*@\s*deprecated", "js"),
    MarkerPattern(@"/\*.*@\s*deprecated.*\*/", "js"),
    MarkerPattern(@"#\s*DEPRECATED[:\s]", "python"),
    MarkerPattern(@"//\s*DEPRECATED[:\s]", "js"),
    MarkerPattern(@"/\*\s*DEPRECATED[:\s].*\*/", "js"),
    MarkerPattern(@"#\s*LEGACY[:\s]", "python"),
    MarkerPattern(@"//\s*LEGACY[:\s]", "js"),
    MarkerPattern(@"TODO[:\s].*remove", "python"),
    MarkerPattern(@"FIXME[:\s].*remove", "python")
  ]

  const LegacyExtensions: seq<string> := [".py", ".js", ".ts", ".jsx", ".tsx", ".go", ".rs", ".java"]

  const MatchesPerPattern := 3
  const MaxListedMarkers := 5
  const MaxLegacyItems := 15
  const LegacyConfidence := 40

  datatype SourceFile = SourceFile(name: string, relPath: string, content: Option<string>, ageDays: Option<int>)

  datatype LegacyItem = LegacyItem(path: string, markers: seq<string>, markerCount: int, ageDays: int,
                                   confidence: int)

  function MarkerCount(item: LegacyItem): int { item.markerCount }

  predicate IsLegacySource(name: string)
  {
    exists i :: 0 <= i < |LegacyExtensions| && EndsWith(name, LegacyExtensions[i])
  }

  /** The markers of one text: for each pattern in order, its first three matches. */
  function Markers(content: string, patterns: seq<MarkerPattern>, findAll: FindAll): (r: seq<string>)
    ensures |r| <= MatchesPerPattern * |patterns|
  {
    if |patterns| == 0 then []
    else
      var last := patterns[|patterns| - 1];
      Markers(content, patterns[..|patterns| - 1], findAll) + Take(findAll(last.pattern, content), MatchesPerPattern)
  }

  /** Every marker is one of the first three matches of some pattern, and
      every such match is a marker. */
  lemma {:induction false} MarkersIff(content: string, patterns: seq<MarkerPattern>, findAll: FindAll, m: string)
    ensures m in Markers(content, patterns, findAll) <==>
      exists p :: p in patterns && m in Take(findAll(p.pattern, content), MatchesPerPattern)
  {
    if |patterns| > 0 {
      var init := patterns[..|patterns| - 1];
      var last := patterns[|patterns| - 1];
      assert patterns == init + [last];
      MarkersIff(content, init, findAll, m);
      if exists p :: p in patterns && m in Take(findAll(p.pattern, content), MatchesPerPattern) {
        var p :| p in patterns && m in Take(findAll(p.pattern, content), MatchesPerPattern);
        if p != last {
          assert p in init;
        }
      }
    }
  }

  /** What the analyser records about one file before choosing the listed markers. */
  datatype LegacyScan = LegacyScan(path: string, allMarkers: seq<string>, ageDays: int)

  function ScanOf(patterns: seq<MarkerPattern>, findAll: FindAll): SourceFile -> Option<LegacyScan>
  {
    (f: SourceFile) =>
      if !IsLegacySource(f.name) || f.content.None? then None
      else
        var markers := Markers(f.content.value, patterns, findAll);
        if |markers| == 0 || f.ageDays.None? then None
        else Some(LegacyScan(f.relPath, markers, f.ageDays.value))
  }

  function Scans(files: seq<SourceFile>, patterns: seq<MarkerPattern>, findAll: FindAll): seq<LegacyScan>
  {
    FilterMap(files, ScanOf(patterns, findAll))
  }

  /** The distinct markers of a scan, as `set` holds them. */
  function MarkerSet(scan: LegacyScan): set<string>
  {
    set m | m in scan.allMarkers
  }

  /** An item for a scan: same path and age, the full marker count, at most
      five distinct markers drawn from the scan, as many as there are
      distinct markers up to five, and the fixed confidence 40. */
  predicate Reports(item: LegacyItem, scan: LegacyScan)
  {
    && item.path == scan.path
    && item.markerCount == |scan.allMarkers|
    && item.ageDays == scan.ageDays
    && item.confidence == LegacyConfidence
    && Distinct(item.markers)
    && (forall m :: m in item.markers ==> m in scan.allMarkers)
    && |item.markers| == Min(MaxListedMarkers, |MarkerSet(scan)|)
  }

  predicate ReportsAll(found: seq<LegacyItem>, scans: seq<LegacyScan>)
  {
    |found| == |scans| && forall k :: 0 <= k < |found| ==> Reports(found[k], scans[k])
  }

  // ---------------------------------------------------------------------------
  // Properties
  // ---------------------------------------------------------------------------

  /** A file is scanned exactly when it has a listed extension, could be read
      and statted, and some pattern matched; its marker count is then between
      1 and 30. */
  lemma ScanOfSpec(f: SourceFile, findAll: FindAll)
    ensures ScanOf(DeprecationPatterns, findAll)(f).Some? <==>
      IsLegacySource(f.name) && f.content.Some? && f.ageDays.Some?
      && exists p :: p in DeprecationPatterns && |findAll(p.pattern, f.content.value)| > 0
    ensures ScanOf(DeprecationPatterns, findAll)(f).Some? ==>
      1 <= |ScanOf(DeprecationPatterns, findAll)(f).value.allMarkers| <= 30
  {
    if IsLegacySource(f.name) && f.content.Some? {
      var markers := Markers(f.content.value, DeprecationPatterns, findAll);
      if exists p :: p in DeprecationPatterns && |findAll(p.pattern, f.content.value)| > 0 {
        var p :| p in DeprecationPatterns && |findAll(p.pattern, f.content.value)| > 0;
        var m := findAll(p.pattern, f.content.value)[0];
        assert m in Take(findAll(p.pattern, f.content.value), MatchesPerPattern);
        MarkersIff(f.content.value, DeprecationPatterns, findAll, m);
      }
      if |markers| > 0 {
        MarkersIff(f.content.value, DeprecationPatterns, findAll, markers[0]);
      }
    }
  }

  /** A reported item always has confidence 40: below the decision band, so
      legacy code is never a quick win nor a decision. */
  lemma ReportedItemsBounded(found: seq<LegacyItem>, scans: seq<LegacyScan>, item: LegacyItem)
    requires ReportsAll(found, scans) && item in found
    ensures item.confidence == LegacyConfidence < 50
    ensures |item.markers| <= MaxListedMarkers
  {
    var k :| 0 <= k < |found| && found[k] == item;
    assert Reports(found[k], scans[k]);
  }

  // ---------------------------------------------------------------------------
  // The scanning loops
  // ---------------------------------------------------------------------------

  /** `matches[:3]` of every pattern, appended in table order. */
  method CollectMarkers(content: string, patterns: seq<MarkerPattern>, findAll: FindAll) returns (markers: seq<string>)
    ensures markers == Markers(content, patterns, findAll)
  {
    markers := [];
    for i := 0 to |patterns|
      invariant markers == Markers(content, patterns[..i], findAll)
    {
      var matches := findAll(patterns[i].pattern, content);
      assert patterns[..i + 1][..i] == patterns[..i];
      if |matches| > 0 {
        markers := markers + Take(matches, MatchesPerPattern);
      }
    }
    assert patterns[..|patterns|] == patterns;
  }

  /** `list(set(markers))`: each distinct marker once, in an order the set
      iteration chooses. */
  method DistinctMarkers(markers: seq<string>) returns (r: seq<string>)
    ensures Distinct(r)
    ensures forall m :: m in r <==> m in markers
    ensures |r| == |set m | m in markers|
  {
    var all := set m | m in markers;
    var remaining := all;
    r := [];
    while remaining != {}
      invariant remaining <= all
      invariant Distinct(r)
      invariant forall m :: m in r <==> m in all && m !in remaining
      invariant |r| + |remaining| == |all|
      decreases |remaining|
    {
      var m :| m in remaining;
      r := r + [m];
      remaining := remaining - {m};
    }
  }

  method ReportScan(scan: LegacyScan) returns (item: LegacyItem)
    ensures Reports(item, scan)
  {
    var distinct := DistinctMarkers(scan.allMarkers);
    item := LegacyItem(scan.path, Take(distinct, MaxListedMarkers), |scan.allMarkers|, scan.ageDays, LegacyConfidence);
    forall m | m in item.markers ensures m in scan.allMarkers {
      assert m in distinct;
    }
  }

  /** The walk over the source files, before sorting. */
  method ScanFiles(files: seq<SourceFile>, patterns: seq<MarkerPattern>, findAll: FindAll) returns (found: seq<LegacyItem>)
    ensures ReportsAll(found, Scans(files, patterns, findAll))
  {
    found := [];
    for i := 0 to |files|
      invariant ReportsAll(found, FilterMap(files[..i], ScanOf(patterns, findAll)))
    {
      var f := files[i];
      FilterMapSnoc(files[..i], f, ScanOf(patterns, findAll));
      assert files[..i + 1] == files[..i] + [f];
      if IsLegacySource(f.name) && f.content.Some? {
        var markers := CollectMarkers(f.content.value, patterns, findAll);
        if |markers| > 0 && f.ageDays.Some? {
          var item := ReportScan(LegacyScan(f.relPath, markers, f.ageDays.value));
          found := found + [item];
        }
      }
    }
    assert files[..|files|] == files;
  }

  /** The listed items are the first fifteen, by marker count, of an item
      per scanned file. */
  ghost predicate LegacyReport(files: seq<SourceFile>, findAll: FindAll, items: seq<LegacyItem>)
  {
    exists found :: ReportsAll(found, Scans(files, DeprecationPatterns, findAll))
                    && items == Take(SortDesc(found, MarkerCount), MaxLegacyItems)
  }

  /** `sorted(legacy_items, key=marker_count, reverse=True)[:15]` */
  method FindLegacyCode(files: seq<SourceFile>, findAll: FindAll) returns (items: seq<LegacyItem>)
    ensures LegacyReport(files, findAll, items)
    ensures |items| <= MaxLegacyItems && NonIncreasing(items, MarkerCount)
    ensures forall item :: item in items ==> item.confidence == LegacyConfidence && |item.markers| <= MaxListedMarkers
  {
    var found := ScanFiles(files, DeprecationPatterns, findAll);
    var sorted := SortDesc(found, MarkerCount);
    items := Take(sorted, MaxLegacyItems);
    forall item | item in items
      ensures item.confidence == LegacyConfidence && |item.markers| <= MaxListedMarkers
    {
      assert item in multiset(sorted);
      ReportedItemsBounded(found, Scans(files, DeprecationPatterns, findAll), item);
    }
  }
}
