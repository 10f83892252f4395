/** Category 4 (configuration): tool configuration files whose tool is
    neither installed in `package.json` nor backed by a manifest at the
    repository root (`find_orphaned_configs`). The walk, `os.stat`, the
    clock and `re.match` are abstracted: each walked file arrives with its
    age (None when `os.stat` raised), the root's files as a set, and the
    name patterns are decided by a `Matcher`. */
module Configuration {
  import opened Common

  /** A name pattern, the tool it belongs to and the manifests that would
      justify it; an empty manifest list means the file is never reported. */
  datatype ConfigPattern = ConfigPattern(pattern: string, tool: string, depFiles: seq<string>)

  datatype ConfigFile = ConfigFile(name: string, relPath: string, ageDays: Option<int>)

  datatype ConfigOrphan = ConfigOrphan(path: string, tool: string, ageDays: int, confidence: int)

  const ConfigPatterns: seq<ConfigPattern> := [
    ConfigPattern(@"\.babelrc$", "babel", ["package.json"]),
    ConfigPattern(@"webpack\.config\.js$", "webpack", ["package.json"]),
    ConfigPattern(@"rollup\.config\.js$", "rollup", ["package.json"]),
    ConfigPattern(@"jest\.config\.(js|ts|json)$", "jest", ["package.json"]),
    ConfigPattern(@"\.eslintrc.*$", "eslint", ["package.json"]),
    ConfigPattern(@"\.prettierrc.*$", "prettier", ["package.json"]),
    ConfigPattern(@"tsconfig.*\.json$", "typescript", ["package.json"]),
    ConfigPattern(@"setup\.cfg$", "setuptools", ["setup.py", "pyproject.toml"]),
    ConfigPattern(@"\.pylintrc$", "pylint", ["requirements.txt", "pyproject.toml"]),
    ConfigPattern(@"\.flake8$", "flake8", ["requirements.txt", "pyproject.toml"]),
    ConfigPattern(@"mypy\.ini$", "mypy", ["requirements.txt", "pyproject.toml"]),
    ConfigPattern(@"\.travis\.yml$", "travis", []),
    ConfigPattern(@"\.circleci/config\.yml$", "circleci", []),
    ConfigPattern(@"Jenkinsfile$", "jenkins", [])
  ]

  /** The sections of `package.json` whose keys count as installed. */
  const InstalledSections: seq<string> := ["dependencies", "devDependencies"]

  /** The installed package names: the keys of the listed sections that are
      present; nothing when `package.json` is missing or does not parse. */
  function InstalledFrom(sections: seq<string>, pkg: Option<map<string, set<string>>>): (r: set<string>)
    ensures forall p :: p in r <==> pkg.Some? && exists s :: s in sections && s in pkg.value && p in pkg.value[s]
    decreases |sections|
  {
    if pkg.None? || |sections| == 0 then {}
    else
      var rest := InstalledFrom(sections[1..], pkg);
      assert forall s :: s in sections <==> s == sections[0] || s in sections[1..];
      (if sections[0] in pkg.value then pkg.value[sections[0]] else {}) + rest
  }

  function InstalledPackages(pkg: Option<map<string, set<string>>>): set<string>
  {
    InstalledFrom(InstalledSections, pkg)
  }

  /** `55 + (15 if age_days > 90 else 0)` */
  function ConfigConfidence(ageDays: int): (c: int)
    ensures c == 55 || c == 70
    ensures c == 70 <==> ageDays > 90
  {
    55 + (if ageDays > 90 then 15 else 0)
  }

  /** A pattern with a manifest list whose tool is not installed and none of
      whose manifests exists at the root. */
  predicate Unbacked(p: ConfigPattern, installed: set<string>, rootFiles: set<string>)
  {
    p.tool !in installed && !(exists df :: df in p.depFiles && df in rootFiles) && |p.depFiles| > 0
  }

  function OrphanFor(f: ConfigFile, installed: set<string>, rootFiles: set<string>, matches: Matcher)
    : ConfigPattern -> Option<ConfigOrphan>
  {
    (p: ConfigPattern) =>
      if matches(p.pattern, f.name) && Unbacked(p, installed, rootFiles) && f.ageDays.Some?
      then Some(ConfigOrphan(f.relPath, p.tool, f.ageDays.value, ConfigConfidence(f.ageDays.value)))
      else None
  }

  /** The findings for one file: one per matching pattern, in table order. */
  function FileOrphans(f: ConfigFile, patterns: seq<ConfigPattern>, installed: set<string>,
                       rootFiles: set<string>, matches: Matcher): seq<ConfigOrphan>
  {
    FilterMap(patterns, OrphanFor(f, installed, rootFiles, matches))
  }

  function ConfigOrphans(files: seq<ConfigFile>, patterns: seq<ConfigPattern>, installed: set<string>,
                         rootFiles: set<string>, matches: Matcher): seq<ConfigOrphan>
  {
    if |files| == 0 then []
    else ConfigOrphans(files[..|files| - 1], patterns, installed, rootFiles, matches)
         + FileOrphans(files[|files| - 1], patterns, installed, rootFiles, matches)
  }

  // ---------------------------------------------------------------------------
  // Properties
  // ---------------------------------------------------------------------------

  /** A finding exists exactly for a walked file with a readable age and a
      matching, unbacked pattern, and carries that file, tool and age. */
  lemma {:induction false} ConfigOrphansIff(files: seq<ConfigFile>, patterns: seq<ConfigPattern>,
                                            installed: set<string>, rootFiles: set<string>,
                                            matches: Matcher, o: ConfigOrphan)
    ensures o in ConfigOrphans(files, patterns, installed, rootFiles, matches) <==>
      exists f, p :: f in files && p in patterns && matches(p.pattern, f.name) && Unbacked(p, installed, rootFiles)
                     && f.ageDays.Some?
                     && o == ConfigOrphan(f.relPath, p.tool, f.ageDays.value, ConfigConfidence(f.ageDays.value))
  {
    if |files| > 0 {
      var init := files[..|files| - 1];
      var last := files[|files| - 1];
      assert files == init + [last];
      ConfigOrphansIff(init, patterns, installed, rootFiles, matches, o);
      FilterMapSpec(patterns, OrphanFor(last, installed, rootFiles, matches), o);
      if o in ConfigOrphans(files, patterns, installed, rootFiles, matches)
         && o !in ConfigOrphans(init, patterns, installed, rootFiles, matches) {
        var p :| p in patterns && OrphanFor(last, installed, rootFiles, matches)(p) == Some(o);
        assert last in files;
      }
      if exists f, p :: f in files && p in patterns && matches(p.pattern, f.name) && Unbacked(p, installed, rootFiles)
                        && f.ageDays.Some?
                        && o == ConfigOrphan(f.relPath, p.tool, f.ageDays.value, ConfigConfidence(f.ageDays.value)) {
        var f, p :| f in files && p in patterns && matches(p.pattern, f.name) && Unbacked(p, installed, rootFiles)
                    && f.ageDays.Some?
                    && o == ConfigOrphan(f.relPath, p.tool, f.ageDays.value, ConfigConfidence(f.ageDays.value));
        if f != last {
          assert f in init;
        } else {
          assert OrphanFor(last, installed, rootFiles, matches)(p) == Some(o);
        }
      }
    }
  }

  /** Only the last three entries, the continuous-integration files, have
      no manifest list. */
  lemma CiPatternsUnbackable()
    ensures forall i :: 0 <= i < |ConfigPatterns| && |ConfigPatterns[i].depFiles| > 0 ==>
      ConfigPatterns[i].tool != "travis" && ConfigPatterns[i].tool != "circleci" && ConfigPatterns[i].tool != "jenkins"
  {
  }

  /** Continuous-integration files carry no manifest list and so are never
      reported, whatever the installed packages and the root's files. */
  lemma CiConfigsNeverReported(files: seq<ConfigFile>, installed: set<string>, rootFiles: set<string>,
                               matches: Matcher, o: ConfigOrphan)
    requires o in ConfigOrphans(files, ConfigPatterns, installed, rootFiles, matches)
    ensures o.tool != "travis" && o.tool != "circleci" && o.tool != "jenkins"
    ensures o.tool !in installed
    ensures o.confidence == 55 || o.confidence == 70
  {
    ConfigOrphansIff(files, ConfigPatterns, installed, rootFiles, matches, o);
    var f, p :| f in files && p in ConfigPatterns && matches(p.pattern, f.name) && Unbacked(p, installed, rootFiles)
                && f.ageDays.Some?
                && o == ConfigOrphan(f.relPath, p.tool, f.ageDays.value, ConfigConfidence(f.ageDays.value));
    CiPatternsUnbackable();
    var i :| 0 <= i < |ConfigPatterns| && ConfigPatterns[i] == p;
  }

  // ---------------------------------------------------------------------------
  // The scanning loops
  // ---------------------------------------------------------------------------

  /** `any(os.path.exists(...) for df in dep_files)` */
  method AnyDepFileExists(depFiles: seq<string>, rootFiles: set<string>) returns (found: bool)
    ensures found <==> exists df :: df in depFiles && df in rootFiles
  {
    found := false;
    for i := 0 to |depFiles|
      invariant found <==> exists k :: 0 <= k < i && depFiles[k] in rootFiles
    {
      if depFiles[i] in rootFiles {
        found := true;
      }
    }
  }

  /** The inner `for pattern, tool_name, dep_files in config_patterns` loop for one file. */
  method ScanFile(f: ConfigFile, patterns: seq<ConfigPattern>, installed: set<string>,
                  rootFiles: set<string>, matches: Matcher) returns (found: seq<ConfigOrphan>)
    ensures found == FileOrphans(f, patterns, installed, rootFiles, matches)
  {
    found := [];
    for i := 0 to |patterns|
      invariant found == FilterMap(patterns[..i], OrphanFor(f, installed, rootFiles, matches))
    {
      var p := patterns[i];
      FilterMapSnoc(patterns[..i], p, OrphanFor(f, installed, rootFiles, matches));
      assert patterns[..i + 1] == patterns[..i] + [p];
      if matches(p.pattern, f.name) {
        var toolInstalled := p.tool in installed;
        var hasDepFiles := AnyDepFileExists(p.depFiles, rootFiles);
        if !toolInstalled && !hasDepFiles && |p.depFiles| > 0 {
          match f.ageDays {
            case None =>
            case Some(age) =>
              found := found + [ConfigOrphan(f.relPath, p.tool, age, ConfigConfidence(age))];
          }
        }
      }
    }
    assert patterns[..|patterns|] == patterns;
  }

  method ScanFiles(files: seq<ConfigFile>, patterns: seq<ConfigPattern>, installed: set<string>,
                   rootFiles: set<string>, matches: Matcher) returns (orphans: seq<ConfigOrphan>)
    ensures orphans == ConfigOrphans(files, patterns, installed, rootFiles, matches)
  {
    orphans := [];
    for i := 0 to |files|
      invariant orphans == ConfigOrphans(files[..i], patterns, installed, rootFiles, matches)
    {
      var found := ScanFile(files[i], patterns, installed, rootFiles, matches);
      assert files[..i + 1][..i] == files[..i];
      orphans := orphans + found;
    }
    assert files[..|files|] == files;
  }

  /** `find_orphaned_configs` over the walked files, the parsed `package.json`
      (None when missing or unparsable) and the root's files. */
  method FindOrphanedConfigs(files: seq<ConfigFile>, pkg: Option<map<string, set<string>>>,
                             rootFiles: set<string>, matches: Matcher) returns (orphans: seq<ConfigOrphan>)
    ensures orphans == ConfigOrphans(files, ConfigPatterns, InstalledPackages(pkg), rootFiles, matches)
    ensures forall o :: o in orphans ==> o.confidence == 55 || o.confidence == 70
  {
    var installed := InstalledPackages(pkg);
    orphans := ScanFiles(files, ConfigPatterns, installed, rootFiles, matches);
    forall o | o in orphans ensures o.confidence == 55 || o.confidence == 70 {
      CiConfigsNeverReported(files, installed, rootFiles, matches, o);
    }
  }
}
