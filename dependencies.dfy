/** Category 2 (dependencies): packages a manifest declares that no source
    file uses, for Python, JavaScript, Go and Rust. The scanning of source
    files is abstracted: each analyser receives the set of names the import
    regexes (or `ast`) collected, and the manifest contents. */
module Dependencies {
  import opened Common
  import opened Strings

  datatype DepOrphan = DepOrphan(package: string, source: string, ecosystem: string, confidence: int, reason: string)

  function Packages(orphans: seq<DepOrphan>): set<string>
  {
    set o | o in orphans :: o.package
  }

  // ---------------------------------------------------------------------------
  // Reporting the declared-but-unused names of a set (JS, Go, Rust)
  // ---------------------------------------------------------------------------

  /** The declared names the analyser does not find in use. */
  function UnusedIn(declared: set<string>, used: string -> bool): set<string>
  {
    set d | d in declared && !used(d)
  }

  lemma PackagesSnoc(orphans: seq<DepOrphan>, o: DepOrphan)
    ensures Packages(orphans + [o]) == Packages(orphans) + {o.package}
  {
    forall p | p in Packages(orphans + [o]) ensures p in Packages(orphans) + {o.package} {
      var x :| x in orphans + [o] && x.package == p;
      if x != o {
        assert x in orphans;
      }
    }
    forall p | p in Packages(orphans) ensures p in Packages(orphans + [o]) {
      var x :| x in orphans && x.package == p;
      assert x in orphans + [o];
    }
    assert o in orphans + [o];
  }

  predicate DistinctPackages(orphans: seq<DepOrphan>)
  {
    forall i, j :: 0 <= i < j < |orphans| ==> orphans[i].package != orphans[j].package
  }

  /** Findings with distinct packages are as many as their packages. */
  lemma {:induction false} DistinctPackagesCount(orphans: seq<DepOrphan>)
    requires DistinctPackages(orphans)
    ensures |Packages(orphans)| == |orphans|
  {
    if |orphans| > 0 {
      var init, last := orphans[..|orphans| - 1], orphans[|orphans| - 1];
      assert orphans == init + [last];
      assert DistinctPackages(init);
      DistinctPackagesCount(init);
      PackagesSnoc(init, last);
      forall x | x in init ensures x.package != last.package {
        var i :| 0 <= i < |init| && init[i] == x;
        assert orphans[i] == x;
      }
    }
  }

  /** What a set-driven analyser (JavaScript, Go, Rust) returns: each unused
      name exactly once, so exactly as many findings as unused names, each
      with the analyser's fixed source, ecosystem, confidence and reason. */
  predicate UnusedReport(orphans: seq<DepOrphan>, unused: set<string>,
                         source: string, ecosystem: string, confidence: int, reason: string)
  {
    && Packages(orphans) == unused
    && DistinctPackages(orphans)
    && |orphans| == |unused|
    && forall o :: o in orphans ==>
         o.source == source && o.ecosystem == ecosystem && o.confidence == confidence && o.reason == reason
  }

  /** One step of the reporting loop: a name not yet visited and not in use
      is reported once more, and the reported names stay distinct. */
  lemma ReportStep(orphans: seq<DepOrphan>, done: set<string>, used: string -> bool, o: DepOrphan)
    requires Packages(orphans) == UnusedIn(done, used) && DistinctPackages(orphans)
    requires o.package !in done && !used(o.package)
    ensures Packages(orphans + [o]) == UnusedIn(done + {o.package}, used)
    ensures DistinctPackages(orphans + [o])
  {
    PackagesSnoc(orphans, o);
    assert UnusedIn(done + {o.package}, used) == UnusedIn(done, used) + {o.package};
    forall i | 0 <= i < |orphans| ensures orphans[i].package != o.package {
      assert orphans[i] in orphans;
    }
  }

  lemma SkipStep(done: set<string>, d: string, used: string -> bool)
    requires used(d)
    ensures UnusedIn(done + {d}, used) == UnusedIn(done, used)
  {
  }

  /** `for pkg in declared_deps: if not used: orphans.append(...)`. A Python
      set has no fixed order, so each step picks any remaining name. */
  method ReportUnused(declared: set<string>, used: string -> bool,
                      source: string, ecosystem: string, confidence: int, reason: string)
    returns (orphans: seq<DepOrphan>)
    ensures UnusedReport(orphans, UnusedIn(declared, used), source, ecosystem, confidence, reason)
  {
    var remaining := declared;
    orphans := [];
    while remaining != {}
      invariant remaining <= declared
      invariant Packages(orphans) == UnusedIn(declared - remaining, used)
      invariant DistinctPackages(orphans)
      invariant forall o :: o in orphans ==>
        o.source == source && o.ecosystem == ecosystem && o.confidence == confidence && o.reason == reason
      decreases |remaining|
    {
      var d :| d in remaining;
      ghost var done := declared - remaining;
      assert declared - (remaining - {d}) == done + {d};
      if !used(d) {
        var o := DepOrphan(d, source, ecosystem, confidence, reason);
        ReportStep(orphans, done, used, o);
        orphans := orphans + [o];
      } else {
        SkipStep(done, d, used);
      }
      remaining := remaining - {d};
    }
    assert declared - remaining == declared;
    DistinctPackagesCount(orphans);
  }

  // ---------------------------------------------------------------------------
  // Python: requirements files
  // ---------------------------------------------------------------------------

  const RequirementFiles: seq<string> := ["requirements.txt", "requirements-dev.txt", "requirements-test.txt"]
  const PythonConfidence := 65

  /** The characters of `[=<>!~\[\]]`, which end the package name. */
  predicate IsVersionChar(c: char)
  {
    c == '=' || c == '<' || c == '>' || c == '!' || c == '~' || c == '[' || c == ']'
  }

  /** The package named by one requirements line: none for blank lines,
      comments and option lines; otherwise the stripped text before the
      first version operator or extras bracket. */
  function RequirementName(line: string): (r: Option<string>)
    ensures r.None? <==> Strip(line) == "" || StartsWith(Strip(line), "#") || StartsWith(Strip(line), "-")
    ensures r.Some? ==> forall c :: c in r.value ==> !IsVersionChar(c) && c in line
    ensures r.Some? ==>
      var l := Strip(line);
      exists k :: 0 <= k <= |l| && (forall i :: 0 <= i < k ==> !IsVersionChar(l[i]))
                 && (k < |l| ==> IsVersionChar(l[k])) && r.value == Strip(l[..k])
  {
    var l := Strip(line);
    if l == "" || StartsWith(l, "#") || StartsWith(l, "-") then None
    else
      var name := TakeUntil(l, IsVersionChar);
      StripChars(name);
      StripChars(line);
      assert l[..|name|] == name;
      assert forall i :: 0 <= i < |name| ==> !IsVersionChar(l[i]);
      assert |name| <= |l| && (|name| < |l| ==> IsVersionChar(l[|name|]));
      Some(Strip(name))
  }

  /** `pkg.replace("-", "_").lower()` */
  function NormName(s: string): string
  {
    Lower(ReplaceChar(s, '-', '_'))
  }

  /** The `any(...)` test of the source: some import equals the package
      name, compared case-insensitively and with `-` read as `_`. */
  predicate Imported(imports: set<string>, pkg: string)
  {
    exists imp :: imp in imports &&
      (Lower(imp) == NormName(pkg) || Lower(imp) == Lower(pkg) || ReplaceChar(Lower(imp), '-', '_') == NormName(pkg))
  }

  lemma LowerReplaceCommute(s: string)
    ensures ReplaceChar(Lower(s), '-', '_') == NormName(s)
  {
    assert forall i :: 0 <= i < |s| ==> ReplaceChar(Lower(s), '-', '_')[i] == NormName(s)[i];
  }

  lemma NormNameFixed(s: string)
    ensures ReplaceChar(NormName(s), '-', '_') == NormName(s)
  {
    assert forall i :: 0 <= i < |s| ==> ReplaceChar(NormName(s), '-', '_')[i] == NormName(s)[i];
  }

  /** The three comparisons of the source collapse into one: an import
      counts exactly when it normalises to the same name as the package. */
  lemma {:induction false} ImportedIff(imports: set<string>, pkg: string)
    ensures Imported(imports, pkg) <==> exists imp :: imp in imports && NormName(imp) == NormName(pkg)
  {
    if Imported(imports, pkg) {
      var imp :| imp in imports &&
        (Lower(imp) == NormName(pkg) || Lower(imp) == Lower(pkg) || ReplaceChar(Lower(imp), '-', '_') == NormName(pkg));
      LowerReplaceCommute(imp);
      LowerReplaceCommute(pkg);
      if Lower(imp) == NormName(pkg) {
        NormNameFixed(pkg);
      }
      assert NormName(imp) == NormName(pkg);
    }
    if exists imp :: imp in imports && NormName(imp) == NormName(pkg) {
      var imp :| imp in imports && NormName(imp) == NormName(pkg);
      LowerReplaceCommute(imp);
    }
  }

  /** The orphan one requirements line produces, if any. */
  function RequirementOrphan(source: string, line: string, imports: set<string>): Option<DepOrphan>
  {
    match RequirementName(line)
    case None => None
    case Some(pkg) =>
      if !Imported(imports, pkg) && pkg != "" then
        Some(DepOrphan(pkg, source, "python", PythonConfidence, "package_not_imported"))
      else None
  }

  function OrphanOfLine(source: string, imports: set<string>): string -> Option<DepOrphan>
  {
    line => RequirementOrphan(source, line, imports)
  }

  function LineOrphans(source: string, lines: seq<string>, imports: set<string>): seq<DepOrphan>
  {
    FilterMap(lines, OrphanOfLine(source, imports))
  }

  function PythonOrphansFrom(files: seq<string>, reqFiles: map<string, seq<string>>, imports: set<string>): seq<DepOrphan>
  {
    if |files| == 0 then []
    else
      var name := files[|files| - 1];
      PythonOrphansFrom(files[..|files| - 1], reqFiles, imports)
        + (if name in reqFiles then LineOrphans(name, reqFiles[name], imports) else [])
  }

  /** Orphans over the three requirements files, in file then line order;
      `reqFiles` maps each file that exists to its lines. */
  function PythonOrphans(imports: set<string>, reqFiles: map<string, seq<string>>): seq<DepOrphan>
  {
    PythonOrphansFrom(RequirementFiles, reqFiles, imports)
  }

  lemma LineOrphansSpec(source: string, lines: seq<string>, imports: set<string>, o: DepOrphan)
    ensures o in LineOrphans(source, lines, imports)
        <==> exists line :: line in lines && RequirementOrphan(source, line, imports) == Some(o)
  {
    FilterMapSpec(lines, OrphanOfLine(source, imports), o);
  }

  lemma {:induction false} PythonOrphansFromSpec(files: seq<string>, reqFiles: map<string, seq<string>>,
                                                 imports: set<string>, o: DepOrphan)
    ensures o in PythonOrphansFrom(files, reqFiles, imports)
        <==> exists f :: f in files && f in reqFiles && o in LineOrphans(f, reqFiles[f], imports)
  {
    if |files| > 0 {
      var init := files[..|files| - 1];
      PythonOrphansFromSpec(init, reqFiles, imports, o);
      assert files == init + [files[|files| - 1]];
    }
  }

  /** A Python orphan is exactly a requirements line, in one of the three
      files that exist, naming a non-empty package that no import matches. */
  lemma PythonOrphanIff(imports: set<string>, reqFiles: map<string, seq<string>>, o: DepOrphan)
    ensures o in PythonOrphans(imports, reqFiles)
        <==> exists f, line :: f in RequirementFiles && f in reqFiles && line in reqFiles[f]
                            && RequirementName(line) == Some(o.package) && o.package != ""
                            && !Imported(imports, o.package)
                            && o == DepOrphan(o.package, f, "python", PythonConfidence, "package_not_imported")
  {
    PythonOrphansFromSpec(RequirementFiles, reqFiles, imports, o);
    if o in PythonOrphans(imports, reqFiles) {
      var f :| f in RequirementFiles && f in reqFiles && o in LineOrphans(f, reqFiles[f], imports);
      LineOrphansSpec(f, reqFiles[f], imports, o);
    }
    if exists f, line :: f in RequirementFiles && f in reqFiles && line in reqFiles[f]
                      && RequirementName(line) == Some(o.package) && o.package != ""
                      && !Imported(imports, o.package)
                      && o == DepOrphan(o.package, f, "python", PythonConfidence, "package_not_imported") {
      var f, line :| f in RequirementFiles && f in reqFiles && line in reqFiles[f]
                   && RequirementName(line) == Some(o.package) && o.package != ""
                   && !Imported(imports, o.package)
                   && o == DepOrphan(o.package, f, "python", PythonConfidence, "package_not_imported");
      LineOrphansSpec(f, reqFiles[f], imports, o);
    }
  }

  /** The line loop over one requirements file. */
  method ScanRequirements(name: string, lines: seq<string>, imports: set<string>) returns (found: seq<DepOrphan>)
    ensures found == LineOrphans(name, lines, imports)
  {
    found := [];
    for j := 0 to |lines|
      invariant found == LineOrphans(name, lines[..j], imports)
    {
      assert lines[..j + 1] == lines[..j] + [lines[j]];
      FilterMapSnoc(lines[..j], lines[j], OrphanOfLine(name, imports));
      var pkg := RequirementName(lines[j]);
      if pkg.Some? && !Imported(imports, pkg.value) && pkg.value != "" {
        found := found + [DepOrphan(pkg.value, name, "python", PythonConfidence, "package_not_imported")];
      }
    }
    assert lines[..|lines|] == lines;
  }

  /** `find_orphaned_python_deps` once the imports are collected. */
  method FindOrphanedPythonDeps(imports: set<string>, reqFiles: map<string, seq<string>>) returns (orphans: seq<DepOrphan>)
    ensures orphans == PythonOrphans(imports, reqFiles)
  {
    orphans := [];
    for f := 0 to |RequirementFiles|
      invariant orphans == PythonOrphansFrom(RequirementFiles[..f], reqFiles, imports)
    {
      var name := RequirementFiles[f];
      assert RequirementFiles[..f + 1][..f] == RequirementFiles[..f];
      if name in reqFiles {
        var found := ScanRequirements(name, reqFiles[name], imports);
        orphans := orphans + found;
      }
    }
    assert RequirementFiles[..|RequirementFiles|] == RequirementFiles;
  }

  // ---------------------------------------------------------------------------
  // JavaScript: package.json
  // ---------------------------------------------------------------------------

  const JsConfidence := 60
  const JsDependencySections: seq<string> := ["dependencies", "devDependencies", "peerDependencies"]

  /** The package an import specifier refers to: `@scope/pkg` for scoped
      specifiers (none for a bare `@scope`), the first path segment otherwise. */
  function JsBaseName(spec: string): Option<string>
  {
    if StartsWith(spec, "@") then
      var parts := Split(spec, "/");
      if |parts| >= 2 then Some(Join(parts[..2], "/")) else None
    else
      Some(Split(spec, "/")[0])
  }

  lemma {:induction false} SplitSegment(a: string, rest: string)
    requires '/' !in a && (rest == "" || rest[0] == '/')
    ensures Split(a + rest, "/")[0] == a
    ensures rest != "" ==> |Split(a + rest, "/")| >= 2
  {
    if rest == "" {
      assert a + rest == a;
      SplitNone(a, '/');
    } else {
      assert a + rest == a + ['/'] + rest[1..];
      SplitAtFirst(a, '/', rest[1..]);
    }
  }

  /** `@scope/pkg/sub/path` and `@scope/pkg` both name `@scope/pkg`. */
  lemma {:induction false} JsScopedBaseName(scope: string, pkg: string, rest: string)
    requires '/' !in scope && '/' !in pkg && (rest == "" || rest[0] == '/')
    ensures JsBaseName("@" + scope + "/" + pkg + rest) == Some("@" + scope + "/" + pkg)
  {
    var spec := "@" + scope + "/" + pkg + rest;
    var head := "@" + scope;
    assert '/' !in head;
    assert spec == head + ['/'] + (pkg + rest);
    SplitAtFirst(head, '/', pkg + rest);
    SplitSegment(pkg, rest);
    var parts := Split(spec, "/");
    assert parts[0] == head && parts[1] == pkg;
    assert parts[..2] == [head, pkg];
    assert Join([head, pkg], "/") == head + "/" + Join([pkg], "/");
    assert StartsWith(spec, "@");
  }

  /** A bare `@scope` names no package. */
  lemma {:induction false} JsBareScopeDropped(scope: string)
    requires '/' !in scope
    ensures JsBaseName("@" + scope) == None
  {
    var spec := "@" + scope;
    assert '/' !in spec;
    SplitNone(spec, '/');
    assert StartsWith(spec, "@");
  }

  /** `pkg/sub/path` and `pkg` both name `pkg`. */
  lemma {:induction false} JsUnscopedBaseName(pkg: string, rest: string)
    requires '/' !in pkg && |pkg| > 0 && pkg[0] != '@' && (rest == "" || rest[0] == '/')
    ensures JsBaseName(pkg + rest) == Some(pkg)
  {
    SplitSegment(pkg, rest);
    assert (pkg + rest)[0] == pkg[0];
  }

  /** The names `all_imports` collects from the regex matches. */
  function JsImports(specs: seq<string>): set<string>
  {
    set s | s in specs && JsBaseName(s).Some? :: JsBaseName(s).value
  }

  method CollectJsImports(specs: seq<string>) returns (imports: set<string>)
    ensures imports == JsImports(specs)
  {
    imports := {};
    for i := 0 to |specs|
      invariant imports == JsImports(specs[..i])
    {
      assert specs[..i + 1] == specs[..i] + [specs[i]];
      var base := JsBaseName(specs[i]);
      if base.Some? {
        imports := imports + {base.value};
      }
    }
    assert specs[..|specs|] == specs;
  }

  function DeclaredFrom(sections: seq<string>, manifest: map<string, set<string>>): set<string>
  {
    if |sections| == 0 then {}
    else
      var name := sections[|sections| - 1];
      DeclaredFrom(sections[..|sections| - 1], manifest) + (if name in manifest then manifest[name] else {})
  }

  /** The keys of the three dependency sections that the manifest has. */
  function JsDeclared(manifest: map<string, set<string>>): set<string>
  {
    DeclaredFrom(JsDependencySections, manifest)
  }

  lemma {:induction false} DeclaredFromSpec(sections: seq<string>, manifest: map<string, set<string>>, d: string)
    ensures d in DeclaredFrom(sections, manifest) <==> exists s :: s in sections && s in manifest && d in manifest[s]
  {
    if |sections| > 0 {
      DeclaredFromSpec(sections[..|sections| - 1], manifest, d);
      assert sections == sections[..|sections| - 1] + [sections[|sections| - 1]];
    }
  }

  /** Declared means listed in `dependencies`, `devDependencies` or
      `peerDependencies`; other sections do not count. */
  lemma JsDeclaredIff(manifest: map<string, set<string>>, d: string)
    ensures d in JsDeclared(manifest) <==>
      ("dependencies" in manifest && d in manifest["dependencies"]) ||
      ("devDependencies" in manifest && d in manifest["devDependencies"]) ||
      ("peerDependencies" in manifest && d in manifest["peerDependencies"])
  {
    DeclaredFromSpec(JsDependencySections, manifest, d);
  }

  /** What the JavaScript pass reports: nothing without a readable
      package.json, otherwise the declared names no import refers to. */
  function JsUnused(manifest: Option<map<string, set<string>>>, specs: seq<string>): set<string>
  {
    if manifest.None? then {} else UnusedIn(JsDeclared(manifest.value), p => p in JsImports(specs))
  }

  /** `find_orphaned_js_deps`; `manifest` is None when package.json is
      missing or does not parse, else its sections' key sets. */
  method FindOrphanedJsDeps(manifest: Option<map<string, set<string>>>, specs: seq<string>) returns (orphans: seq<DepOrphan>)
    ensures UnusedReport(orphans, JsUnused(manifest, specs), "package.json", "javascript", JsConfidence, "package_not_imported")
  {
    if manifest.None? {
      return [];
    }
    var declared: set<string> := {};
    for i := 0 to |JsDependencySections|
      invariant declared == DeclaredFrom(JsDependencySections[..i], manifest.value)
    {
      assert JsDependencySections[..i + 1][..i] == JsDependencySections[..i];
      var section := JsDependencySections[i];
      if section in manifest.value {
        declared := declared + manifest.value[section];
      }
    }
    assert JsDependencySections[..|JsDependencySections|] == JsDependencySections;
    var imports := CollectJsImports(specs);
    orphans := ReportUnused(declared, p => p in imports, "package.json", "javascript", JsConfidence, "package_not_imported");
  }

  // ---------------------------------------------------------------------------
  // Go: go.mod
  // ---------------------------------------------------------------------------

  const GoConfidence := 65

  /** `any(imp.startswith(mod) or mod in imp for imp in all_imports)` */
  predicate GoModuleUsed(imports: set<string>, mod: string)
  {
    exists imp :: imp in imports && (StartsWith(imp, mod) || Contains(imp, mod))
  }

  /** The prefix test adds nothing to the substring test. */
  lemma GoModuleUsedIff(imports: set<string>, mod: string)
    ensures GoModuleUsed(imports, mod) <==> exists imp :: imp in imports && Contains(imp, mod)
  {
    if GoModuleUsed(imports, mod) {
      var imp :| imp in imports && (StartsWith(imp, mod) || Contains(imp, mod));
      StartsWithContains(imp, mod);
    }
  }

  function GoUnused(goMod: Option<set<string>>, imports: set<string>): set<string>
  {
    if goMod.None? then {} else UnusedIn(goMod.value, m => GoModuleUsed(imports, m))
  }

  /** `find_orphaned_go_deps`; `goMod` is None when go.mod is missing or
      unreadable, else the module paths its require regexes matched. */
  method FindOrphanedGoDeps(goMod: Option<set<string>>, imports: set<string>) returns (orphans: seq<DepOrphan>)
    ensures UnusedReport(orphans, GoUnused(goMod, imports), "go.mod", "go", GoConfidence, "module_not_imported")
  {
    if goMod.None? {
      return [];
    }
    orphans := ReportUnused(goMod.value, m => GoModuleUsed(imports, m), "go.mod", "go", GoConfidence, "module_not_imported");
  }

  // ---------------------------------------------------------------------------
  // Rust: Cargo.toml
  // ---------------------------------------------------------------------------

  const RustConfidence := 65

  /** Some occurrence of `dependencies` is followed, later, by a `]`. */
  predicate DepsThenBracket(s: string)
  {
    (|s| >= |"dependencies"| && StartsWith(s, "dependencies") && ']' in s[|"dependencies"|..])
    || (|s| > 0 && DepsThenBracket(s[1..]))
  }

  /** `re.match(r"\[(.*dependencies.*)\]", line)` on a line without newlines:
      the line starts with `[` and has `dependencies` and then a `]` after it. */
  predicate IsDepsHeader(line: string)
  {
    |line| > 0 && line[0] == '[' && DepsThenBracket(line[1..])
  }

  /** The key a dependency line declares: the stripped text before the first
      `=`, when the line has one and the key is neither empty nor a comment. */
  function CrateKey(line: string): Option<string>
  {
    if '=' in line then
      var crate := Strip(Split(line, "=")[0]);
      if crate != "" && !StartsWith(crate, "#") then Some(crate) else None
    else None
  }

  /** What the loop body makes of one line: a dependencies header, another
      line starting with `[`, or any other line with the key it declares. */
  datatype LineKind = DepsHeader | TableHeader | Entry(key: Option<string>)

  function Classify(line: string): (k: LineKind)
    ensures k.DepsHeader? <==> IsDepsHeader(line)
    ensures k.TableHeader? <==> !IsDepsHeader(line) && StartsWith(line, "[")
    ensures k.Entry? ==> k.key == CrateKey(line)
  {
    if IsDepsHeader(line) then DepsHeader
    else if StartsWith(line, "[") then TableHeader
    else Entry(CrateKey(line))
  }

  function Kinds(lines: seq<string>): (ks: seq<LineKind>)
    ensures |ks| == |lines|
    ensures forall i :: 0 <= i < |lines| ==> ks[i] == Classify(lines[i])
  {
    if |lines| == 0 then [] else Kinds(lines[..|lines| - 1]) + [Classify(lines[|lines| - 1])]
  }

  datatype CargoState = CargoState(inDeps: bool, declared: set<string>)

  /** One step of the line loop. */
  function CargoStep(st: CargoState, kind: LineKind): CargoState
  {
    match kind
    case DepsHeader => CargoState(true, st.declared)
    case TableHeader => CargoState(false, st.declared)
    case Entry(key) => CargoState(st.inDeps, if st.inDeps && key.Some? then st.declared + {key.value} else st.declared)
  }

  function CargoRun(kinds: seq<LineKind>): CargoState
  {
    if |kinds| == 0 then CargoState(false, {}) else CargoStep(CargoRun(kinds[..|kinds| - 1]), kinds[|kinds| - 1])
  }

  /** The keys the `Cargo.toml` text declares. */
  function CargoDeclared(content: string): set<string>
  {
    CargoRun(Kinds(Split(content, "\n"))).declared
  }

  /** The loop is inside a dependency table after the first i lines: some
      dependencies header came before and only entry lines since. */
  ghost predicate InDepsAfter(kinds: seq<LineKind>, i: int)
  {
    exists h :: 0 <= h < i <= |kinds| && kinds[h].DepsHeader?
      && forall m :: h < m < i ==> kinds[m].Entry?
  }

  /** The flag threaded through the loop is exactly "the last line starting
      with `[` was a dependencies header". */
  lemma {:induction false} CargoInDepsIff(kinds: seq<LineKind>)
    ensures CargoRun(kinds).inDeps <==> InDepsAfter(kinds, |kinds|)
  {
    if |kinds| > 0 {
      var n := |kinds| - 1;
      var init := kinds[..n];
      CargoInDepsIff(init);
      match kinds[n]
      case DepsHeader =>
        assert InDepsAfter(kinds, |kinds|) by {
          assert kinds[n].DepsHeader?;
        }
      case TableHeader =>
        if InDepsAfter(kinds, |kinds|) {
          var h :| 0 <= h < |kinds| && kinds[h].DepsHeader? && forall m :: h < m < |kinds| ==> kinds[m].Entry?;
          assert false;
        }
      case Entry(_) =>
        if InDepsAfter(kinds, |kinds|) {
          var h :| 0 <= h < |kinds| && kinds[h].DepsHeader? && forall m :: h < m < |kinds| ==> kinds[m].Entry?;
          assert init[h] == kinds[h];
          assert forall m :: h < m < n ==> init[m] == kinds[m];
          assert InDepsAfter(init, n);
        }
        if InDepsAfter(init, n) {
          var h :| 0 <= h < n && init[h].DepsHeader? && forall m :: h < m < n ==> init[m].Entry?;
          assert kinds[h] == init[h];
          assert forall m :: h < m < n ==> kinds[m] == init[m];
          assert InDepsAfter(kinds, |kinds|);
        }
    }
  }

  /** Line i declares `crate`: it is an entry with that key and the loop is
      inside a dependency table when it reaches it. */
  predicate DeclaresAt(kinds: seq<LineKind>, i: int, crate: string)
    requires 0 <= i < |kinds|
  {
    kinds[i] == Entry(Some(crate)) && CargoRun(kinds[..i]).inDeps
  }

  /** A key is declared iff some line declares it. */
  lemma {:induction false} CargoDeclaredIff(kinds: seq<LineKind>, crate: string)
    ensures crate in CargoRun(kinds).declared <==> exists i :: 0 <= i < |kinds| && DeclaresAt(kinds, i, crate)
  {
    if |kinds| > 0 {
      var n := |kinds| - 1;
      var init := kinds[..n];
      CargoDeclaredIff(init, crate);
      assert crate in CargoRun(kinds).declared <==> crate in CargoRun(init).declared || DeclaresAt(kinds, n, crate);
      forall i | 0 <= i < n ensures DeclaresAt(kinds, i, crate) <==> DeclaresAt(init, i, crate) {
        assert init[..i] == kinds[..i];
      }
      if exists i :: 0 <= i < |kinds| && DeclaresAt(kinds, i, crate) {
        var i :| 0 <= i < |kinds| && DeclaresAt(kinds, i, crate);
        if i < n {
          assert DeclaresAt(init, i, crate);
        }
      }
      if exists i :: 0 <= i < n && DeclaresAt(init, i, crate) {
        var i :| 0 <= i < n && DeclaresAt(init, i, crate);
        assert DeclaresAt(kinds, i, crate);
      }
    }
  }

  /** The `in_deps` loop over `content.split("\n")`. */
  method ParseCargo(lines: seq<string>) returns (declared: set<string>)
    ensures declared == CargoRun(Kinds(lines)).declared
  {
    var inDeps := false;
    declared := {};
    for i := 0 to |lines|
      invariant CargoState(inDeps, declared) == CargoRun(Kinds(lines[..i]))
    {
      assert lines[..i + 1][..i] == lines[..i];
      var line := lines[i];
      if IsDepsHeader(line) {
        inDeps := true;
        continue;
      }
      if StartsWith(line, "[") && inDeps {
        inDeps := false;
      }
      if inDeps && '=' in line {
        var crate := Strip(Split(line, "=")[0]);
        if crate != "" && !StartsWith(crate, "#") {
          declared := declared + {crate};
        }
      }
    }
    assert lines[..|lines|] == lines;
  }

  /** A crate counts as used under its own name or with `-` read as `_`. */
  predicate CrateUsed(uses: set<string>, crate: string)
  {
    ReplaceChar(crate, '-', '_') in uses || crate in uses
  }

  function RustUnused(cargo: Option<string>, uses: set<string>): set<string>
  {
    if cargo.None? then {} else UnusedIn(CargoDeclared(cargo.value), c => CrateUsed(uses, c))
  }

  /** `find_orphaned_rust_deps`; `cargo` is None when Cargo.toml is missing
      or unreadable, else its text. */
  method FindOrphanedRustDeps(cargo: Option<string>, uses: set<string>) returns (orphans: seq<DepOrphan>)
    ensures UnusedReport(orphans, RustUnused(cargo, uses), "Cargo.toml", "rust", RustConfidence, "crate_not_used")
  {
    if cargo.None? {
      return [];
    }
    var declared := ParseCargo(Split(cargo.value, "\n"));
    orphans := ReportUnused(declared, c => CrateUsed(uses, c), "Cargo.toml", "rust", RustConfidence, "crate_not_used");
  }

  // ---------------------------------------------------------------------------
  // All ecosystems
  // ---------------------------------------------------------------------------

  /** The inputs of the four analysers. */
  datatype DepInputs = DepInputs(
    pythonImports: set<string>, requirements: map<string, seq<string>>,
    packageJson: Option<map<string, set<string>>>, jsSpecs: seq<string>,
    goMod: Option<set<string>>, goImports: set<string>,
    cargo: Option<string>, rustUses: set<string>)

  predicate IsOf(ecosystem: string, o: DepOrphan) { o.ecosystem == ecosystem }

  /** The findings of one ecosystem, in the order they were reported. */
  function OfEcosystem(orphans: seq<DepOrphan>, ecosystem: string): seq<DepOrphan>
  {
    Filter(orphans, o => IsOf(ecosystem, o))
  }

  lemma OfEcosystemConcat(py: seq<DepOrphan>, js: seq<DepOrphan>, go: seq<DepOrphan>, rs: seq<DepOrphan>, e: string)
    ensures OfEcosystem(py + js + go + rs, e)
         == OfEcosystem(py, e) + OfEcosystem(js, e) + OfEcosystem(go, e) + OfEcosystem(rs, e)
  {
    FilterAppend(py, js, o => IsOf(e, o));
    FilterAppend(py + js, go, o => IsOf(e, o));
    FilterAppend(py + js + go, rs, o => IsOf(e, o));
  }

  /** A block reported by the analyser of ecosystem `own` contributes all of
      itself to `own` and nothing to any other ecosystem. */
  lemma OfEcosystemBlock(xs: seq<DepOrphan>, own: string, e: string)
    requires forall o :: o in xs ==> o.ecosystem == own
    ensures OfEcosystem(xs, e) == if e == own then xs else []
  {
    if e == own {
      FilterAll(xs, o => IsOf(e, o));
    } else {
      FilterNone(xs, o => IsOf(e, o));
    }
  }

  /** Splitting the four analysers' blocks back out by ecosystem. */
  lemma OfEcosystemBlocks(py: seq<DepOrphan>, js: seq<DepOrphan>, go: seq<DepOrphan>, rs: seq<DepOrphan>,
                          ePy: string, eJs: string, eGo: string, eRs: string, e: string)
    requires forall o :: o in py ==> o.ecosystem == ePy
    requires forall o :: o in js ==> o.ecosystem == eJs
    requires forall o :: o in go ==> o.ecosystem == eGo
    requires forall o :: o in rs ==> o.ecosystem == eRs
    ensures OfEcosystem(py + js + go + rs, e)
         == (if e == ePy then py else []) + (if e == eJs then js else [])
            + (if e == eGo then go else []) + (if e == eRs then rs else [])
  {
    OfEcosystemConcat(py, js, go, rs, e);
    OfEcosystemBlock(py, ePy, e);
    OfEcosystemBlock(js, eJs, e);
    OfEcosystemBlock(go, eGo, e);
    OfEcosystemBlock(rs, eRs, e);
  }

  /** What `find_all_orphaned_deps` returns: the Python findings, then the
      JavaScript, Go and Rust ones, each block present only when its
      ecosystem was detected. The Python block is exactly the Python
      analyser's list; each other block reports every unused name of its
      manifest once, in an order its set iteration chooses. */
  predicate OrphanReport(ecosystems: set<string>, inp: DepInputs, all: seq<DepOrphan>)
  {
    && all == OfEcosystem(all, "python") + OfEcosystem(all, "javascript") + OfEcosystem(all, "go")
              + OfEcosystem(all, "rust")
    && OfEcosystem(all, "python") == (if "python" in ecosystems then PythonOrphans(inp.pythonImports, inp.requirements) else [])
    && (if "javascript" in ecosystems
        then UnusedReport(OfEcosystem(all, "javascript"), JsUnused(inp.packageJson, inp.jsSpecs),
                          "package.json", "javascript", JsConfidence, "package_not_imported")
        else OfEcosystem(all, "javascript") == [])
    && (if "go" in ecosystems
        then UnusedReport(OfEcosystem(all, "go"), GoUnused(inp.goMod, inp.goImports),
                          "go.mod", "go", GoConfidence, "module_not_imported")
        else OfEcosystem(all, "go") == [])
    && (if "rust" in ecosystems
        then UnusedReport(OfEcosystem(all, "rust"), RustUnused(inp.cargo, inp.rustUses),
                          "Cargo.toml", "rust", RustConfidence, "crate_not_used")
        else OfEcosystem(all, "rust") == [])
  }

  /** Each analyser's block comes back out of the concatenation whole. */
  lemma SplitByEcosystem(py: seq<DepOrphan>, js: seq<DepOrphan>, go: seq<DepOrphan>, rs: seq<DepOrphan>)
    requires forall o :: o in py ==> o.ecosystem == "python"
    requires forall o :: o in js ==> o.ecosystem == "javascript"
    requires forall o :: o in go ==> o.ecosystem == "go"
    requires forall o :: o in rs ==> o.ecosystem == "rust"
    ensures OfEcosystem(py + js + go + rs, "python") == py
    ensures OfEcosystem(py + js + go + rs, "javascript") == js
    ensures OfEcosystem(py + js + go + rs, "go") == go
    ensures OfEcosystem(py + js + go + rs, "rust") == rs
  {
    var all := py + js + go + rs;
    assert OfEcosystem(all, "python") == py by {
      OfEcosystemBlocks(py, js, go, rs, "python", "javascript", "go", "rust", "python");
      assert py + [] + [] + [] == py;
    }
    assert OfEcosystem(all, "javascript") == js by {
      OfEcosystemBlocks(py, js, go, rs, "python", "javascript", "go", "rust", "javascript");
      assert [] + js + [] + [] == js;
    }
    assert OfEcosystem(all, "go") == go by {
      OfEcosystemBlocks(py, js, go, rs, "python", "javascript", "go", "rust", "go");
      assert [] + [] + go + [] == go;
    }
    assert OfEcosystem(all, "rust") == rs by {
      OfEcosystemBlocks(py, js, go, rs, "python", "javascript", "go", "rust", "rust");
      assert [] + [] + [] + rs == rs;
    }
  }

  /** The four blocks, each the result of its analyser or empty when its
      ecosystem was not detected, concatenate to a report. */
  lemma OrphanReportOf(ecosystems: set<string>, inp: DepInputs,
                       py: seq<DepOrphan>, js: seq<DepOrphan>, go: seq<DepOrphan>, rs: seq<DepOrphan>)
    requires py == (if "python" in ecosystems then PythonOrphans(inp.pythonImports, inp.requirements) else [])
    requires forall o :: o in py ==> o.ecosystem == "python" && o.confidence == PythonConfidence
    requires if "javascript" in ecosystems
             then UnusedReport(js, JsUnused(inp.packageJson, inp.jsSpecs), "package.json", "javascript", JsConfidence,
                               "package_not_imported")
             else js == []
    requires if "go" in ecosystems
             then UnusedReport(go, GoUnused(inp.goMod, inp.goImports), "go.mod", "go", GoConfidence, "module_not_imported")
             else go == []
    requires if "rust" in ecosystems
             then UnusedReport(rs, RustUnused(inp.cargo, inp.rustUses), "Cargo.toml", "rust", RustConfidence, "crate_not_used")
             else rs == []
    ensures OrphanReport(ecosystems, inp, py + js + go + rs)
    ensures forall o :: o in py + js + go + rs ==> o.ecosystem in ecosystems
    ensures forall o :: o in py + js + go + rs ==> o.confidence == JsConfidence || o.confidence == PythonConfidence
  {
    var all := py + js + go + rs;
    assert forall o :: o in js ==> o.ecosystem == "javascript";
    assert forall o :: o in go ==> o.ecosystem == "go";
    assert forall o :: o in rs ==> o.ecosystem == "rust";
    SplitByEcosystem(py, js, go, rs);
    forall o | o in all
      ensures o.ecosystem in ecosystems
      ensures o.confidence == JsConfidence || o.confidence == PythonConfidence
    {
      assert o in py || o in js || o in go || o in rs;
    }
  }

  /** The number of findings is fixed by the inputs: the Python findings
      plus one per unused name of each other detected ecosystem. */
  lemma OrphanReportCount(ecosystems: set<string>, inp: DepInputs, all: seq<DepOrphan>)
    requires OrphanReport(ecosystems, inp, all)
    ensures |all| == (if "python" in ecosystems then |PythonOrphans(inp.pythonImports, inp.requirements)| else 0)
                   + (if "javascript" in ecosystems then |JsUnused(inp.packageJson, inp.jsSpecs)| else 0)
                   + (if "go" in ecosystems then |GoUnused(inp.goMod, inp.goImports)| else 0)
                   + (if "rust" in ecosystems then |RustUnused(inp.cargo, inp.rustUses)| else 0)
  {
    var py, js := OfEcosystem(all, "python"), OfEcosystem(all, "javascript");
    var go, rs := OfEcosystem(all, "go"), OfEcosystem(all, "rust");
    assert |all| == |py| + |js| + |go| + |rs|;
  }

  /** `find_all_orphaned_deps`: each analyser runs only when its ecosystem
      was detected, in the order Python, JavaScript, Go, Rust. */
  method FindAllOrphanedDeps(ecosystems: set<string>, inp: DepInputs) returns (all: seq<DepOrphan>)
    ensures OrphanReport(ecosystems, inp, all)
    ensures forall o :: o in all ==> o.ecosystem in ecosystems
    ensures forall o :: o in all ==> o.confidence == JsConfidence || o.confidence == PythonConfidence
  {
    var py: seq<DepOrphan> := [];
    var js: seq<DepOrphan> := [];
    var go: seq<DepOrphan> := [];
    var rs: seq<DepOrphan> := [];
    if "python" in ecosystems {
      py := FindOrphanedPythonDeps(inp.pythonImports, inp.requirements);
      PythonEcosystem(inp.pythonImports, inp.requirements);
    }
    if "javascript" in ecosystems {
      js := FindOrphanedJsDeps(inp.packageJson, inp.jsSpecs);
    }
    if "go" in ecosystems {
      go := FindOrphanedGoDeps(inp.goMod, inp.goImports);
    }
    if "rust" in ecosystems {
      rs := FindOrphanedRustDeps(inp.cargo, inp.rustUses);
    }
    OrphanReportOf(ecosystems, inp, py, js, go, rs);
    all := py + js + go + rs;
  }

  lemma PythonEcosystem(imports: set<string>, reqFiles: map<string, seq<string>>)
    ensures forall o :: o in PythonOrphans(imports, reqFiles) ==> o.ecosystem == "python" && o.confidence == PythonConfidence
  {
    forall o | o in PythonOrphans(imports, reqFiles) ensures o.ecosystem == "python" && o.confidence == PythonConfidence {
      PythonOrphanIff(imports, reqFiles, o);
    }
  }
}
