# KonMari repository analyser: a verified model

This project models the core of `analyze_repo.py`, the analyser behind the
KonMari repository-tidying skill. The analyser walks a repository, sorts
what it finds into five categories and gives each finding a confidence
score from 0 to 100:

1. Dead files (clothing): backup, temporary and assistant-session files, plus groups of likely duplicates.
2. Dependencies (books): declared packages that nothing imports.
3. Documentation (papers): documents with broken links or file references.
4. Configuration (komono): tool configurations without the tool.
5. Legacy code (sentimental): files carrying deprecation markers.

It also looks for assistant-style commits and stale branches in git, and
for context-heavy text files. It then assembles a report. Findings scoring
80 or more are *quick wins*. Findings scoring from 50 to 79 need a
*decision*. A repository with no findings in the first four categories is
*clean*.

The model is in Dafny, one module per part of the analyser:

| file | module | models |
|---|---|---|
| `common.dfy` | `Common` | options, `xs[:n]`, list comprehensions, the regex engine as a `Matcher` parameter |
| `strings.dfy` | `Strings` | the `str` methods the analyser uses (`strip`, `lstrip`, `split`, `replace`, `lower`, `startswith`, `in`) |
| `sorting.dfy` | `Sorting` | `sorted(..., reverse=True)` by an integer key, and `sorted` on strings |
| `scoring.dfy` | `Scoring` | `calculate_confidence` and `find_dead_files` |
| `duplicates.dfy` | `Duplicates` | `find_duplicates` |
| `dependencies.dfy` | `Dependencies` | the four dependency analysers and `find_all_orphaned_deps` |
| `documentation.dfy` | `Documentation` | `find_documentation_drift` |
| `configuration.dfy` | `Configuration` | `find_orphaned_configs` |
| `legacy.dfy` | `Legacy` | `find_legacy_code` |
| `context_heavy.dfy` | `ContextHeavy` | `estimate_tokens` and `find_context_heavy_files` |
| `git.dfy` | `GitArchaeology` | `analyze_commits` and `find_stale_branches` |
| `report.dfy` | `Report` | the result assembly of `analyze_repo` and `check_cleanliness` |

Every place where the analyser touches the outside world becomes an input:
- A directory walk becomes the sequence of files it would yield, in walk order.
- A file read or `os.stat` becomes an `Option` that is `None` where the analyser catches the failure. The failures it does not catch are listed under "## Left out".
- A `git` command becomes its output, or `None`.
- A file's age in days, which depends on the clock, is given with the file.
- `re.match`, `re.search` and `re.findall` become function parameters.

The pattern tables themselves (dead-file names, assistant artifacts, commit
patterns and signatures, stale-branch prefixes, configuration patterns,
deprecation markers) are kept verbatim as constants. Each loop that builds a
list is a method with loop invariants. Each method is proved equal to a
function that states the same result declaratively, and the lemmas state
what the analyser promises about that function.

Where the code and its written description disagree, the model follows the code:
- `calculate_confidence` starts from 50 and applies no floor of its own; it only clamps to 0..100.
- The documentation-drift confidence is `min(40 + 10n, 80)`. One broken reference already reaches the decision band, and four or more make a quick win.
- The configuration confidence is 55, or 70 for files older than 90 days. A configuration whose manifest list is empty (the three CI entries) is never reported.

## Model

| member | source | states |
|---|---|---|
| Scoring.CalculateConfidence | skill_package/scripts/analyze_repo.py:192-232 | the score stays within 0..100; a file changed in the last 14 days and not imported scores at most 65; an imported file scores at most 75; neither is ever a quick win |
| Scoring.ConfidenceMonotoneInAge | skill_package/scripts/analyze_repo.py:217-228 | with the same signals, an older file never scores lower than a younger one |
| Scoring.ConfidenceMonotoneInSignals | skill_package/scripts/analyze_repo.py:211-230 | being imported never raises the score; matching a pattern, being an assistant artifact or being a duplicate never lowers it |
| Scoring.DeadPatternReferencePoints | skill_package/scripts/analyze_repo.py:208-232 | a pattern match older than 180 days scores 85, one exactly 180 days old scores 80, one 5 days old scores 35 |
| Scoring.FirstMatchFrom | skill_package/scripts/analyze_repo.py:261-272 | the index found matches the subject and no earlier pattern does, or no pattern from the start index on matches |
| Scoring.FirstMatchingSpec | skill_package/scripts/analyze_repo.py:261-272 | the `for ... break` loop yields nothing exactly when no pattern matches; otherwise it yields a pattern that matches and that no earlier pattern in the table precedes as a match |
| Scoring.FirstMatch | skill_package/scripts/analyze_repo.py:261-272 | the loop with `break` computes the first matching pattern |
| Scoring.DeadFileEntrySpec | skill_package/scripts/analyze_repo.py:257-305 | a file is reported exactly when some artifact or dead-file pattern matches and `os.stat` succeeds; the reported pattern is the first match in the artifact table, or, when no artifact matches, the first match in the dead-file table; the confidence is `calculate_confidence` with the pattern signal, the artifact flag and the age |
| Scoring.DeadFileItemsMembers | skill_package/scripts/analyze_repo.py:240-305 | a finding is listed exactly when some walked file produces it |
| Scoring.FindDeadFiles | skill_package/scripts/analyze_repo.py:240-307 | the result is the findings in walk order, sorted by confidence highest first; it lists exactly the findings of the walked files |
| Sorting.SortDesc | skill_package/scripts/analyze_repo.py:307 | `sorted(..., reverse=True)` by a key returns a permutation of its input in non-increasing key order |
| Sorting.SortStrings | skill_package/scripts/analyze_repo.py:358 | `sorted(paths)` returns a permutation in lexicographic order |
| Duplicates.PathStemSuffix | skill_package/scripts/analyze_repo.py:328-329 | `Path.stem` followed by `Path.suffix` gives back the name; a name with only a leading dot has no suffix; a suffix is one dot followed by a dot-free text |
| Duplicates.PathSplitKnown | skill_package/scripts/analyze_repo.py:328-329 | for `base.ext`, the stem is `base` and the suffix is `.ext` |
| Duplicates.StripAll | skill_package/scripts/analyze_repo.py:331-347 | the suffix loop deletes every occurrence of each listed suffix, in table order |
| Duplicates.SuffixVariantsShareKey | skill_package/scripts/analyze_repo.py:328-350 | a name and the same name with one listed suffix before its extension (`config.py`, `config_old.py`) get the same grouping key |
| Duplicates.KeysInOrderSpec | skill_package/scripts/analyze_repo.py:350-353 | the dictionary's keys are exactly the keys of the walked files, each listed once |
| Duplicates.GroupByKey | skill_package/scripts/analyze_repo.py:312-350 | the `defaultdict(list)` maps each key to the paths of its files in walk order, and its key order is first-insertion order |
| Duplicates.SameKeySameGroup | skill_package/scripts/analyze_repo.py:350-367 | two different files with the same key end up in one reported group |
| Duplicates.SuffixVariantsGrouped | skill_package/scripts/analyze_repo.py:310-367 | `config.py` and `config_old.py` in one walk are reported together |
| Duplicates.CollectCandidates | skill_package/scripts/analyze_repo.py:352-367 | the loop over the dictionary keeps the keys with more than one path, in dictionary order |
| Duplicates.FindDuplicates | skill_package/scripts/analyze_repo.py:310-372 | the result is the first twenty candidate groups by size; every group has at least two files, a sorted file list that is a permutation of its key's files, a count equal to its length, and confidence 70 |
| Dependencies.ReportUnused | skill_package/scripts/analyze_repo.py:564-578 | looping over a declared set in any order reports each unused name exactly once and no used name |
| Dependencies.RequirementName | skill_package/scripts/analyze_repo.py:467-474 | a requirements line names no package exactly when it is blank, a comment or an option; otherwise the name is the stripped text before the first version or extras character of the stripped line |
| Dependencies.ImportedIff | skill_package/scripts/analyze_repo.py:476-484 | the three comparisons collapse into one: an import counts exactly when it normalises (lower case, `-` read as `_`) to the package's name |
| Dependencies.PythonOrphanIff | skill_package/scripts/analyze_repo.py:457-502 | a Python orphan is exactly a non-empty package named on a line of an existing requirements file that no import matches, with confidence 65 |
| Dependencies.ScanRequirements | skill_package/scripts/analyze_repo.py:466-500 | the line loop of one requirements file yields the orphans of its lines in order |
| Dependencies.FindOrphanedPythonDeps | skill_package/scripts/analyze_repo.py:457-504 | the three files are scanned in order, and missing files are skipped |
| Dependencies.JsScopedBaseName | skill_package/scripts/analyze_repo.py:554-557 | `@scope/pkg/sub` and `@scope/pkg` both name `@scope/pkg` |
| Dependencies.JsBareScopeDropped | skill_package/scripts/analyze_repo.py:554-557 | a bare `@scope` names no package |
| Dependencies.JsUnscopedBaseName | skill_package/scripts/analyze_repo.py:558-559 | `pkg/sub` and `pkg` both name `pkg` |
| Dependencies.CollectJsImports | skill_package/scripts/analyze_repo.py:548-559 | the collected names are the base names of all matched specifiers |
| Dependencies.JsDeclaredIff | skill_package/scripts/analyze_repo.py:522-525 | declared means listed under `dependencies`, `devDependencies` or `peerDependencies` |
| Dependencies.FindOrphanedJsDeps | skill_package/scripts/analyze_repo.py:507-579 | with no readable package.json nothing is reported; otherwise the reported packages are exactly the declared ones no import names, each once, so the count equals the number of unused packages, all with source `package.json`, ecosystem `javascript`, confidence 60 and reason `package_not_imported` |
| Dependencies.GoModuleUsedIff | skill_package/scripts/analyze_repo.py:629 | the prefix test adds nothing to the substring test |
| Dependencies.FindOrphanedGoDeps | skill_package/scripts/analyze_repo.py:582-643 | the reported modules are exactly the declared ones no import contains, each once, so the count equals the number of unused modules, all with source `go.mod`, ecosystem `go`, confidence 65 and reason `module_not_imported` |
| Dependencies.Classify | skill_package/scripts/analyze_repo.py:661-669 | each Cargo line is a dependencies header, another table header, or an entry with the key it declares |
| Dependencies.CargoInDepsIff | skill_package/scripts/analyze_repo.py:660-666 | the `in_deps` flag holds exactly when a dependencies header was seen and no other header since |
| Dependencies.CargoDeclaredIff | skill_package/scripts/analyze_repo.py:660-670 | a crate is declared exactly when some entry line inside a dependency table has it as key |
| Dependencies.ParseCargo | skill_package/scripts/analyze_repo.py:660-670 | the line loop computes the declared set defined line by line |
| Dependencies.FindOrphanedRustDeps | skill_package/scripts/analyze_repo.py:646-716 | the reported crates are exactly the declared ones used neither as written nor with `-` read as `_`, each once, so the count equals the number of unused crates, all with source `Cargo.toml`, ecosystem `rust`, confidence 65 and reason `crate_not_used` |
| Dependencies.PythonEcosystem | skill_package/scripts/analyze_repo.py:486-500 | every Python orphan carries ecosystem `python` and confidence 65 |
| Dependencies.FindAllOrphanedDeps | skill_package/scripts/analyze_repo.py:719-733 | the result is the Python block, then the JavaScript, Go and Rust blocks, in that order. Each block is empty unless its ecosystem was detected. The Python block is exactly the Python orphans in their own order. Each other block lists every unused package exactly once, with its ecosystem's source, confidence and reason. Every finding belongs to a detected ecosystem and scores 60 or 65 |
| Dependencies.SplitByEcosystem | skill_package/scripts/analyze_repo.py:719-733 | filtering the concatenated result by ecosystem gives back each finder's block |
| Dependencies.OrphanReportOf | skill_package/scripts/analyze_repo.py:719-733 | concatenating the four finders' results in the analyser's order gives a report whose blocks are those results |
| Dependencies.OrphanReportCount | skill_package/scripts/analyze_repo.py:719-733 | the number of findings is the sum, over the detected ecosystems, of the Python orphans and the unused JavaScript, Go and Rust packages |
| Documentation.DocConfidence | skill_package/scripts/analyze_repo.py:826 | one or more broken references score 50 to 80; the score is 80 exactly from four references on, and `40 + 10n` below that |
| Documentation.BrokenRefsIff | skill_package/scripts/analyze_repo.py:782-812 | a link is broken exactly when it is not a web or mail link, does not exist on disk and is not a known file; a code-block reference is broken exactly when it is not a known name |
| Documentation.DriftOfSpec | skill_package/scripts/analyze_repo.py:770-832 | a document is reported exactly when it is a readable, statable `.md`/`.rst`/`.txt` file that is not hidden and has a broken reference; the issue lists the first five references, counts all of them and scores 50 to 80 |
| Documentation.DriftIssuesMembers | skill_package/scripts/analyze_repo.py:761-836 | an issue is listed exactly when some walked document produces it |
| Documentation.CollectBrokenRefs | skill_package/scripts/analyze_repo.py:778-812 | the two loops collect the broken links, then the broken code references, in order |
| Documentation.FindDocumentationDrift | skill_package/scripts/analyze_repo.py:741-836 | the issues are those of the walked documents in order; each has at least one broken reference, lists at most five, and scores `min(40 + 10n, 80)` |
| Configuration.InstalledFrom | skill_package/scripts/analyze_repo.py:869-879 | a package is installed exactly when package.json parsed and lists it under one of the sections |
| Configuration.ConfigConfidence | skill_package/scripts/analyze_repo.py:916 | the score is 55 or 70, and 70 exactly for files older than 90 days |
| Configuration.ConfigOrphansIff | skill_package/scripts/analyze_repo.py:890-924 | a finding exists exactly for a walked, statable file and a matching pattern whose tool is not installed and none of whose manifests exists at the root, while the manifest list is non-empty |
| Configuration.CiPatternsUnbackable | skill_package/scripts/analyze_repo.py:848-866 | every entry with a non-empty manifest list belongs to a tool other than travis, circleci and jenkins |
| Configuration.CiConfigsNeverReported | skill_package/scripts/analyze_repo.py:863-865 | CI configurations are never reported; a reported tool is never installed and scores 55 or 70 |
| Configuration.AnyDepFileExists | skill_package/scripts/analyze_repo.py:900-902 | the `any(...)` loop finds a manifest exactly when one exists |
| Configuration.ScanFile | skill_package/scripts/analyze_repo.py:891-924 | the pattern loop for one file yields one finding per matching, unbacked pattern, in table order |
| Configuration.ScanFiles | skill_package/scripts/analyze_repo.py:881-924 | the file loop concatenates the findings of each file in walk order |
| Configuration.FindOrphanedConfigs | skill_package/scripts/analyze_repo.py:844-926 | the result is the findings over the table and the installed packages; every finding scores 55 or 70 |
| Legacy.Markers | skill_package/scripts/analyze_repo.py:974-978 | at most three markers are kept per pattern |
| Legacy.MarkersIff | skill_package/scripts/analyze_repo.py:975-978 | a marker is exactly one of the first three matches of some pattern |
| Legacy.ScanOfSpec | skill_package/scripts/analyze_repo.py:963-984 | a file is reported exactly when it has a listed extension, can be read and statted, and some pattern matches; it then has 1 to 30 markers |
| Legacy.ReportedItemsBounded | skill_package/scripts/analyze_repo.py:987-992 | a reported item scores 40, below the decision band, and lists at most five markers |
| Legacy.CollectMarkers | skill_package/scripts/analyze_repo.py:974-978 | the pattern loop collects the markers in table order |
| Legacy.DistinctMarkers | skill_package/scripts/analyze_repo.py:987 | `list(set(markers))` holds each distinct marker exactly once, in an order of its own |
| Legacy.ReportScan | skill_package/scripts/analyze_repo.py:984-998 | an item keeps the path and age, counts every marker, lists up to five distinct markers drawn from them, and scores 40 |
| Legacy.ScanFiles | skill_package/scripts/analyze_repo.py:954-1000 | the walk yields one item per scanned file, in walk order |
| Legacy.FindLegacyCode | skill_package/scripts/analyze_repo.py:934-1002 | the result is the first fifteen items by marker count, highest first; each scores 40 and lists at most five markers |
| ContextHeavy.EstimateTokens | skill_package/scripts/analyze_repo.py:177-179 | the estimate is the length divided by four, rounded down |
| ContextHeavy.LineCount | skill_package/scripts/analyze_repo.py:1172 | the count lies between 1 and the length plus one, and is 1 exactly when there is no newline |
| ContextHeavy.HeavyOfSpec | skill_package/scripts/analyze_repo.py:1161-1189 | a file is reported exactly when it has a listed extension, is readable and exceeds 500 lines or 4000 tokens; splitting is advised only above the line limit; confidence 50 |
| ContextHeavy.HeavyBySize | skill_package/scripts/analyze_repo.py:1172-1175 | under 500 characters a file is never heavy; over 16003 characters a listed file always exceeds the token limit |
| ContextHeavy.FindContextHeavyFiles | skill_package/scripts/analyze_repo.py:1147-1193 | the result is the first fifteen heavy files by estimated tokens, highest first |
| GitArchaeology.MatchedPatterns | skill_package/scripts/analyze_repo.py:1067-1071 | the matched patterns are exactly the table's patterns that the subject matches, in table order |
| GitArchaeology.TallyOf | skill_package/scripts/analyze_repo.py:1040-1084 | signed plus scored commits never outnumber the commits, and there are never more commits than log entries |
| GitArchaeology.SkippedEntries | skill_package/scripts/analyze_repo.py:1041-1047 | an entry is skipped exactly when it is blank after stripping or has fewer than three `\|` separators |
| GitArchaeology.ClassifiedFields | skill_package/scripts/analyze_repo.py:1049-1084 | a commit is signed exactly when its message holds a signature; a scored commit matches 2 or more patterns, lists at most three of them, and has its hash, subject and date shortened |
| GitArchaeology.AnalysisBounds | skill_package/scripts/analyze_repo.py:1087-1096 | both lists are cut to ten while the counts stay full; the ratio's denominator is at least 1; the scored list is ordered by score |
| GitArchaeology.AnySignature | skill_package/scripts/analyze_repo.py:1055 | the `any(...)` loop finds a signature exactly when one occurs |
| GitArchaeology.ScoreSubject | skill_package/scripts/analyze_repo.py:1066-1071 | the score equals the number of matched patterns |
| GitArchaeology.TallyEntry | skill_package/scripts/analyze_repo.py:1041-1084 | one pass of the loop body skips the entry, counts it as signed, or counts and scores it |
| GitArchaeology.TallyEntries | skill_package/scripts/analyze_repo.py:1040-1084 | the entry loop computes the tally defined entry by entry |
| GitArchaeology.AnalyzeCommits | skill_package/scripts/analyze_repo.py:1010-1096 | the result marks a missing repository exactly when there is none; a failed or empty log gives the empty result; otherwise it is the tally of the log's entries, with lists of at most ten, full counts and a ratio whose denominator is the commit count or 1 |
| GitArchaeology.NormaliseListedBranch | skill_package/scripts/analyze_repo.py:1127 | `* name`, `  name` and `  remotes/origin/name` all come out as the bare name |
| GitArchaeology.StaleBranchesSpec | skill_package/scripts/analyze_repo.py:1105-1139 | at most twenty branches are reported; each reported pattern matches the branch and no earlier pattern does |
| GitArchaeology.FindStaleBranchesWith | skill_package/scripts/analyze_repo.py:1124-1139 | the line loop with `break` computes the list defined line by line |
| GitArchaeology.FindStaleBranches | skill_package/scripts/analyze_repo.py:1100-1139 | `find_stale_branches` with the verbatim pattern table and the `remotes/origin/` prefix |
| Report.AllItemsListed | skill_package/scripts/analyze_repo.py:1480 | `all_items` holds exactly the findings of the first four categories; legacy code is excluded |
| Report.QuickWins | skill_package/scripts/analyze_repo.py:1481-1483 | an item is a quick win exactly when it is a finding of the first four categories scoring 80 or more |
| Report.DecisionsNeeded | skill_package/scripts/analyze_repo.py:1484-1486 | an item needs a decision exactly when it is a finding of any of the five categories scoring from 50 to 79 |
| Report.CheckCleanliness | skill_package/scripts/analyze_repo.py:1301-1336 | clean exactly with zero issues, nearly clean with one to four, otherwise needs tidying; only the first four categories count, and the count is reported |
| Report.SummaryCounts | skill_package/scripts/analyze_repo.py:1442-1458 | the total is the sum of the category counts and equals `all_items` plus the legacy items; cleanliness counts exactly `all_items` |
| Report.BandsPartitionIssues | skill_package/scripts/analyze_repo.py:1480-1486 | no item is both a quick win and a decision, and the two lists together never exceed the total |
| Report.BandOfListedItem | skill_package/scripts/analyze_repo.py:1481-1486 | a finding scoring 50 or more is in exactly one of the two lists |
| Report.LegacyNeverListed | skill_package/scripts/analyze_repo.py:992 | legacy items, at 40, appear in neither list |
| Report.MidBandCategoriesNeedDecisions | skill_package/scripts/analyze_repo.py:363 | duplicates, unused dependencies and orphaned configurations always need a decision and are never quick wins |
| Report.DocumentationBands | skill_package/scripts/analyze_repo.py:826 | a document with four or more broken references is a quick win; one with fewer needs a decision |
| Report.CleanHasNothingToDo | skill_package/scripts/analyze_repo.py:1301-1312 | a clean repository has no quick win and nothing to decide |
| Report.AssembledBands | skill_package/scripts/analyze_repo.py:1480-1486 | from the scores each analyser guarantees: no legacy item is listed, every duplicate, dependency and configuration finding needs a decision, documents fall into their band, and a clean report has nothing to do |
| Report.CleanlinessIgnoresLegacyAndContext | skill_package/scripts/analyze_repo.py:1303-1309 | legacy markers and context-heavy files never change the cleanliness verdict |
| Report.AnalyzeRepo | skill_package/scripts/analyze_repo.py:1344-1491 | runs every analyser in order and assembles the report. Each category is the analyser's result, and the dependency count is the sum of the detected ecosystems' orphans. No legacy item is listed. Every duplicate, dependency and configuration finding needs a decision. Documents fall into a band by their broken count. A clean report has nothing to do |

## Left out

- Directory walks and their pruning of hidden, vendored and build directories: each analyser receives the files its walk would yield, in order.
- File reads, `os.stat`, `os.path.exists`, `json.load` and the clock: they arrive as inputs. A failure the analyser catches arrives as `None`, and file ages arrive in days.
- Dependencies.FindOrphanedPythonDeps, Dependencies.FindOrphanedJsDeps, Dependencies.FindOrphanedGoDeps, Dependencies.FindOrphanedRustDeps, Configuration.FindOrphanedConfigs: the dependency finders open their manifests with strict UTF-8 decoding, and the `except` clauses (`IOError`, `OSError`, `json.JSONDecodeError`) do not catch a `UnicodeDecodeError`; a `package.json` whose `dependencies`, `devDependencies` or `peerDependencies` entry is not an object makes `.keys()` raise an `AttributeError`. The configuration check also opens `package.json` in the platform's default encoding, where a decoding error escapes in the same way. Each such error escapes and aborts the whole analysis. The model leaves that abort out: it receives such a manifest as already decoded, and each section as a set of keys.
- The regular-expression engine, `ast.parse` and the import regexes: `re.match`, `re.search` and `re.findall` are function parameters, and the import scanners deliver the set of names they collect. The link and code-block regexes of the documentation check deliver their matches, including the stripping of `./` and `#fragment`.
- Link resolution (`os.path.normpath`, `relpath` against the document's directory): each link arrives with its existence on disk and its repository-relative path.
- `git` subprocesses (`is_git_repo`, `git log`, `git branch -a`) and the `--since` date: they arrive as a flag and the command's output.
- `detect_ecosystems`, `detect_monorepo`, `count_files` and `get_repo_root`: the detected ecosystems are an input set; the monorepo block, the file count and the large-repository and sampling flags are not modelled.
- `generate_gratitude` and the display fields of each finding (`category`, `category_name`, `gratitude`, `modified` dates as strings in dead files, the category names and descriptions, the cleanliness messages): these are text only.
- The ratio `ai_commit_ratio` is a float: it is kept as numerator and denominator.
- The first `quick_wins` comprehension in the analysis dictionary: it is replaced right after, so only the recomputed list is modelled.
- `Strings.Lower`: lower-cases ASCII letters only; Python's `str.lower` also folds other scripts.
- Dependencies.FindOrphanedJsDeps, Dependencies.FindOrphanedGoDeps, Dependencies.FindOrphanedRustDeps: the reported order follows Python's set iteration, which the model leaves open; the contracts state the reported set and that no package is reported twice.
- Legacy.FindLegacyCode: the listed markers follow Python's set iteration, which the model leaves open; the contract states which markers may appear and how many.
- Sorting.SortDesc: the stability of Python's `sorted` (equal keys keep their input order) holds by construction but is not stated as a contract.
