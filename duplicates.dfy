/** Category 1 (dead files), second half: `find_duplicates`, which groups
    files whose lower-cased names agree once a fixed list of copy/backup
    suffixes is deleted from the stem. Grouping is by name only. */
module Duplicates {
  import opened Common
  import opened Strings
  import opened Sorting

  /** The suffixes deleted from the stem, in the order they are applied:
      the underscore-joined version markers, then the names file managers
      give to copies. */
  const DuplicateSuffixes: seq<string> :=
    ["_old", "_backup", "_copy", "_new", "_v1", "_v2", "_v3", "_final", "_draft", "_bak",
     " copy", " (1)", " (2)"]

  const DuplicateConfidence := 70
  const MaxDuplicateGroups := 20

  // ---------------------------------------------------------------------------
  // Path(name).stem and Path(name).suffix
  // ---------------------------------------------------------------------------

  /** The dot that starts the suffix: the last one, provided it is neither the
      first nor the last character of the name. */
  function SuffixDot(name: string): int
  {
    var i := RFind(name, '.');
    if 0 < i < |name| - 1 then i else -1
  }

  function PathSuffix(name: string): string
  {
    var i := SuffixDot(name);
    if i < 0 then "" else name[i..]
  }

  function PathStem(name: string): string
  {
    var i := SuffixDot(name);
    if i < 0 then name else name[..i]
  }

  /** Stem and suffix split the name without losing anything; a name with
      only a leading dot has no suffix. */
  lemma {:induction false} PathStemSuffix(name: string)
    ensures PathStem(name) + PathSuffix(name) == name
    ensures |name| > 0 && name[0] == '.' && '.' !in name[1..] ==> PathSuffix(name) == ""
    ensures PathSuffix(name) != "" ==> PathSuffix(name)[0] == '.' && '.' !in PathSuffix(name)[1..]
  {
  }

  /** For `base + "." + ext` with a non-empty base and a dot-free, non-empty
      ext, the stem is base and the suffix is "." + ext. */
  lemma {:induction false} PathSplitKnown(base: string, ext: string)
    requires |base| > 0 && |ext| > 0 && '.' !in ext
    ensures PathStem(base + "." + ext) == base
    ensures PathSuffix(base + "." + ext) == "." + ext
  {
    var name := base + "." + ext;
    var i := RFind(name, '.');
    assert name[|base|] == '.';
    assert i == |base|;
    assert name[..i] == base;
    assert name[i..] == "." + ext;
  }

  // ---------------------------------------------------------------------------
  // Suffix deletion
  // ---------------------------------------------------------------------------

  /** `for suffix in suffixes: stem = stem.replace(suffix, "")` */
  function StripSuffixes(stem: string, suffixes: seq<string>): string
    decreases |suffixes|
  {
    if |suffixes| == 0 then stem
    else StripSuffixes(Remove(stem, suffixes[0]), suffixes[1..])
  }

  /** The loop of the source, reassigning `stem` once per suffix. */
  method StripAll(stem: string, suffixes: seq<string>) returns (stripped: string)
    ensures stripped == StripSuffixes(stem, suffixes)
  {
    stripped := stem;
    for i := 0 to |suffixes|
      invariant StripSuffixes(stripped, suffixes[i..]) == StripSuffixes(stem, suffixes)
    {
      assert suffixes[i..] == [suffixes[i]] + suffixes[i + 1..];
      stripped := Remove(stripped, suffixes[i]);
    }
  }

  datatype DupKey = DupKey(stem: string, ext: string)

  /** The grouping key `(stem, ext)` of a file name under a suffix table. */
  function KeyWith(suffixes: seq<string>, name: string): DupKey
  {
    DupKey(StripSuffixes(Lower(PathStem(name)), suffixes), Lower(PathSuffix(name)))
  }

  /** The grouping key `(stem, ext)` of a file name. */
  function DuplicateKey(name: string): DupKey
  {
    KeyWith(DuplicateSuffixes, name)
  }

  predicate IsSep(c: char) { c == '_' || c == ' ' }

  predicate NoSep(s: string) { forall k :: 0 <= k < |s| ==> !IsSep(s[k]) }

  /** A separator character first and none after it: every listed suffix. */
  predicate SepLed(p: string) { |p| > 0 && IsSep(p[0]) && NoSep(p[1..]) }

  lemma {:induction false} NoSepNotContains(u: string, p: string)
    requires NoSep(u) && |p| > 0 && IsSep(p[0])
    ensures !Contains(u, p)
  {
    if |u| > 0 { NoSepNotContains(u[1..], p); }
  }

  /** The facts about the suffix table that the grouping lemma needs:
      each suffix is separator-led and lower case, and none is a prefix of another. */
  lemma SuffixesSepLed()
    ensures forall i :: 0 <= i < |DuplicateSuffixes| ==> SepLed(DuplicateSuffixes[i])
  {
  }

  lemma SuffixesLowerCase()
    ensures forall i :: 0 <= i < |DuplicateSuffixes| ==> NoUpper(DuplicateSuffixes[i])
  {
  }

  lemma SuffixesPrefixFree()
    ensures forall i, j :: 0 <= i < |DuplicateSuffixes| && 0 <= j < |DuplicateSuffixes| && i != j ==>
      !StartsWith(DuplicateSuffixes[i], DuplicateSuffixes[j])
  {
  }

  /** Deleting separator-led p from a separator-led t leaves t unless t is p. */
  lemma {:induction false} RemoveFromSuffix(t: string, p: string)
    requires SepLed(t) && SepLed(p) && (t == p || !StartsWith(t, p))
    ensures Remove(t, p) == if t == p then [] else t
  {
    if t == p {
      RemoveSelf(p);
    } else if |t| >= |p| {
      NoSepNotContains(t[1..], p);
      RemoveAbsent(t[1..], p);
      assert [t[0]] + t[1..] == t;
    }
  }

  /** Appending a listed suffix to a stem does not change what the suffix
      deletion leaves: no occurrence of a suffix can straddle the seam, the
      appended suffix survives every earlier deletion and is deleted by its own. */
  lemma {:induction false} StripAppend(s: string, t: string, ps: seq<string>)
    requires forall p :: p in ps ==> SepLed(p)
    requires t == [] || (t in ps && SepLed(t) && forall p :: p in ps && p != t ==> !StartsWith(t, p))
    ensures StripSuffixes(s + t, ps) == StripSuffixes(s, ps)
    decreases |ps|
  {
    if |ps| == 0 {
      assert s + t == s;
    } else {
      var p := ps[0];
      assert SepLed(p);
      if t != [] {
        forall k | 1 <= k < |p| ensures p[k] != t[0] {
          assert p[k] == p[1..][k - 1];
        }
      }
      RemoveConcat(s, t, p);
      var t' := if t == [] then [] else Remove(t, p);
      if t != [] {
        RemoveFromSuffix(t, p);
        assert t' == if t == p then [] else t;
      } else {
        assert Remove(t, p) == [];
      }
      assert Remove(s + t, p) == Remove(s, p) + t';
      StripAppend(Remove(s, p), t', ps[1..]);
    }
  }

  /** Two names that differ only by one listed suffix before the extension
      get the same grouping key: `config.py` and `config_old.py`. */
  lemma {:induction false} SuffixVariantsShareKey(base: string, sfx: string, ext: string)
    requires |base| > 0 && |ext| > 0 && '.' !in ext
    requires sfx in DuplicateSuffixes
    ensures DuplicateKey(base + sfx + "." + ext) == DuplicateKey(base + "." + ext)
  {
    SuffixesSepLed();
    SuffixesLowerCase();
    SuffixesPrefixFree();
    var i :| 0 <= i < |DuplicateSuffixes| && DuplicateSuffixes[i] == sfx;
    LowerOfNoUpper(sfx);
    assert base + sfx + "." + ext == (base + sfx) + "." + ext;
    PathSplitKnown(base + sfx, ext);
    PathSplitKnown(base, ext);
    LowerConcat(base, sfx);
    forall p | p in DuplicateSuffixes && p != sfx ensures !StartsWith(sfx, p) {
      var j :| 0 <= j < |DuplicateSuffixes| && DuplicateSuffixes[j] == p;
    }
    forall p | p in DuplicateSuffixes ensures SepLed(p) {
      var j :| 0 <= j < |DuplicateSuffixes| && DuplicateSuffixes[j] == p;
    }
    StripAppend(Lower(base), sfx, DuplicateSuffixes);
  }

  // ---------------------------------------------------------------------------
  // Grouping: files_by_stem[(stem, ext)].append(rel_path)
  // ---------------------------------------------------------------------------

  datatype NamedFile = NamedFile(name: string, relPath: string)

  /** The paths grouped under key k, in walk order. */
  function Members(files: seq<NamedFile>, keyOf: string -> DupKey, k: DupKey): seq<string>
  {
    if |files| == 0 then []
    else
      var last := files[|files| - 1];
      Members(files[..|files| - 1], keyOf, k) + (if keyOf(last.name) == k then [last.relPath] else [])
  }

  /** The keys in the order the dictionary first sees them. */
  function KeysInOrder(files: seq<NamedFile>, keyOf: string -> DupKey): seq<DupKey>
  {
    if |files| == 0 then []
    else
      var init := KeysInOrder(files[..|files| - 1], keyOf);
      var k := keyOf(files[|files| - 1].name);
      if k in init then init else init + [k]
  }

  lemma {:induction false} MembersSpec(files: seq<NamedFile>, keyOf: string -> DupKey, k: DupKey, path: string)
    ensures path in Members(files, keyOf, k)
        <==> exists i :: 0 <= i < |files| && files[i].relPath == path && keyOf(files[i].name) == k
  {
    if |files| > 0 {
      var init := files[..|files| - 1];
      MembersSpec(init, keyOf, k, path);
      if path in Members(init, keyOf, k) {
        var i :| 0 <= i < |init| && init[i].relPath == path && keyOf(init[i].name) == k;
        assert files[i] == init[i];
      }
      if exists i :: 0 <= i < |files| && files[i].relPath == path && keyOf(files[i].name) == k {
        var i :| 0 <= i < |files| && files[i].relPath == path && keyOf(files[i].name) == k;
        if i < |files| - 1 {
          assert init[i] == files[i];
        }
      }
    }
  }

  /** A key is listed exactly when some file is grouped under it, and no key is listed twice. */
  lemma {:induction false} KeysInOrderSpec(files: seq<NamedFile>, keyOf: string -> DupKey, k: DupKey)
    ensures |Members(files, keyOf, k)| > 0 <==> k in KeysInOrder(files, keyOf)
    ensures Distinct(KeysInOrder(files, keyOf))
  {
    if |files| > 0 {
      KeysInOrderSpec(files[..|files| - 1], keyOf, k);
    }
  }

  /** Computes the key of one name the way the loop body does. */
  method KeyOfName(name: string, suffixes: seq<string>) returns (key: DupKey)
    ensures key == KeyWith(suffixes, name)
  {
    var stem := StripAll(Lower(PathStem(name)), suffixes);
    key := DupKey(stem, Lower(PathSuffix(name)));
  }

  /** `order` lists the dictionary's keys in first-insertion order and each
      key holds the paths of the files grouped under it. */
  ghost predicate Grouped(files: seq<NamedFile>, keyOf: string -> DupKey,
                          order: seq<DupKey>, groups: map<DupKey, seq<string>>)
  {
    && order == KeysInOrder(files, keyOf)
    && (forall k :: k in groups <==> k in order)
    && (forall k :: k in groups ==> groups[k] == Members(files, keyOf, k))
    && (forall k :: k !in groups ==> Members(files, keyOf, k) == [])
  }

  /** `files_by_stem[key].append(rel_path)` on a defaultdict of lists. */
  method Append(order: seq<DupKey>, groups: map<DupKey, seq<string>>, key: DupKey, path: string,
                ghost files: seq<NamedFile>, ghost keyOf: string -> DupKey, ghost f: NamedFile)
    returns (order': seq<DupKey>, groups': map<DupKey, seq<string>>)
    requires Grouped(files, keyOf, order, groups)
    requires keyOf(f.name) == key && f.relPath == path
    ensures Grouped(files + [f], keyOf, order', groups')
  {
    assert (files + [f])[..|files|] == files;
    if key in groups {
      order' := order;
      groups' := groups[key := groups[key] + [path]];
    } else {
      order' := order + [key];
      groups' := groups[key := [path]];
    }
  }

  /** Builds the dictionary of lists, normalising with the given suffix
      table; `order` is its key order. */
  method GroupByKey(files: seq<NamedFile>, suffixes: seq<string>, ghost keyOf: string -> DupKey)
    returns (order: seq<DupKey>, groups: map<DupKey, seq<string>>)
    requires forall name :: keyOf(name) == KeyWith(suffixes, name)
    ensures Grouped(files, keyOf, order, groups)
  {
    order := [];
    groups := map[];
    for i := 0 to |files|
      invariant Grouped(files[..i], keyOf, order, groups)
    {
      var f := files[i];
      var key := KeyOfName(f.name, suffixes);
      assert files[..i + 1] == files[..i] + [f];
      order, groups := Append(order, groups, key, f.relPath, files[..i], keyOf, f);
    }
    assert files[..|files|] == files;
  }

  // ---------------------------------------------------------------------------
  // Reporting
  // ---------------------------------------------------------------------------

  datatype DuplicateGroup = DuplicateGroup(baseName: string, files: seq<string>, count: nat, confidence: int)

  function GroupCount(g: DuplicateGroup): int { g.count }

  /** The report entry of one key, when more than one file shares it. */
  function GroupOf(k: DupKey, paths: seq<string>): seq<DuplicateGroup>
  {
    if |paths| > 1 then [DuplicateGroup(k.stem + k.ext, SortStrings(paths), |paths|, DuplicateConfidence)] else []
  }

  /** The groups with more than one file, in dictionary order. */
  function CandidatesFrom(keys: seq<DupKey>, files: seq<NamedFile>, keyOf: string -> DupKey): seq<DuplicateGroup>
  {
    if |keys| == 0 then []
    else
      var k := keys[|keys| - 1];
      CandidatesFrom(keys[..|keys| - 1], files, keyOf) + GroupOf(k, Members(files, keyOf, k))
  }

  function CandidateGroups(files: seq<NamedFile>): seq<DuplicateGroup>
  {
    CandidatesFrom(KeysInOrder(files, DuplicateKey), files, DuplicateKey)
  }

  ghost predicate WellFormedGroup(g: DuplicateGroup, files: seq<NamedFile>, keyOf: string -> DupKey)
  {
    && g.count >= 2
    && g.count == |g.files|
    && SortedStrings(g.files)
    && g.confidence == DuplicateConfidence
    && exists k: DupKey :: k.stem + k.ext == g.baseName && multiset(g.files) == multiset(Members(files, keyOf, k))
  }

  lemma {:induction false} CandidatesWellFormed(keys: seq<DupKey>, files: seq<NamedFile>, keyOf: string -> DupKey)
    ensures forall g :: g in CandidatesFrom(keys, files, keyOf) ==> WellFormedGroup(g, files, keyOf)
  {
    if |keys| > 0 {
      CandidatesWellFormed(keys[..|keys| - 1], files, keyOf);
      var k := keys[|keys| - 1];
      if |Members(files, keyOf, k)| > 1 {
        assert WellFormedGroup(GroupOf(k, Members(files, keyOf, k))[0], files, keyOf);
      }
    }
  }

  /** Two different files with the same key make that key's list at least two long. */
  lemma {:induction false} MembersDistinctPositions(files: seq<NamedFile>, keyOf: string -> DupKey, k: DupKey, i: nat, j: nat)
    requires i < |files| && j < |files| && i != j
    requires keyOf(files[i].name) == k && keyOf(files[j].name) == k
    ensures |Members(files, keyOf, k)| >= 2
  {
    var n := |files|;
    var init := files[..n - 1];
    if i == n - 1 || j == n - 1 {
      var other := if i == n - 1 then j else i;
      assert init[other] == files[other];
      MembersSpec(init, keyOf, k, files[other].relPath);
    } else {
      assert init[i] == files[i] && init[j] == files[j];
      MembersDistinctPositions(init, keyOf, k, i, j);
    }
  }

  lemma {:induction false} CandidatesContain(keys: seq<DupKey>, files: seq<NamedFile>, keyOf: string -> DupKey, k: DupKey)
    requires k in keys && |Members(files, keyOf, k)| > 1
    ensures GroupOf(k, Members(files, keyOf, k))[0] in CandidatesFrom(keys, files, keyOf)
  {
    if keys[|keys| - 1] != k {
      CandidatesContain(keys[..|keys| - 1], files, keyOf, k);
    }
  }

  /** Files whose names share a key land in the same candidate group. */
  lemma {:induction false} SameKeySameGroup(files: seq<NamedFile>, keyOf: string -> DupKey, i: nat, j: nat)
    requires i < |files| && j < |files| && i != j
    requires keyOf(files[i].name) == keyOf(files[j].name)
    ensures exists g :: g in CandidatesFrom(KeysInOrder(files, keyOf), files, keyOf)
                     && files[i].relPath in g.files && files[j].relPath in g.files
  {
    var k := keyOf(files[i].name);
    var members := Members(files, keyOf, k);
    MembersSpec(files, keyOf, k, files[i].relPath);
    MembersSpec(files, keyOf, k, files[j].relPath);
    MembersDistinctPositions(files, keyOf, k, i, j);
    KeysInOrderSpec(files, keyOf, k);
    assert files[i].relPath in members by {
      assert files[i].relPath == files[i].relPath && keyOf(files[i].name) == k;
    }
    assert files[j].relPath in members by {
      assert files[j].relPath == files[j].relPath && keyOf(files[j].name) == k;
    }
    var g := GroupOf(k, members)[0];
    assert multiset(g.files) == multiset(members);
    assert files[i].relPath in multiset(g.files);
    assert files[j].relPath in multiset(g.files);
    CandidatesContain(KeysInOrder(files, keyOf), files, keyOf, k);
  }

  /** `config.py` and `config_old.py` in the same walk end up in one candidate group. */
  lemma {:induction false} SuffixVariantsGrouped(files: seq<NamedFile>, i: nat, j: nat, base: string, sfx: string, ext: string)
    requires i < |files| && j < |files| && i != j
    requires |base| > 0 && |ext| > 0 && '.' !in ext && sfx in DuplicateSuffixes
    requires files[i].name == base + sfx + "." + ext && files[j].name == base + "." + ext
    ensures exists g :: g in CandidateGroups(files) && files[i].relPath in g.files && files[j].relPath in g.files
  {
    SuffixVariantsShareKey(base, sfx, ext);
    SameKeySameGroup(files, DuplicateKey, i, j);
  }

  /** The loop over the dictionary that keeps the lists with more than one path. */
  method CollectCandidates(order: seq<DupKey>, groups: map<DupKey, seq<string>>,
                           ghost files: seq<NamedFile>, ghost keyOf: string -> DupKey)
    returns (candidates: seq<DuplicateGroup>)
    requires forall k :: k in groups <==> k in order
    requires forall k :: k in groups ==> groups[k] == Members(files, keyOf, k)
    ensures candidates == CandidatesFrom(order, files, keyOf)
  {
    candidates := [];
    for i := 0 to |order|
      invariant candidates == CandidatesFrom(order[..i], files, keyOf)
    {
      var paths := groups[order[i]];
      assert order[..i + 1][..i] == order[..i];
      if |paths| > 1 {
        candidates := candidates + [DuplicateGroup(order[i].stem + order[i].ext, SortStrings(paths), |paths|, DuplicateConfidence)];
      }
    }
    assert order[..|order|] == order;
  }

  /** `find_duplicates`: group, keep the groups with more than one file,
      sort by size (largest first, stable) and keep the first twenty. The
      source's second `count > 1` filter keeps every candidate. */
  method FindDuplicates(files: seq<NamedFile>) returns (dups: seq<DuplicateGroup>)
    ensures dups == Take(SortDesc(CandidateGroups(files), GroupCount), MaxDuplicateGroups)
    ensures |dups| <= MaxDuplicateGroups
    ensures NonIncreasing(dups, GroupCount)
    ensures forall g :: g in dups ==> WellFormedGroup(g, files, DuplicateKey)
  {
    var order, groups := GroupByKey(files, DuplicateSuffixes, DuplicateKey);
    var candidates := CollectCandidates(order, groups, files, DuplicateKey);
    var sorted := SortDesc(candidates, GroupCount);
    dups := Take(sorted, MaxDuplicateGroups);
    CandidatesWellFormed(order, files, DuplicateKey);
    forall g | g in dups ensures WellFormedGroup(g, files, DuplicateKey) {
      assert g in multiset(sorted);
    }
  }
}
