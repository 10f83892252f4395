/** Category 3 (documentation): markdown links and fenced-code file
    references that point at nothing in the repository
    (`find_documentation_drift`). The walk, the reading of each file, the
    link regexes and the resolution of a link against the document's
    directory are abstracted: each document arrives with the links and
    code references the regexes found and with the two facts the analyser
    looks up for a link. */
module Documentation {
  import opened Common
  import opened Strings

  /** One `[text](path)` link: `existsOnDisk` is `os.path.exists` of the
      resolved path, `relToRepo` that path relative to the repository. */
  datatype DocLink = DocLink(text: string, path: string, existsOnDisk: bool, relToRepo: string)

  /** What the regexes extract from one readable document. */
  datatype DocScan = DocScan(links: seq<DocLink>, codeRefs: seq<string>)

  /** A walked file: `scan` is None when reading raised, `modified` is None
      when `os.stat` raised. */
  datatype DocFile = DocFile(name: string, relPath: string, scan: Option<DocScan>, modified: Option<string>)

  datatype BrokenRef = BrokenLink(reference: string, linkText: string) | CodeBlockFile(reference: string)

  datatype DriftIssue = DriftIssue(path: string, brokenReferences: seq<BrokenRef>, brokenCount: int,
                                   modified: string, confidence: int)

  const MaxListedRefs := 5

  /** The extensions scanned (`.md`, `.rst`, `.txt`); hidden files are skipped. */
  predicate IsDocFile(name: string)
  {
    (EndsWith(name, ".md") || EndsWith(name, ".rst") || EndsWith(name, ".txt")) && !StartsWith(name, ".")
  }

  /** Web and mail links are never checked. */
  predicate IsWebLink(path: string)
  {
    StartsWith(path, "http://") || StartsWith(path, "https://") || StartsWith(path, "mailto:")
  }

  /** The set of known names: every walked file by relative path and by base name. */
  function ExistingFiles(walked: seq<(string, string)>): set<string>
  {
    (set f | f in walked :: f.0) + (set f | f in walked :: f.1)
  }

  function LinkBroken(existing: set<string>): DocLink -> Option<BrokenRef>
  {
    (l: DocLink) => if !IsWebLink(l.path) && !l.existsOnDisk && l.relToRepo !in existing
                    then Some(BrokenLink(l.path, l.text)) else None
  }

  function CodeRefBroken(existing: set<string>): string -> Option<BrokenRef>
  {
    (r: string) => if r !in existing then Some(CodeBlockFile(r)) else None
  }

  /** The broken references of one document: the broken links in order, then
      the unknown code-block file names in order. */
  function BrokenRefs(scan: DocScan, existing: set<string>): seq<BrokenRef>
  {
    FilterMap(scan.links, LinkBroken(existing)) + FilterMap(scan.codeRefs, CodeRefBroken(existing))
  }

  /** `min(40 + len(broken_refs) * 10, 80)`: one broken reference already
      puts a document in the decision band, and four or more make it a
      quick win. */
  function DocConfidence(n: nat): (c: int)
    ensures n >= 1 ==> 50 <= c <= 80
    ensures c == 80 <==> n >= 4
    ensures n < 4 ==> c == 40 + 10 * n
  {
    Min(40 + n * 10, 80)
  }

  /** The issue reported for one walked file, if any. */
  function DriftOf(existing: set<string>): DocFile -> Option<DriftIssue>
  {
    (d: DocFile) =>
      if !IsDocFile(d.name) || d.scan.None? then None
      else
        var broken := BrokenRefs(d.scan.value, existing);
        if |broken| == 0 || d.modified.None? then None
        else Some(DriftIssue(d.relPath, Take(broken, MaxListedRefs), |broken|, d.modified.value,
                             DocConfidence(|broken|)))
  }

  function DriftIssues(docs: seq<DocFile>, existing: set<string>): seq<DriftIssue>
  {
    FilterMap(docs, DriftOf(existing))
  }

  // ---------------------------------------------------------------------------
  // Properties
  // ---------------------------------------------------------------------------

  /** A link is reported exactly when it is not a web link, does not exist on
      disk and its repository-relative path is not a known file; a code
      reference exactly when it is not a known name. */
  lemma BrokenRefsIff(scan: DocScan, existing: set<string>, r: BrokenRef)
    ensures r in BrokenRefs(scan, existing) <==>
      (exists l :: l in scan.links && !IsWebLink(l.path) && !l.existsOnDisk && l.relToRepo !in existing
                   && r == BrokenLink(l.path, l.text))
      || (exists c :: c in scan.codeRefs && c !in existing && r == CodeBlockFile(c))
  {
    FilterMapSpec(scan.links, LinkBroken(existing), r);
    FilterMapSpec(scan.codeRefs, CodeRefBroken(existing), r);
  }

  /** Every reported document has at least one broken reference, lists the
      first five of them, counts all of them and scores in the decision or
      quick-win band; a document is reported exactly when it is a readable,
      statable documentation file with a broken reference. */
  lemma DriftOfSpec(existing: set<string>, d: DocFile)
    ensures DriftOf(existing)(d).Some? <==>
      IsDocFile(d.name) && d.scan.Some? && d.modified.Some? && |BrokenRefs(d.scan.value, existing)| > 0
    ensures DriftOf(existing)(d).Some? ==>
      var issue := DriftOf(existing)(d).value;
      var broken := BrokenRefs(d.scan.value, existing);
      && issue.path == d.relPath
      && issue.brokenCount == |broken| >= 1
      && issue.brokenReferences == broken[..Min(MaxListedRefs, |broken|)]
      && |issue.brokenReferences| <= MaxListedRefs
      && issue.confidence == DocConfidence(|broken|)
      && 50 <= issue.confidence <= 80
  {
  }

  lemma DriftIssuesMembers(docs: seq<DocFile>, existing: set<string>, issue: DriftIssue)
    ensures issue in DriftIssues(docs, existing) <==> exists d :: d in docs && DriftOf(existing)(d) == Some(issue)
  {
    FilterMapSpec(docs, DriftOf(existing), issue);
  }

  // ---------------------------------------------------------------------------
  // The scanning loops
  // ---------------------------------------------------------------------------

  /** The two `for` loops over the links and the code references of one document. */
  method CollectBrokenRefs(scan: DocScan, existing: set<string>) returns (broken: seq<BrokenRef>)
    ensures broken == BrokenRefs(scan, existing)
  {
    broken := [];
    for i := 0 to |scan.links|
      invariant broken == FilterMap(scan.links[..i], LinkBroken(existing))
    {
      var l := scan.links[i];
      FilterMapSnoc(scan.links[..i], l, LinkBroken(existing));
      assert scan.links[..i + 1] == scan.links[..i] + [l];
      if !IsWebLink(l.path) {
        if !l.existsOnDisk && l.relToRepo !in existing {
          broken := broken + [BrokenLink(l.path, l.text)];
        }
      }
    }
    assert scan.links[..|scan.links|] == scan.links;
    ghost var linkPart := broken;
    for i := 0 to |scan.codeRefs|
      invariant broken == linkPart + FilterMap(scan.codeRefs[..i], CodeRefBroken(existing))
    {
      var r := scan.codeRefs[i];
      FilterMapSnoc(scan.codeRefs[..i], r, CodeRefBroken(existing));
      assert scan.codeRefs[..i + 1] == scan.codeRefs[..i] + [r];
      if r !in existing {
        broken := broken + [CodeBlockFile(r)];
      }
    }
    assert scan.codeRefs[..|scan.codeRefs|] == scan.codeRefs;
  }

  method FindDocumentationDrift(docs: seq<DocFile>, existing: set<string>) returns (issues: seq<DriftIssue>)
    ensures issues == DriftIssues(docs, existing)
    ensures forall issue :: issue in issues ==>
      && issue.brokenCount >= 1 && issue.confidence == DocConfidence(issue.brokenCount)
      && 50 <= issue.confidence <= 80 && |issue.brokenReferences| <= MaxListedRefs
  {
    issues := [];
    for i := 0 to |docs|
      invariant issues == FilterMap(docs[..i], DriftOf(existing))
    {
      var d := docs[i];
      FilterMapSnoc(docs[..i], d, DriftOf(existing));
      assert docs[..i + 1] == docs[..i] + [d];
      if IsDocFile(d.name) && d.scan.Some? {
        var broken := CollectBrokenRefs(d.scan.value, existing);
        if |broken| > 0 && d.modified.Some? {
          issues := issues + [DriftIssue(d.relPath, Take(broken, MaxListedRefs), |broken|, d.modified.value,
                                         DocConfidence(|broken|))];
        }
      }
    }
    assert docs[..|docs|] == docs;
    forall issue | issue in issues
      ensures && issue.brokenCount >= 1 && issue.confidence == DocConfidence(issue.brokenCount)
              && 50 <= issue.confidence <= 80 && |issue.brokenReferences| <= MaxListedRefs
    {
      DriftIssuesMembers(docs, existing, issue);
      var d :| d in docs && DriftOf(existing)(d) == Some(issue);
      DriftOfSpec(existing, d);
    }
  }
}
