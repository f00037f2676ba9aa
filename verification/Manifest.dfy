/**
 The content-addressed snapshot manifest (backend/agent/workspace.py, build_snapshot_manifest).
 SHA-256 over an encoding is an injective constructor; case folding covers ASCII.
 */
module Manifest {
  import opened Common
  import opened ApplyTransaction

  datatype Digest = Sha256(content: Content)

  datatype FileFact = FileFact(path: Path, sizeBytes: nat, sha: Digest)

  datatype SnapshotDigest = Sha256OfJson(version: nat, files: seq<FileFact>)

  datatype SnapshotManifest = SnapshotManifest(files: seq<FileFact>, digest: SnapshotDigest)

  datatype ListedFile = ListedFile(path: Path, content: Content)

  const SNAPSHOT_VERSION: nat := 1

  // ---------------------------------------------------------------- names

  datatype Identity = Identity(folded: string)

  function FoldChar(c: char): char {
    if 'A' <= c <= 'Z' then (c as int + 32) as char else c
  }

  function FoldName(name: string): string {
    seq(|name|, i requires 0 <= i < |name| => FoldChar(name[i]))
  }

  function Fold(p: Path): Identity { Identity(FoldName(p.name)) }

  /** The same character, or the two cases of one ASCII letter. */
  predicate SameButForCase(c: char, d: char) {
    || c == d
    || ('A' <= c <= 'Z' && 'a' <= d <= 'z' && c as int - 'A' as int == d as int - 'a' as int)
    || ('A' <= d <= 'Z' && 'a' <= c <= 'z' && d as int - 'A' as int == c as int - 'a' as int)
  }

  lemma {:induction false} FoldCharIff(c: char, d: char)
    ensures FoldChar(c) == FoldChar(d) <==> SameButForCase(c, d)
  {
    assert FoldChar(c) as int == FoldChar(d) as int <==> FoldChar(c) == FoldChar(d);
  }

  /** Two paths have one identity exactly if their names differ in nothing but the case of ASCII letters. */
  lemma {:induction false} FoldIgnoresCaseOnly(a: Path, b: Path)
    ensures Fold(a) == Fold(b) <==>
            |a.name| == |b.name| && forall i | 0 <= i < |a.name| :: SameButForCase(a.name[i], b.name[i])
  {
    var (x, y) := (FoldName(a.name), FoldName(b.name));
    forall i | 0 <= i < |a.name| && |a.name| == |b.name|
      ensures x[i] == y[i] <==> SameButForCase(a.name[i], b.name[i])
    {
      FoldCharIff(a.name[i], b.name[i]);
    }
    if x == y {
      assert |x| == |y| && forall i | 0 <= i < |x| :: x[i] == y[i];
    }
  }

  predicate NameLess(a: string, b: string) {
    b != [] && (a == [] || a[0] < b[0] || (a[0] == b[0] && NameLess(a[1..], b[1..])))
  }

  /** The order of names: the first difference decides, and a proper prefix comes first. */
  lemma {:induction false} FirstDifferenceDecides(a: string, b: string)
    ensures NameLess(a, b) <==>
            exists k | 0 <= k <= |a| && k < |b| :: a[..k] == b[..k] && (k < |a| ==> a[k] < b[k])
  {
    if a != [] && b != [] && a[0] == b[0] {
      FirstDifferenceDecides(a[1..], b[1..]);
      assert a == [a[0]] + a[1..] && b == [b[0]] + b[1..];
      if NameLess(a[1..], b[1..]) {
        var k :|
          && 0 <= k <= |a[1..]| && k < |b[1..]| && a[1..][..k] == b[1..][..k]
          && (k < |a[1..]| ==> a[1..][k] < b[1..][k]);
        assert a[..k + 1] == [a[0]] + a[1..][..k] && b[..k + 1] == [b[0]] + b[1..][..k];
      }
      if k :| 0 <= k <= |a| && k < |b| && a[..k] == b[..k] && (k < |a| ==> a[k] < b[k]) {
        assert k > 0;
        assert a[1..][..k - 1] == a[..k][1..] && b[1..][..k - 1] == b[..k][1..];
      }
    } else if a == [] {
      assert a[..0] == b[..0];
    } else if b != [] {
      assert a[..0] == b[..0];
      if k :| 0 <= k <= |a| && k < |b| && a[..k] == b[..k] && (k < |a| ==> a[k] < b[k]) {
        assert k > 0 ==> a[..k][0] == b[..k][0];
      }
    }
  }

  lemma {:induction false} NameLessTransitive(a: string, b: string, c: string)
    requires NameLess(a, b) && NameLess(b, c)
    ensures NameLess(a, c)
  {
    if a != [] && a[0] == b[0] == c[0] {
      NameLessTransitive(a[1..], b[1..], c[1..]);
    }
  }

  lemma {:induction false} NameNotLessThanItself(a: string)
    ensures !NameLess(a, a)
  {
    if a != [] {
      NameNotLessThanItself(a[1..]);
    }
  }

  lemma {:induction false} NameLessTotal(a: string, b: string)
    ensures a == b || NameLess(a, b) || NameLess(b, a)
    ensures !(NameLess(a, b) && NameLess(b, a))
  {
    if a != [] && b != [] && a[0] == b[0] {
      NameLessTotal(a[1..], b[1..]);
      assert a == [a[0]] + a[1..] && b == [b[0]] + b[1..];
    }
  }

  /** The sort key: case-folded path first, then the path itself. */
  predicate Before(a: Path, b: Path) {
    NameLess(Fold(a).folded, Fold(b).folded) || (Fold(a) == Fold(b) && NameLess(a.name, b.name))
  }

  lemma {:induction false} BeforeTransitive(a: Path, b: Path, c: Path)
    requires Before(a, b) && Before(b, c)
    ensures Before(a, c)
  {
    if NameLess(Fold(a).folded, Fold(b).folded) && NameLess(Fold(b).folded, Fold(c).folded) {
      NameLessTransitive(Fold(a).folded, Fold(b).folded, Fold(c).folded);
    }
    if NameLess(a.name, b.name) && NameLess(b.name, c.name) {
      NameLessTransitive(a.name, b.name, c.name);
    }
  }

  lemma {:induction false} BeforeTotal(a: Path, b: Path)
    ensures a == b || Before(a, b) || Before(b, a)
    ensures !(Before(a, b) && Before(b, a)) && !Before(a, a)
  {
    NameLessTotal(Fold(a).folded, Fold(b).folded);
    NameLessTotal(a.name, b.name);
    NameNotLessThanItself(Fold(a).folded);
    NameNotLessThanItself(a.name);
  }

  // ---------------------------------------------------------------- sorting

  ghost predicate Ascending(files: seq<FileFact>) {
    forall i, j | 0 <= i < j < |files| :: Before(files[i].path, files[j].path)
  }

  function Insert(files: seq<FileFact>, f: FileFact): seq<FileFact> {
    if files == [] then [f]
    else if Before(f.path, files[0].path) then [f] + files
    else [files[0]] + Insert(files[1..], f)
  }

  function Sorted(files: seq<FileFact>): seq<FileFact> {
    if files == [] then [] else Insert(Sorted(files[..|files| - 1]), files[|files| - 1])
  }

  lemma {:induction false} InsertAscends(files: seq<FileFact>, f: FileFact)
    requires Ascending(files) && forall i | 0 <= i < |files| :: files[i].path != f.path
    ensures Ascending(Insert(files, f))
    ensures forall g :: g in Insert(files, f) <==> g in files || g == f
  {
    if files != [] {
      assert files == [files[0]] + files[1..];
      BeforeTotal(f.path, files[0].path);
      if Before(f.path, files[0].path) {
        forall i | 0 <= i < |files| ensures Before(f.path, files[i].path) {
          if i > 0 {
            BeforeTransitive(f.path, files[0].path, files[i].path);
          }
        }
      } else {
        InsertAscends(files[1..], f);
        var rest := Insert(files[1..], f);
        forall i | 0 <= i < |rest| ensures Before(files[0].path, rest[i].path) {
          assert rest[i] in rest;
        }
      }
    }
  }

  ghost predicate DistinctPaths(files: seq<FileFact>) {
    forall i, j | 0 <= i < j < |files| :: files[i].path != files[j].path
  }

  lemma {:induction false} SortedAscends(files: seq<FileFact>)
    requires DistinctPaths(files)
    ensures Ascending(Sorted(files))
    ensures forall g :: g in Sorted(files) <==> g in files
  {
    if files != [] {
      var rest := files[..|files| - 1];
      var last := files[|files| - 1];
      SortedAscends(rest);
      assert files == rest + [last];
      forall i | 0 <= i < |Sorted(rest)| ensures Sorted(rest)[i].path != last.path {
        assert Sorted(rest)[i] in rest;
      }
      InsertAscends(Sorted(rest), last);
    }
  }

  lemma {:induction false} TailAscends(a: seq<FileFact>)
    requires Ascending(a) && a != []
    ensures Ascending(a[1..]) && a == [a[0]] + a[1..] && a[0] !in a[1..]
  {
    forall i | 0 <= i < |a[1..]| ensures a[1..][i] != a[0] {
      BeforeTotal(a[0].path, a[i + 1].path);
    }
  }

  /** An ascending list is determined by its members. */
  lemma {:induction false} AscendingIsUnique(a: seq<FileFact>, b: seq<FileFact>)
    requires Ascending(a) && Ascending(b) && forall f :: f in a <==> f in b
    ensures a == b
  {
    assert |a| > 0 ==> a[0] in a;
    assert |b| > 0 ==> b[0] in b;
    if a != [] {
      if a[0] != b[0] {
        var i :| 0 <= i < |b| && b[i] == a[0];
        var j :| 0 <= j < |a| && a[j] == b[0];
        assert Before(a[0].path, a[j].path) && Before(b[0].path, b[i].path);
        BeforeTotal(a[0].path, b[0].path);
        assert false;
      }
      TailAscends(a);
      TailAscends(b);
      forall f ensures f in a[1..] <==> f in b[1..] {
        assert f in a <==> f == a[0] || f in a[1..];
        assert f in b <==> f == b[0] || f in b[1..];
      }
      AscendingIsUnique(a[1..], b[1..]);
    }
  }

  // ---------------------------------------------------------------- the manifest of a listing

  function FactOf(f: ListedFile): FileFact { FileFact(f.path, |f.content.bytes|, Sha256(f.content)) }

  function FactsOf(listing: seq<ListedFile>): seq<FileFact> {
    if listing == [] then [] else FactsOf(listing[..|listing| - 1]) + [FactOf(listing[|listing| - 1])]
  }

  predicate CaseConflict(listing: seq<ListedFile>) {
    exists i, j | 0 <= i < j < |listing| :: Fold(listing[i].path) == Fold(listing[j].path)
  }

  function ManifestOfFacts(facts: seq<FileFact>): SnapshotManifest {
    SnapshotManifest(Sorted(facts), Sha256OfJson(SNAPSHOT_VERSION, Sorted(facts)))
  }

  /** `None` stands for the error raised on paths that differ only by case. */
  function ManifestOf(listing: seq<ListedFile>): Option<SnapshotManifest> {
    if CaseConflict(listing) then None else Some(ManifestOfFacts(FactsOf(listing)))
  }

  lemma {:induction false} ConflictAppears(listing: seq<ListedFile>, i: nat)
    requires i < |listing| && !CaseConflict(listing[..i])
    ensures CaseConflict(listing[..i + 1]) <==> exists k | 0 <= k < i :: Fold(listing[k].path) == Fold(listing[i].path)
  {
    var longer := listing[..i + 1];
    if exists k | 0 <= k < i :: Fold(listing[k].path) == Fold(listing[i].path) {
      var k :| 0 <= k < i && Fold(listing[k].path) == Fold(listing[i].path);
      assert Fold(longer[k].path) == Fold(longer[i].path);
    }
    if CaseConflict(longer) {
      var k, j :| 0 <= k < j < |longer| && Fold(longer[k].path) == Fold(longer[j].path);
      if j < i {
        assert Fold(listing[..i][k].path) == Fold(listing[..i][j].path);
      }
    }
  }

  lemma {:induction false} ConflictPersists(listing: seq<ListedFile>, i: nat)
    requires i <= |listing| && CaseConflict(listing[..i])
    ensures CaseConflict(listing)
  {
    var k, j :| 0 <= k < j < i && Fold(listing[..i][k].path) == Fold(listing[..i][j].path);
    assert Fold(listing[k].path) == Fold(listing[j].path);
  }

  /** One pass over the files, rejecting the second file of a case-folded identity. */
  method BuildSnapshotManifest(listing: seq<ListedFile>) returns (r: Option<SnapshotManifest>)
    ensures r == ManifestOf(listing)
  {
    var seen: set<Identity> := {};
    var facts: seq<FileFact> := [];
    for i := 0 to |listing|
      invariant facts == FactsOf(listing[..i])
      invariant !CaseConflict(listing[..i])
      invariant forall k :: k in seen <==> exists j | 0 <= j < i :: Fold(listing[j].path) == k
    {
      var identity := Fold(listing[i].path);
      ConflictAppears(listing, i);
      if identity in seen {
        ConflictPersists(listing, i + 1);
        return None;
      }
      seen := seen + {identity};
      assert listing[..i + 1] == listing[..i] + [listing[i]];
      assert listing[..i + 1][..i] == listing[..i];
      facts := facts + [FactOf(listing[i])];
    }
    assert listing[..|listing|] == listing;
    r := Some(ManifestOfFacts(facts));
  }

  // ---------------------------------------------------------------- canonicity

  /** The listing enumerates exactly the files of the snapshot, in any order. */
  ghost predicate Lists(listing: seq<ListedFile>, files: Snapshot) {
    && (forall i, j | 0 <= i < j < |listing| :: listing[i].path != listing[j].path)
    && (forall p, c :: ListedFile(p, c) in listing <==> p in files && files[p] == c)
  }

  lemma {:induction false} FactsMembers(listing: seq<ListedFile>)
    requires forall i, j | 0 <= i < j < |listing| :: listing[i].path != listing[j].path
    ensures |FactsOf(listing)| == |listing| && DistinctPaths(FactsOf(listing))
    ensures forall i | 0 <= i < |listing| :: FactsOf(listing)[i] == FactOf(listing[i])
  {
    if listing != [] {
      FactsMembers(listing[..|listing| - 1]);
    }
  }

  lemma {:induction false} FactPresent(listing: seq<ListedFile>, files: Snapshot, p: Path, c: Content)
    requires Lists(listing, files)
    ensures FactOf(ListedFile(p, c)) in Sorted(FactsOf(listing)) <==> p in files && files[p] == c
  {
    FactsMembers(listing);
    SortedAscends(FactsOf(listing));
    var fact := FactOf(ListedFile(p, c));
    if p in files && files[p] == c {
      var i :| 0 <= i < |listing| && listing[i] == ListedFile(p, c);
      assert FactsOf(listing)[i] == fact;
    }
    if fact in FactsOf(listing) {
      var i :| 0 <= i < |listing| && FactsOf(listing)[i] == fact;
      assert listing[i] == ListedFile(p, c);
    }
  }

  lemma {:induction false} FactHasSource(listing: seq<ListedFile>, f: FileFact) returns (source: ListedFile)
    requires forall i, j | 0 <= i < j < |listing| :: listing[i].path != listing[j].path
    requires f in Sorted(FactsOf(listing))
    ensures FactOf(source) == f
  {
    FactsMembers(listing);
    SortedAscends(FactsOf(listing));
    var i :| 0 <= i < |listing| && FactsOf(listing)[i] == f;
    source := listing[i];
  }

  /** Two different files of the snapshot whose names differ only by case. */
  ghost predicate Clash(files: Snapshot) {
    exists p, q :: p in files && q in files && p != q && Fold(p) == Fold(q)
  }

  lemma {:induction false} ConflictIffClash(listing: seq<ListedFile>, files: Snapshot)
    requires Lists(listing, files)
    ensures CaseConflict(listing) <==> Clash(files)
  {
    if CaseConflict(listing) {
      var i, j :| 0 <= i < j < |listing| && Fold(listing[i].path) == Fold(listing[j].path);
      var (f, g) := (listing[i], listing[j]);
      assert f == ListedFile(f.path, f.content) && g == ListedFile(g.path, g.content);
    }
    if p, q :| p in files && q in files && p != q && Fold(p) == Fold(q) {
      var i :| 0 <= i < |listing| && listing[i] == ListedFile(p, files[p]);
      var j :| 0 <= j < |listing| && listing[j] == ListedFile(q, files[q]);
      assert Fold(listing[i].path) == Fold(listing[j].path);
    }
  }

  lemma {:induction false} SortedFactIff(listing: seq<ListedFile>, files: Snapshot, f: FileFact)
    requires Lists(listing, files)
    ensures f in Sorted(FactsOf(listing)) <==>
            f.path in files && f == FileFact(f.path, |files[f.path].bytes|, Sha256(files[f.path]))
  {
    if f in Sorted(FactsOf(listing)) {
      var source := FactHasSource(listing, f);
      FactPresent(listing, files, source.path, source.content);
    }
    if f.path in files {
      FactPresent(listing, files, f.path, files[f.path]);
    }
  }

  /** Without a clash, ascending means ascending by the folded names. */
  lemma {:induction false} AscendsByFoldedName(sorted: seq<FileFact>, files: Snapshot, i: nat, j: nat)
    requires Ascending(sorted) && i < j < |sorted| && !Clash(files)
    requires forall f | f in sorted :: f.path in files
    ensures NameLess(Fold(sorted[i].path).folded, Fold(sorted[j].path).folded)
  {
    var (p, q) := (sorted[i].path, sorted[j].path);
    assert sorted[i] in sorted && sorted[j] in sorted && Before(p, q);
    BeforeTotal(p, q);
    NameNotLessThanItself(p.name);
    assert p != q;
  }

  /**
   There is a manifest exactly if no two names differ only by case; it then lists every file of the
   snapshot and nothing else, with its size and hash, ascending by folded name.
   */
  lemma {:induction false} ManifestIsTheSortedList(listing: seq<ListedFile>, files: Snapshot)
    requires Lists(listing, files)
    ensures ManifestOf(listing).Some? <==> !Clash(files)
    ensures ManifestOf(listing).Some? ==>
              var m := ManifestOf(listing).value;
              && m.digest == Sha256OfJson(1, m.files)
              && (forall i, j | 0 <= i < j < |m.files| ::
                    NameLess(Fold(m.files[i].path).folded, Fold(m.files[j].path).folded))
              && (forall f :: f in m.files <==>
                    f.path in files && f == FileFact(f.path, |files[f.path].bytes|, Sha256(files[f.path])))
  {
    ConflictIffClash(listing, files);
    FactsMembers(listing);
    SortedAscends(FactsOf(listing));
    var sorted := Sorted(FactsOf(listing));
    forall f ensures f in sorted <==>
                       f.path in files && f == FileFact(f.path, |files[f.path].bytes|, Sha256(files[f.path]))
    {
      SortedFactIff(listing, files, f);
    }
    forall i, j | 0 <= i < j < |sorted| && !Clash(files)
      ensures NameLess(Fold(sorted[i].path).folded, Fold(sorted[j].path).folded)
    {
      AscendsByFoldedName(sorted, files, i, j);
    }
  }

  /** The manifest does not depend on the order in which the files are enumerated. */
  lemma {:induction false} ManifestIgnoresOrder(listing: seq<ListedFile>, other: seq<ListedFile>, files: Snapshot)
    requires Lists(listing, files) && Lists(other, files)
    requires ManifestOf(listing).Some? && ManifestOf(other).Some?
    ensures ManifestOf(listing) == ManifestOf(other)
  {
    var a, b := Sorted(FactsOf(listing)), Sorted(FactsOf(other));
    FactsMembers(listing);
    FactsMembers(other);
    SortedAscends(FactsOf(listing));
    SortedAscends(FactsOf(other));
    forall f ensures f in a <==> f in b {
      if f in a {
        var source := FactHasSource(listing, f);
        FactPresent(listing, files, source.path, source.content);
        FactPresent(other, files, source.path, source.content);
      }
      if f in b {
        var source := FactHasSource(other, f);
        FactPresent(listing, files, source.path, source.content);
        FactPresent(other, files, source.path, source.content);
      }
    }
    AscendingIsUnique(a, b);
  }

  /** Equal digests mean equal file maps: every path, every byte, nothing more. */
  lemma {:induction false} DigestDeterminesFiles(
    listing: seq<ListedFile>, other: seq<ListedFile>, files: Snapshot, files': Snapshot)
    requires Lists(listing, files) && Lists(other, files')
    requires ManifestOf(listing).Some? && ManifestOf(other).Some?
    requires ManifestOf(listing).value.digest == ManifestOf(other).value.digest
    ensures files == files'
  {
    forall p ensures p in files <==> p in files'
             ensures p in files && p in files' ==> files[p] == files'[p]
    {
      if p in files {
        FactPresent(listing, files, p, files[p]);
        FactPresent(other, files', p, files[p]);
      }
      if p in files' {
        FactPresent(listing, files, p, files'[p]);
        FactPresent(other, files', p, files'[p]);
      }
    }
  }
}
