/** The tree digest `sha256-tree-v2` (scripts/hash_artifact.py): the tree is scanned in
    whatever order directories enumerate, sorted by path, and hashed line by line. The
    digest is a function of the tree alone, and it determines the tree. The hash `sha` is a
    parameter. */
module TreeDigest {
  import opened Common
  import opened Sorting
  import opened CanonicalJson
  import Resolver = SymlinkResolver

  const MAX_ENTRIES := 250_000
  const MAX_BYTES := 16 * 1024 * 1024 * 1024

  type Path = Resolver.Path

  datatype Entry =
    | File(content: string, mode: string)
    | Directory(mode: string)
    | Symlink(target: string, mode: string)

  /** Everything below a root, by relative path. */
  type Tree = map<Path, Entry>

  datatype Artifact = Artifact(rootMode: string, tree: Tree)

  datatype Record = Record(path: Path, entry: Entry)

  predicate GoodName(name: string) { name != "" && '/' !in name }

  /** Proper names, and a parent that is the root or a directory. */
  ghost predicate Rooted(t: Tree, p: Path)
  {
    && p != []
    && (forall name | name in p :: GoodName(name))
    && (|p| == 1 || (p[..|p| - 1] in t && t[p[..|p| - 1]].Directory?))
  }

  ghost predicate WellFormed(t: Tree)
  {
    [] !in t && forall p {:trigger Rooted(t, p)} | p in t :: Rooted(t, p)
  }

  // ------------------------------------------------------------------------ path texts

  function Join(p: Path): string
  {
    if p == [] then "" else if |p| == 1 then p[0] else p[0] + "/" + Join(p[1..])
  }

  lemma {:induction false} SplitJoin(p: Path)
    requires p != [] && forall name | name in p :: GoodName(name)
    ensures Resolver.Split(Join(p)) == p
  {
    if |p| == 1 {
      assert p == [p[0]] && GoodName(p[0]);
      assert Resolver.SlashIndex(p[0]) == |p[0]|;
    } else {
      assert GoodName(p[0]);
      SplitFirst(p[0], Join(p[1..]));
      SplitJoin(p[1..]);
      assert [p[0]] + p[1..] == p;
    }
  }

  lemma SplitFirst(name: string, rest: string)
    requires GoodName(name)
    ensures Resolver.Split(name + "/" + rest) == [name] + Resolver.Split(rest)
  {
    var text := name + "/" + rest;
    assert text[|name|] == '/' && text[..|name|] == name && text[|name| + 1..] == rest;
    forall k | 0 <= k < |name| ensures text[k] != '/' {
      assert text[k] == name[k];
    }
    SlashAfter(text, |name|);
  }

  lemma SlashAfter(text: string, i: nat)
    requires i < |text| && text[i] == '/' && forall k | 0 <= k < i :: text[k] != '/'
    ensures Resolver.SlashIndex(text) == i
  {
    var k := Resolver.SlashIndex(text);
    assert k >= i;
  }

  // ----------------------------------------------------------------------------- lines

  function Doc(sha: string -> string, r: Record): Json
  {
    match r.entry
    case File(content, mode) =>
      JObj([Field("mode", JStr(mode)), Field("path", JStr(Join(r.path))), Field("sha256", JStr(sha(content))),
            Field("size", JInt(|content|)), Field("type", JStr("file"))])
    case Directory(mode) =>
      JObj([Field("mode", JStr(mode)), Field("path", JStr(Join(r.path))), Field("type", JStr("directory"))])
    case Symlink(target, mode) =>
      JObj([Field("mode", JStr(mode)), Field("path", JStr(Join(r.path))), Field("target", JStr(target)),
            Field("type", JStr("symlink"))])
  }

  function RootDoc(mode: string): Json
  {
    JObj([Field("mode", JStr(mode)), Field("path", JStr(".")), Field("type", JStr("directory"))])
  }

  function Lines(docs: seq<Json>): string
  {
    if docs == [] then "" else Canonical(docs[0]) + Lines(docs[1..])
  }

  function Docs(sha: string -> string, records: seq<Record>): (r: seq<Json>)
    ensures |r| == |records| && forall i | 0 <= i < |r| :: r[i] == Doc(sha, records[i])
  {
    seq(|records|, i requires 0 <= i < |records| => Doc(sha, records[i]))
  }

  /** The value of a field, found by its key. */
  function Get(fields: seq<Field>, key: string): Option<Json>
  {
    if fields == [] then None
    else if fields[0].key == key then Some(fields[0].value)
    else Get(fields[1..], key)
  }

  /** The size a document states; anything but a file has none. */
  function StatedSize(doc: Json): int
  {
    if !doc.JObj? then 0
    else
      var size := Get(doc.fields, "size");
      if size.Some? && size.value.JInt? then size.value.n else 0
  }

  function TypeName(e: Entry): string
  {
    match e
    case File(_, _) => "file"
    case Directory(_) => "directory"
    case Symlink(_, _) => "symlink"
  }

  /** A document tells path, mode and type of its entry, a link's target and a file's digest. */
  lemma DocTells(sha: string -> string, r: Record)
    ensures Get(Doc(sha, r).fields, "path") == Some(JStr(Join(r.path)))
    ensures Get(Doc(sha, r).fields, "mode") == Some(JStr(r.entry.mode))
    ensures Get(Doc(sha, r).fields, "type") == Some(JStr(TypeName(r.entry)))
    ensures r.entry.File? ==> Get(Doc(sha, r).fields, "sha256") == Some(JStr(sha(r.entry.content)))
    ensures r.entry.Symlink? ==> Get(Doc(sha, r).fields, "target") == Some(JStr(r.entry.target))
  {
    var fields := Doc(sha, r).fields;
    KeysDiffer();
    GetAt(fields, 0, "mode");
    GetAt(fields, 1, "path");
    match r.entry {
      case File(content, mode) =>
        GetAt(fields, 2, "sha256");
        GetAt(fields, 4, "type");
      case Directory(mode) => GetAt(fields, 2, "type");
      case Symlink(target, mode) =>
        GetAt(fields, 2, "target");
        GetAt(fields, 3, "type");
    }
  }

  lemma KeysDiffer()
    ensures "mode" != "path" && "mode" != "sha256" && "mode" != "size" && "mode" != "target" && "mode" != "type"
    ensures "path" != "sha256" && "path" != "size" && "path" != "target" && "path" != "type"
    ensures "sha256" != "size" && "sha256" != "type" && "target" != "type" && "target" != "size" && "size" != "type"
  {
    assert "mode"[0] == 'm' && "path"[0] == 'p' && "sha256"[0] == 's' && "size"[0] == 's';
    assert "target"[0] == 't' && "type"[0] == 't' && |"sha256"| == 6 && |"size"| == 4 && |"target"| == 6;
  }

  lemma {:induction false} GetAt(fields: seq<Field>, k: nat, key: string)
    requires k < |fields| && fields[k].key == key && forall i | 0 <= i < k :: fields[i].key != key
    ensures Get(fields, key) == Some(fields[k].value)
  {
    if k > 0 {
      GetAt(fields[1..], k - 1, key);
    }
  }

  lemma {:induction false} GetNone(fields: seq<Field>, key: string)
    requires forall i | 0 <= i < |fields| :: fields[i].key != key
    ensures Get(fields, key) == None
  {
    if fields != [] {
      GetNone(fields[1..], key);
    }
  }

  function StatedTotal(docs: seq<Json>): int
  {
    if docs == [] then 0 else StatedSize(docs[0]) + StatedTotal(docs[1..])
  }

  /** The stated sizes add up to the bytes the limit is about. */
  lemma {:induction false} SizesAddUp(sha: string -> string, records: seq<Record>)
    ensures StatedTotal(Docs(sha, records)) == Total(records)
  {
    if records != [] {
      var docs := Docs(sha, records);
      assert docs[1..] == Docs(sha, records[1..]);
      StatesItsSize(sha, records[0]);
      SizesAddUp(sha, records[1..]);
    }
  }

  lemma StatesItsSize(sha: string -> string, r: Record)
    ensures StatedSize(Doc(sha, r)) == Size(r.entry)
  {
    KeysDiffer();
    match r.entry {
      case File(content, mode) => GetAt(Doc(sha, r).fields, 3, "size");
      case Directory(mode) => GetNone(Doc(sha, r).fields, "size");
      case Symlink(target, mode) => GetNone(Doc(sha, r).fields, "size");
    }
  }

  /** `tree_sha256_from_records` over the root record and the sorted entries. */
  function TreeSha(sha: string -> string, mode: string, records: seq<Record>): string
  {
    sha(Lines([RootDoc(mode)] + Docs(sha, records)))
  }

  lemma FirstLine(u: Json, x: string, v: Json, y: string)
    requires Canonical(u) + x == Canonical(v) + y
    ensures u == v && x == y
  {
    LineIsRead(u, x);
    LineIsRead(v, y);
    SameRest(x, y);
  }

  lemma LineIsRead(u: Json, x: string)
    ensures Parse(Canonical(u) + x) == Some((u, "\n" + x))
  {
    ParseEncode(u, "\n" + x);
    assert Canonical(u) + x == Encode(u) + ("\n" + x);
  }

  lemma SameRest(x: string, y: string)
    ensures "\n" + x == "\n" + y ==> x == y
  {
    assert ("\n" + x)[1..] == x && ("\n" + y)[1..] == y;
  }

  /** The concatenated lines can be read apart again. */
  lemma {:induction false} LinesInjective(a: seq<Json>, b: seq<Json>)
    requires Lines(a) == Lines(b)
    ensures a == b
  {
    if a == [] || b == [] {
      assert a == b;
    } else {
      FirstLine(a[0], Lines(a[1..]), b[0], Lines(b[1..]));
      LinesInjective(a[1..], b[1..]);
      assert a == [a[0]] + a[1..] && b == [b[0]] + b[1..];
    }
  }

  ghost predicate GoodRecord(r: Record)
  {
    r.path != [] && forall name | name in r.path :: GoodName(name)
  }

  lemma DocInjective(sha: string -> string, r: Record, s: Record)
    requires Injective(sha) && GoodRecord(r) && GoodRecord(s) && Doc(sha, r) == Doc(sha, s)
    ensures r == s
  {
    var a, b := Doc(sha, r).fields, Doc(sha, s).fields;
    assert |a| == |b|;
    assert a[0] == b[0] && a[1] == b[1] && a[2] == b[2];
    SplitJoin(r.path);
    SplitJoin(s.path);
  }

  // --------------------------------------------------------------------------- listings

  predicate PathLeq(r: Record, s: Record) { StringLeq(Join(r.path), Join(s.path)) }

  lemma PathLeqIsTotal()
    ensures TotalPreorder(PathLeq)
  {
    forall r, s ensures Comparable(PathLeq, r, s) {
      StringLeqTotal(Join(r.path), Join(s.path));
    }
    forall r, s, u ensures Chains(PathLeq, r, s, u) {
      if PathLeq(r, s) && PathLeq(s, u) {
        StringLeqTransitive(Join(r.path), Join(s.path), Join(u.path));
      }
    }
  }

  /** Some enumeration of the tree: every entry once. */
  ghost predicate Listing(t: Tree, records: seq<Record>)
  {
    && (forall i | 0 <= i < |records| :: records[i].path in t && t[records[i].path] == records[i].entry)
    && (forall i, j | 0 <= i < j < |records| :: records[i].path != records[j].path)
    && (forall p | p in t :: exists i :: 0 <= i < |records| && records[i].path == p)
  }

  lemma {:induction false} CountsOnce(records: seq<Record>, r: Record)
    requires forall i, j | 0 <= i < j < |records| :: records[i].path != records[j].path
    ensures multiset(records)[r] == if r in records then 1 else 0
  {
    if records != [] {
      var front, last := records[..|records| - 1], records[|records| - 1];
      assert records == front + [last];
      CountsOnce(front, r);
    }
  }

  lemma ListingsAgree(t: Tree, a: seq<Record>, b: seq<Record>)
    requires Listing(t, a) && Listing(t, b)
    ensures multiset(a) == multiset(b)
  {
    forall r ensures multiset(a)[r] == multiset(b)[r] {
      CountsOnce(a, r);
      CountsOnce(b, r);
    }
  }

  lemma SortedListing(t: Tree, records: seq<Record>)
    requires Listing(t, records)
    ensures Listing(t, Sort(records, PathLeq))
  {
    PermutedListing(t, records, Sort(records, PathLeq));
  }

  lemma PermutedListing(t: Tree, records: seq<Record>, sorted: seq<Record>)
    requires Listing(t, records) && multiset(sorted) == multiset(records)
    ensures Listing(t, sorted)
  {
    forall i | 0 <= i < |sorted| ensures sorted[i] in records {
      assert sorted[i] in multiset(sorted);
    }
    forall i, j | 0 <= i < j < |sorted| ensures sorted[i].path != sorted[j].path {
      assert sorted[i] in records && sorted[j] in records;
      if sorted[i] == sorted[j] {
        TwiceCounted(sorted, i, j);
        CountsOnce(records, sorted[i]);
      }
    }
    forall p | p in t ensures exists i :: 0 <= i < |sorted| && sorted[i].path == p {
      var k :| 0 <= k < |records| && records[k].path == p;
      assert records[k] in multiset(sorted);
      assert records[k] in sorted;
    }
  }

  lemma TwiceCounted(s: seq<Record>, i: nat, j: nat)
    requires i < j < |s| && s[i] == s[j]
    ensures multiset(s)[s[i]] >= 2
  {
    assert s == s[..j] + [s[j]] + s[j + 1..];
    assert s[i] in s[..j];
  }

  /** The hashed entries come in increasing order of their path texts. */
  lemma HashedInPathOrder(records: seq<Record>, i: nat, j: nat)
    requires i < j < |records|
    ensures var sorted := Sort(records, PathLeq);
            && multiset(sorted) == multiset(records) && |sorted| == |records|
            && StringLeq(Join(sorted[i].path), Join(sorted[j].path))
  {
    var sorted := Sort(records, PathLeq);
    PathLeqIsTotal();
    SortSorts(records, PathLeq);
    assert |multiset(sorted)| == |multiset(records)|;
    assert PathLeq(sorted[i], sorted[j]);
  }

  /** No two entries of a well formed tree tie under the path order. */
  lemma PathsDoNotTie(t: Tree, records: seq<Record>)
    requires WellFormed(t) && Listing(t, records)
    ensures NoTies(records, PathLeq)
  {
    forall i, j | 0 <= i < |records| && 0 <= j < |records| && PathLeq(records[i], records[j])
                  && PathLeq(records[j], records[i])
      ensures records[i] == records[j]
    {
      StringLeqAntisymmetric(Join(records[i].path), Join(records[j].path));
      assert Rooted(t, records[i].path) && Rooted(t, records[j].path);
      SplitJoin(records[i].path);
      SplitJoin(records[j].path);
    }
  }

  /** The digest of an artifact: whatever enumeration was taken. */
  ghost predicate HasDigest(sha: string -> string, a: Artifact, digest: string)
  {
    exists records :: Listing(a.tree, records) && digest == TreeSha(sha, a.rootMode, Sort(records, PathLeq))
  }

  /** The digest does not depend on the enumeration order. */
  lemma DigestIgnoresEnumeration(sha: string -> string, a: Artifact, d: string, e: string)
    requires WellFormed(a.tree) && HasDigest(sha, a, d) && HasDigest(sha, a, e)
    ensures d == e
  {
    var r :| Listing(a.tree, r) && d == TreeSha(sha, a.rootMode, Sort(r, PathLeq));
    var s :| Listing(a.tree, s) && e == TreeSha(sha, a.rootMode, Sort(s, PathLeq));
    ListingsAgree(a.tree, r, s);
    PathLeqIsTotal();
    PathsDoNotTie(a.tree, r);
    SortIgnoresOrder(r, s, PathLeq);
  }

  /** Equal digests mean equal trees: names, types, modes, targets and contents. */
  lemma DigestDeterminesTree(sha: string -> string, a: Artifact, b: Artifact, d: string)
    requires Injective(sha)
    requires WellFormed(a.tree) && WellFormed(b.tree) && HasDigest(sha, a, d) && HasDigest(sha, b, d)
    ensures a == b
  {
    var r :| Listing(a.tree, r) && d == TreeSha(sha, a.rootMode, Sort(r, PathLeq));
    var s :| Listing(b.tree, s) && d == TreeSha(sha, b.rootMode, Sort(s, PathLeq));
    var x, y := Sort(r, PathLeq), Sort(s, PathLeq);
    SortedListing(a.tree, r);
    SortedListing(b.tree, s);
    SameRecords(sha, a, b, x, y);
    ListingDeterminesTree(a.tree, b.tree, x);
  }

  lemma SameRecords(sha: string -> string, a: Artifact, b: Artifact, x: seq<Record>, y: seq<Record>)
    requires Injective(sha)
    requires WellFormed(a.tree) && WellFormed(b.tree) && Listing(a.tree, x) && Listing(b.tree, y)
    requires TreeSha(sha, a.rootMode, x) == TreeSha(sha, b.rootMode, y)
    ensures a.rootMode == b.rootMode && x == y
  {
    var u, v := [RootDoc(a.rootMode)] + Docs(sha, x), [RootDoc(b.rootMode)] + Docs(sha, y);
    LinesInjective(u, v);
    assert u[0] == v[0] && u[0].fields[0] == v[0].fields[0];
    assert Docs(sha, x) == u[1..] == v[1..] == Docs(sha, y);
    forall i | 0 <= i < |x| ensures x[i] == y[i] {
      assert Docs(sha, x)[i] == Docs(sha, y)[i];
      assert Rooted(a.tree, x[i].path) && Rooted(b.tree, y[i].path);
      DocInjective(sha, x[i], y[i]);
    }
  }

  lemma ListingDeterminesTree(a: Tree, b: Tree, x: seq<Record>)
    requires Listing(a, x) && Listing(b, x)
    ensures a == b
  {
    forall p ensures p in a <==> p in b {
    }
    forall p | p in a ensures a[p] == b[p] {
      var i :| 0 <= i < |x| && x[i].path == p;
    }
  }

  // -------------------------------------------------------------------------- scanning

  ghost predicate IsBelow(at: Path, p: Path) { |at| < |p| && p[..|at|] == at }

  predicate IsChild(at: Path, p: Path) { |p| == |at| + 1 && p[..|at|] == at }

  function Children(t: Tree, at: Path): set<Path> { set p | p in t && IsChild(at, p) }

  ghost function Below(t: Tree, at: Path): set<Path> { set p | p in t && IsBelow(at, p) }

  /** A listing of one region of the tree. */
  ghost predicate Lists(t: Tree, region: set<Path>, records: seq<Record>)
  {
    && (forall i | 0 <= i < |records| ::
          records[i].path in region && records[i].path in t && t[records[i].path] == records[i].entry)
    && (forall i, j | 0 <= i < j < |records| :: records[i].path != records[j].path)
    && (forall p | p in region :: exists i :: 0 <= i < |records| && records[i].path == p)
  }

  lemma ListsBoth(t: Tree, a: set<Path>, r: seq<Record>, b: set<Path>, s: seq<Record>)
    requires Lists(t, a, r) && Lists(t, b, s) && a !! b
    ensures Lists(t, a + b, r + s)
  {
    forall p | p in a + b ensures exists i :: 0 <= i < |r + s| && (r + s)[i].path == p {
      if p in a {
        var i :| 0 <= i < |r| && r[i].path == p;
        assert (r + s)[i].path == p;
      } else {
        var i :| 0 <= i < |s| && s[i].path == p;
        assert (r + s)[|r| + i].path == p;
      }
    }
  }

  /** What lies below children that are no longer waiting. */
  ghost function Seen(t: Tree, at: Path, waiting: set<Path>): set<Path>
  {
    set q | q in t && IsBelow(at, q) && q[..|at| + 1] !in waiting
  }

  /** `scan_directory`: enumerate the children in any order, descend into directories. */
  method Scan(t: Tree, at: Path) returns (records: seq<Record>)
    requires WellFormed(t)
    ensures Lists(t, Below(t, at), records)
    decreases |Below(t, at)|, 1
  {
    records := [];
    var waiting := Children(t, at);
    SeenNothing(t, at);
    while waiting != {}
      invariant waiting <= Children(t, at)
      invariant Lists(t, Seen(t, at, waiting), records)
      decreases waiting
    {
      var p :| p in waiting;
      var more := ScanChild(t, at, p);
      SeenMore(t, at, waiting, p);
      ListsBoth(t, Seen(t, at, waiting), records, {p} + Below(t, p), more);
      records := records + more;
      waiting := waiting - {p};
    }
    assert Seen(t, at, {}) == Below(t, at);
  }

  lemma ListsAll(t: Tree, records: seq<Record>)
    requires WellFormed(t) && Lists(t, Below(t, []), records)
    ensures Listing(t, records)
  {
    assert Below(t, []) == t.Keys;
  }

  method ScanChild(t: Tree, at: Path, p: Path) returns (records: seq<Record>)
    requires WellFormed(t) && p in Children(t, at)
    ensures Lists(t, {p} + Below(t, p), records)
    decreases |Below(t, at)|, 0
  {
    records := [Record(p, t[p])];
    assert records[0].path == p;
    if t[p].Directory? {
      FewerBelow(t, at, p);
      var inner := Scan(t, p);
      ListsBoth(t, {p}, records, Below(t, p), inner);
      records := records + inner;
    } else {
      NothingBelow(t, p);
      assert {p} + Below(t, p) == {p};
    }
  }

  lemma SeenNothing(t: Tree, at: Path)
    requires WellFormed(t)
    ensures Seen(t, at, Children(t, at)) == {}
  {
    forall q | q in t && IsBelow(at, q) ensures q[..|at| + 1] in Children(t, at) {
      ChildOnTheWay(t, at, q);
    }
  }

  lemma SeenMore(t: Tree, at: Path, waiting: set<Path>, p: Path)
    requires p in waiting && waiting <= Children(t, at)
    ensures Seen(t, at, waiting - {p}) == Seen(t, at, waiting) + ({p} + Below(t, p))
    ensures Seen(t, at, waiting) !! {p} + Below(t, p)
  {
    assert p[..|at| + 1] == p;
    forall q | q in t && IsBelow(p, q) ensures IsBelow(at, q) && q[..|at| + 1] == p {
      assert q[..|at|] == q[..|p|][..|at|];
    }
    forall q | q in t && IsBelow(at, q) && q[..|at| + 1] == p ensures q == p || IsBelow(p, q) {
      assert |q| == |p| ==> q == p;
    }
  }

  lemma FewerBelow(t: Tree, at: Path, p: Path)
    requires p in t && IsChild(at, p)
    ensures |Below(t, p)| < |Below(t, at)|
  {
    assert p in Below(t, at) && p !in Below(t, p);
    forall q | q in Below(t, p) ensures q in Below(t, at) {
      assert q[..|at|] == q[..|p|][..|at|];
    }
    Smaller(Below(t, p), Below(t, at), p);
  }

  lemma Smaller(a: set<Path>, b: set<Path>, p: Path)
    requires a <= b && p in b && p !in a
    ensures |a| < |b|
  {
    assert a <= b - {p};
    Cardinality(a, b - {p});
  }

  lemma {:induction false} Cardinality(a: set<Path>, b: set<Path>)
    requires a <= b
    ensures |a| <= |b|
    decreases a
  {
    if a != {} {
      var x :| x in a;
      Cardinality(a - {x}, b - {x});
    }
  }

  /** A deeper entry lies at or below a child. */
  lemma {:induction false} ChildOnTheWay(t: Tree, at: Path, q: Path)
    requires WellFormed(t) && q in t && IsBelow(at, q)
    ensures q[..|at| + 1] in t && IsChild(at, q[..|at| + 1])
    ensures q[..|at| + 1] == q || IsBelow(q[..|at| + 1], q)
    ensures at != [] ==> at in t && t[at].Directory?
    decreases |q|
  {
    assert Rooted(t, q);
    if |q| == |at| + 1 {
      assert q[..|at| + 1] == q && q[..|q| - 1] == at;
    } else {
      var parent := q[..|q| - 1];
      assert parent[..|at|] == at;
      ChildOnTheWay(t, at, parent);
      assert parent[..|at| + 1] == q[..|at| + 1];
      assert q[..|at| + 1][..|at|] == at;
    }
  }

  /** Only directories have anything below them. */
  lemma NothingBelow(t: Tree, p: Path)
    requires WellFormed(t) && p in t && !t[p].Directory?
    ensures Below(t, p) == {}
  {
    forall q | q in t ensures !IsBelow(p, q) {
      if IsBelow(p, q) {
        ChildOnTheWay(t, p, q);
      }
    }
  }

  // -------------------------------------------------------------------------- manifests

  function View(e: Entry): Resolver.Entry
  {
    match e
    case File(_, _) => Resolver.File
    case Directory(_) => Resolver.Directory
    case Symlink(target, _) => Resolver.Symlink(target)
  }

  function Shape(t: Tree): Resolver.Tree { map p | p in t :: View(t[p]) }

  function Items(records: seq<Record>): seq<Resolver.Item>
  {
    seq(|records|, i requires 0 <= i < |records| => Resolver.Item(records[i].path, View(records[i].entry)))
  }

  lemma ItemsShape(t: Tree, records: seq<Record>)
    requires Listing(t, records)
    ensures Resolver.Distinct(Items(records)) && Resolver.ByPath(Items(records)) == Shape(t)
  {
    var items := Items(records);
    forall p ensures (p in Resolver.ByPath(items) <==> p in t) && (p in t ==> Resolver.ByPath(items)[p] == View(t[p])) {
      ItemShape(t, records, p);
    }
  }

  lemma ItemShape(t: Tree, records: seq<Record>, p: Path)
    requires Listing(t, records) && Resolver.Distinct(Items(records))
    ensures p in Resolver.ByPath(Items(records)) <==> p in t
    ensures p in t ==> Resolver.ByPath(Items(records))[p] == View(t[p])
  {
    if p in t {
      var i :| 0 <= i < |records| && records[i].path == p;
      Resolver.ByPathAt(Items(records), i);
    } else if p in Resolver.ByPath(Items(records)) {
      var i := Resolver.ByPathOnly(Items(records), p);
    }
  }

  /** Every link of the tree resolves by pathname resolution, to an entry of the tree or to
      its root (SymlinkResolver). */
  ghost predicate Relocatable(t: Tree)
    requires WellFormed(t)
  {
    forall p {:trigger Resolver.ResolvesInside(Shape(t), p)} | p in Shape(t) && Shape(t)[p].Symlink? ::
      Resolver.ResolvesInside(Shape(t), p)
  }

  lemma ShapeIsWellFormed(t: Tree)
    requires WellFormed(t)
    ensures Resolver.WellFormed(Shape(t))
  {
    forall p | p in Shape(t) ensures Resolver.Rooted(Shape(t), p) {
      assert Rooted(t, p);
    }
  }

  lemma AcceptedIffRelocatable(t: Tree, records: seq<Record>)
    requires WellFormed(t) && Listing(t, records)
    ensures Resolver.Distinct(Items(records)) && [] !in Resolver.ByPath(Items(records))
    ensures Resolver.AllLinksOk(Resolver.ByPath(Items(records))) <==> Relocatable(t)
  {
    ItemsShape(t, records);
    ShapeIsWellFormed(t);
    Resolver.AcceptsIffAllResolve(Shape(t));
  }

  function Size(e: Entry): nat { if e.File? then |e.content| else 0 }

  function Total(records: seq<Record>): nat
  {
    if records == [] then 0 else Size(records[0].entry) + Total(records[1..])
  }

  /** The limits on entries and on file bytes. */
  predicate Small(records: seq<Record>) { |records| <= MAX_ENTRIES && Total(records) <= MAX_BYTES }

  ghost predicate Fits(t: Tree) { exists records :: Listing(t, records) && Small(records) }

  lemma {:induction false} TotalConcat(a: seq<Record>, b: seq<Record>)
    ensures Total(a + b) == Total(a) + Total(b)
  {
    if a == [] {
      assert a + b == b;
    } else {
      TotalConcat(a[1..], b);
      assert (a + b)[1..] == a[1..] + b;
    }
  }

  lemma {:induction false} TotalIgnoresOrder(a: seq<Record>, b: seq<Record>)
    requires multiset(a) == multiset(b)
    ensures |a| == |b| && Total(a) == Total(b)
  {
    assert |multiset(a)| == |multiset(b)|;
    if a != [] {
      SameMembers(a, b, a[0]);
      var i :| 0 <= i < |b| && b[i] == a[0];
      TakeOut(a, b, i);
      TotalIgnoresOrder(a[1..], b[..i] + b[i + 1..]);
      TotalConcat(b[..i], b[i..]);
      TotalConcat(b[..i], b[i + 1..]);
      assert b == b[..i] + b[i..];
    }
  }

  lemma TakeOut(a: seq<Record>, b: seq<Record>, i: nat)
    requires multiset(a) == multiset(b) && i < |b| && a != [] && b[i] == a[0]
    ensures multiset(a[1..]) == multiset(b[..i] + b[i + 1..])
  {
    assert a == [a[0]] + a[1..];
    assert b == b[..i] + [b[i]] + b[i + 1..];
    assert multiset(a[1..]) == multiset(a) - multiset{a[0]};
    assert multiset(b[..i] + b[i + 1..]) == multiset(b) - multiset{b[i]};
  }

  /** The limits hold of every enumeration or of none. */
  lemma SmallIffFits(t: Tree, records: seq<Record>)
    requires Listing(t, records)
    ensures Small(records) <==> Fits(t)
  {
    if Fits(t) {
      var other :| Listing(t, other) && Small(other);
      ListingsAgree(t, records, other);
      TotalIgnoresOrder(records, other);
    }
  }

  ghost predicate Hashable(t: Tree)
    requires WellFormed(t)
  {
    Fits(t) && Relocatable(t)
  }

  /** `build_manifest` of a directory: it has a digest exactly when the tree is within the
      limits and relocatable. */
  method BuildManifest(sha: string -> string, a: Artifact) returns (digest: Option<string>)
    requires WellFormed(a.tree)
    ensures digest.Some? <==> Hashable(a.tree)
    ensures digest.Some? ==> HasDigest(sha, a, digest.value)
  {
    var records := Scan(a.tree, []);
    ListsAll(a.tree, records);
    SmallIffFits(a.tree, records);
    if !Small(records) {
      return None;
    }
    var sorted := Sort(records, PathLeq);
    SortedListing(a.tree, records);
    AcceptedIffRelocatable(a.tree, sorted);
    var fine := Resolver.CheckTree(Items(sorted));
    if !fine {
      return None;
    }
    return Some(TreeSha(sha, a.rootMode, sorted));
  }

  // --------------------------------------------------------------------------- location

  /** What lies below a path of the whole file system. */
  function Subtree(fs: Tree, root: Path): Tree
  {
    var inside := set p | p in fs && |root| < |p| && p[..|root|] == root :: p[|root|..];
    map q | q in inside && root + q in fs :: fs[root + q]
  }

  predicate AtOrBelow(root: Path, p: Path) { |root| <= |p| && p[..|root|] == root }

  /** The directory at a path, if there is one. */
  function ArtifactAt(fs: Tree, root: Path): Option<Artifact>
  {
    if root in fs && fs[root].Directory? then Some(Artifact(fs[root].mode, Subtree(fs, root))) else None
  }

  /** What lay below one name lies below the other. */
  predicate Carried(fs: Tree, after: Tree, from: Path, to: Path, q: Path)
  {
    if from + q in fs then to + q in after && after[to + q] == fs[from + q] else to + q !in after
  }

  predicate Kept(fs: Tree, after: Tree, from: Path, to: Path, p: Path)
  {
    if p in fs && !AtOrBelow(from, p) then p in after && after[p] == fs[p] else p !in after || AtOrBelow(to, p)
  }

  /** An atomic rename of a directory to a free name; everything else stays. */
  ghost predicate IsRename(fs: Tree, after: Tree, from: Path, to: Path)
  {
    && (forall q {:trigger Carried(fs, after, from, to, q)} :: Carried(fs, after, from, to, q))
    && (forall p {:trigger Kept(fs, after, from, to, p)} :: Kept(fs, after, from, to, p))
  }

  /** Where the root lives does not matter: the renamed directory is the same artifact, its
      own mode included, and nothing is left behind. */
  lemma RenameMovesArtifact(fs: Tree, after: Tree, from: Path, to: Path)
    requires IsRename(fs, after, from, to)
    ensures ArtifactAt(after, to) == ArtifactAt(fs, from)
    ensures !AtOrBelow(to, from) ==> ArtifactAt(after, from) == None
  {
    RenameKeepsTree(fs, after, from, to);
    assert from + [] == from && to + [] == to;
    assert Carried(fs, after, from, to, []);
    assert AtOrBelow(from, from) && Kept(fs, after, from, to, from);
  }

  /** So its digests are the same. */
  lemma RenameKeepsDigest(sha: string -> string, fs: Tree, after: Tree, from: Path, to: Path, digest: string)
    requires IsRename(fs, after, from, to) && ArtifactAt(fs, from).Some?
    ensures ArtifactAt(after, to).Some?
    ensures HasDigest(sha, ArtifactAt(after, to).value, digest) <==> HasDigest(sha, ArtifactAt(fs, from).value, digest)
  {
    RenameMovesArtifact(fs, after, from, to);
  }

  lemma RenameKeepsTree(fs: Tree, after: Tree, from: Path, to: Path)
    requires IsRename(fs, after, from, to)
    ensures Subtree(after, to) == Subtree(fs, from)
  {
    var x, y := Subtree(fs, from), Subtree(after, to);
    forall q: Path ensures (q in x <==> q in y) && (q in x && q in y ==> x[q] == y[q]) {
      SubtreeAt(fs, from, q);
      SubtreeAt(after, to, q);
      assert Carried(fs, after, from, to, q);
    }
  }

  /** The file system after the rename. */
  function Renamed(fs: Tree, from: Path, to: Path): Tree
  {
    var kept := map p | p in fs && !AtOrBelow(from, p) :: fs[p];
    var names := set p | p in fs && AtOrBelow(from, p) :: to + p[|from|..];
    var moved := map r | r in names && |to| <= |r| && from + r[|to|..] in fs :: fs[from + r[|to|..]];
    kept + moved
  }

  lemma RenamedIsRename(fs: Tree, from: Path, to: Path)
    requires !AtOrBelow(from, to) && !AtOrBelow(to, from)
    requires forall p | p in fs :: !AtOrBelow(to, p)
    ensures IsRename(fs, Renamed(fs, from, to), from, to)
  {
    var after := Renamed(fs, from, to);
    forall q ensures Carried(fs, after, from, to, q) {
      RenamedAt(fs, from, to, q);
    }
    forall p ensures Kept(fs, after, from, to, p) {
      if !AtOrBelow(to, p) {
        RenamedElsewhere(fs, from, to, p);
      }
    }
  }

  lemma RenamedAt(fs: Tree, from: Path, to: Path, q: Path)
    requires forall p | p in fs :: !AtOrBelow(to, p)
    ensures Carried(fs, Renamed(fs, from, to), from, to, q)
  {
    assert (to + q)[|to|..] == q && (from + q)[|from|..] == q;
    assert AtOrBelow(from, from + q) && AtOrBelow(to, to + q);
    assert from + q in fs ==> to + (from + q)[|from|..] == to + q;
  }

  lemma RenamedElsewhere(fs: Tree, from: Path, to: Path, p: Path)
    requires !AtOrBelow(to, p)
    ensures Kept(fs, Renamed(fs, from, to), from, to, p)
  {
    forall q: Path ensures to + q != p {
      assert AtOrBelow(to, to + q);
    }
  }

  lemma SubtreeAt(fs: Tree, root: Path, q: Path)
    ensures q in Subtree(fs, root) <==> q != [] && root + q in fs
    ensures q in Subtree(fs, root) ==> Subtree(fs, root)[q] == fs[root + q]
  {
    var p := root + q;
    assert p[..|root|] == root && p[|root|..] == q;
    forall r | r in fs && |root| < |r| && r[..|root|] == root && r[|root|..] == q ensures r == p {
      assert r == r[..|root|] + r[|root|..];
    }
  }
}
