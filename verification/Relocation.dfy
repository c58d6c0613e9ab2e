/** Relocatability as a fact about whole file systems: wherever the directory of an accepted
    tree lies, and whatever lies around it, following a link of the tree ends at the same
    entry of the tree. Pathname resolution here knows nothing of the tree: the parent of the
    directory is its real parent, and an absolute target starts at the top. */
module Relocation {
  import opened Common
  import T = TreeDigest
  import R = SymlinkResolver

  type Path = T.Path

  /** A place in the file system, and whether it is a directory. */
  datatype Place = Place(path: Path, isDirectory: bool)

  const TOP := Place([], true)

  function Up(p: Path): Path { if p == [] then [] else p[..|p| - 1] }

  /** Resolve components from a place, following at most n links. An empty component, as
      between two slashes or behind the last one, stays but needs a directory. */
  function Follow(fs: T.Tree, at: Place, parts: seq<string>, n: nat): (r: Option<(Place, nat)>)
    ensures r.Some? ==> r.value.1 <= n
    decreases n, |parts|
  {
    if parts == [] then Some((at, n))
    else if !at.isDirectory then None
    else
      var c, rest := parts[0], parts[1..];
      if c == "" || c == "." then Follow(fs, at, rest, n)
      else if c == ".." then Follow(fs, Place(Up(at.path), true), rest, n)
      else
        var p := at.path + [c];
        if p !in fs then None
        else
          match fs[p]
          case Symlink(target, _) =>
            if n == 0 || target == "" then None
            else
              var inner := Follow(fs, if target[0] == '/' then TOP else at, R.Split(target), n - 1);
              if inner.None? then None else Follow(fs, inner.value.0, rest, inner.value.1)
          case Directory(_) => Follow(fs, Place(p, true), rest, n)
          case File(_, _) => Follow(fs, Place(p, false), rest, n)
  }

  /** The file system holds this tree at a directory. */
  ghost predicate Holds(fs: T.Tree, root: Path, t: T.Tree)
  {
    root in fs && fs[root].Directory? && T.Subtree(fs, root) == t
  }

  /** Where a path of the file system leads. */
  function Lookup(fs: T.Tree, from: Path, parts: seq<string>): Option<Path>
  {
    var r := Follow(fs, Place(from, true), parts, R.MAX_SYMLINK_EXPANSIONS);
    if r.Some? then Some(r.value.0.path) else None
  }

  /** Following the target of the link at p, in every file system that holds the tree, ends
      at the entry q of the tree. */
  ghost predicate LeadsTo(t: T.Tree, p: Path, q: Path)
    requires p in t && t[p].Symlink? && p != []
  {
    forall fs: T.Tree, root: Path {:trigger Holds(fs, root, t)} | Holds(fs, root, t) ::
      t[p].target != "" && t[p].target[0] != '/' &&
      Lookup(fs, root + R.Parent(p), R.Split(t[p].target)) == Some(root + q)
  }

  /** The tree means the same wherever it lies. */
  ghost predicate Movable(t: T.Tree)
  {
    forall p | p in t && t[p].Symlink? :: p != [] && exists q :: (q == [] || q in t) && LeadsTo(t, p, q)
  }

  // ----------------------------------------------------------------- empty components

  /** Empty components matter only at the end, where they demand a directory. */
  function Clean(parts: seq<string>): seq<string>
    requires parts != []
  {
    R.Without(parts, "") + (if parts[|parts| - 1] == "" then ["."] else [])
  }

  lemma CleanStep(parts: seq<string>)
    requires |parts| > 1
    ensures Clean(parts) == if parts[0] == "" then Clean(parts[1..]) else [parts[0]] + Clean(parts[1..])
  {
  }

  lemma {:induction false} CleanIsSame(fs: T.Tree, at: Place, parts: seq<string>, n: nat)
    requires parts != []
    ensures Follow(fs, at, parts, n) == Follow(fs, at, Clean(parts), n)
    decreases n, |parts|
  {
    if !at.isDirectory {
      CleanIsNonempty(parts);
    } else if |parts| == 1 {
      assert parts[1..] == [] && R.Without(parts[1..], "") == [];
      assert Clean(parts) == if parts[0] == "" then ["."] else parts;
    } else {
      CleanStep(parts);
      CleanRest(fs, at, parts, n);
    }
  }

  lemma {:induction false} CleanRest(fs: T.Tree, at: Place, parts: seq<string>, n: nat)
    requires |parts| > 1 && at.isDirectory
    requires Clean(parts) == if parts[0] == "" then Clean(parts[1..]) else [parts[0]] + Clean(parts[1..])
    ensures Follow(fs, at, parts, n) == Follow(fs, at, Clean(parts), n)
    decreases n, |parts|, 0
  {
    var c, rest := parts[0], parts[1..];
    if c != "" {
      assert Clean(parts)[0] == c && Clean(parts)[1..] == Clean(rest);
    }
    if c == "" || c == "." {
      CleanIsSame(fs, at, rest, n);
    } else if c == ".." {
      CleanIsSame(fs, Place(Up(at.path), true), rest, n);
    } else if at.path + [c] in fs {
      match fs[at.path + [c]] {
        case Symlink(target, _) =>
          if n > 0 && target != "" {
            var inner := Follow(fs, if target[0] == '/' then TOP else at, R.Split(target), n - 1);
            if inner.Some? {
              CleanIsSame(fs, inner.value.0, rest, inner.value.1);
            }
          }
        case Directory(_) => CleanIsSame(fs, Place(at.path + [c], true), rest, n);
        case File(_, _) => CleanIsSame(fs, Place(at.path + [c], false), rest, n);
      }
    }
  }

  lemma {:induction false} CleanIsNonempty(parts: seq<string>)
    requires parts != []
    ensures Clean(parts) != []
  {
    if |parts| > 1 {
      CleanStep(parts);
      CleanIsNonempty(parts[1..]);
    }
  }

  /** The resolver's components of a relative target are the cleaned ones. */
  lemma PosixIsClean(target: string)
    requires target != "" && target[0] != '/'
    ensures R.PosixParts(target) == Some(Clean(R.Split(target)))
  {
    R.LastPart(target);
    R.LastPartTells(target, Last(R.Split(target)));
  }

  // ------------------------------------------------------------------- inside the tree

  lemma HeldEntry(fs: T.Tree, root: Path, t: T.Tree, at: Path, c: string)
    requires Holds(fs, root, t)
    ensures at + [c] in t <==> root + at + [c] in fs
    ensures at + [c] in t ==> t[at + [c]] == fs[root + at + [c]]
  {
    T.SubtreeAt(fs, root, at + [c]);
    assert root + (at + [c]) == root + at + [c];
  }

  lemma UpFrom(root: Path, at: Path)
    requires at != []
    ensures Up(root + at) == root + R.Parent(at)
  {
    assert (root + at)[..|root + at| - 1] == root + at[..|at| - 1];
  }

  lemma FollowLink(fs: T.Tree, at: Place, parts: seq<string>, n: nat)
    requires parts != [] && R.PlainName(parts[0]) && at.isDirectory && n > 0
    requires at.path + [parts[0]] in fs && fs[at.path + [parts[0]]].Symlink?
    requires fs[at.path + [parts[0]]].target != ""
    ensures var target := fs[at.path + [parts[0]]].target;
            var inner := Follow(fs, if target[0] == '/' then TOP else at, R.Split(target), n - 1);
            Follow(fs, at, parts, n) ==
              if inner.None? then None else Follow(fs, inner.value.0, parts[1..], inner.value.1)
  {
  }

  lemma WalkLink(t: R.Tree, at: R.Node, parts: seq<string>, n: nat)
    requires parts != [] && R.PlainName(parts[0]) && at.isDirectory && n > 0
    requires at.path + [parts[0]] in t && t[at.path + [parts[0]]].Symlink?
    requires R.PosixParts(t[at.path + [parts[0]]].target).Some?
    ensures var inner := R.Walk(t, R.PosixParts, at, R.PosixParts(t[at.path + [parts[0]]].target).value, n - 1);
            R.Walk(t, R.PosixParts, at, parts, n) ==
              if inner.None? then None else R.Walk(t, R.PosixParts, inner.value.0, parts[1..], inner.value.1)
  {
  }

  ghost predicate Simulated(fs: T.Tree, root: Path, t: T.Tree, at: R.Node, parts: seq<string>, n: nat)
  {
    var r := R.Walk(T.Shape(t), R.PosixParts, at, parts, n);
    r.Some? ==>
      Follow(fs, Place(root + at.path, at.isDirectory), parts, n) ==
        Some((Place(root + r.value.0.path, r.value.0.isDirectory), r.value.1))
  }

  /** What resolves inside the tree resolves in the file system, to the same entry. */
  lemma {:induction false} Simulates(fs: T.Tree, root: Path, t: T.Tree, at: R.Node, parts: seq<string>, n: nat)
    requires Holds(fs, root, t)
    ensures Simulated(fs, root, t, at, parts, n)
    decreases n, |parts|, 1
  {
    if parts != [] && at.isDirectory {
      var c, rest := parts[0], parts[1..];
      if c == "" || c == "." {
        Simulates(fs, root, t, at, rest, n);
      } else if c == ".." {
        if at.path != [] {
          UpFrom(root, at.path);
          Simulates(fs, root, t, R.Node(R.Parent(at.path), true), rest, n);
        }
      } else if at.path + [c] in t {
        HeldEntry(fs, root, t, at.path, c);
        assert root + (at.path + [c]) == root + at.path + [c];
        match t[at.path + [c]] {
          case Symlink(_, _) => SimulatesLink(fs, root, t, at, parts, n);
          case Directory(_) => Simulates(fs, root, t, R.Node(at.path + [c], true), rest, n);
          case File(_, _) => Simulates(fs, root, t, R.Node(at.path + [c], false), rest, n);
        }
      }
    }
  }

  lemma {:induction false} SimulatesLink(fs: T.Tree, root: Path, t: T.Tree, at: R.Node, parts: seq<string>, n: nat)
    requires Holds(fs, root, t) && parts != [] && R.PlainName(parts[0]) && at.isDirectory
    requires at.path + [parts[0]] in t && t[at.path + [parts[0]]].Symlink?
    ensures Simulated(fs, root, t, at, parts, n)
    decreases n, |parts|, 0
  {
    var here, target := Place(root + at.path, true), t[at.path + [parts[0]]].target;
    if n > 0 && R.PosixParts(target).Some? {
      HeldEntry(fs, root, t, at.path, parts[0]);
      FollowLink(fs, here, parts, n);
      WalkLink(T.Shape(t), at, parts, n);
      SimulatesTarget(fs, root, t, at, target, n);
      var inner := R.Walk(T.Shape(t), R.PosixParts, at, R.PosixParts(target).value, n - 1);
      if inner.Some? {
        Simulates(fs, root, t, inner.value.0, parts[1..], inner.value.1);
      }
    }
  }

  /** The target of a relative link, taken alone. */
  lemma {:induction false} SimulatesTarget(fs: T.Tree, root: Path, t: T.Tree, at: R.Node, target: string, n: nat)
    requires Holds(fs, root, t) && at.isDirectory && n > 0 && R.PosixParts(target).Some?
    ensures target != "" && target[0] != '/'
    ensures var r := R.Walk(T.Shape(t), R.PosixParts, at, R.PosixParts(target).value, n - 1);
            r.Some? ==> Follow(fs, Place(root + at.path, true), R.Split(target), n - 1) ==
                          Some((Place(root + r.value.0.path, r.value.0.isDirectory), r.value.1))
    decreases n, 0, 0
  {
    PosixIsClean(target);
    Simulates(fs, root, t, at, R.PosixParts(target).value, n - 1);
    CleanIsSame(fs, Place(root + at.path, true), R.Split(target), n - 1);
  }

  /** Where the resolver says an accepted link ends. */
  function EndOf(t: T.Tree, p: Path): Path
    requires p in t && t[p].Symlink? && p != [] && R.Resolves(T.Shape(t), p)
  {
    R.Walk(T.Shape(t), R.PosixParts, R.Node(R.Parent(p), true), R.PosixParts(t[p].target).value,
           R.MAX_SYMLINK_EXPANSIONS).value.0.path
  }

  lemma ResolvedLeads(t: T.Tree, p: Path)
    requires p in t && t[p].Symlink? && p != [] && R.Resolves(T.Shape(t), p)
    ensures LeadsTo(t, p, EndOf(t, p))
  {
    var target := t[p].target;
    PosixIsClean(target);
    forall fs: T.Tree, root: Path | Holds(fs, root, t)
      ensures Lookup(fs, root + R.Parent(p), R.Split(target)) == Some(root + EndOf(t, p))
    {
      Simulates(fs, root, t, R.Node(R.Parent(p), true), R.PosixParts(target).value, R.MAX_SYMLINK_EXPANSIONS);
      CleanIsSame(fs, Place(root + R.Parent(p), true), R.Split(target), R.MAX_SYMLINK_EXPANSIONS);
    }
  }

  // ------------------------------------------------------------------ outside the tree

  /** Nothing but the tree, in a directory of this name at the top. */
  function Alone(t: T.Tree, name: string): T.Tree
  {
    var below := set p | p in t :: [name] + p;
    map r | r in below + {[name]} && (r == [name] || (r != [] && r[1..] in t)) ::
      if r == [name] then T.Directory("") else t[r[1..]]
  }

  lemma AloneAt(t: T.Tree, name: string, q: Path)
    requires [] !in t
    ensures [name] + q in Alone(t, name) <==> q == [] || q in t
    ensures q in t ==> Alone(t, name)[[name] + q] == t[q]
  {
    assert ([name] + q)[1..] == q;
    assert q in t ==> [name] + q in set p | p in t :: [name] + p;
    assert [name] + q == [name] ==> q == ([name] + q)[1..] == [name][1..] == [];
    forall p | p in t && [name] + p == [name] + q ensures p == q {
      assert ([name] + p)[1..] == p;
    }
  }

  lemma AloneElsewhere(t: T.Tree, name: string, r: Path)
    requires r in Alone(t, name)
    ensures r != [] && r[0] == name
  {
  }

  lemma AloneHolds(t: T.Tree, name: string)
    requires [] !in t
    ensures Holds(Alone(t, name), [name], t)
  {
    var fs := Alone(t, name);
    AloneAt(t, name, []);
    assert [name] + [] == [name];
    forall q ensures (q in T.Subtree(fs, [name]) <==> q in t) && (q in t ==> T.Subtree(fs, [name])[q] == t[q]) {
      T.SubtreeAt(fs, [name], q);
      AloneAt(t, name, q);
    }
  }

  /** The name occurs in no target, and is not one of the special components. */
  ghost predicate Fresh(t: T.Tree, name: string)
  {
    && name != "" && name != "." && name != ".."
    && forall p | p in t && t[p].Symlink? :: name !in R.Split(t[p].target)
  }

  /** From the top, without that name, a resolution stays at the top or fails. */
  lemma {:induction false} TopIsEmpty(t: T.Tree, name: string, parts: seq<string>, n: nat)
    requires name !in parts
    ensures var r := Follow(Alone(t, name), TOP, parts, n);
            r.Some? ==> r.value == (TOP, n)
  {
    if parts != [] {
      var c := parts[0];
      if c == "" || c == "." || c == ".." {
        TopIsEmpty(t, name, parts[1..], n);
      } else if [] + [c] in Alone(t, name) {
        AloneElsewhere(t, name, [] + [c]);
      }
    }
  }

  lemma CleanIsFresh(parts: seq<string>, name: string)
    requires parts != [] && name !in parts && name != "."
    ensures name !in Clean(parts)
  {
  }

  ghost predicate Reflected(t: T.Tree, name: string, at: R.Node, parts: seq<string>, n: nat)
  {
    var r := Follow(Alone(t, name), Place([name] + at.path, at.isDirectory), parts, n);
    r.Some? && r.value.0 != TOP ==>
      && R.Walk(T.Shape(t), R.PosixParts, at, parts, n).Some?
      && var w := R.Walk(T.Shape(t), R.PosixParts, at, parts, n).value;
      r.value == (Place([name] + w.0.path, w.0.isDirectory), w.1)
  }

  /** In that file system a resolution that does not end at the top is one inside the tree. */
  lemma {:induction false} Reflects(t: T.Tree, name: string, at: R.Node, parts: seq<string>, n: nat)
    requires [] !in t && Fresh(t, name) && name !in parts
    ensures Reflected(t, name, at, parts, n)
    decreases n, |parts|, 1
  {
    var fs := Alone(t, name);
    if parts != [] && at.isDirectory {
      var c, rest := parts[0], parts[1..];
      if c == "" || c == "." {
        Reflects(t, name, at, rest, n);
      } else if c == ".." {
        if at.path == [] {
          assert Up([name] + []) == [];
          TopIsEmpty(t, name, rest, n);
        } else {
          UpFrom([name], at.path);
          Reflects(t, name, R.Node(R.Parent(at.path), true), rest, n);
        }
      } else {
        AloneAt(t, name, at.path + [c]);
        assert [name] + at.path + [c] == [name] + (at.path + [c]);
        if at.path + [c] in t {
          match t[at.path + [c]] {
            case Symlink(_, _) => ReflectsLink(t, name, at, parts, n);
            case Directory(_) => Reflects(t, name, R.Node(at.path + [c], true), rest, n);
            case File(_, _) => Reflects(t, name, R.Node(at.path + [c], false), rest, n);
          }
        }
      }
    }
  }

  lemma {:induction false} ReflectsLink(t: T.Tree, name: string, at: R.Node, parts: seq<string>, n: nat)
    requires [] !in t && Fresh(t, name) && name !in parts && parts != [] && at.isDirectory
    requires R.PlainName(parts[0]) && at.path + [parts[0]] in t && t[at.path + [parts[0]]].Symlink?
    ensures Reflected(t, name, at, parts, n)
    decreases n, |parts|, 0
  {
    var rest, fs, target := parts[1..], Alone(t, name), t[at.path + [parts[0]]].target;
    var here := Place([name] + at.path, true);
    AloneAt(t, name, at.path + [parts[0]]);
    assert [name] + at.path + [parts[0]] == [name] + (at.path + [parts[0]]);
    if n > 0 && target != "" {
      FollowLink(fs, here, parts, n);
      if target[0] == '/' {
        TopIsEmpty(t, name, R.Split(target), n - 1);
        TopIsEmpty(t, name, rest, n - 1);
      } else {
        ReflectsTarget(t, name, at, target, n);
        var inner := Follow(fs, here, R.Split(target), n - 1);
        if inner.Some? && inner.value.0 == TOP {
          TopIsEmpty(t, name, rest, inner.value.1);
        } else if inner.Some? {
          var w := R.Walk(T.Shape(t), R.PosixParts, at, R.PosixParts(target).value, n - 1).value;
          WalkLink(T.Shape(t), at, parts, n);
          Reflects(t, name, w.0, rest, w.1);
        }
      }
    }
  }

  /** The target of a relative link, taken alone. */
  lemma {:induction false} ReflectsTarget(t: T.Tree, name: string, at: R.Node, target: string, n: nat)
    requires [] !in t && Fresh(t, name) && at.isDirectory && name !in R.Split(target)
    requires n > 0 && target != "" && target[0] != '/'
    ensures R.PosixParts(target).Some?
    ensures var r := Follow(Alone(t, name), Place([name] + at.path, true), R.Split(target), n - 1);
            r.Some? && r.value.0 != TOP ==>
              && R.Walk(T.Shape(t), R.PosixParts, at, R.PosixParts(target).value, n - 1).Some?
              && var w := R.Walk(T.Shape(t), R.PosixParts, at, R.PosixParts(target).value, n - 1).value;
              r.value == (Place([name] + w.0.path, w.0.isDirectory), w.1)
    decreases n, 0, 0
  {
    PosixIsClean(target);
    CleanIsSame(Alone(t, name), Place([name] + at.path, true), R.Split(target), n - 1);
    CleanIsFresh(R.Split(target), name);
    Reflects(t, name, at, Clean(R.Split(target)), n - 1);
  }

  // -------------------------------------------------------------------------- fresh names

  lemma {:induction false} PartsAreShort(s: string, part: string)
    requires part in R.Split(s)
    ensures |part| <= |s|
    decreases |s|
  {
    var i := R.SlashIndex(s);
    if i < |s| && part != s[..i] {
      PartsAreShort(s[i + 1..], part);
    }
  }

  lemma {:induction false} LongestTarget(t: T.Tree, paths: set<Path>) returns (n: nat)
    requires forall p | p in paths :: p in t
    ensures forall p | p in paths && t[p].Symlink? :: |t[p].target| <= n
    decreases paths
  {
    if paths == {} {
      n := 0;
    } else {
      var p :| p in paths;
      n := LongestTarget(t, paths - {p});
      if t[p].Symlink? && |t[p].target| > n {
        n := |t[p].target|;
      }
    }
  }

  lemma FreshName(t: T.Tree) returns (name: string)
    ensures Fresh(t, name)
  {
    var n := LongestTarget(t, t.Keys);
    name := seq(n + 3, _ => 'x');
    forall p | p in t && t[p].Symlink? ensures name !in R.Split(t[p].target) {
      if name in R.Split(t[p].target) {
        PartsAreShort(t[p].target, name);
      }
    }
  }

  // ------------------------------------------------------------------------ relocatability

  lemma LeadsResolves(t: T.Tree, p: Path, q: Path)
    requires [] !in t && p in t && t[p].Symlink? && p != [] && LeadsTo(t, p, q)
    ensures R.Resolves(T.Shape(t), p)
  {
    var name := FreshName(t);
    var fs, target := Alone(t, name), t[p].target;
    AloneHolds(t, name);
    PosixIsClean(target);
    CleanIsSame(fs, Place([name] + R.Parent(p), true), R.Split(target), R.MAX_SYMLINK_EXPANSIONS);
    CleanIsFresh(R.Split(target), name);
    Reflects(t, name, R.Node(R.Parent(p), true), Clean(R.Split(target)), R.MAX_SYMLINK_EXPANSIONS);
  }

  /** A tree is accepted if and only if it means the same wherever it lies: no target is
      absolute, and following any link, in any file system that holds the tree at any place,
      ends at one and the same entry of the tree or at its root. */
  lemma AcceptedIffMovable(t: T.Tree)
    requires T.WellFormed(t)
    ensures T.Relocatable(t) <==> Movable(t)
  {
    T.ShapeIsWellFormed(t);
    if T.Relocatable(t) {
      forall p | p in t && t[p].Symlink? ensures p != [] && exists q :: (q == [] || q in t) && LeadsTo(t, p, q) {
        assert R.ResolvesInside(T.Shape(t), p);
        ResolvedLeads(t, p);
        assert EndOf(t, p) == [] || EndOf(t, p) in t;
      }
    }
    if Movable(t) {
      forall p | p in T.Shape(t) && T.Shape(t)[p].Symlink? ensures R.ResolvesInside(T.Shape(t), p) {
        var q :| (q == [] || q in t) && LeadsTo(t, p, q);
        LeadsResolves(t, p, q);
        R.ResolutionStaysInside(T.Shape(t), p);
      }
    }
  }

  /** So the check over the captured entries accepts exactly the movable trees. */
  lemma CheckedIffMovable(t: T.Tree, records: seq<T.Record>)
    requires T.WellFormed(t) && T.Listing(t, records)
    ensures R.Distinct(T.Items(records)) && [] !in R.ByPath(T.Items(records))
    ensures R.AllLinksOk(R.ByPath(T.Items(records))) <==> Movable(t)
  {
    T.AcceptedIffRelocatable(t, records);
    AcceptedIffMovable(t);
  }
}
