/** The relocatability check of the tree hasher: every symlink of a captured tree must
    resolve inside the tree (scripts/hash_artifact.py). `Walk` is ordinary pathname
    resolution (section 4.13 of the Base Definitions of IEEE Std 1003.1-2017) in a closed
    tree: a link is resolved on its own in its directory, then the walk goes on from where
    it led. The source instead splices the link's components into one work list. */
module SymlinkResolver {
  import opened Common

  const MAX_SYMLINK_EXPANSIONS := 40

  datatype Entry = File | Directory | Symlink(target: string)

  /** Path components below the artifact root; the root itself is []. */
  type Path = seq<string>

  type Tree = map<Path, Entry>

  /** The entry lies in the root or in a directory of the tree. */
  predicate Rooted(t: Tree, p: Path)
  {
    p != [] && (|p| == 1 || (p[..|p| - 1] in t && t[p[..|p| - 1]] == Directory))
  }

  ghost predicate WellFormed(t: Tree)
  {
    [] !in t && forall p {:trigger Rooted(t, p)} | p in t :: Rooted(t, p)
  }

  /** A resolved place: an entry or the root, and whether it is a directory. */
  datatype Node = Node(path: Path, isDirectory: bool)

  function Parent(p: Path): Path
    requires p != []
  {
    p[..|p| - 1]
  }

  // --------------------------------------------------------------------- link targets

  function SlashIndex(s: string): (i: nat)
    ensures i <= |s| && (i < |s| ==> s[i] == '/')
    ensures forall k | 0 <= k < i :: s[k] != '/'
  {
    if s == "" || s[0] == '/' then 0 else 1 + SlashIndex(s[1..])
  }

  /** The texts between slashes. */
  function Split(s: string): (parts: seq<string>)
    ensures parts != []
    decreases |s|
  {
    var i := SlashIndex(s);
    if i == |s| then [s] else [s[..i]] + Split(s[i + 1..])
  }

  function Without(parts: seq<string>, drop: string): (r: seq<string>)
    ensures drop !in r && forall x | x in r :: x in parts
  {
    if parts == [] then []
    else if parts[0] == drop then Without(parts[1..], drop)
    else [parts[0]] + Without(parts[1..], drop)
  }

  /** A target must be nonempty and relative. */
  predicate Relative(target: string) { target != "" && target[0] != '/' }

  /** `_symlink_target_parts`: PurePosixPath drops empty and "." components. */
  function TargetParts(target: string): Option<seq<string>>
  {
    if !Relative(target) then None else Some(Without(Without(Split(target), ""), "."))
  }

  /** `_symlink_target_requires_directory`. */
  predicate RequiresDirectory(target: string)
  {
    EndsWith(target, "/") || target == "." || EndsWith(target, "/.")
  }

  predicate EndsWith(s: string, suffix: string)
  {
    |suffix| <= |s| && s[|s| - |suffix|..] == suffix
  }

  /** The components of the standard: "." stays, and a trailing slash counts as one more ".". */
  function PosixParts(target: string): Option<seq<string>>
  {
    if !Relative(target) then None
    else Some(Without(Split(target), "") + (if EndsWith(target, "/") then ["."] else []))
  }

  // ------------------------------------------------------------- pathname resolution

  type Reader = string -> Option<seq<string>>

  /** Resolve components from a place, following at most n links. The result carries the
      number of expansions still allowed. */
  function Walk(t: Tree, read: Reader, at: Node, parts: seq<string>, n: nat): (r: Option<(Node, nat)>)
    ensures r.Some? ==> r.value.1 <= n
    decreases n, |parts|
  {
    if parts == [] then Some((at, n))
    else if !at.isDirectory then None
    else
      var c, rest := parts[0], parts[1..];
      if c == "" || c == "." then Walk(t, read, at, rest, n)
      else if c == ".." then
        if at.path == [] then None else Walk(t, read, Node(Parent(at.path), true), rest, n)
      else
        var p := at.path + [c];
        if p !in t then None
        else
          match t[p]
          case Symlink(target) =>
            if n == 0 || read(target).None? then None
            else
              var inner := Walk(t, read, at, read(target).value, n - 1);
              if inner.None? then None else Walk(t, read, inner.value.0, rest, inner.value.1)
          case Directory => Walk(t, read, Node(p, true), rest, n)
          case File => Walk(t, read, Node(p, false), rest, n)
  }

  /** A longer list is walked in two legs. */
  lemma {:induction false} WalkConcat(t: Tree, read: Reader, at: Node, xs: seq<string>, ys: seq<string>, n: nat)
    requires ys != []
    ensures Walk(t, read, at, xs + ys, n) ==
            var first := Walk(t, read, at, xs, n);
            if first.None? then None else Walk(t, read, first.value.0, ys, first.value.1)
    decreases n, |xs|
  {
    if xs == [] {
      assert xs + ys == ys;
    } else if at.isDirectory {
      var c, rest := xs[0], xs[1..];
      assert (xs + ys)[0] == c && (xs + ys)[1..] == rest + ys;
      if c == "" || c == "." {
        WalkConcat(t, read, at, rest, ys, n);
      } else if c == ".." {
        if at.path != [] {
          WalkConcat(t, read, Node(Parent(at.path), true), rest, ys, n);
        }
      } else if at.path + [c] in t {
        match t[at.path + [c]] {
          case Symlink(target) =>
            if n > 0 && read(target).Some? {
              var inner := Walk(t, read, at, read(target).value, n - 1);
              if inner.Some? {
                WalkConcat(t, read, inner.value.0, rest, ys, inner.value.1);
              }
            }
          case Directory => WalkConcat(t, read, Node(at.path + [c], true), rest, ys, n);
          case File => WalkConcat(t, read, Node(at.path + [c], false), rest, ys, n);
        }
      }
    }
  }

  /** A larger budget changes nothing but what is left of it. */
  lemma {:induction false} WalkBudget(t: Tree, read: Reader, at: Node, parts: seq<string>, n: nat, k: nat)
    requires Walk(t, read, at, parts, n).Some?
    ensures Walk(t, read, at, parts, n + k) ==
            Some((Walk(t, read, at, parts, n).value.0, Walk(t, read, at, parts, n).value.1 + k))
    decreases n, |parts|
  {
    if parts != [] {
      var c, rest := parts[0], parts[1..];
      if c == "" || c == "." {
        WalkBudget(t, read, at, rest, n, k);
      } else if c == ".." {
        WalkBudget(t, read, Node(Parent(at.path), true), rest, n, k);
      } else {
        match t[at.path + [c]] {
          case Symlink(target) =>
            var inner := Walk(t, read, at, read(target).value, n - 1);
            WalkBudget(t, read, at, read(target).value, n - 1, k);
            WalkBudget(t, read, inner.value.0, rest, inner.value.1, k);
          case Directory => WalkBudget(t, read, Node(at.path + [c], true), rest, n, k);
          case File => WalkBudget(t, read, Node(at.path + [c], false), rest, n, k);
        }
      }
    }
  }

  // -------------------------------------------------------------------- one link check

  /** The link at p resolves the way the source resolves it. */
  predicate LinkOk(t: Tree, p: Path)
    requires p in t && p != [] && t[p].Symlink?
  {
    var target := t[p].target;
    && TargetParts(target).Some?
    && var r := Walk(t, TargetParts, Node(Parent(p), true), TargetParts(target).value, MAX_SYMLINK_EXPANSIONS);
    && r.Some?
    && (RequiresDirectory(target) ==> r.value.0.isDirectory)
  }

  /** One remembered expansion: which link, from where, with what still to do. */
  datatype Followed = Followed(candidate: Path, resolved: Path, pending: seq<string>)

  /** From the remembered state, with the budget it had, the walk comes to this result. */
  ghost predicate Remembers(t: Tree, s: Followed, budget: nat, whole: Option<(Node, nat)>)
  {
    && s.candidate != [] && s.candidate == s.resolved + [Last(s.candidate)]
    && whole == Walk(t, TargetParts, Node(s.resolved, true), [Last(s.candidate)] + s.pending, budget)
  }

  /** A revisited state has no finite resolution: the same walk would have to end with two
      different remaining budgets. */
  lemma RevisitNeverResolves(t: Tree, read: Reader, at: Node, parts: seq<string>, early: nat, late: nat)
    requires late < early
    requires Walk(t, read, at, parts, early) == Walk(t, read, at, parts, late)
    ensures Walk(t, read, at, parts, late).None?
  {
    if Walk(t, read, at, parts, late).Some? {
      WalkBudget(t, read, at, parts, late, early - late);
    }
  }

  /** Every remembered expansion had more budget than is left now. */
  ghost predicate Memory(t: Tree, budget: map<Followed, nat>, left: int, whole: Option<(Node, nat)>)
  {
    forall s | s in budget :: left < budget[s] && Remembers(t, s, budget[s], whole)
  }

  lemma MemoryGrows(t: Tree, budget: map<Followed, nat>, left: nat, whole: Option<(Node, nat)>, s: Followed)
    requires Memory(t, budget, left, whole) && Remembers(t, s, left, whole)
    ensures Memory(t, budget[s := left], left - 1, whole)
  {
  }

  lemma Revisited(t: Tree, budget: map<Followed, nat>, left: nat, whole: Option<(Node, nat)>, s: Followed)
    requires Memory(t, budget, left, whole) && Remembers(t, s, left, whole) && s in budget
    ensures whole.None?
  {
    RevisitNeverResolves(t, TargetParts, Node(s.resolved, true), [Last(s.candidate)] + s.pending, budget[s], left);
  }

  lemma RemembersNow(t: Tree, resolved: Path, component: string, pending: seq<string>, left: nat)
    ensures Remembers(t, Followed(resolved + [component], resolved, pending), left,
                      Walk(t, TargetParts, Node(resolved, true), [component] + pending, left))
  {
    assert Last(resolved + [component]) == component;
  }

  /** Splicing a link's components in front of the work list is one walk step. */
  lemma SpliceIsStep(t: Tree, at: Node, c: string, rest: seq<string>, n: nat)
    requires at.isDirectory && c != "" && c != "." && c != ".." && n > 0
    requires at.path + [c] in t && t[at.path + [c]].Symlink?
    requires TargetParts(t[at.path + [c]].target).Some?
    ensures Walk(t, TargetParts, at, [c] + rest, n) ==
            Walk(t, TargetParts, at, TargetParts(t[at.path + [c]].target).value + rest, n - 1)
  {
    var nested := TargetParts(t[at.path + [c]].target).value;
    assert ([c] + rest)[1..] == rest;
    if rest == [] {
      assert nested + rest == nested;
    } else {
      WalkConcat(t, TargetParts, at, nested, rest, n - 1);
    }
  }

  /** The source's loop for one link: a work list, the resolved prefix, the set of followed
      states and the expansion counter. It accepts exactly `LinkOk`; neither the set nor the
      counter changes the verdict. */
  method CheckLink(t: Tree, source: Path) returns (ok: bool)
    requires source in t && source != [] && t[source].Symlink?
    ensures ok <==> LinkOk(t, source)
  {
    var target := t[source].target;
    var parts := TargetParts(target);
    if parts.None? {
      return false;
    }
    var pending := parts.value;
    var resolved := Parent(source);
    var resolvedIsDirectory := true;
    var followed: set<Followed> := {};
    var expansions := 0;
    ghost var whole := Walk(t, TargetParts, Node(resolved, true), pending, MAX_SYMLINK_EXPANSIONS);
    ghost var budget: map<Followed, nat> := map[];
    while pending != []
      invariant 0 <= expansions <= MAX_SYMLINK_EXPANSIONS
      invariant resolvedIsDirectory || pending == []
      invariant whole == Walk(t, TargetParts, Node(resolved, resolvedIsDirectory), pending,
                              MAX_SYMLINK_EXPANSIONS - expansions)
      invariant followed == budget.Keys
      invariant Memory(t, budget, MAX_SYMLINK_EXPANSIONS - expansions, whole)
      decreases MAX_SYMLINK_EXPANSIONS - expansions, |pending|
    {
      var component := pending[0];
      ghost var before := pending;
      pending := pending[1..];
      assert before == [component] + pending;
      if component == "" || component == "." {
        continue;
      }
      if component == ".." {
        if resolved == [] {
          return false;
        }
        resolved := Parent(resolved);
        resolvedIsDirectory := true;
        continue;
      }
      var candidate := resolved + [component];
      if candidate !in t {
        return false;
      }
      if t[candidate].Symlink? {
        var state := Followed(candidate, resolved, pending);
        RemembersNow(t, resolved, component, pending, MAX_SYMLINK_EXPANSIONS - expansions);
        if state in followed {
          Revisited(t, budget, MAX_SYMLINK_EXPANSIONS - expansions, whole, state);
          return false;
        }
        if expansions + 1 > MAX_SYMLINK_EXPANSIONS {
          return false;
        }
        var nested := TargetParts(t[candidate].target);
        if nested.None? {
          return false;
        }
        SpliceIsStep(t, Node(resolved, true), component, pending, MAX_SYMLINK_EXPANSIONS - expansions);
        MemoryGrows(t, budget, MAX_SYMLINK_EXPANSIONS - expansions, whole, state);
        budget := budget[state := MAX_SYMLINK_EXPANSIONS - expansions];
        followed := followed + {state};
        expansions := expansions + 1;
        pending := nested.value + pending;
        continue;
      }
      resolved := candidate;
      resolvedIsDirectory := t[candidate].Directory?;
      if !resolvedIsDirectory && pending != [] {
        return false;
      }
    }
    return !(RequiresDirectory(target) && !resolvedIsDirectory);
  }

  // --------------------------------------------------------------------- the whole check

  datatype Item = Item(path: Path, entry: Entry)

  predicate Distinct(items: seq<Item>)
  {
    forall i, j | 0 <= i < j < |items| :: items[i].path != items[j].path
  }

  function ByPath(items: seq<Item>): Tree
  {
    if items == [] then map[] else ByPath(items[..|items| - 1])[items[|items| - 1].path := items[|items| - 1].entry]
  }

  lemma {:induction false} ByPathAt(items: seq<Item>, i: nat)
    requires Distinct(items) && i < |items|
    ensures items[i].path in ByPath(items) && ByPath(items)[items[i].path] == items[i].entry
  {
    if i < |items| - 1 {
      ByPathAt(items[..|items| - 1], i);
    }
  }

  lemma {:induction false} ByPathOnly(items: seq<Item>, p: Path) returns (i: nat)
    requires p in ByPath(items)
    ensures i < |items| && items[i].path == p && ByPath(items)[p] == items[i].entry
  {
    if items[|items| - 1].path == p {
      i := |items| - 1;
    } else {
      i := ByPathOnly(items[..|items| - 1], p);
    }
  }

  ghost predicate AllLinksOk(t: Tree)
    requires [] !in t
  {
    forall p | p in t && t[p].Symlink? :: LinkOk(t, p)
  }

  /** `_require_v2_symlinks_within_root`: every captured link goes through the loop. */
  method CheckTree(items: seq<Item>) returns (ok: bool)
    requires Distinct(items) && [] !in ByPath(items)
    ensures ok <==> AllLinksOk(ByPath(items))
  {
    var t := ByPath(items);
    for i := 0 to |items|
      invariant forall k | 0 <= k < i :: ItemOk(t, items[k])
    {
      ByPathAt(items, i);
      if items[i].entry.Symlink? {
        var fine := CheckLink(t, items[i].path);
        if !fine {
          return false;
        }
      }
    }
    forall p | p in t && t[p].Symlink? ensures LinkOk(t, p) {
      var i := ByPathOnly(items, p);
      assert ItemOk(t, items[i]);
    }
    return true;
  }

  ghost predicate ItemOk(t: Tree, item: Item)
    requires [] !in t
  {
    item.entry.Symlink? ==> item.path in t && t[item.path] == item.entry && LinkOk(t, item.path)
  }

  // ------------------------------------------------------- what the whole check decides

  /** The link at p resolves by the standard within the allowed expansions. */
  predicate Resolves(t: Tree, p: Path)
    requires p in t && p != [] && t[p].Symlink?
  {
    var target := t[p].target;
    PosixParts(target).Some? &&
    Walk(t, PosixParts, Node(Parent(p), true), PosixParts(target).value, MAX_SYMLINK_EXPANSIONS).Some?
  }

  function NoDots(parts: seq<string>): seq<string> { Without(parts, ".") }

  lemma {:induction false} WithoutConcat(xs: seq<string>, ys: seq<string>, drop: string)
    ensures Without(xs + ys, drop) == Without(xs, drop) + Without(ys, drop)
  {
    if xs == [] {
      assert xs + ys == ys;
    } else {
      assert (xs + ys)[0] == xs[0] && (xs + ys)[1..] == xs[1..] + ys;
      WithoutConcat(xs[1..], ys, drop);
    }
  }

  /** The source's components are the standard's without the dots. */
  lemma PartsDropDots(target: string)
    requires Relative(target)
    ensures TargetParts(target).value == NoDots(PosixParts(target).value)
  {
    var tail := if EndsWith(target, "/") then ["."] else [];
    WithoutConcat(Without(Split(target), ""), tail, ".");
    assert NoDots(tail) == [];
  }

  lemma {:induction false} LastWithout(parts: seq<string>, drop: string)
    requires parts != [] && Last(parts) != drop
    ensures Without(parts, drop) != [] && Last(Without(parts, drop)) == Last(parts)
  {
    if |parts| > 1 {
      assert Last(parts[1..]) == Last(parts);
      LastWithout(parts[1..], drop);
    }
  }

  /** The text after the last slash. */
  ghost predicate IsLastPart(s: string, last: string)
  {
    && |last| <= |s|
    && (forall k | 0 <= k < |last| :: last[k] == s[|s| - |last| + k] && last[k] != '/')
    && (|last| < |s| ==> s[|s| - |last| - 1] == '/')
  }

  lemma {:induction false} LastPart(s: string)
    ensures IsLastPart(s, Last(Split(s)))
    decreases |s|
  {
    var i := SlashIndex(s);
    if i < |s| {
      var tail := s[i + 1..];
      LastPart(tail);
      LastPartOfTail(s, i, Last(Split(tail)));
      assert Last(Split(s)) == Last(Split(tail));
    }
  }

  lemma LastPartOfTail(s: string, i: nat, last: string)
    requires i < |s| && s[i] == '/' && IsLastPart(s[i + 1..], last)
    ensures IsLastPart(s, last)
  {
    var tail := s[i + 1..];
    forall k | 0 <= k < |last| ensures last[k] == s[|s| - |last| + k] {
      assert last[k] == tail[|tail| - |last| + k];
    }
    if |last| < |tail| {
      assert tail[|tail| - |last| - 1] == s[|s| - |last| - 1];
    }
  }

  lemma EndsWithChars(s: string)
    ensures EndsWith(s, "/") <==> |s| >= 1 && s[|s| - 1] == '/'
    ensures EndsWith(s, "/.") <==> |s| >= 2 && s[|s| - 2] == '/' && s[|s| - 1] == '.'
  {
    if |s| >= 1 {
      assert s[|s| - 1..] == [s[|s| - 1]];
    }
    if |s| >= 2 {
      assert s[|s| - 2..] == [s[|s| - 2], s[|s| - 1]];
    }
  }

  lemma LastIsEmptyIff(s: string, last: string)
    requires s != "" && IsLastPart(s, last)
    ensures last == "" <==> s[|s| - 1] == '/'
  {
    if |last| >= 1 {
      assert last[|last| - 1] == s[|s| - 1];
    }
  }

  lemma LastIsDotIff(s: string, last: string)
    requires s != "" && IsLastPart(s, last)
    ensures last == "." <==> s[|s| - 1] == '.' && (|s| == 1 || s[|s| - 2] == '/')
  {
    if |last| == 1 {
      assert last[0] == s[|s| - 1];
    } else if |last| >= 2 {
      assert last[|last| - 2] == s[|s| - 2];
    }
  }

  /** The last component tells how the text ends. */
  lemma LastPartTells(s: string, last: string)
    requires s != "" && IsLastPart(s, last)
    ensures last == "" <==> EndsWith(s, "/")
    ensures last == "." <==> s == "." || EndsWith(s, "/.")
  {
    EndsWithChars(s);
    LastIsEmptyIff(s, last);
    LastIsDotIff(s, last);
  }

  /** A target demands a directory exactly when the standard's last component is a dot. */
  lemma RequiresDirectoryIffDot(target: string)
    requires Relative(target)
    ensures PosixParts(target).value != []
    ensures RequiresDirectory(target) <==> Last(PosixParts(target).value) == "."
  {
    LastPart(target);
    LastPartTells(target, Last(Split(target)));
    if !EndsWith(target, "/") {
      LastWithout(Split(target), "");
    }
  }

  /** What resolves by the standard resolves for the source, to the same place. */
  lemma {:induction false} StandardImpliesSource(t: Tree, at: Node, parts: seq<string>, n: nat)
    requires Walk(t, PosixParts, at, parts, n).Some?
    ensures Walk(t, TargetParts, at, NoDots(parts), n) == Walk(t, PosixParts, at, parts, n)
    decreases n, |parts|
  {
    if parts != [] {
      var c, rest := parts[0], parts[1..];
      if c != "." {
        assert NoDots(parts)[0] == c && NoDots(parts)[1..] == NoDots(rest);
      }
      if c == "" || c == "." {
        StandardImpliesSource(t, at, rest, n);
      } else if c == ".." {
        StandardImpliesSource(t, Node(Parent(at.path), true), rest, n);
      } else {
        match t[at.path + [c]] {
          case Symlink(target) =>
            PartsDropDots(target);
            var inner := Walk(t, PosixParts, at, PosixParts(target).value, n - 1);
            StandardImpliesSource(t, at, PosixParts(target).value, n - 1);
            StandardImpliesSource(t, inner.value.0, rest, inner.value.1);
          case Directory => StandardImpliesSource(t, Node(at.path + [c], true), rest, n);
          case File => StandardImpliesSource(t, Node(at.path + [c], false), rest, n);
        }
      }
    }
  }

  /** The links the source follows on a walk. */
  ghost function LinksOnTheWay(t: Tree, at: Node, parts: seq<string>, n: nat): (links: set<Path>)
    ensures forall q | q in links :: q in t && q != [] && t[q].Symlink?
    decreases n, |parts|
  {
    if parts == [] || !at.isDirectory then {}
    else
      var c, rest := parts[0], parts[1..];
      if c == "" || c == "." then LinksOnTheWay(t, at, rest, n)
      else if c == ".." then
        if at.path == [] then {} else LinksOnTheWay(t, Node(Parent(at.path), true), rest, n)
      else
        var p := at.path + [c];
        if p !in t then {}
        else
          match t[p]
          case Symlink(target) =>
            if n == 0 || TargetParts(target).None? then {p}
            else
              var inner := Walk(t, TargetParts, at, TargetParts(target).value, n - 1);
              {p} + LinksOnTheWay(t, at, TargetParts(target).value, n - 1) +
              (if inner.None? then {} else LinksOnTheWay(t, inner.value.0, rest, inner.value.1))
          case Directory => LinksOnTheWay(t, Node(p, true), rest, n)
          case File => LinksOnTheWay(t, Node(p, false), rest, n)
  }

  ghost predicate WayOk(t: Tree, at: Node, parts: seq<string>, n: nat)
  {
    forall q | q in LinksOnTheWay(t, at, parts, n) :: LinkOk(t, q)
  }

  /** What the source resolves also resolves by the standard, when every link followed on the
      way passes the source's own check: a nested link that needs a directory is one of them. */
  lemma {:induction false} SourceImpliesStandard(t: Tree, at: Node, parts: seq<string>, n: nat)
    requires Walk(t, TargetParts, at, NoDots(parts), n).Some?
    requires WayOk(t, at, NoDots(parts), n)
    requires parts != [] && Last(parts) == "." ==> Walk(t, TargetParts, at, NoDots(parts), n).value.0.isDirectory
    ensures Walk(t, PosixParts, at, parts, n) == Walk(t, TargetParts, at, NoDots(parts), n)
    decreases n, |parts|, 2
  {
    if parts != [] {
      var c, rest := parts[0], parts[1..];
      assert parts == [c] + rest;
      assert rest != [] ==> Last(rest) == Last(parts);
      if c == "." {
        SourceImpliesStandard(t, at, rest, n);
        if NoDots(parts) == [] {
          AllDots(parts);
        }
      } else {
        assert NoDots(parts)[0] == c && NoDots(parts)[1..] == NoDots(rest);
        SourceImpliesStandardStep(t, at, c, rest, n);
      }
    }
  }

  lemma {:induction false} SourceImpliesStandardStep(t: Tree, at: Node, c: string, rest: seq<string>, n: nat)
    requires c != "." && Walk(t, TargetParts, at, [c] + NoDots(rest), n).Some?
    requires WayOk(t, at, [c] + NoDots(rest), n)
    requires rest != [] && Last(rest) == "." ==> Walk(t, TargetParts, at, [c] + NoDots(rest), n).value.0.isDirectory
    ensures Walk(t, PosixParts, at, [c] + rest, n) == Walk(t, TargetParts, at, [c] + NoDots(rest), n)
    decreases n, |rest| + 1, 1
  {
    var loose := NoDots(rest);
    assert ([c] + loose)[1..] == loose && ([c] + rest)[1..] == rest;
    if c == "" {
      SourceImpliesStandard(t, at, rest, n);
    } else if c == ".." {
      SourceImpliesStandard(t, Node(Parent(at.path), true), rest, n);
    } else {
      var p := at.path + [c];
      match t[p] {
        case Symlink(target) =>
          WayThroughLink(t, at, c, loose, n);
          SourceImpliesStandardLink(t, at, c, rest, n);
        case Directory => SourceImpliesStandard(t, Node(p, true), rest, n);
        case File => SourceImpliesStandard(t, Node(p, false), rest, n);
      }
    }
  }

  /** The way through a link: the link, its own way, and the way onward. */
  lemma WayThroughLink(t: Tree, at: Node, c: string, loose: seq<string>, n: nat)
    requires at.isDirectory && c != "" && c != "." && c != ".." && n > 0
    requires at.path + [c] in t && t[at.path + [c]].Symlink? && TargetParts(t[at.path + [c]].target).Some?
    requires Walk(t, TargetParts, at, [c] + loose, n).Some? && WayOk(t, at, [c] + loose, n)
    ensures var nested := TargetParts(t[at.path + [c]].target).value;
            var inner := Walk(t, TargetParts, at, nested, n - 1);
            && LinkOk(t, at.path + [c]) && WayOk(t, at, nested, n - 1)
            && inner.Some? && WayOk(t, inner.value.0, loose, inner.value.1)
  {
    assert ([c] + loose)[1..] == loose;
    assert at.path + [c] in LinksOnTheWay(t, at, [c] + loose, n);
  }

  lemma {:induction false} SourceImpliesStandardLink(t: Tree, at: Node, c: string, rest: seq<string>, n: nat)
    requires at.isDirectory && c != "" && c != "." && c != ".." && n > 0
    requires at.path + [c] in t && t[at.path + [c]].Symlink? && LinkOk(t, at.path + [c])
    requires var nested := TargetParts(t[at.path + [c]].target).value;
             var inner := Walk(t, TargetParts, at, nested, n - 1);
             && WayOk(t, at, nested, n - 1) && inner.Some? && WayOk(t, inner.value.0, NoDots(rest), inner.value.1)
             && var end := Walk(t, TargetParts, inner.value.0, NoDots(rest), inner.value.1);
             && end.Some? && (rest != [] && Last(rest) == "." ==> end.value.0.isDirectory)
    ensures Walk(t, PosixParts, at, [c] + rest, n) == Walk(t, TargetParts, at, [c] + NoDots(rest), n)
    decreases n, |rest| + 1, 0
  {
    var target := t[at.path + [c]].target;
    var inner := Walk(t, TargetParts, at, TargetParts(target).value, n - 1);
    assert ([c] + rest)[1..] == rest && ([c] + NoDots(rest))[1..] == NoDots(rest);
    NestedLinkAgrees(t, at, c, n);
    SourceImpliesStandard(t, at, PosixParts(target).value, n - 1);
    SourceImpliesStandard(t, inner.value.0, rest, inner.value.1);
  }

  lemma {:induction false} AllDots(parts: seq<string>)
    requires parts != [] && NoDots(parts) == []
    ensures Last(parts) == "."
  {
    if |parts| > 1 {
      AllDots(parts[1..]);
    }
  }

  /** A link met on the way ends where its own check ends, whatever budget is left. */
  lemma NestedLinkAgrees(t: Tree, at: Node, c: string, n: nat)
    requires at.isDirectory && n > 0
    requires at.path + [c] in t && t[at.path + [c]].Symlink? && LinkOk(t, at.path + [c])
    requires Walk(t, TargetParts, at, TargetParts(t[at.path + [c]].target).value, n - 1).Some?
    ensures var target := t[at.path + [c]].target;
            && Relative(target)
            && TargetParts(target).value == NoDots(PosixParts(target).value)
            && (Last(PosixParts(target).value) == "." ==>
                  Walk(t, TargetParts, at, TargetParts(target).value, n - 1).value.0.isDirectory)
  {
    var p := at.path + [c];
    var target := t[p].target;
    PartsDropDots(target);
    RequiresDirectoryIffDot(target);
    assert Parent(p) == at.path;
    SameEnd(t, TargetParts, at, TargetParts(target).value, n - 1, MAX_SYMLINK_EXPANSIONS);
  }

  lemma SameEnd(t: Tree, read: Reader, at: Node, parts: seq<string>, m: nat, n: nat)
    requires Walk(t, read, at, parts, m).Some? && Walk(t, read, at, parts, n).Some?
    ensures Walk(t, read, at, parts, m).value.0 == Walk(t, read, at, parts, n).value.0
  {
    if m <= n {
      WalkBudget(t, read, at, parts, m, n - m);
    } else {
      WalkBudget(t, read, at, parts, n, m - n);
    }
  }

  lemma ResolvingLinkIsOk(t: Tree, p: Path)
    requires p in t && p != [] && t[p].Symlink? && Resolves(t, p)
    ensures LinkOk(t, p)
  {
    var target := t[p].target;
    var parts := PosixParts(target).value;
    PartsDropDots(target);
    RequiresDirectoryIffDot(target);
    StandardImpliesSource(t, Node(Parent(p), true), parts, MAX_SYMLINK_EXPANSIONS);
    if RequiresDirectory(target) {
      EndsInDirectory(t, PosixParts, Node(Parent(p), true), parts, MAX_SYMLINK_EXPANSIONS);
    }
  }

  /** A path ending in a dot ends at a directory. */
  lemma EndsInDirectory(t: Tree, read: Reader, at: Node, parts: seq<string>, n: nat)
    requires parts != [] && Last(parts) == "." && Walk(t, read, at, parts, n).Some?
    ensures Walk(t, read, at, parts, n).value.0.isDirectory
  {
    var front := parts[..|parts| - 1];
    assert parts == front + ["."];
    WalkConcat(t, read, at, front, ["."], n);
  }

  /** In a well-formed tree a resolution never leaves it. */
  lemma {:induction false} WalkStaysInside(t: Tree, read: Reader, at: Node, parts: seq<string>, n: nat)
    requires WellFormed(t) && Inside(t, at) && Walk(t, read, at, parts, n).Some?
    ensures Inside(t, Walk(t, read, at, parts, n).value.0)
    decreases n, |parts|
  {
    if parts != [] {
      var c, rest := parts[0], parts[1..];
      if c == "" || c == "." {
        WalkStaysInside(t, read, at, rest, n);
      } else if c == ".." {
        assert Rooted(t, at.path);
        WalkStaysInside(t, read, Node(Parent(at.path), true), rest, n);
      } else {
        match t[at.path + [c]] {
          case Symlink(target) =>
            var inner := Walk(t, read, at, read(target).value, n - 1);
            WalkStaysInside(t, read, at, read(target).value, n - 1);
            WalkStaysInside(t, read, inner.value.0, rest, inner.value.1);
          case Directory => WalkStaysInside(t, read, Node(at.path + [c], true), rest, n);
          case File => WalkStaysInside(t, read, Node(at.path + [c], false), rest, n);
        }
      }
    }
  }

  /** The place is the root or a real entry of the tree, with its own type. */
  predicate Inside(t: Tree, at: Node)
  {
    if at.path == [] then at.isDirectory
    else at.path in t && !t[at.path].Symlink? && at.isDirectory == t[at.path].Directory?
  }

  /** A followed link that resolves, with a good way inside it and onward, is a good way. */
  lemma WayThroughResolved(t: Tree, at: Node, c: string, rest: seq<string>, n: nat)
    requires at.isDirectory && c != "" && c != "." && c != ".." && 0 < n <= MAX_SYMLINK_EXPANSIONS
    requires at.path + [c] in t && t[at.path + [c]].Symlink? && PosixParts(t[at.path + [c]].target).Some?
    requires var parts := PosixParts(t[at.path + [c]].target).value;
             var inner := Walk(t, PosixParts, at, parts, n - 1);
             && inner.Some? && WayOk(t, at, NoDots(parts), n - 1)
             && WayOk(t, inner.value.0, NoDots(rest), inner.value.1)
    ensures WayOk(t, at, [c] + NoDots(rest), n)
  {
    var target := t[at.path + [c]].target;
    PartsDropDots(target);
    StandardImpliesSource(t, at, PosixParts(target).value, n - 1);
    NestedResolves(t, at, c, n);
    LinksThroughLink(t, at, c, NoDots(rest), n);
  }

  lemma LinksThroughLink(t: Tree, at: Node, c: string, loose: seq<string>, n: nat)
    requires at.isDirectory && c != "" && c != "." && c != ".." && n > 0
    requires at.path + [c] in t && t[at.path + [c]].Symlink? && TargetParts(t[at.path + [c]].target).Some?
    requires Walk(t, TargetParts, at, TargetParts(t[at.path + [c]].target).value, n - 1).Some?
    ensures var nested := TargetParts(t[at.path + [c]].target).value;
            var inner := Walk(t, TargetParts, at, nested, n - 1).value;
            LinksOnTheWay(t, at, [c] + loose, n) ==
              {at.path + [c]} + LinksOnTheWay(t, at, nested, n - 1) + LinksOnTheWay(t, inner.0, loose, inner.1)
  {
    assert ([c] + loose)[1..] == loose;
  }

  /** Conversely, every link followed in a standard resolution passes the source's check. */
  lemma {:induction false} StandardFollowedOk(t: Tree, at: Node, parts: seq<string>, n: nat)
    requires Walk(t, PosixParts, at, parts, n).Some? && n <= MAX_SYMLINK_EXPANSIONS
    ensures WayOk(t, at, NoDots(parts), n)
    decreases n, |parts|
  {
    if parts != [] {
      var c, rest := parts[0], parts[1..];
      if c != "." {
        assert NoDots(parts) == [c] + NoDots(rest) && NoDots(parts)[1..] == NoDots(rest);
      }
      if c == "" || c == "." {
        StandardFollowedOk(t, at, rest, n);
      } else if c == ".." {
        StandardFollowedOk(t, Node(Parent(at.path), true), rest, n);
      } else {
        match t[at.path + [c]] {
          case Symlink(target) =>
            var inner := Walk(t, PosixParts, at, PosixParts(target).value, n - 1);
            StandardFollowedOk(t, at, PosixParts(target).value, n - 1);
            StandardFollowedOk(t, inner.value.0, rest, inner.value.1);
            WayThroughResolved(t, at, c, rest, n);
          case Directory => StandardFollowedOk(t, Node(at.path + [c], true), rest, n);
          case File => StandardFollowedOk(t, Node(at.path + [c], false), rest, n);
        }
      }
    }
  }

  /** A link resolved on the way also resolves on its own. */
  lemma NestedResolves(t: Tree, at: Node, c: string, n: nat)
    requires at.isDirectory && 0 < n <= MAX_SYMLINK_EXPANSIONS
    requires at.path + [c] in t && t[at.path + [c]].Symlink? && PosixParts(t[at.path + [c]].target).Some?
    requires Walk(t, PosixParts, at, PosixParts(t[at.path + [c]].target).value, n - 1).Some?
    ensures LinkOk(t, at.path + [c])
  {
    var p := at.path + [c];
    assert Parent(p) == at.path;
    WalkBudget(t, PosixParts, at, PosixParts(t[p].target).value, n - 1, MAX_SYMLINK_EXPANSIONS - (n - 1));
    ResolvingLinkIsOk(t, p);
  }

  /** One link alone: the source may accept a link that does not resolve, and does so exactly
      when it follows some link that fails its own check. */
  lemma OneLinkIff(t: Tree, p: Path)
    requires p in t && p != [] && t[p].Symlink? && LinkOk(t, p)
    ensures Resolves(t, p) <==>
            WayOk(t, Node(Parent(p), true), TargetParts(t[p].target).value, MAX_SYMLINK_EXPANSIONS)
  {
    var target := t[p].target;
    PartsDropDots(target);
    RequiresDirectoryIffDot(target);
    if Resolves(t, p) {
      StandardFollowedOk(t, Node(Parent(p), true), PosixParts(target).value, MAX_SYMLINK_EXPANSIONS);
    } else if WayOk(t, Node(Parent(p), true), TargetParts(target).value, MAX_SYMLINK_EXPANSIONS) {
      SourceImpliesStandard(t, Node(Parent(p), true), PosixParts(target).value, MAX_SYMLINK_EXPANSIONS);
    }
  }

  /** The components of a one-character target, without and with a trailing slash. */
  lemma NameParts(c: char)
    requires c != '/' && c != '.'
    ensures TargetParts([c]) == Some([[c]]) && PosixParts([c]) == Some([[c]])
    ensures TargetParts([c, '/']) == Some([[c]]) && PosixParts([c, '/']) == Some([[c], "."])
  {
    var s := [c, '/'];
    assert SlashIndex([c]) == 1 && SlashIndex(s) == 1;
    assert s[..1] == [c] && s[2..] == "";
    assert Split("") == [""] && Split([c]) == [[c]];
    assert Split(s) == [[c], ""];
    assert Without([""], "") == [] && Without([[c], ""], "") == [[c]] && Without([[c]], "") == [[c]];
    assert Without([[c]], ".") == [[c]];
    EndsWithChars([c]);
    EndsWithChars(s);
    assert [[c]] + ["."] == [[c], "."] && [[c]] + [] == [[c]];
  }

  lemma WalkToFile(t: Tree, read: Reader, c: string, rest: seq<string>, n: nat)
    requires c != "" && c != "." && c != ".." && [c] in t && t[[c]] == File
    ensures Walk(t, read, Node([], true), [c] + rest, n) ==
            if rest == [] then Some((Node([c], false), n)) else None
  {
    assert ([c] + rest)[1..] == rest && [] + [c] == [c];
  }

  lemma WalkThroughLink(t: Tree, read: Reader, c: string, n: nat)
    requires c != "" && c != "." && c != ".." && [c] in t && t[[c]].Symlink? && n > 0 && read(t[[c]].target).Some?
    ensures Walk(t, read, Node([], true), [c], n) == Walk(t, read, Node([], true), read(t[[c]].target).value, n - 1)
  {
    assert [] + [c] == [c];
  }

  /** A plain component. */
  predicate PlainName(c: string) { c != "" && c != "." && c != ".." }

  /** The whole family at the root: a leads to b, and b demands a directory where there is
      a file. The source accepts a; by the standard it does not resolve. */
  lemma NestedSlashIsMissed(t: Tree, a: string, b: string, f: string)
    requires PlainName(b) && PlainName(f) && [a] in t && [b] in t && [f] in t
    requires t[[a]].Symlink? && t[[b]].Symlink? && t[[f]] == File && !RequiresDirectory(t[[a]].target)
    requires TargetParts(t[[a]].target) == PosixParts(t[[a]].target) == Some([b])
    requires TargetParts(t[[b]].target) == Some([f]) && PosixParts(t[[b]].target) == Some([f, "."])
    ensures LinkOk(t, [a]) && !Resolves(t, [a])
  {
    assert Parent([a]) == [] && [f] + [] == [f] && [f] + ["."] == [f, "."];
    WalkThroughLink(t, TargetParts, b, MAX_SYMLINK_EXPANSIONS);
    WalkToFile(t, TargetParts, f, [], MAX_SYMLINK_EXPANSIONS - 1);
    WalkThroughLink(t, PosixParts, b, MAX_SYMLINK_EXPANSIONS);
    WalkToFile(t, PosixParts, f, ["."], MAX_SYMLINK_EXPANSIONS - 1);
  }

  lemma ThreeNames(a: char, b: char, f: char, x: Entry, y: Entry, z: Entry) returns (t: Tree)
    requires a != b && b != f && a != f && {'/', '.'} !! {a, b, f}
    ensures [[a]] in t && [[b]] in t && [[f]] in t && t[[[a]]] == x && t[[[b]]] == y && t[[[f]]] == z
    ensures WellFormed(t)
  {
    t := map[[[a]] := x, [[b]] := y, [[f]] := z];
    assert [[a]][0][0] != [[b]][0][0] && [[b]][0][0] != [[f]][0][0] && [[a]][0][0] != [[f]][0][0];
    assert Rooted(t, [[a]]) && Rooted(t, [[b]]) && Rooted(t, [[f]]);
  }

  /** Such trees exist: a -> b, b -> f/ and the file f, for any three letters. */
  lemma OneLinkCanBeLaxer(a: char, b: char, f: char) returns (t: Tree)
    requires a != b && b != f && a != f && {'/', '.'} !! {a, b, f}
    ensures WellFormed(t) && [[a]] in t && t[[[a]]].Symlink?
    ensures LinkOk(t, [[a]]) && !Resolves(t, [[a]])
  {
    t := ThreeNames(a, b, f, Symlink([b]), Symlink([f, '/']), File);
    NameParts(b);
    NameParts(f);
    EndsWithChars([b]);
    NestedSlashIsMissed(t, [a], [b], [f]);
  }

  /** The link resolves, and ends at the root or at an entry of the tree. */
  ghost predicate ResolvesInside(t: Tree, p: Path)
    requires p in t && p != [] && t[p].Symlink?
  {
    Resolves(t, p) &&
    Inside(t, Walk(t, PosixParts, Node(Parent(p), true), PosixParts(t[p].target).value,
                   MAX_SYMLINK_EXPANSIONS).value.0)
  }

  lemma ResolutionStaysInside(t: Tree, p: Path)
    requires WellFormed(t) && p in t && t[p].Symlink? && Resolves(t, p)
    ensures ResolvesInside(t, p)
  {
    assert Rooted(t, p);
    WalkStaysInside(t, PosixParts, Node(Parent(p), true), PosixParts(t[p].target).value, MAX_SYMLINK_EXPANSIONS);
  }

  lemma AcceptedResolves(t: Tree, p: Path)
    requires [] !in t && AllLinksOk(t) && p in t && t[p].Symlink?
    ensures Resolves(t, p)
  {
    assert LinkOk(t, p);
    OneLinkIff(t, p);
  }

  /** The whole check accepts a tree exactly when every link of it resolves by the standard
      within forty expansions. In a well-formed tree, and every captured tree is one, each
      then ends at an entry of the tree or at its root. */
  lemma AcceptsIffAllResolve(t: Tree)
    requires [] !in t
    ensures AllLinksOk(t) <==> forall p | p in t && t[p].Symlink? :: Resolves(t, p)
    ensures WellFormed(t) ==> (AllLinksOk(t) <==> forall p | p in t && t[p].Symlink? :: ResolvesInside(t, p))
  {
    if AllLinksOk(t) {
      forall p | p in t && t[p].Symlink? ensures Resolves(t, p) && (WellFormed(t) ==> ResolvesInside(t, p)) {
        AcceptedResolves(t, p);
        if WellFormed(t) {
          ResolutionStaysInside(t, p);
        }
      }
    } else if forall p | p in t && t[p].Symlink? :: Resolves(t, p) {
      forall p | p in t && t[p].Symlink? ensures LinkOk(t, p) {
        ResolvingLinkIsOk(t, p);
      }
    }
  }
}
