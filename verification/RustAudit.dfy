/** The target dependency audit (scripts/audit_rust_target.py): the worklist closure of the
    workspace members over Cargo's resolve graph, the package keys of that closure and the
    exact selection of lockfile packages. None stands for a value of the wrong shape. */
module RustAudit {
  import opened Common
  import opened Sorting

  datatype RawNode = RawNode(id: Option<string>, deps: Option<seq<Option<string>>>)

  datatype RawSource = NoSource | Source(url: string) | BadSource

  datatype RawPackage = RawPackage(id: Option<string>, name: Option<string>, version: Option<string>, source: RawSource)

  datatype Metadata = Metadata(
    nodes: Option<seq<RawNode>>,
    members: Option<seq<Option<string>>>,
    packages: Option<seq<RawPackage>>)

  datatype Key = Key(name: string, version: string, source: Option<string>)

  type Graph = map<string, RawNode>

  // ------------------------------------------------------------------- the resolve graph

  ghost predicate ValidNodes(raw: seq<RawNode>)
  {
    && (forall i | 0 <= i < |raw| :: raw[i].id.Some?)
    && (forall i, j | 0 <= i < j < |raw| :: raw[i].id != raw[j].id)
  }

  function GraphOf(raw: seq<RawNode>): Graph
    requires forall i | 0 <= i < |raw| :: raw[i].id.Some?
  {
    if raw == [] then map[] else GraphOf(raw[..|raw| - 1])[raw[|raw| - 1].id.value := raw[|raw| - 1]]
  }

  lemma {:induction false} GraphHas(raw: seq<RawNode>, i: nat)
    requires i < |raw| && forall k | 0 <= k < |raw| :: raw[k].id.Some?
    ensures raw[i].id.value in GraphOf(raw)
  {
    if i < |raw| - 1 {
      GraphHas(raw[..|raw| - 1], i);
    }
  }

  lemma {:induction false} GraphOnly(raw: seq<RawNode>, id: string) returns (i: nat)
    requires forall k | 0 <= k < |raw| :: raw[k].id.Some?
    requires id in GraphOf(raw)
    ensures i < |raw| && raw[i].id == Some(id)
  {
    if raw[|raw| - 1].id == Some(id) {
      i := |raw| - 1;
    } else {
      i := GraphOnly(raw[..|raw| - 1], id);
    }
  }

  lemma NodeIsNew(raw: seq<RawNode>, i: nat)
    requires i < |raw| && ValidNodes(raw[..i]) && raw[i].id.Some? && raw[i].id.value !in GraphOf(raw[..i])
    ensures ValidNodes(raw[..i + 1])
    ensures GraphOf(raw[..i + 1]) == GraphOf(raw[..i])[raw[i].id.value := raw[i]]
  {
    assert raw[..i + 1] == raw[..i] + [raw[i]];
    assert raw[..i + 1][..i] == raw[..i];
    forall k | 0 <= k < i ensures raw[k].id != raw[i].id {
      GraphHas(raw[..i], k);
      assert raw[..i][k] == raw[k];
    }
  }

  method IndexNodes(raw: seq<RawNode>) returns (g: Option<Graph>)
    ensures g.Some? <==> ValidNodes(raw)
    ensures g.Some? ==> g.value == GraphOf(raw)
  {
    var nodes: Graph := map[];
    for i := 0 to |raw|
      invariant ValidNodes(raw[..i]) && nodes == GraphOf(raw[..i])
    {
      if raw[i].id.None? {
        return None;
      }
      if raw[i].id.value in nodes {
        ghost var k := GraphOnly(raw[..i], raw[i].id.value);
        assert raw[k].id == raw[i].id;
        return None;
      }
      NodeIsNew(raw, i);
      nodes := nodes[raw[i].id.value := raw[i]];
    }
    assert raw[..|raw|] == raw;
    return Some(nodes);
  }

  // --------------------------------------------------------------------------- closure

  /** One dependency edge. */
  ghost predicate Edge(g: Graph, x: string, y: string)
  {
    x in g && g[x].deps.Some? && Some(y) in g[x].deps.value
  }

  /** A dependency path from a workspace member. */
  ghost predicate IsPath(g: Graph, members: seq<Option<string>>, path: seq<string>)
  {
    && path != [] && Some(path[0]) in members
    && (forall i | 0 <= i < |path| - 1 :: Edge(g, path[i], path[i + 1]))
  }

  /** The transitive closure of the workspace members. */
  ghost predicate Reachable(g: Graph, members: seq<Option<string>>, x: string)
  {
    exists path :: IsPath(g, members, path) && Last(path) == x
  }

  lemma EdgeExtends(g: Graph, members: seq<Option<string>>, x: string, y: string)
    requires Reachable(g, members, x) && Edge(g, x, y)
    ensures Reachable(g, members, y)
  {
    var path :| IsPath(g, members, path) && Last(path) == x;
    assert IsPath(g, members, path + [y]) && Last(path + [y]) == y;
  }

  lemma MemberReachable(g: Graph, members: seq<Option<string>>, x: string)
    requires Some(x) in members
    ensures Reachable(g, members, x)
  {
    assert IsPath(g, members, [x]) && Last([x]) == x;
  }

  /** A set that holds the members and is closed under edges holds the closure. */
  lemma {:induction false} PathStays(g: Graph, members: seq<Option<string>>, s: set<string>, path: seq<string>)
    requires forall m | m in members && m.Some? :: m.value in s
    requires forall x, y | x in s && Edge(g, x, y) :: y in s
    requires IsPath(g, members, path)
    ensures Last(path) in s
  {
    if |path| > 1 {
      var front := path[..|path| - 1];
      assert IsPath(g, members, front);
      PathStays(g, members, s, front);
      assert Edge(g, path[|path| - 2], path[|path| - 1]);
    }
  }

  /** A node with a whole dependency list. */
  ghost predicate WellFormedNode(g: Graph, x: string)
  {
    x in g && g[x].deps.Some? && None !in g[x].deps.value
  }

  /** What the closure needs: string members, and only well formed nodes within reach. */
  ghost predicate ClosedGraph(g: Graph, members: seq<Option<string>>)
  {
    None !in members && forall x | Reachable(g, members, x) :: WellFormedNode(g, x)
  }

  /** Where the worklist stands: everything found is reachable, and everything reachable in
      one step from what is found is found or waiting. */
  ghost predicate Frontier(g: Graph, members: seq<Option<string>>, reachable: set<string>, pending: seq<Option<string>>)
  {
    && (forall x | x in reachable :: Reachable(g, members, x) && WellFormedNode(g, x))
    && (forall m | m in pending && m.Some? :: Reachable(g, members, m.value))
    && (None in pending ==> None in members)
    && (forall m | m in members :: m in pending || (m.Some? && m.value in reachable))
    && (forall x, y | x in reachable && Edge(g, x, y) :: Some(y) in pending || y in reachable)
  }

  lemma FrontierIsClosure(g: Graph, members: seq<Option<string>>, reachable: set<string>)
    requires Frontier(g, members, reachable, [])
    ensures ClosedGraph(g, members)
    ensures forall x :: x in reachable <==> Reachable(g, members, x)
  {
    forall x | Reachable(g, members, x) ensures x in reachable {
      var path :| IsPath(g, members, path) && Last(path) == x;
      PathStays(g, members, reachable, path);
    }
  }

  lemma FrontierStarts(g: Graph, members: seq<Option<string>>)
    ensures Frontier(g, members, {}, members)
  {
    forall m | m in members && m.Some? ensures Reachable(g, members, m.value) {
      MemberReachable(g, members, m.value);
    }
  }

  lemma FrontierSkips(g: Graph, members: seq<Option<string>>, reachable: set<string>, before: seq<Option<string>>)
    requires Frontier(g, members, reachable, before) && before != []
    requires Last(before).Some? && Last(before).value in reachable
    ensures Frontier(g, members, reachable, before[..|before| - 1])
  {
    assert before == before[..|before| - 1] + [Last(before)];
  }

  lemma BadEntry(g: Graph, members: seq<Option<string>>, reachable: set<string>, before: seq<Option<string>>)
    requires Frontier(g, members, reachable, before) && before != []
    requires Last(before).None? || !WellFormedNode(g, Last(before).value)
    ensures !ClosedGraph(g, members)
  {
    assert Last(before) in before;
  }

  /** The worklist: it ends, returns exactly the closure, and fails exactly when the closure
      leaves the node map or meets a malformed node or identifier. */
  method Closure(g: Graph, members: seq<Option<string>>) returns (r: Option<set<string>>)
    ensures r.Some? <==> ClosedGraph(g, members)
    ensures r.Some? ==> forall x :: x in r.value <==> Reachable(g, members, x)
  {
    var pending := members;
    var reachable: set<string> := {};
    FrontierStarts(g, members);
    while pending != []
      invariant Frontier(g, members, reachable, pending)
      invariant reachable <= g.Keys
      decreases g.Keys - reachable, |pending|
    {
      var identifier := Last(pending);
      ghost var before := pending;
      pending := pending[..|pending| - 1];
      if identifier.None? {
        BadEntry(g, members, reachable, before);
        return None;
      }
      if identifier.value in reachable {
        FrontierSkips(g, members, reachable, before);
        continue;
      }
      if identifier.value !in g || g[identifier.value].deps.None? {
        BadEntry(g, members, reachable, before);
        return None;
      }
      var found := AppendDependencies(g[identifier.value].deps.value, pending);
      if found.None? {
        BadEntry(g, members, reachable, before);
        return None;
      }
      VisitKeepsFrontier(g, members, reachable, before, identifier.value);
      pending := found.value;
      reachable := reachable + {identifier.value};
    }
    FrontierIsClosure(g, members, reachable);
    return Some(reachable);
  }

  lemma VisitKeepsFrontier(g: Graph, members: seq<Option<string>>, reachable: set<string>,
                           before: seq<Option<string>>, x: string)
    requires Frontier(g, members, reachable, before) && before != [] && Last(before) == Some(x)
    requires WellFormedNode(g, x)
    ensures Frontier(g, members, reachable + {x}, before[..|before| - 1] + g[x].deps.value)
  {
    var front, deps := before[..|before| - 1], g[x].deps.value;
    assert before == front + [Some(x)];
    assert Some(x) in before;
    forall m: Option<string> | m in front + deps && m.Some? ensures Reachable(g, members, m.value) {
      if m in front {
        assert m in before;
      } else {
        assert Edge(g, x, m.value);
        EdgeExtends(g, members, x, m.value);
      }
    }
    forall m | m in members ensures m in front + deps || (m.Some? && m.value in reachable + {x}) {
      assert m in before || (m.Some? && m.value in reachable);
    }
    forall u, y | u in reachable + {x} && Edge(g, u, y)
      ensures Some(y) in front + deps || y in reachable + {x}
    {
      if u in reachable && u != x {
        assert Some(y) in before || y in reachable;
      }
    }
  }

  /** The inner loop: every dependency must name a package. */
  method AppendDependencies(deps: seq<Option<string>>, pending: seq<Option<string>>)
    returns (r: Option<seq<Option<string>>>)
    ensures r.Some? <==> None !in deps
    ensures r.Some? ==> r.value == pending + deps
  {
    var result := pending;
    for i := 0 to |deps|
      invariant None !in deps[..i] && result == pending + deps[..i]
    {
      if deps[i].None? {
        return None;
      }
      result := result + [deps[i]];
      assert deps[..i + 1] == deps[..i] + [deps[i]];
    }
    assert deps[..|deps|] == deps;
    return Some(result);
  }

  /** `reachable_package_ids`. */
  ghost predicate ReachableDefined(m: Metadata)
  {
    m.nodes.Some? && m.members.Some? && ValidNodes(m.nodes.value) &&
    ClosedGraph(GraphOf(m.nodes.value), m.members.value)
  }

  method ReachablePackageIds(m: Metadata) returns (r: Option<set<string>>)
    ensures r.Some? <==> ReachableDefined(m)
    ensures r.Some? ==> forall x :: x in r.value <==> Reachable(GraphOf(m.nodes.value), m.members.value, x)
  {
    if m.nodes.None? || m.members.None? {
      return None;
    }
    var g := IndexNodes(m.nodes.value);
    if g.None? {
      return None;
    }
    r := Closure(g.value, m.members.value);
  }

  // ---------------------------------------------------------------------- package keys

  /** The key holds exactly these raw fields. */
  predicate KeyIs(key: Key, name: Option<string>, version: Option<string>, source: RawSource)
  {
    && name == Some(key.name) && version == Some(key.version)
    && source == if key.source.Some? then Source(key.source.value) else NoSource
  }

  predicate Complete(name: Option<string>, version: Option<string>, source: RawSource)
  {
    name.Some? && version.Some? && !source.BadSource?
  }

  function KeyOf(name: Option<string>, version: Option<string>, source: RawSource): (r: Option<Key>)
    ensures r.Some? <==> Complete(name, version, source)
    ensures r.Some? ==> KeyIs(r.value, name, version, source)
  {
    if name.None? || version.None? || source.BadSource? then None
    else Some(Key(name.value, version.value, if source.Source? then Some(source.url) else None))
  }

  function PackageKey(p: RawPackage): Option<Key> { KeyOf(p.name, p.version, p.source) }

  ghost predicate ValidPackages(raw: seq<RawPackage>)
  {
    && (forall i | 0 <= i < |raw| :: raw[i].id.Some? && Complete(raw[i].name, raw[i].version, raw[i].source))
    && (forall i, j | 0 <= i < j < |raw| :: raw[i].id != raw[j].id)
  }

  /** The key listed for an identifier. */
  ghost predicate Listed(raw: seq<RawPackage>, id: string, key: Key)
  {
    exists i :: 0 <= i < |raw| && raw[i].id == Some(id) && KeyIs(key, raw[i].name, raw[i].version, raw[i].source)
  }

  method IndexPackages(raw: seq<RawPackage>) returns (r: Option<map<string, Key>>)
    ensures r.Some? <==> ValidPackages(raw)
    ensures r.Some? ==> forall id, key :: (id in r.value && r.value[id] == key) <==> Listed(raw, id, key)
  {
    var keys: map<string, Key> := map[];
    for i := 0 to |raw|
      invariant ValidPackages(raw[..i])
      invariant forall k | 0 <= k < i :: raw[k].id.value in keys && Some(keys[raw[k].id.value]) == PackageKey(raw[k])
      invariant forall id | id in keys :: exists k :: 0 <= k < i && raw[k].id == Some(id)
    {
      if raw[i].id.None? || PackageKey(raw[i]).None? {
        return None;
      }
      if raw[i].id.value in keys {
        return None;
      }
      keys := keys[raw[i].id.value := PackageKey(raw[i]).value];
      assert raw[..i + 1] == raw[..i] + [raw[i]];
    }
    assert raw[..|raw|] == raw;
    forall id, key ensures (id in keys && keys[id] == key) <==> Listed(raw, id, key) {
      if id in keys {
        var k :| 0 <= k < |raw| && raw[k].id == Some(id);
        assert Some(keys[raw[k].id.value]) == PackageKey(raw[k]);
      }
    }
    return Some(keys);
  }

  ghost predicate InjectiveOn(keys: map<string, Key>, ids: set<string>)
    requires ids <= keys.Keys
  {
    forall x, y | x in ids && y in ids && keys[x] == keys[y] :: x == y
  }

  /** Counting the keys decides whether two identifiers share one. */
  lemma {:induction false} ImageSize(keys: map<string, Key>, ids: set<string>)
    requires ids <= keys.Keys
    ensures var image := set x | x in ids :: keys[x];
            |image| <= |ids| && (|image| == |ids| <==> InjectiveOn(keys, ids))
    decreases |ids|
  {
    var image := set x | x in ids :: keys[x];
    if ids == {} {
      assert image == {};
    } else {
      var a :| a in ids;
      var less := ids - {a};
      var smaller := set x | x in less :: keys[x];
      ImageSize(keys, less);
      assert image == smaller + {keys[a]};
      if keys[a] in smaller {
        assert image == smaller;
        var b :| b in less && keys[b] == keys[a];
        assert !InjectiveOn(keys, ids);
      } else {
        assert InjectiveOn(keys, less) ==> InjectiveOn(keys, ids);
      }
    }
  }

  /** The key is that of a package within reach. */
  ghost predicate WantedKey(m: Metadata, id: string, key: Key)
    requires ReachableDefined(m) && m.packages.Some?
  {
    Reachable(GraphOf(m.nodes.value), m.members.value, id) && Listed(m.packages.value, id, key)
  }

  ghost predicate IsWanted(m: Metadata, key: Key)
    requires ReachableDefined(m) && m.packages.Some?
  {
    exists id :: WantedKey(m, id, key)
  }

  /** These are the keys within reach. */
  ghost predicate KeysAre(m: Metadata, keys: set<Key>)
    requires ReachableDefined(m) && m.packages.Some?
  {
    forall key {:trigger IsWanted(m, key)} {:trigger key in keys} :: key in keys <==> IsWanted(m, key)
  }

  /** Every package within reach is listed, and no two share a key. */
  ghost predicate KeysDefined(m: Metadata)
  {
    && ReachableDefined(m) && m.packages.Some? && ValidPackages(m.packages.value)
    && (forall id | Reachable(GraphOf(m.nodes.value), m.members.value, id) ::
          exists key :: Listed(m.packages.value, id, key))
    && (forall x, y, key | WantedKey(m, x, key) && WantedKey(m, y, key) :: x == y)
  }

  method TargetPackageKeys(m: Metadata) returns (r: Option<set<Key>>)
    ensures r.Some? <==> KeysDefined(m)
    ensures r.Some? ==> KeysAre(m, r.value)
  {
    var reachable := ReachablePackageIds(m);
    if reachable.None? || m.packages.None? {
      return None;
    }
    var index := IndexPackages(m.packages.value);
    if index.None? {
      return None;
    }
    var ids, keys := reachable.value, index.value;
    if !(ids <= keys.Keys) {
      ghost var x :| x in ids && x !in keys;
      assert Reachable(GraphOf(m.nodes.value), m.members.value, x);
      assert forall key :: !Listed(m.packages.value, x, key);
      return None;
    }
    ImageSize(keys, ids);
    var image := set x | x in ids :: keys[x];
    WantedIffIndexed(m, ids, keys);
    if |image| != |ids| {
      ghost var x, y :| x in ids && y in ids && keys[x] == keys[y] && x != y;
      assert WantedKey(m, x, keys[x]) && WantedKey(m, y, keys[x]);
      return None;
    }
    forall key ensures key in image <==> IsWanted(m, key) {
      if key in image {
        var x :| x in ids && keys[x] == key;
        assert WantedKey(m, x, key);
      }
    }
    forall id | Reachable(GraphOf(m.nodes.value), m.members.value, id)
      ensures exists key :: Listed(m.packages.value, id, key)
    {
      assert Listed(m.packages.value, id, keys[id]);
    }
    return Some(image);
  }

  lemma WantedIffIndexed(m: Metadata, ids: set<string>, keys: map<string, Key>)
    requires ReachableDefined(m) && m.packages.Some?
    requires forall x :: x in ids <==> Reachable(GraphOf(m.nodes.value), m.members.value, x)
    requires forall id, key :: (id in keys && keys[id] == key) <==> Listed(m.packages.value, id, key)
    ensures forall id, key :: WantedKey(m, id, key) <==> (id in ids && id in keys && keys[id] == key)
  {
  }

  // ---------------------------------------------------------------- lockfile selection

  datatype LockPackage = LockPackage(name: Option<string>, version: Option<string>, source: RawSource,
                                     checksum: Option<string>)

  datatype Lock = Lock(version: int, packages: Option<seq<LockPackage>>)

  function LockKey(p: LockPackage): Option<Key> { KeyOf(p.name, p.version, p.source) }

  function Text(field: Option<string>): string { if field.Some? then field.value else "" }

  function SourceText(source: RawSource): string { if source.Source? then source.url else "" }

  /** The sort key: name, version, source or nothing. */
  function SortKey(p: LockPackage): (string, string, string)
  {
    (Text(p.name), Text(p.version), SourceText(p.source))
  }

  predicate TripleLeq(a: (string, string, string), b: (string, string, string))
  {
    if a.0 != b.0 then StringLeq(a.0, b.0)
    else if a.1 != b.1 then StringLeq(a.1, b.1)
    else StringLeq(a.2, b.2)
  }

  predicate PackageLeq(p: LockPackage, q: LockPackage) { TripleLeq(SortKey(p), SortKey(q)) }

  lemma PackageLeqIsTotal()
    ensures TotalPreorder(PackageLeq)
  {
    forall p, q ensures Comparable(PackageLeq, p, q) {
      var a, b := SortKey(p), SortKey(q);
      StringLeqTotal(a.0, b.0);
      StringLeqTotal(a.1, b.1);
      StringLeqTotal(a.2, b.2);
    }
    forall p, q, s ensures Chains(PackageLeq, p, q, s) {
      if PackageLeq(p, q) && PackageLeq(q, s) {
        TripleLeqTransitive(SortKey(p), SortKey(q), SortKey(s));
      }
    }
  }

  lemma TripleLeqTransitive(a: (string, string, string), b: (string, string, string), c: (string, string, string))
    requires TripleLeq(a, b) && TripleLeq(b, c)
    ensures TripleLeq(a, c)
  {
    FieldTransitive(a.0, b.0, c.0);
    FieldTransitive(a.1, b.1, c.1);
    FieldTransitive(a.2, b.2, c.2);
  }

  lemma FieldTransitive(a: string, b: string, c: string)
    ensures StringLeq(a, b) && StringLeq(b, c) ==> StringLeq(a, c)
    ensures StringLeq(a, b) && StringLeq(b, c) && a == c ==> a == b
  {
    if StringLeq(a, b) && StringLeq(b, c) {
      StringLeqTransitive(a, b, c);
      if a == c {
        StringLeqAntisymmetric(a, b);
      }
    }
  }

  /** How often a key occurs in the lockfile. */
  function Occurrences(raw: seq<LockPackage>, key: Key): nat
  {
    if raw == [] then 0
    else Occurrences(raw[..|raw| - 1], key) + (if LockKey(raw[|raw| - 1]) == Some(key) then 1 else 0)
  }

  /** The packages with a wanted key, in file order. */
  function Wanted(raw: seq<LockPackage>, keys: set<Key>): seq<LockPackage>
  {
    if raw == [] then []
    else
      var last := raw[|raw| - 1];
      Wanted(raw[..|raw| - 1], keys) + (if LockKey(last).Some? && LockKey(last).value in keys then [last] else [])
  }

  /** A sound lockfile lists every wanted key exactly once. */
  ghost predicate LockMatches(lock: Lock, keys: set<Key>)
  {
    && lock.version == 4 && lock.packages.Some?
    && (forall q | q in lock.packages.value :: Complete(q.name, q.version, q.source))
    && (forall key | key in keys :: Occurrences(lock.packages.value, key) == 1)
  }

  /** What the scan has seen of a prefix of the lockfile. */
  ghost predicate Scanned(raw: seq<LockPackage>, keys: set<Key>, matched: set<Key>, selected: seq<LockPackage>)
  {
    && (forall i | 0 <= i < |raw| :: LockKey(raw[i]).Some?)
    && selected == Wanted(raw, keys)
    && matched <= keys
    && (forall key | key in keys :: Occurrences(raw, key) == if key in matched then 1 else 0)
  }

  lemma {:induction false} OccurrencesGrow(raw: seq<LockPackage>, i: nat, key: Key)
    requires i <= |raw|
    ensures Occurrences(raw[..i], key) <= Occurrences(raw, key)
  {
    if i == |raw| {
      assert raw[..i] == raw;
    } else {
      assert raw[..|raw| - 1][..i] == raw[..i];
      OccurrencesGrow(raw[..|raw| - 1], i, key);
    }
  }

  /** The scan of `select_locked_packages`, over a lockfile of the right version. */
  method ScanLock(raw: seq<LockPackage>, keys: set<Key>)
    returns (ok: bool, matched: set<Key>, selected: seq<LockPackage>)
    ensures ok ==> Scanned(raw, keys, matched, selected)
    ensures !ok ==> (exists q :: q in raw && !Complete(q.name, q.version, q.source))
                    || exists key :: key in keys && Occurrences(raw, key) > 1
  {
    selected, matched := [], {};
    for i := 0 to |raw|
      invariant Scanned(raw[..i], keys, matched, selected)
    {
      var key := LockKey(raw[i]);
      assert raw[..i + 1][..i] == raw[..i] && raw[..i + 1][i] == raw[i];
      if key.None? {
        assert raw[i] in raw;
        return false, matched, selected;
      }
      if key.value !in keys {
        continue;
      }
      if key.value in matched {
        OccurrencesGrow(raw, i + 1, key.value);
        assert Occurrences(raw[..i + 1], key.value) == 2;
        return false, matched, selected;
      }
      matched := matched + {key.value};
      selected := selected + [raw[i]];
    }
    assert raw[..|raw|] == raw;
    ok := true;
  }

  /** `select_locked_packages`: it succeeds exactly when every wanted key is locked once, and
      returns the wanted packages in order. */
  method SelectLockedPackages(lock: Lock, keys: set<Key>) returns (r: Option<seq<LockPackage>>)
    ensures r.Some? <==> LockMatches(lock, keys)
    ensures r.Some? ==> r.value == Sort(Wanted(lock.packages.value, keys), PackageLeq)
    ensures r.Some? ==> Bijective(r.value, keys) && Sorted(r.value, PackageLeq)
  {
    if lock.version != 4 || lock.packages.None? {
      return None;
    }
    var raw := lock.packages.value;
    var ok, matched, selected := ScanLock(raw, keys);
    if !ok {
      return None;
    }
    if !(keys <= matched) {
      ghost var key :| key in keys && key !in matched;
      assert Occurrences(raw, key) == 0;
      return None;
    }
    SelectionIsBijective(lock, keys);
    return Some(Sort(selected, PackageLeq));
  }

  predicate LockIs(p: LockPackage, key: Key) { KeyIs(key, p.name, p.version, p.source) }

  ghost predicate HasKey(p: LockPackage, keys: set<Key>) { exists key :: key in keys && LockIs(p, key) }

  ghost predicate Holds(packages: seq<LockPackage>, key: Key)
  {
    exists i :: 0 <= i < |packages| && LockIs(packages[i], key)
  }

  predicate Differ(packages: seq<LockPackage>, i: nat, j: nat)
    requires i < |packages| && j < |packages|
  {
    var a, b := packages[i], packages[j];
    a.name != b.name || a.version != b.version || a.source != b.source
  }

  /** The packages hold the keys, each of them once. */
  ghost predicate Bijective(packages: seq<LockPackage>, keys: set<Key>)
  {
    && (forall p {:trigger HasKey(p, keys)} | p in packages :: HasKey(p, keys))
    && (forall i, j {:trigger Differ(packages, i, j)} | 0 <= i < j < |packages| :: Differ(packages, i, j))
    && (forall key {:trigger Holds(packages, key)} | key in keys :: Holds(packages, key))
  }

  lemma {:induction false} WantedOccurrences(raw: seq<LockPackage>, keys: set<Key>, key: Key)
    requires key in keys
    ensures Occurrences(Wanted(raw, keys), key) == Occurrences(raw, key)
  {
    if raw != [] {
      var front, last := raw[..|raw| - 1], raw[|raw| - 1];
      var tail := if LockKey(last).Some? && LockKey(last).value in keys then [last] else [];
      WantedOccurrences(front, keys, key);
      OccurrencesConcat(Wanted(front, keys), tail, key);
      assert Wanted(raw, keys) == Wanted(front, keys) + tail;
    }
  }

  /** How often a key occurs in a multiset of packages. */
  lemma {:induction false} OccursTwice(s: seq<LockPackage>, i: nat, j: nat, key: Key)
    requires i < j < |s| && LockKey(s[i]) == Some(key) && LockKey(s[j]) == Some(key)
    ensures Occurrences(s, key) >= 2
  {
    if j == |s| - 1 {
      OccursAt(s[..|s| - 1], i, key);
    } else {
      OccursTwice(s[..|s| - 1], i, j, key);
    }
  }

  lemma {:induction false} OccursAt(s: seq<LockPackage>, i: nat, key: Key)
    requires i < |s| && LockKey(s[i]) == Some(key)
    ensures Occurrences(s, key) >= 1
  {
    if i < |s| - 1 {
      OccursAt(s[..|s| - 1], i, key);
    }
  }

  lemma {:induction false} OccursSomewhere(s: seq<LockPackage>, key: Key) returns (i: nat)
    requires Occurrences(s, key) >= 1
    ensures i < |s| && LockKey(s[i]) == Some(key)
  {
    if LockKey(s[|s| - 1]) == Some(key) {
      i := |s| - 1;
    } else {
      i := OccursSomewhere(s[..|s| - 1], key);
    }
  }

  /** Occurrences count members, so they do not depend on the order. */
  lemma {:induction false} OccurrencesInsert(p: LockPackage, s: seq<LockPackage>, key: Key)
    ensures Occurrences(Insert(p, s, PackageLeq), key) == Occurrences(s, key) + Occurrences([p], key)
  {
    if s == [] {
    } else if PackageLeq(p, s[0]) {
      OccurrencesConcat([p], s, key);
    } else {
      OccurrencesInsert(p, s[1..], key);
      OccurrencesConcat([s[0]], Insert(p, s[1..], PackageLeq), key);
      OccurrencesConcat([s[0]], s[1..], key);
      assert s == [s[0]] + s[1..];
    }
  }

  lemma {:induction false} OccurrencesConcat(a: seq<LockPackage>, b: seq<LockPackage>, key: Key)
    ensures Occurrences(a + b, key) == Occurrences(a, key) + Occurrences(b, key)
  {
    if b == [] {
      assert a + b == a;
    } else {
      assert (a + b)[..|a + b| - 1] == a + b[..|b| - 1];
      OccurrencesConcat(a, b[..|b| - 1], key);
    }
  }

  lemma {:induction false} OccurrencesSort(s: seq<LockPackage>, key: Key)
    ensures Occurrences(Sort(s, PackageLeq), key) == Occurrences(s, key)
  {
    if s != [] {
      OccurrencesSort(s[1..], key);
      OccurrencesInsert(s[0], Sort(s[1..], PackageLeq), key);
      OccurrencesConcat([s[0]], s[1..], key);
      assert s == [s[0]] + s[1..];
    }
  }

  lemma {:induction false} WantedOnly(raw: seq<LockPackage>, keys: set<Key>)
    ensures forall p | p in Wanted(raw, keys) :: LockKey(p).Some? && LockKey(p).value in keys
  {
    if raw != [] {
      WantedOnly(raw[..|raw| - 1], keys);
    }
  }

  /** The selection is in bijection with the wanted keys, sorted, and consists of packages of
      the lockfile. */
  lemma SelectionIsBijective(lock: Lock, keys: set<Key>)
    requires LockMatches(lock, keys)
    ensures var selection := Sort(Wanted(lock.packages.value, keys), PackageLeq);
            Bijective(selection, keys) && Sorted(selection, PackageLeq)
  {
    var raw := lock.packages.value;
    var selection := Sort(Wanted(raw, keys), PackageLeq);
    PackageLeqIsTotal();
    SortSorts(Wanted(raw, keys), PackageLeq);
    forall p | p in selection ensures HasKey(p, keys) {
      assert p in multiset(selection);
      WantedHasKey(raw, keys, p);
    }
    forall key | key in keys ensures Occurrences(selection, key) == 1 {
      WantedOccurrences(raw, keys, key);
      OccurrencesSort(Wanted(raw, keys), key);
    }
    OnceIsBijective(selection, keys);
  }

  lemma WantedHasKey(raw: seq<LockPackage>, keys: set<Key>, p: LockPackage)
    requires p in Wanted(raw, keys)
    ensures HasKey(p, keys)
  {
    WantedOnly(raw, keys);
    assert LockIs(p, LockKey(p).value);
  }

  lemma OnceIsBijective(selection: seq<LockPackage>, keys: set<Key>)
    requires forall p {:trigger HasKey(p, keys)} | p in selection :: HasKey(p, keys)
    requires forall key | key in keys :: Occurrences(selection, key) == 1
    ensures Bijective(selection, keys)
  {
    forall i, j | 0 <= i < j < |selection| ensures Differ(selection, i, j) {
      assert HasKey(selection[i], keys);
      var key :| key in keys && LockIs(selection[i], key);
      if !Differ(selection, i, j) {
        OccursTwice(selection, i, j, key);
      }
    }
    forall key | key in keys ensures Holds(selection, key) {
      var i := OccursSomewhere(selection, key);
      assert LockIs(selection[i], key);
    }
  }

  // ------------------------------------------------------------------------- raw fields

  /** A metadata package and a locked package agree in name, version and source. */
  predicate SamePackage(p: RawPackage, q: LockPackage)
  {
    p.name == q.name && p.version == q.version && p.source == q.source
  }

  /** The metadata package with this identifier, within reach. */
  ghost predicate InReach(m: Metadata, p: RawPackage)
    requires ReachableDefined(m) && m.packages.Some?
  {
    p in m.packages.value && p.id.Some? && Reachable(GraphOf(m.nodes.value), m.members.value, p.id.value)
  }

  /** The metadata is sound: complete packages with distinct identifiers, one for every
      identifier within reach, no two of which agree in name, version and source. */
  ghost predicate ClosureDefined(m: Metadata)
  {
    && ReachableDefined(m) && m.packages.Some? && ValidPackages(m.packages.value)
    && (forall id | Reachable(GraphOf(m.nodes.value), m.members.value, id) ::
          exists p :: InReach(m, p) && p.id == Some(id))
    && (forall p, q | InReach(m, p) && InReach(m, q) && p.name == q.name && p.version == q.version
                      && p.source == q.source :: p.id == q.id)
  }

  /** The lockfile is sound and has exactly one package for each one within reach. */
  ghost predicate LocksClosure(m: Metadata, lock: Lock)
    requires ReachableDefined(m) && m.packages.Some?
  {
    && lock.version == 4 && lock.packages.Some?
    && (forall q | q in lock.packages.value :: Complete(q.name, q.version, q.source))
    && (forall p | InReach(m, p) :: LockedOnce(lock.packages.value, p))
  }

  ghost predicate LockedOnce(raw: seq<LockPackage>, p: RawPackage)
  {
    exists i :: 0 <= i < |raw| && SamePackage(p, raw[i]) &&
                forall j | 0 <= j < |raw| && SamePackage(p, raw[j]) :: j == i
  }

  /** Name first, then version, then source. */
  predicate Before(a: LockPackage, b: LockPackage)
  {
    && StringLeq(Text(a.name), Text(b.name))
    && (a.name == b.name ==> StringLeq(Text(a.version), Text(b.version)))
    && (a.name == b.name && a.version == b.version ==> StringLeq(SourceText(a.source), SourceText(b.source)))
  }

  lemma SharedKey(p: RawPackage, q: RawPackage, key: Key)
    requires KeyIs(key, p.name, p.version, p.source)
    ensures KeyIs(key, q.name, q.version, q.source) <==>
            p.name == q.name && p.version == q.version && p.source == q.source
  {
  }

  lemma LockedKey(p: RawPackage, q: LockPackage, key: Key)
    requires KeyIs(key, p.name, p.version, p.source)
    ensures LockKey(q) == Some(key) <==> SamePackage(p, q)
  {
  }

  lemma WantedIsInReach(m: Metadata, id: string, key: Key) returns (p: RawPackage)
    requires ReachableDefined(m) && m.packages.Some? && WantedKey(m, id, key)
    ensures InReach(m, p) && p.id == Some(id) && KeyIs(key, p.name, p.version, p.source)
  {
    var i :| 0 <= i < |m.packages.value| && m.packages.value[i].id == Some(id) &&
             KeyIs(key, m.packages.value[i].name, m.packages.value[i].version, m.packages.value[i].source);
    p := m.packages.value[i];
  }

  lemma InReachIsWanted(m: Metadata, p: RawPackage) returns (key: Key)
    requires ReachableDefined(m) && m.packages.Some? && ValidPackages(m.packages.value) && InReach(m, p)
    ensures KeyIs(key, p.name, p.version, p.source) && WantedKey(m, p.id.value, key)
  {
    key := PackageKey(p).value;
    var i :| 0 <= i < |m.packages.value| && m.packages.value[i] == p;
    assert Listed(m.packages.value, p.id.value, key);
  }

  /** The keys are well defined exactly when the raw fields are. */
  lemma KeysDefinedIff(m: Metadata)
    ensures KeysDefined(m) <==> ClosureDefined(m)
  {
    if KeysDefined(m) {
      forall id | Reachable(GraphOf(m.nodes.value), m.members.value, id)
        ensures exists p :: InReach(m, p) && p.id == Some(id)
      {
        var key :| Listed(m.packages.value, id, key);
        var p := WantedIsInReach(m, id, key);
      }
      forall p, q | InReach(m, p) && InReach(m, q) && p.name == q.name && p.version == q.version
                    && p.source == q.source ensures p.id == q.id
      {
        var key := InReachIsWanted(m, p);
        var other := InReachIsWanted(m, q);
        assert other == key;
      }
    }
    if ClosureDefined(m) {
      forall id | Reachable(GraphOf(m.nodes.value), m.members.value, id)
        ensures exists key :: Listed(m.packages.value, id, key)
      {
        var p :| InReach(m, p) && p.id == Some(id);
        var key := InReachIsWanted(m, p);
      }
      forall x, y, key | WantedKey(m, x, key) && WantedKey(m, y, key) ensures x == y {
        var p := WantedIsInReach(m, x, key);
        var q := WantedIsInReach(m, y, key);
        SharedKey(p, q, key);
      }
    }
  }

  /** A key occurs once exactly when one package, and no other, agrees with it. */
  lemma OccursOnceIff(raw: seq<LockPackage>, p: RawPackage, key: Key)
    requires KeyIs(key, p.name, p.version, p.source)
    ensures Occurrences(raw, key) == 1 <==> LockedOnce(raw, p)
  {
    forall i | 0 <= i < |raw| ensures LockKey(raw[i]) == Some(key) <==> SamePackage(p, raw[i]) {
      LockedKey(p, raw[i], key);
    }
    if Occurrences(raw, key) == 1 {
      var i := OccursSomewhere(raw, key);
      forall j | 0 <= j < |raw| && SamePackage(p, raw[j]) ensures j == i {
        if j < i {
          OccursTwice(raw, j, i, key);
        } else if i < j {
          OccursTwice(raw, i, j, key);
        }
      }
    } else if LockedOnce(raw, p) {
      var i :| 0 <= i < |raw| && SamePackage(p, raw[i]) &&
               forall j | 0 <= j < |raw| && SamePackage(p, raw[j]) :: j == i;
      OccursAt(raw, i, key);
      OccursLess(raw, key, i);
    }
  }

  lemma {:induction false} OccursLess(raw: seq<LockPackage>, key: Key, i: nat)
    requires forall j | 0 <= j < |raw| && LockKey(raw[j]) == Some(key) :: j == i
    ensures Occurrences(raw, key) <= 1
  {
    if raw != [] {
      OccursLess(raw[..|raw| - 1], key, i);
      if LockKey(raw[|raw| - 1]) == Some(key) {
        OccursNowhere(raw[..|raw| - 1], key);
      }
    }
  }

  lemma {:induction false} OccursNowhere(raw: seq<LockPackage>, key: Key)
    requires forall j | 0 <= j < |raw| :: LockKey(raw[j]) != Some(key)
    ensures Occurrences(raw, key) == 0
  {
    if raw != [] {
      OccursNowhere(raw[..|raw| - 1], key);
    }
  }

  lemma LockMatchesIff(m: Metadata, lock: Lock, keys: set<Key>)
    requires KeysDefined(m) && KeysAre(m, keys)
    ensures LockMatches(lock, keys) <==> LocksClosure(m, lock)
  {
    if lock.packages.Some? {
      var raw := lock.packages.value;
      if LockMatches(lock, keys) {
        forall p | InReach(m, p) ensures LockedOnce(raw, p) {
          var key := InReachIsWanted(m, p);
          assert IsWanted(m, key);
          OccursOnceIff(raw, p, key);
        }
      }
      if LocksClosure(m, lock) {
        forall key | key in keys ensures Occurrences(raw, key) == 1 {
          assert IsWanted(m, key);
          var id :| WantedKey(m, id, key);
          var p := WantedIsInReach(m, id, key);
          OccursOnceIff(raw, p, key);
        }
        forall i | 0 <= i < |raw| ensures LockKey(raw[i]).Some? {
          assert raw[i] in raw;
        }
      }
    }
  }

  lemma SelectionIsOrdered(selection: seq<LockPackage>, i: nat, j: nat)
    requires Sorted(selection, PackageLeq) && i < j < |selection|
    requires forall q | q in selection :: Complete(q.name, q.version, q.source)
    ensures Before(selection[i], selection[j])
  {
    var a, b := selection[i], selection[j];
    assert PackageLeq(a, b);
    StringLeqTotal(Text(a.name), Text(a.name));
    StringLeqTotal(Text(a.version), Text(a.version));
  }

  /** The whole selection of the audit, over the raw fields: it succeeds exactly when the
      closure of the workspace members is well formed, unambiguous and locked once; then for
      every package within reach exactly one locked package agrees with it in name, version
      and source, nothing else is selected, and the selection is ordered by those fields. */
  method AuditSelection(m: Metadata, lock: Lock) returns (r: Option<seq<LockPackage>>)
    ensures r.Some? <==> ClosureDefined(m) && LocksClosure(m, lock)
    ensures r.Some? ==> forall p | InReach(m, p) :: LockedOnce(r.value, p)
    ensures r.Some? ==> forall q | q in r.value ::
                          q in lock.packages.value && exists p :: InReach(m, p) && SamePackage(p, q)
    ensures r.Some? ==> forall i, j | 0 <= i < j < |r.value| :: Before(r.value[i], r.value[j])
  {
    KeysDefinedIff(m);
    var keys := TargetPackageKeys(m);
    if keys.None? {
      return None;
    }
    LockMatchesIff(m, lock, keys.value);
    r := SelectLockedPackages(lock, keys.value);
    if r.Some? {
      SelectionIsExact(m, lock, keys.value, r.value);
    }
  }

  lemma SelectionIsExact(m: Metadata, lock: Lock, keys: set<Key>, selection: seq<LockPackage>)
    requires KeysDefined(m) && KeysAre(m, keys)
    requires lock.packages.Some? && multiset(selection) == multiset(Wanted(lock.packages.value, keys))
    requires Bijective(selection, keys) && Sorted(selection, PackageLeq)
    ensures forall p | InReach(m, p) :: LockedOnce(selection, p)
    ensures forall q | q in selection :: q in lock.packages.value && exists p :: InReach(m, p) && SamePackage(p, q)
    ensures forall i, j | 0 <= i < j < |selection| :: Before(selection[i], selection[j])
  {
    forall p | InReach(m, p) ensures LockedOnce(selection, p) {
      SelectedOnce(m, keys, selection, p);
    }
    forall q | q in selection ensures q in lock.packages.value && exists p :: InReach(m, p) && SamePackage(p, q) {
      assert q in multiset(selection);
      WantedIsLocked(lock.packages.value, keys, q);
      var p := SelectedIsWanted(m, keys, selection, q);
    }
    forall q | q in selection ensures Complete(q.name, q.version, q.source) {
      var p := SelectedIsWanted(m, keys, selection, q);
    }
    forall i, j | 0 <= i < j < |selection| ensures Before(selection[i], selection[j]) {
      SelectionIsOrdered(selection, i, j);
    }
  }

  lemma SelectedOnce(m: Metadata, keys: set<Key>, selection: seq<LockPackage>, p: RawPackage)
    requires KeysDefined(m) && KeysAre(m, keys)
    requires Bijective(selection, keys) && InReach(m, p)
    ensures LockedOnce(selection, p)
  {
    var key := InReachIsWanted(m, p);
    assert IsWanted(m, key) && Holds(selection, key);
    var i :| 0 <= i < |selection| && LockIs(selection[i], key);
    LockedKey(p, selection[i], key);
    forall j | 0 <= j < |selection| && SamePackage(p, selection[j]) ensures j == i {
      assert j < i ==> Differ(selection, j, i);
      assert i < j ==> Differ(selection, i, j);
    }
  }

  lemma SelectedIsWanted(m: Metadata, keys: set<Key>, selection: seq<LockPackage>, q: LockPackage)
    returns (p: RawPackage)
    requires KeysDefined(m) && KeysAre(m, keys)
    requires Bijective(selection, keys) && q in selection
    ensures InReach(m, p) && SamePackage(p, q) && Complete(q.name, q.version, q.source)
  {
    assert HasKey(q, keys);
    var key :| key in keys && LockIs(q, key);
    assert IsWanted(m, key);
    var id :| WantedKey(m, id, key);
    p := WantedIsInReach(m, id, key);
    LockedKey(p, q, key);
  }

  lemma {:induction false} WantedIsLocked(raw: seq<LockPackage>, keys: set<Key>, q: LockPackage)
    requires q in Wanted(raw, keys)
    ensures q in raw
  {
    if q in Wanted(raw[..|raw| - 1], keys) {
      WantedIsLocked(raw[..|raw| - 1], keys, q);
    }
  }
}
