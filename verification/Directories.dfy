// src/core/file_io.cpp:14-56: creating the directories on the way to a file.

module Directories {
  import opened ByteStrings

  /** A directory by its components; "", "." and repeated slashes name nothing new. */
  datatype Node = Node(absolute: bool, parts: seq<Bytes>)

  /** The last slash before position n, or None. */
  function LastSlash(path: Bytes, n: nat): (k: Option<nat>)
    requires n <= |path|
    ensures k.Some? ==> k.value < n && path[k.value] == '/'
  {
    if n == 0 then None else if path[n - 1] == '/' then Some(n - 1) else LastSlash(path, n - 1)
  }

  /** The piece between two slashes. */
  function Piece(name: Bytes): seq<Bytes> {
    if name == [] || name == "." then [] else [name]
  }

  /** The components of the first n bytes. */
  function Parts(path: Bytes, n: nat): seq<Bytes>
    requires n <= |path|
  {
    var k := LastSlash(path, n);
    if k.None? then Piece(path[..n]) else Parts(path, k.value) + Piece(path[k.value + 1..n])
  }

  function NodeOf(path: Bytes): Node {
    Node(path != [] && path[0] == '/', Parts(path, |path|))
  }

  /** Everything before the last slash; the root for a file right below it; nothing when there is no slash. */
  function ParentDir(path: Bytes): Bytes {
    var k := LastSlash(path, |path|);
    if k.None? then [] else if k.value == 0 then "/" else path[..k.value]
  }

  lemma {:induction false} PartsOfPrefix(path: Bytes, n: nat)
    requires n <= |path|
    ensures Parts(path[..n], n) == Parts(path, n)
    decreases n
  {
    LastSlashOfPrefix(path, n, n);
    var k := LastSlash(path, n);
    if k.Some? {
      assert path[..n][k.value + 1..n] == path[k.value + 1..n];
      assert path[..n][..k.value] == path[..k.value];
      PartsOfPrefix(path, k.value);
      PartsOfPrefix(path[..n], k.value);
    } else {
      assert path[..n][..n] == path[..n];
    }
  }

  lemma {:induction false} LastSlashOfPrefix(path: Bytes, n: nat, m: nat)
    requires m <= n <= |path|
    ensures LastSlash(path[..n], m) == LastSlash(path, m)
  {
    if m > 0 {
      LastSlashOfPrefix(path, n, m - 1);
    }
  }

  // Which directories are tried.

  /** The prefixes that end just before a slash past the first byte, among the first n bytes. */
  function Cuts(dir: Bytes, n: nat): seq<Bytes>
    requires n <= |dir|
  {
    if n <= 1 then [] else Cuts(dir, n - 1) + if dir[n - 1] == '/' then [dir[..n - 1]] else []
  }

  function Tries(dir: Bytes): seq<Bytes> {
    if dir == [] || dir == "/" then [] else Cuts(dir, |dir|) + [dir]
  }

  lemma {:induction false} CutIsThere(dir: Bytes, k: nat, n: nat)
    requires 1 <= k < n <= |dir| && dir[k] == '/'
    ensures dir[..k] in Cuts(dir, n)
    decreases n
  {
    if k < n - 1 {
      CutIsThere(dir, k, n - 1);
    }
  }

  /** Each is cut just before a slash past the first byte, and the i-th is longer than those before it. */
  lemma {:induction false} CutIsAtSlash(dir: Bytes, n: nat, i: nat)
    requires n <= |dir| && i < |Cuts(dir, n)|
    ensures 1 <= |Cuts(dir, n)[i]| < n && dir[|Cuts(dir, n)[i]|] == '/' && Cuts(dir, n)[i] <= dir
    decreases n
  {
    if i < |Cuts(dir, n - 1)| {
      CutIsAtSlash(dir, n - 1, i);
    }
  }

  lemma {:induction false} CutsGrow(dir: Bytes, n: nat, i: nat, j: nat)
    requires n <= |dir| && i < j < |Cuts(dir, n)|
    ensures |Cuts(dir, n)[i]| < |Cuts(dir, n)[j]|
    decreases n
  {
    if j < |Cuts(dir, n - 1)| {
      CutsGrow(dir, n - 1, i, j);
    } else {
      CutIsAtSlash(dir, n - 1, i);
    }
  }

  /** Exactly the prefixes before a slash past the first byte, and the whole path. */
  lemma TriedIff(dir: Bytes, p: Bytes)
    requires dir != [] && dir != "/"
    ensures p in Tries(dir) <==> p == dir || (1 <= |p| < |dir| && p <= dir && dir[|p|] == '/')
  {
    if p in Cuts(dir, |dir|) {
      var i: nat :| i < |Cuts(dir, |dir|)| && Cuts(dir, |dir|)[i] == p;
      CutIsAtSlash(dir, |dir|, i);
    }
    if 1 <= |p| < |dir| && p <= dir && dir[|p|] == '/' {
      CutIsThere(dir, |p|, |dir|);
      assert p == dir[..|p|];
    }
  }

  /** Shortest first. */
  lemma TriedInOrder(dir: Bytes, i: nat, j: nat)
    requires i < j < |Tries(dir)|
    ensures |Tries(dir)[i]| < |Tries(dir)[j]|
  {
    if j < |Cuts(dir, |dir|)| {
      CutsGrow(dir, |dir|, i, j);
    } else {
      CutIsAtSlash(dir, |dir|, i);
    }
  }

  // What mkdir does to the directory tree.

  function Parent(node: Node): Node {
    if node.parts == [] then node else node.(parts := node.parts[..|node.parts| - 1])
  }

  /** mkdir finds the directory, or the one to put it in. */
  predicate HasPlace(nodes: set<Node>, path: Bytes) {
    NodeOf(path) in nodes || Parent(NodeOf(path)) in nodes
  }

  /** The root and the directory that relative paths start from. */
  predicate Rooted(nodes: set<Node>) {
    Node(true, []) in nodes && Node(false, []) in nodes
  }

  /** Result, tree and calls of ::mkdir so far. */
  datatype Walked = Walked(ok: bool, nodes: set<Node>, tried: seq<Bytes>)

  /** One mkdir: it needs a place for the directory, and the system must not refuse it. EEXIST is success. */
  function Mkdir(w: Walked, refused: set<Bytes>, path: Bytes): Walked {
    if path !in refused && HasPlace(w.nodes, path)
    then Walked(true, w.nodes + {NodeOf(path)}, w.tried + [path])
    else Walked(false, w.nodes, w.tried + [path])
  }

  /** One after the other, up to the first failure. */
  function Walk(start: Walked, refused: set<Bytes>, tries: seq<Bytes>): Walked {
    if tries == [] then start
    else
      var w := Walk(start, refused, tries[..|tries| - 1]);
      if w.ok then Mkdir(w, refused, tries[|tries| - 1]) else w
  }

  lemma WalkOneMore(start: Walked, refused: set<Bytes>, tries: seq<Bytes>, path: Bytes)
    ensures var w := Walk(start, refused, tries);
            Walk(start, refused, tries + [path]) == if w.ok then Mkdir(w, refused, path) else w
  {
    assert (tries + [path])[..|tries|] == tries;
  }

  lemma {:induction false} WalkStops(start: Walked, refused: set<Bytes>, tries: seq<Bytes>, all: seq<Bytes>)
    requires tries <= all && !Walk(start, refused, tries).ok
    ensures Walk(start, refused, all) == Walk(start, refused, tries)
  {
    if |tries| < |all| {
      WalkStops(start, refused, tries, all[..|all| - 1]);
    } else {
      assert tries == all;
    }
  }

  /** In any tree: the tries in order, all of them if none fails. */
  lemma {:induction false} WalkTriesInOrder(start: Walked, refused: set<Bytes>, tries: seq<Bytes>)
    requires start.ok
    ensures var w := Walk(start, refused, tries);
            start.tried <= w.tried <= start.tried + tries && (w.ok ==> w.tried == start.tried + tries)
  {
    if tries != [] {
      WalkTriesInOrder(start, refused, tries[..|tries| - 1]);
      assert tries == tries[..|tries| - 1] + [tries[|tries| - 1]];
    }
  }

  lemma NoCutsYet(start: Walked, refused: set<Bytes>, dir: Bytes, i: nat)
    requires i <= 1 && i <= |dir|
    ensures Walk(start, refused, Cuts(dir, i)) == start
  {
  }

  class FileSystem {
    var nodes: set<Node>
    var tried: seq<Bytes>
    const refused: set<Bytes>      // what ::mkdir refuses although there is a place for it

    constructor (nodes: set<Node>, refused: set<Bytes>)
      ensures this.nodes == nodes && tried == [] && this.refused == refused
    {
      this.nodes, this.tried, this.refused := nodes, [], refused;
    }

    ghost function Now(): Walked
      reads this
    {
      Walked(true, nodes, tried)
    }

    method MkdirOne(path: Bytes) returns (ok: bool)
      modifies this
      ensures Now().(ok := ok) == if path == [] then old(Now()) else Mkdir(old(Now()), refused, path)
    {
      if path == [] {
        return true;
      }
      tried := tried + [path];
      ok := path !in refused && HasPlace(nodes, path);
      if ok {
        nodes := nodes + {NodeOf(path)};
      }
    }

    /** mkdir as the next step of a walk that has gone well so far. */
    method MkdirNext(path: Bytes, ghost start: Walked, ghost tries: seq<Bytes>) returns (ok: bool)
      requires path != [] && Now() == Walk(start, refused, tries)
      modifies this
      ensures Now().(ok := ok) == Walk(start, refused, tries + [path])
    {
      WalkOneMore(start, refused, tries, path);
      ok := MkdirOne(path);
    }

    /** The next byte: a slash is the end of a cut. */
    method MkdirAt(dir: Bytes, i: nat, cur: Bytes, ghost start: Walked) returns (ok: bool, cur': Bytes)
      requires i < |dir| && cur == dir[..i] && (i == 0 ==> dir[0] != '/')
      requires Now() == Walk(start, refused, Cuts(dir, i))
      modifies this
      ensures Now().(ok := ok) == Walk(start, refused, if ok then Cuts(dir, i + 1) else Tries(dir))
      ensures cur' == dir[..i + 1]
    {
      CutsStep(dir, i);
      cur' := cur + [dir[i]];
      ok := true;
      if dir[i] == '/' {
        ok := MkdirNext(cur, start, Cuts(dir, i));
        if !ok {
          StopsAtCut(dir, i, start, refused);
        }
      }
    }

    /** Tries the cuts of the path in order and stops at the first failure. */
    method MakeCuts(dir: Bytes) returns (ok: bool, cur: Bytes)
      requires dir != [] && dir != "/"
      modifies this
      ensures Now().(ok := ok) == Walk(old(Now()), refused, if ok then Cuts(dir, |dir|) else Tries(dir))
      ensures ok ==> cur == dir
    {
      ghost var start := Now();
      cur := [];
      var i := 0;
      if dir[0] == '/' {
        cur := "/";
        i := 1;
      }
      NoCutsYet(start, refused, dir, i);
      while i < |dir|
        invariant i <= |dir| && cur == dir[..i] && (i == 0 ==> dir[0] != '/')
        invariant Now() == Walk(start, refused, Cuts(dir, i))
      {
        ok, cur := MkdirAt(dir, i, cur, start);
        if !ok {
          return;
        }
        i := i + 1;
      }
      assert cur == dir;
      ok := true;
    }

    /** The cuts, then the whole path. */
    method MakeEach(dir: Bytes) returns (ok: bool)
      requires dir != [] && dir != "/"
      modifies this
      ensures Now().(ok := ok) == Walk(old(Now()), refused, Tries(dir))
    {
      ghost var start := Now();
      var cur;
      ok, cur := MakeCuts(dir);
      if ok {
        ok := MkdirNext(cur, start, Cuts(dir, |dir|));
      }
    }

    /** In a rooted tree only a refusal makes it fail; after a success the directory and all above it exist. */
    method EnsureDirRecursive(dir: Bytes) returns (ok: bool)
      modifies this
      ensures Now().(ok := ok) == Walk(old(Now()), refused, Tries(dir))
      ensures Rooted(old(nodes)) ==> (ok <==> Clear(Tries(dir), refused))
      ensures Rooted(old(nodes)) ==> tried == old(tried) + Tries(dir)[..Until(Tries(dir), refused)]
      ensures Rooted(old(nodes)) && ok ==> HasAncestors(nodes, dir)
    {
      WalkOfTries(Now(), refused, dir);
      if dir == [] || dir == "/" {
        return true;
      }
      ok := MakeEach(dir);
    }

    /** The same for the directory a file belongs in: after a success the file has all its directories. */
    method EnsureParentDir(path: Bytes) returns (ok: bool)
      modifies this
      ensures Now().(ok := ok) == Walk(old(Now()), refused, Tries(ParentDir(path)))
      ensures Rooted(old(nodes)) ==> (ok <==> Clear(Tries(ParentDir(path)), refused))
      ensures Rooted(old(nodes)) && ok ==> HasAncestors(nodes, ParentDir(path))
      ensures Rooted(old(nodes)) && ok && EndsInName(path) ==> HasDirectoriesFor(nodes, NodeOf(path))
    {
      var parent := ParentDir(path);
      if parent == [] {
        WalkOfTries(Now(), refused, parent);
        ok := true;
      } else {
        ok := EnsureDirRecursive(parent);
      }
      if Rooted(old(nodes)) && ok && EndsInName(path) {
        FileHasItsDirectories(path, nodes);
      }
    }
  }

  lemma CutsStep(dir: Bytes, i: nat)
    requires i < |dir| && (i == 0 ==> dir[0] != '/')
    ensures Cuts(dir, i + 1) == if dir[i] == '/' then Cuts(dir, i) + [dir[..i]] else Cuts(dir, i)
  {
    assert Cuts(dir, i) + [] == Cuts(dir, i);
  }

  lemma {:induction false} CutsPrefix(dir: Bytes, i: nat, n: nat)
    requires i <= n <= |dir|
    ensures Cuts(dir, i) <= Cuts(dir, n)
    decreases n
  {
    if i < n {
      CutsPrefix(dir, i, n - 1);
    }
  }

  lemma StopsAtCut(dir: Bytes, i: nat, start: Walked, refused: set<Bytes>)
    requires 1 <= i < |dir| && dir[i] == '/' && !Walk(start, refused, Cuts(dir, i) + [dir[..i]]).ok
    ensures Walk(start, refused, Tries(dir)) == Walk(start, refused, Cuts(dir, i) + [dir[..i]])
  {
    assert Cuts(dir, i + 1) == Cuts(dir, i) + [dir[..i]];
    CutsPrefix(dir, i + 1, |dir|);
    WalkStops(start, refused, Cuts(dir, i + 1), Tries(dir));
  }

  // When a walk succeeds, and what it leaves.

  ghost predicate Clear(tries: seq<Bytes>, refused: set<Bytes>) {
    forall p :: p in tries ==> p !in refused
  }

  /** How many of these mkdirs happen: up to the first that is refused. */
  ghost function Until(tries: seq<Bytes>, refused: set<Bytes>): (n: nat)
    ensures n <= |tries|
  {
    if tries == [] then 0
    else if Clear(tries[..|tries| - 1], refused) then |tries| else Until(tries[..|tries| - 1], refused)
  }

  lemma {:induction false} UntilIsFirstRefusal(tries: seq<Bytes>, refused: set<Bytes>)
    ensures Clear(tries, refused) ==> Until(tries, refused) == |tries|
    ensures !Clear(tries, refused) ==>
              var n := Until(tries, refused); n > 0 && tries[n - 1] in refused && Clear(tries[..n - 1], refused)
  {
    if tries != [] {
      var init, last := tries[..|tries| - 1], tries[|tries| - 1];
      UntilIsFirstRefusal(init, refused);
      assert tries == init + [last];
      if !Clear(init, refused) {
        var n := Until(init, refused);
        assert tries[..n - 1] == init[..n - 1];
      }
    }
  }

  /** The tree with a directory for each of these paths. */
  function Grown(nodes: set<Node>, tries: seq<Bytes>): set<Node> {
    if tries == [] then nodes else Grown(nodes, tries[..|tries| - 1]) + {NodeOf(tries[|tries| - 1])}
  }

  lemma {:induction false} GrownHas(nodes: set<Node>, tries: seq<Bytes>, i: nat)
    requires i < |tries|
    ensures NodeOf(tries[i]) in Grown(nodes, tries)
  {
    if i < |tries| - 1 {
      GrownHas(nodes, tries[..|tries| - 1], i);
    }
  }

  lemma {:induction false} GrownKeeps(nodes: set<Node>, tries: seq<Bytes>)
    ensures nodes <= Grown(nodes, tries)
  {
    if tries != [] {
      GrownKeeps(nodes, tries[..|tries| - 1]);
    }
  }

  lemma NodeOfPrefix(dir: Bytes, n: nat)
    requires 0 < n <= |dir|
    ensures NodeOf(dir[..n]) == Node(dir[0] == '/', Parts(dir, n))
  {
    PartsOfPrefix(dir, n);
  }

  lemma ParentParts(dir: Bytes, n: nat, k: nat, absolute: bool)
    requires n <= |dir| && (LastSlash(dir, n) == Some(k) || (LastSlash(dir, n) == None && k == 0))
    ensures Node(absolute, Parts(dir, k)) in {Node(absolute, Parts(dir, n)), Parent(Node(absolute, Parts(dir, n)))}
  {
    if LastSlash(dir, n).Some? && Parts(dir, n) != Parts(dir, k) {
      assert Parts(dir, n)[..|Parts(dir, n)| - 1] == Parts(dir, k);
    }
  }

  /** The directory before the last slash is there when the next one is tried. */
  lemma ParentIsMade(dir: Bytes, n: nat, nodes: set<Node>)
    requires 0 < n <= |dir|
    requires Rooted(nodes)
    ensures HasPlace(Grown(nodes, Cuts(dir, n)), dir[..n])
  {
    NodeOfPrefix(dir, n);
    GrownKeeps(nodes, Cuts(dir, n));
    var k := LastSlash(dir, n);
    if k.Some? && k.value > 0 {
      CutIsThere(dir, k.value, n);
      NodeOfPrefix(dir, k.value);
      var i: nat :| i < |Cuts(dir, n)| && Cuts(dir, n)[i] == dir[..k.value];
      GrownHas(nodes, Cuts(dir, n), i);
      ParentParts(dir, n, k.value, dir[0] == '/');
    } else {
      ParentParts(dir, n, 0, dir[0] == '/');
    }
  }

  predicate EachHasPlace(nodes: set<Node>, tries: seq<Bytes>) {
    tries == [] || (var init := tries[..|tries| - 1];
    EachHasPlace(nodes, init) && HasPlace(Grown(nodes, init), tries[|tries| - 1]))
  }

  /** In this order no mkdir fails for want of a parent. */
  lemma ParentsComeFirst(dir: Bytes, base: set<Node>)
    requires Rooted(base)
    ensures EachHasPlace(base, Tries(dir))
  {
    if dir != [] && dir != "/" {
      CutsHavePlaces(dir, |dir|, base);
      ParentIsMade(dir, |dir|, base);
      assert dir[..|dir|] == dir;
      assert Tries(dir)[..|Cuts(dir, |dir|)|] == Cuts(dir, |dir|);
    }
  }

  lemma {:induction false} CutsHavePlaces(dir: Bytes, n: nat, base: set<Node>)
    requires n <= |dir|
    requires Rooted(base)
    ensures EachHasPlace(base, Cuts(dir, n))
    decreases n
  {
    if n > 1 {
      CutsHavePlaces(dir, n - 1, base);
      if dir[n - 1] == '/' {
        ParentIsMade(dir, n - 1, base);
        assert (Cuts(dir, n - 1) + [dir[..n - 1]])[..|Cuts(dir, n - 1)|] == Cuts(dir, n - 1);
      } else {
        assert Cuts(dir, n) == Cuts(dir, n - 1);
      }
    }
  }

  /** A directory for each try leaves none missing on the way. */
  lemma AncestorsExist(dir: Bytes, base: set<Node>, j: nat)
    requires Rooted(base)
    requires j <= |NodeOf(dir).parts|
    ensures Node(NodeOf(dir).absolute, NodeOf(dir).parts[..j]) in Grown(base, Tries(dir))
  {
    if dir != [] {
      PrefixesExist(dir, |dir|, base, j);
    }
  }

  lemma {:induction false} PrefixesExist(dir: Bytes, n: nat, base: set<Node>, j: nat)
    requires dir != [] && n <= |dir| && j <= |Parts(dir, n)|
    requires Rooted(base)
    requires n == |dir| || n == 0 || dir[n] == '/'
    ensures Node(dir[0] == '/', Parts(dir, n)[..j]) in Grown(base, Tries(dir))
  {
    var parts, k := Parts(dir, n), LastSlash(dir, n);
    GrownKeeps(base, Tries(dir));
    if j == 0 {
      assert parts[..0] == [];
    } else if k.Some? && j <= |Parts(dir, k.value)| {
      assert parts[..j] == Parts(dir, k.value)[..j];
      PrefixesExist(dir, k.value, base, j);
    } else {
      assert parts[..j] == parts;
      TriedPrefix(dir, n);
      PartsOfPrefix(dir, n);
      var i: nat :| i < |Tries(dir)| && Tries(dir)[i] == dir[..n];
      GrownHas(base, Tries(dir), i);
    }
  }

  /** Where each try has its place, a walk succeeds iff nothing is refused, and then makes all of it. */
  lemma {:induction false} WalkWithPlaces(start: Walked, refused: set<Bytes>, tries: seq<Bytes>)
    requires start.ok && EachHasPlace(start.nodes, tries)
    ensures Walk(start, refused, tries).ok <==> Clear(tries, refused)
    ensures Walk(start, refused, tries).ok ==> Walk(start, refused, tries).nodes == Grown(start.nodes, tries)
  {
    if tries != [] {
      var init, last := tries[..|tries| - 1], tries[|tries| - 1];
      WalkWithPlaces(start, refused, init);
      assert tries == init + [last];
    }
  }

  /** The calls made are those up to the first refusal. */
  lemma {:induction false} WalkTriesUntil(start: Walked, refused: set<Bytes>, tries: seq<Bytes>)
    requires start.ok && EachHasPlace(start.nodes, tries)
    ensures Walk(start, refused, tries).tried == start.tried + tries[..Until(tries, refused)]
  {
    if tries == [] {
      assert start.tried + tries[..0] == start.tried;
    } else {
      var init, last := tries[..|tries| - 1], tries[|tries| - 1];
      WalkTriesUntil(start, refused, init);
      WalkWithPlaces(start, refused, init);
      if Clear(init, refused) {
        WalkTriesInOrder(start, refused, init);
        assert tries[..|tries|] == init + [last];
        assert start.tried + init + [last] == start.tried + (init + [last]);
      } else {
        assert tries[..Until(init, refused)] == init[..Until(init, refused)];
      }
    }
  }

  /** The directory and every one above it. */
  ghost predicate HasAncestors(nodes: set<Node>, dir: Bytes) {
    forall j: nat :: j <= |NodeOf(dir).parts| ==> Node(NodeOf(dir).absolute, NodeOf(dir).parts[..j]) in nodes
  }

  lemma WalkOfTries(start: Walked, refused: set<Bytes>, dir: Bytes)
    requires start.ok
    ensures var w := Walk(start, refused, Tries(dir));
            Rooted(start.nodes) ==>
              && (w.ok <==> Clear(Tries(dir), refused)) && (w.ok ==> HasAncestors(w.nodes, dir))
              && w.tried == start.tried + Tries(dir)[..Until(Tries(dir), refused)]
  {
    if Rooted(start.nodes) {
      ParentsComeFirst(dir, start.nodes);
      WalkWithPlaces(start, refused, Tries(dir));
      WalkTriesUntil(start, refused, Tries(dir));
      forall j: nat | j <= |NodeOf(dir).parts|
        ensures Node(NodeOf(dir).absolute, NodeOf(dir).parts[..j]) in Grown(start.nodes, Tries(dir))
      {
        AncestorsExist(dir, start.nodes, j);
      }
    }
  }

  lemma {:induction false} FirstIsNoSlash(path: Bytes, n: nat)
    requires 0 < n <= |path| && LastSlash(path, n) == None
    ensures path[0] != '/'
  {
    if n > 1 {
      FirstIsNoSlash(path, n - 1);
    }
  }

  /** A path that ends in a name: its text up to the last slash denotes its parent. */
  ghost predicate EndsInName(path: Bytes) {
    var k := LastSlash(path, |path|);
    Piece(path[if k.Some? then k.value + 1 else 0..]) != []
  }

  lemma PartsBelow(path: Bytes, k: nat)
    requires LastSlash(path, |path|) == Some(k) && EndsInName(path)
    ensures Parts(path, |path|) != [] && Parts(path, |path|)[..|Parts(path, |path|)| - 1] == Parts(path, k)
  {
    assert path[k + 1..|path|] == path[k + 1..];
  }

  lemma ParentDirIsTheParent(path: Bytes)
    requires EndsInName(path)
    ensures NodeOf(path).parts != [] && NodeOf(ParentDir(path)) == Parent(NodeOf(path))
  {
    var k := LastSlash(path, |path|);
    if k.None? {
      FirstIsNoSlash(path, |path|);
      assert path[..|path|] == path[0..] == path;
    } else {
      PartsBelow(path, k.value);
      if k.value == 0 {
        RootHasNoParts();
      } else {
        NodeOfPrefix(path, k.value);
      }
    }
  }

  lemma RootHasNoParts()
    ensures NodeOf("/") == Node(true, [])
  {
    assert LastSlash("/", 1) == Some(0);
    assert "/"[1..1] == "/"[..0] == [];
    assert Parts("/", 0) == [];
    assert Parts("/", 1) == [];
  }

  /** All directories that a file needs. */
  ghost predicate HasDirectoriesFor(nodes: set<Node>, file: Node) {
    forall j: nat :: j < |file.parts| ==> Node(file.absolute, file.parts[..j]) in nodes
  }

  /** What EnsureParentDir makes is what creating the file needs. */
  lemma FileHasItsDirectories(path: Bytes, nodes: set<Node>)
    requires HasAncestors(nodes, ParentDir(path)) && EndsInName(path)
    ensures HasDirectoriesFor(nodes, NodeOf(path))
  {
    ParentDirIsTheParent(path);
    FileBelow(NodeOf(path), ParentDir(path), nodes);
  }

  lemma FileBelow(file: Node, dir: Bytes, nodes: set<Node>)
    requires HasAncestors(nodes, dir) && file.parts != [] && NodeOf(dir) == Parent(file)
    ensures HasDirectoriesFor(nodes, file)
  {
    forall j: nat | j < |file.parts|
      ensures Node(file.absolute, file.parts[..j]) in nodes
    {
      assert file.parts[..|file.parts| - 1][..j] == file.parts[..j];
      assert Node(NodeOf(dir).absolute, NodeOf(dir).parts[..j]) in nodes;
    }
  }

  lemma TriedPrefix(dir: Bytes, n: nat)
    requires 0 < n <= |dir| && (n == |dir| || dir[n] == '/') && Parts(dir, n) != []
    ensures dir[..n] in Tries(dir)
  {
    assert dir != "/";
    TriedIff(dir, dir[..n]);
    if n == |dir| {
      assert dir[..n] == dir;
    }
  }
}
