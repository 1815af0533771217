/** Facts about the heap tree at one moment: what its nodes, child lists and parent pointers
    say together, which map they stand for, and what a moved or cut-off subtree leaves. */
module TreeFacts {
  import opened Paths
  import opened PathTree
  import opened TreeNode

  datatype PathType = FILE | DIRECTORY | GENERIC

  // Child lists and parent pointers agree, and no child list holds a node twice.
  ghost predicate Down(nodes: set<Node>)
    reads nodes`parent, nodes`children
  {
    && (forall n {:trigger Distinct(n.children)} :: n in nodes ==> Distinct(n.children))
    && (forall n, c {:trigger c in n.children} :: n in nodes && c in n.children ==> c in nodes && c.parent == n)
    && (forall c {:trigger c.parent.children} :: c in nodes && c.parent != null && c.parent in nodes ==> c in c.parent.children)
  }

  lemma GrownUp(nodes: set<Node>, at: Index, sep: char, node: Node)
    requires Up(nodes, at, sep) && node !in nodes && node.key != [] && node.key !in at
    requires node.name == Last(node.key) && ValidName(node.name, sep)
    requires Init(node.key) in at && node.parent == at[Init(node.key)]
    ensures Up(nodes + {node}, at[node.key := node], sep)
  {
  }

  // Child lists and parent pointers agree when l is read as the child list of p.
  ghost predicate DownWith(nodes: set<Node>, p: Node, l: seq<Node>)
    reads nodes`parent, (nodes - {p})`children
  {
    && Distinct(l)
    && (forall c :: c in l ==> c in nodes && c.parent == p)
    && (forall n {:trigger Distinct(n.children)} :: n in nodes && n != p ==> Distinct(n.children))
    && (forall n, c {:trigger c in n.children} :: n in nodes && n != p && c in n.children ==> c in nodes && c.parent == n)
    && (forall c :: c in nodes && c.parent == p ==> c in l)
    && (forall c {:trigger c.parent.children} :: c in nodes && c.parent != p && c.parent != null && c.parent in nodes ==>
         c in c.parent.children)
  }

  lemma DownSplit(nodes: set<Node>, p: Node)
    requires Down(nodes) && p in nodes
    ensures DownWith(nodes, p, p.children)
  {
  }

  lemma DownGrown(nodes: set<Node>, p: Node, l: seq<Node>, node: Node)
    requires DownWith(nodes, p, l) && p in nodes && node !in nodes
    requires p.children == [node] + l && node.children == [] && node.parent == p
    requires forall c :: c in nodes ==> c.parent != node
    ensures Down(nodes + {node})
  {
  }

  ghost function FilesOf(nodes: set<Node>, at: Index): Files
    requires forall p :: p in at ==> at[p] in nodes
    reads nodes`cached
  {
    map p | p in at && p != [] :: at[p].cached
  }

  ghost function Below(nodes: set<Node>, k: Path): set<Node>
    reads nodes`key
  {
    set n | n in nodes && k <= n.key
  }

  lemma {:induction false} IndexPrefix(nodes: set<Node>, at: Index, sep: char, q: Path, i: nat)
    requires Up(nodes, at, sep) && q in at && i <= |q|
    ensures q[..i] in at
    decreases |q|
  {
    if i < |q| {
      IndexPrefix(nodes, at, sep, Init(q), i);
      assert Init(q)[..i] == q[..i];
    } else {
      assert q[..i] == q;
    }
  }

  // ---- The shape of the subtree at a path ----

  ghost predicate Sprouts(nodes: set<Node>, at: Index, k: Path, l: seq<Node>)
    reads nodes`key
  {
    && k in at && Distinct(l)
    && forall c :: c in l ==> c in nodes && c.key in at && at[c.key] == c && c.key != [] && Init(c.key) == k
  }

  ghost function ShapeAt(nodes: set<Node>, at: Index, sep: char, k: Path): Shape
    requires Up(nodes, at, sep) && Down(nodes) && k in at
    reads nodes
    decreases Above(at.Keys, k), 1, 0
  {
    Shape(at[k], ShapesAt(nodes, at, sep, k, at[k].children))
  }

  ghost function ShapesAt(nodes: set<Node>, at: Index, sep: char, k: Path, l: seq<Node>): seq<Shape>
    requires Up(nodes, at, sep) && Down(nodes) && Sprouts(nodes, at, k, l)
    reads nodes
    decreases Above(at.Keys, k), 0, |l|
  {
    if l == [] then []
    else
      AboveShrinks(at.Keys, k, l[0].key);
      [ShapeAt(nodes, at, sep, l[0].key)] + ShapesAt(nodes, at, sep, k, l[1..])
  }

  ghost function BelowAny(nodes: set<Node>, l: seq<Node>): set<Node>
    requires forall c :: c in l ==> c in nodes
    reads nodes`key
  {
    if l == [] then {} else Below(nodes, l[0].key) + BelowAny(nodes, l[1..])
  }

  lemma {:induction false} BelowAnyHas(nodes: set<Node>, l: seq<Node>, n: Node)
    requires forall c :: c in l ==> c in nodes
    ensures n in BelowAny(nodes, l) <==> n in nodes && exists c :: c in l && c.key <= n.key
  {
    if l != [] {
      BelowAnyHas(nodes, l[1..], n);
      assert l == [l[0]] + l[1..];
    }
  }

  lemma SiblingsApart(a: Path, b: Path, k: Path, q: Path)
    requires a != [] && b != [] && Init(a) == k && Init(b) == k && a != b && b <= q
    ensures !(a <= q) && k <= q && k != q
  {
  }

  lemma ChildrenApart(nodes: set<Node>, at: Index, k: Path, l: seq<Node>)
    requires Sprouts(nodes, at, k, l) && l != []
    ensures Below(nodes, l[0].key) !! BelowAny(nodes, l[1..])
  {
    forall n | n in BelowAny(nodes, l[1..]) ensures n !in Below(nodes, l[0].key) {
      BelowAnyHas(nodes, l[1..], n);
      var c :| c in l[1..] && c.key <= n.key;
      assert c in l && c != l[0];
      SiblingsApart(l[0].key, c.key, k, n.key);
    }
  }

  lemma ChildrenCover(nodes: set<Node>, at: Index, sep: char, k: Path)
    requires Up(nodes, at, sep) && Down(nodes) && k in at
    ensures Below(nodes, k) == {at[k]} + BelowAny(nodes, at[k].children)
    ensures at[k] !in BelowAny(nodes, at[k].children)
  {
    var l := at[k].children;
    forall n | n in Below(nodes, k) && n != at[k] ensures n in BelowAny(nodes, l) {
      var q := n.key;
      assert at[q] == n;
      assert k == q[..|k|] && q != k;
      assert q == q[..|q|];
      IndexPrefix(nodes, at, sep, q, |k| + 1);
      var j := q[..|k| + 1];
      assert Init(j) == k && j <= q;
      assert at[j] in l;
      BelowAnyHas(nodes, l, n);
    }
    forall n | n in BelowAny(nodes, l) ensures n in Below(nodes, k) && n != at[k] {
      BelowAnyHas(nodes, l, n);
      var c :| c in l && c.key <= n.key;
      assert n.key[..|k|] == c.key[..|k|] == k;
    }
  }

  lemma {:induction false} ShapeSound(nodes: set<Node>, at: Index, sep: char, k: Path)
    requires Up(nodes, at, sep) && Down(nodes) && k in at
    ensures Sound(ShapeAt(nodes, at, sep, k)) && NodesOf(ShapeAt(nodes, at, sep, k)) == Below(nodes, k)
    decreases Above(at.Keys, k), 1, 0
  {
    ChildrenCover(nodes, at, sep, k);
    ShapesTops(nodes, at, sep, k, at[k].children);
    ShapesSound(nodes, at, sep, k, at[k].children);
  }

  lemma {:induction false} ShapesTops(nodes: set<Node>, at: Index, sep: char, k: Path, l: seq<Node>)
    requires Up(nodes, at, sep) && Down(nodes) && Sprouts(nodes, at, k, l)
    ensures Tops(ShapesAt(nodes, at, sep, k, l)) == l
    decreases |l|
  {
    if l != [] {
      ShapesTops(nodes, at, sep, k, l[1..]);
    }
  }

  lemma {:induction false} ShapesSound(nodes: set<Node>, at: Index, sep: char, k: Path, l: seq<Node>)
    requires Up(nodes, at, sep) && Down(nodes) && Sprouts(nodes, at, k, l)
    ensures SoundAll(ShapesAt(nodes, at, sep, k, l), at[k])
    ensures NodesOfAll(ShapesAt(nodes, at, sep, k, l)) == BelowAny(nodes, l)
    decreases Above(at.Keys, k), 0, |l|
  {
    if l != [] {
      AboveShrinks(at.Keys, k, l[0].key);
      ShapeSound(nodes, at, sep, l[0].key);
      ShapesSound(nodes, at, sep, k, l[1..]);
      ChildrenApart(nodes, at, k, l);
      assert l[0].parent == at[k];
    }
  }

  // ---- Exact sets of path strings ----

  lemma {:induction false} IndexValid(nodes: set<Node>, at: Index, sep: char, q: Path)
    requires Up(nodes, at, sep) && q in at
    ensures ValidPath(q, sep)
    decreases |q|
  {
    if q != [] {
      assert ValidName(at[q].name, sep) && at[q].parent == at[Init(q)];
      IndexValid(nodes, at, sep, Init(q));
      assert q == Init(q) + [Last(q)];
    }
  }

  lemma {:induction false} PathStringsHas(owner: string, l: seq<Path>, sep: char, s: string)
    ensures s in PathStrings(owner, l, sep) <==> exists q :: q in l && s == LocalPath(owner, q, sep)
  {
    if l != [] {
      PathStringsHas(owner, l[1..], sep, s);
      assert l == [l[0]] + l[1..];
    }
  }

  lemma {:induction false} PathStringsDistinct(owner: string, l: seq<Path>, sep: char)
    requires Distinct(l) && forall i :: 0 <= i < |l| ==> ValidPath(l[i], sep)
    ensures Distinct(PathStrings(owner, l, sep))
  {
    if l != [] {
      PathStringsDistinct(owner, l[1..], sep);
      var first := LocalPath(owner, l[0], sep);
      if first in PathStrings(owner, l[1..], sep) {
        PathStringsHas(owner, l[1..], sep, first);
        var q :| q in l[1..] && first == LocalPath(owner, q, sep);
        var i :| 0 <= i < |l[1..]| && l[1..][i] == q;
        assert q == l[i + 1];
        assert Canonical(l[0], sep) == first[|owner|..] == Canonical(q, sep);
        CanonicalInjective(l[0], q, sep);
      }
      DistinctConcat([first], PathStrings(owner, l[1..], sep));
    }
  }

  // The strings of the picked nodes at or below k.
  ghost function Picked(at: Index, k: Path, pick: set<Node>, owner: string, sep: char): set<string> {
    set q | q in PickedPaths(at, k, pick) :: LocalPath(owner, q, sep)
  }

  ghost function PickedPaths(at: Index, k: Path, pick: set<Node>): set<Path> {
    set q | q in at && k <= q && at[q] in pick
  }

  // The strings of a walk are those of the picked paths, each once.
  lemma WalkStrings(nodes: set<Node>, at: Index, sep: char, k: Path, pick: set<Node>, back: bool, owner: string)
    requires Up(nodes, at, sep) && Down(nodes) && k in at
    ensures var u := PathStrings(owner, Walk(ShapeAt(nodes, at, sep, k), pick, back), sep);
            Distinct(u) && Elements(u) == Picked(at, k, pick, owner, sep)
  {
    var t := ShapeAt(nodes, at, sep, k);
    var keys := Walk(t, pick, back);
    ShapeSound(nodes, at, sep, k);
    WalkExact(t, pick, back);
    forall q ensures q in keys <==> q in at && k <= q && at[q] in pick {
      if q in at && k <= q && at[q] in pick {
        assert at[q] in Below(nodes, k) * pick && at[q].key == q;
      }
    }
    forall i | 0 <= i < |keys| ensures ValidPath(keys[i], sep) {
      assert keys[i] in keys;
      IndexValid(nodes, at, sep, keys[i]);
    }
    PathStringsDistinct(owner, keys, sep);
    var u := PathStrings(owner, keys, sep);
    forall s ensures s in u <==> exists q :: q in keys && s == LocalPath(owner, q, sep) {
      PathStringsHas(owner, keys, sep, s);
    }
  }

  predicate Matches(kind: PathType, leaf: bool) {
    match kind
    case FILE => leaf
    case DIRECTORY => !leaf
    case GENERIC => true
  }

  lemma LeafIffNoChildren(nodes: set<Node>, at: Index, sep: char, k: Path)
    requires Up(nodes, at, sep) && Down(nodes) && k in at && k != []
    ensures Leaf(at.Keys - {[]}, k) <==> at[k].children == []
  {
    ChildrenCover(nodes, at, sep, k);
    if at[k].children != [] {
      var c := at[k].children[0];
      assert c in at[k].children && Init(c.key) == k && k <= c.key;
      assert c.key in at.Keys - {[]} && c.key != k;
    } else {
      forall q | q in at && k <= q ensures q == k {
        assert at[q] in Below(nodes, k);
      }
    }
  }

  // ---- Moved and cut-off subtrees ----

  lemma MovedTree(nodes: set<Node>, at: Index, at': Index, sep: char, keyOf: map<Node, Path>,
                  node: Node, before: Files, p: Path, name: string)
    requires LinksWith(nodes, at, keyOf) && p in at && node == at[p] && p != []
    requires node.name == name && ValidName(name, sep)
    requires forall n :: n in nodes && n != node && keyOf[n] != [] ==> n.name == Last(keyOf[n]) && ValidName(n.name, sep)
    requires forall n {:trigger n.key} :: n in nodes ==> n.key == Rekey(keyOf[n], p, Renamed(p, name))
    requires before == FilesOf(nodes, at) && Closed(before.Keys)
    requires Renamed(p, name) == p || Renamed(p, name) !in at
    requires Moved(at, at', p, Renamed(p, name))
    ensures Up(nodes, at', sep) && at'[[]] == at[[]] && FilesOf(nodes, at') == RenameFile(before, p, name)
  {
    MovedLinks(nodes, at, at', keyOf, p, name);
    MovedNames(nodes, sep, keyOf, node, p, name);
    MovedFiles(nodes, at, at', before, p, name);
    assert Rekey([], p, Renamed(p, name)) == [];
  }

  ghost method AssignKeys(nodes: set<Node>, keyOf: map<Node, Path>, p: Path, q: Path)
    requires keyOf.Keys == nodes
    modifies nodes`key
    ensures forall n {:trigger n.key} :: n in nodes ==> n.key == Rekey(keyOf[n], p, q)
  {
    forall n | n in nodes {
      n.key := Rekey(keyOf[n], p, q);
    }
  }

  // The cached paths at or below k, and their local files.
  function CachedBelow(m: Files, k: Path): set<Path> {
    set q | q in m && k <= q && m[q]
  }

  function CachedFiles(m: Files, k: Path, owner: string, sep: char): set<string> {
    set q | q in CachedBelow(m, k) :: LocalPath(owner, q, sep)
  }

  ghost function Pruned(at: Index, k: Path): Index {
    map q | q in at && !(k <= q) :: at[q]
  }

  lemma PrunedFiles(nodes: set<Node>, at: Index, sep: char, k: Path)
    requires Up(nodes, at, sep) && k != [] && Up(nodes - Below(nodes, k), Pruned(at, k), sep)
    ensures FilesOf(nodes - Below(nodes, k), Pruned(at, k)) == RemoveFile(FilesOf(nodes, at), k)
    ensures [] in Pruned(at, k) && Pruned(at, k)[[]] == at[[]]
  {
  }

  lemma PrunedUp(nodes: set<Node>, at: Index, sep: char, k: Path)
    requires Up(nodes, at, sep) && k != []
    ensures Up(nodes - Below(nodes, k), Pruned(at, k), sep)
  {
  }

  lemma DownJoin(nodes: set<Node>, p: Node)
    requires DownWith(nodes, p, p.children) && p in nodes
    ensures Down(nodes)
  {
  }

  // at' is the index at with the subtree at p moved to q.
  ghost predicate Moved(at: Index, at': Index, p: Path, q: Path) {
    && (forall j {:trigger Rekey(j, p, q)} :: j in at ==> Rekey(j, p, q) in at' && at'[Rekey(j, p, q)] == at[j])
    && (forall k {:trigger Rekey(k, q, p)} :: k in at' ==> Rekey(k, q, p) in at && at[Rekey(k, q, p)] == at'[k])
    && (forall k {:trigger Rekey(Rekey(k, q, p), p, q)} :: k in at' ==> Rekey(Rekey(k, q, p), p, q) == k)
  }

  lemma MovedIndex(at: Index, p: Path, name: string) returns (at': Index)
    requires Closed(at.Keys - {[]}) && p != [] && p in at
    requires Renamed(p, name) == p || Renamed(p, name) !in at
    ensures Moved(at, at', p, Renamed(p, name))
  {
    var q := Renamed(p, name);
    forall j | j in at ensures Rekey(Rekey(j, p, q), q, p) == j {
      if q != p && j != [] { NothingBelow(at.Keys - {[]}, q, j); }
      RekeyBack(j, p, q);
    }
    var keys := set j | j in at :: Rekey(j, p, q);
    at' := map k | k in keys && Rekey(k, q, p) in at :: at[Rekey(k, q, p)];
  }

  // Keys are paths of the index and parents agree with them, for recorded keys.
  ghost predicate LinksWith(nodes: set<Node>, at: Index, keyOf: map<Node, Path>)
    reads nodes`parent
  {
    && keyOf.Keys == nodes
    && (forall j {:trigger at[j]} :: j in at ==> at[j] in nodes && keyOf[at[j]] == j)
    && (forall n {:trigger keyOf[n]} :: n in nodes ==> keyOf[n] in at && at[keyOf[n]] == n)
    && [] in at && at[[]].parent == null
    && (forall j {:trigger Init(j)} :: j in at && j != [] ==> Init(j) in at && at[j].parent == at[Init(j)])
  }

  lemma KeysRecorded(nodes: set<Node>, at: Index) returns (keyOf: map<Node, Path>)
    requires UpLinks(nodes, at)
    ensures keyOf.Keys == nodes && (forall n :: n in nodes ==> keyOf[n] == n.key) && LinksWith(nodes, at, keyOf)
  {
    keyOf := map n | n in nodes :: n.key;
  }

  lemma MovedLinks(nodes: set<Node>, at: Index, at': Index, keyOf: map<Node, Path>, p: Path, name: string)
    requires LinksWith(nodes, at, keyOf) && p != [] && Moved(at, at', p, Renamed(p, name))
    requires forall n {:trigger n.key} :: n in nodes ==> n.key == Rekey(keyOf[n], p, Renamed(p, name))
    ensures UpLinks(nodes, at')
  {
    var q := Renamed(p, name);
    assert Rekey([], p, q) == [] && Rekey([], q, p) == [];
    forall k | k in at' ensures at'[k] in nodes && at'[k].key == k {
      assert at'[k] == at[Rekey(k, q, p)] && Rekey(Rekey(k, q, p), p, q) == k;
    }
    forall k | k in at' && k != [] ensures Init(k) in at' && at'[k].parent == at'[Init(k)] {
      var j := Rekey(k, q, p);
      assert j != [] && Rekey(j, p, q) == k;
      RekeyParts(j, p, name);
      assert Init(k) == Rekey(Init(j), p, q);
    }
  }

  lemma MovedNames(nodes: set<Node>, sep: char, keyOf: map<Node, Path>, node: Node, p: Path, name: string)
    requires keyOf.Keys == nodes && node in nodes && keyOf[node] == p && p != []
    requires forall n :: n in nodes && keyOf[n] == p ==> n == node
    requires node.name == name && ValidName(name, sep)
    requires forall n :: n in nodes && n != node && keyOf[n] != [] ==> n.name == Last(keyOf[n]) && ValidName(n.name, sep)
    requires forall n {:trigger n.key} :: n in nodes ==> n.key == Rekey(keyOf[n], p, Renamed(p, name))
    ensures UpNames(nodes, sep)
  {
  }

  lemma MovedFiles(nodes: set<Node>, at: Index, at': Index, before: Files, p: Path, name: string)
    requires forall j {:trigger at[j]} :: j in at ==> at[j] in nodes
    requires forall k {:trigger at'[k]} :: k in at' ==> at'[k] in nodes
    requires before == FilesOf(nodes, at) && Closed(before.Keys) && p != [] && p in at && name != []
    requires Renamed(p, name) == p || Renamed(p, name) !in at
    requires Moved(at, at', p, Renamed(p, name))
    ensures FilesOf(nodes, at') == RenameFile(before, p, name)
  {
    RenameRekeys(before, p, name);
    MovedFilesAre(nodes, at, at', before, RenameFile(before, p, name), p, Renamed(p, name));
  }

  lemma MovedFilesAre(nodes: set<Node>, at: Index, at': Index, before: Files, after: Files, p: Path, q: Path)
    requires forall j {:trigger at[j]} :: j in at ==> at[j] in nodes
    requires forall k {:trigger at'[k]} :: k in at' ==> at'[k] in nodes
    requires before == FilesOf(nodes, at) && |p| == |q|
    requires Moved(at, at', p, q) && Rekeyed(before, after, p, q)
    ensures FilesOf(nodes, at') == after
  {
    forall k | k in at' && k != [] ensures k in after && after[k] == at'[k].cached {
      var j := Rekey(k, q, p);
      assert |j| == |k| && j in before && Rekey(j, p, q) == k;
    }
    forall k | k in after ensures k in at' && k != [] {
      var j := Rekey(k, q, p);
      assert |j| == |k| && j in before && j in at && Rekey(j, p, q) == k;
    }
  }

  // ---- Listings ----

  function KindPaths(s: set<Path>, kind: PathType): set<Path> {
    set q | q in s && Matches(kind, Leaf(s, q))
  }

  // What a listing of the given kind holds for a tree with these paths.
  function Listing(s: set<Path>, kind: PathType, sep: char): set<string> {
    set q | q in KindPaths(s, kind) :: Canonical(q, sep)
  }

  // The listings of files and of directories share no string and make up the listing of both.
  lemma ListingsPartition(s: set<Path>, sep: char)
    requires forall p :: p in s ==> ValidPath(p, sep)
    ensures Listing(s, FILE, sep) !! Listing(s, DIRECTORY, sep)
    ensures Listing(s, FILE, sep) + Listing(s, DIRECTORY, sep) == Listing(s, GENERIC, sep)
  {
    forall x | x in Listing(s, FILE, sep) && x in Listing(s, DIRECTORY, sep) ensures false {
      var p :| p in KindPaths(s, FILE) && Canonical(p, sep) == x;
      var q :| q in KindPaths(s, DIRECTORY) && Canonical(q, sep) == x;
      CanonicalInjective(p, q, sep);
    }
    forall x | x in Listing(s, GENERIC, sep) ensures x in Listing(s, FILE, sep) + Listing(s, DIRECTORY, sep) {
      var p :| p in KindPaths(s, GENERIC) && Canonical(p, sep) == x;
      assert p in KindPaths(s, FILE) || p in KindPaths(s, DIRECTORY);
    }
  }
}
