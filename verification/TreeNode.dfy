/** The nodes of the virtual file system tree: names, parent pointers, child lists, and the
    destructor that takes a subtree apart. */
module TreeNode {
  import opened Paths
  import opened PathTree

  // Which node stands at which path; the root stands at the empty one.
  type Index = map<Path, Node>

  // Keys are paths of the index, and parents agree with them along every upward step.
  ghost predicate UpLinks(nodes: set<Node>, at: Index)
    reads nodes`key, nodes`parent
  {
    && (forall p {:trigger at[p]} :: p in at ==> at[p] in nodes && at[p].key == p)
    && (forall n {:trigger n.key} :: n in nodes ==> n.key in at && at[n.key] == n)
    && [] in at && at[[]].parent == null
    && (forall p {:trigger at[p].parent} {:trigger Init(p)} :: p in at && p != [] ==>
         Init(p) in at && at[p].parent == at[Init(p)])
  }

  // Names agree with keys.
  ghost predicate UpNames(nodes: set<Node>, sep: char)
    reads nodes`key, nodes`name
  {
    forall n {:trigger n.name} :: n in nodes && n.key != [] ==> n.name == Last(n.key) && ValidName(n.name, sep)
  }

  ghost predicate Up(nodes: set<Node>, at: Index, sep: char)
    reads nodes`key, nodes`parent, nodes`name
  {
    UpLinks(nodes, at) && UpNames(nodes, sep)
  }

  // Two children of one node bear the same name.
  ghost predicate Twins(n: Node)
    reads n, n.children
  {
    exists i, j :: 0 <= i < j < |n.children| && n.children[i].name == n.children[j].name
  }

  function Without<T(==)>(s: seq<T>, x: T): seq<T> {
    if s == [] then [] else (if s[0] == x then [] else [s[0]]) + Without(s[1..], x)
  }

  lemma {:induction false} WithoutHas<T>(s: seq<T>, x: T, y: T)
    ensures y in Without(s, x) <==> y in s && y != x
  {
    if s != [] {
      WithoutHas(s[1..], x, y);
      assert s == [s[0]] + s[1..];
    }
  }

  lemma {:induction false} WithoutDistinct<T>(s: seq<T>, x: T)
    requires Distinct(s)
    ensures Distinct(Without(s, x))
  {
    if s != [] {
      WithoutDistinct(s[1..], x);
      WithoutHas(s[1..], x, s[0]);
      assert s[0] !in s[1..];
      DistinctConcat(if s[0] == x then [] else [s[0]], Without(s[1..], x));
    }
  }

  function LocalPath(owner: string, k: Path, sep: char): string {
    owner + Canonical(k, sep)
  }

  // One path string for each key, in order.
  function PathStrings(owner: string, l: seq<Path>, sep: char): seq<string> {
    if l == [] then [] else [LocalPath(owner, l[0], sep)] + PathStrings(owner, l[1..], sep)
  }

  class Node {
    var name: string
    var children: seq<Node>
    var parent: Node?
    var cached: bool
    ghost var key: Path

    // The new node enters at the front of its parent's child list.
    constructor (name: string, parent: Node?, ghost key: Path)
      modifies (if parent == null then {} else {parent})`children
      ensures this.name == name && this.parent == parent && children == [] && !cached && this.key == key
      ensures parent != null ==> parent.children == [this] + old(parent.children)
    {
      this.name, this.parent, this.children, this.cached := name, parent, [], false;
      this.key := key;
      new;
      if parent != null {
        parent.children := [this] + parent.children;
      }
    }

    method GetChildren(childName: string) returns (child: Node?)
      ensures child == null ==> forall c :: c in children ==> c.name != childName
      ensures child != null ==> child in children && child.name == childName
    {
      for i := 0 to |children|
        invariant forall j :: 0 <= j < i ==> children[j].name != childName
      {
        if children[i].name == childName {
          return children[i];
        }
      }
      child := null;
    }

    // The path is gathered backwards, from the parent up, and turned round at the end.
    method LocalPathToMe(ghost nodes: set<Node>, ghost at: Index, owner: string, sep: char) returns (path: string)
      requires Up(nodes, at, sep) && key in at && at[key] == this
      ensures key != [] ==> path == LocalPath(owner, key, sep)
    {
      path := "";
      var current := parent;
      if current != null {
        assert Trail(Init(key)[|current.key|..], sep) == "";
        while current.parent != null
          invariant key != [] && current != null && current.key in at && at[current.key] == current
          invariant current.key <= Init(key)
          invariant path == Reverse(Trail(Init(key)[|current.key|..], sep))
          decreases |current.key|
        {
          ghost var k := current.key;
          ghost var tail := Init(key)[|k|..];
          path := path + [sep];
          path := path + Reverse(current.name);
          current := current.parent;
          assert current.key == Init(k);
          assert Init(key)[|k| - 1] == k[|k| - 1] == Last(k);
          assert Init(key)[|k| - 1..] == [Last(k)] + tail;
          assert Trail([Last(k)] + tail, sep) == Last(k) + [sep] + Trail(tail, sep);
          ReverseSnoc(Last(k) + [sep], Trail(tail, sep));
          ReverseSnoc(Last(k), [sep]);
        }
        assert current.key == [];
        assert Init(key)[0..] == Init(key);
      }
      ghost var up := if key == [] then [] else Init(key);
      path := path + [sep];
      path := path + Reverse(owner);
      calc {
        Reverse(path);
        Reverse(Reverse(Trail(up, sep)) + [sep] + Reverse(owner));
        { ReverseSnoc(Reverse(Trail(up, sep)) + [sep], Reverse(owner)); ReverseTwice(owner); }
        owner + Reverse(Reverse(Trail(up, sep)) + [sep]);
        { ReverseSnoc(Reverse(Trail(up, sep)), [sep]); ReverseTwice(Trail(up, sep)); }
        owner + ([sep] + Trail(up, sep));
        { TrailCanonical(up, sep); }
        owner + (Canonical(up, sep) + [sep]);
      }
      path := Reverse(path);
      path := path + name;
      if key != [] {
        CanonicalSnoc(up, name, sep);
        assert up + [name] == key;
      }
    }

    // The destructor: it unlinks its own local file when it has one, leaves its parent's
    // child list, and destroys its children.
    method Delete(ghost t: Shape, ghost nodes: set<Node>, ghost at: Index, owner: string, sep: char,
                  ghost marked: set<Node>)
      returns (unlinked: seq<string>)
      requires t.top == this && Sound(t) && parent !in NodesOf(t)
      requires Up(nodes, at, sep) && NodesOf(t) <= nodes
      requires forall n :: n in nodes ==> (n in marked <==> n.cached) && (n.cached ==> n.key != [])
      modifies NodesOf(t)`children, (if parent == null then {} else {parent})`children
      ensures parent != null ==> parent.children == Without<Node>(old(parent.children), this)
      ensures unlinked == PathStrings(owner, old(Walk(t, marked, false)), sep)
      decreases t, 1
    {
      unlinked := [];
      ghost var self, below := if this in marked then [key] else [], WalkAll(t.kids, marked, false);
      if cached {
        var localPath := LocalPathToMe(nodes, at, owner, sep);
        unlinked := [localPath];
      }
      if parent != null {
        parent.children := Without<Node>(parent.children, this);
      }
      var temp := children;
      var more := DeleteAll(temp, t, nodes, at, owner, sep, marked);
      PathStringsConcat(owner, self, below, sep);
      unlinked := unlinked + more;
    }

    // The loop of the destructor over the copied child list of this node.
    method DeleteAll(temp: seq<Node>, ghost t: Shape, ghost nodes: set<Node>, ghost at: Index,
                     owner: string, sep: char, ghost marked: set<Node>)
      returns (unlinked: seq<string>)
      requires t.top == this && temp == Tops(t.kids) && SoundAll(t.kids, this) && this !in NodesOfAll(t.kids)
      requires Up(nodes, at, sep) && NodesOfAll(t.kids) <= nodes
      requires forall n :: n in nodes ==> (n in marked <==> n.cached) && (n.cached ==> n.key != [])
      modifies NodesOf(t)`children
      ensures unlinked == PathStrings(owner, old(WalkAll(t.kids, marked, false)), sep)
      decreases t, 0
    {
      unlinked := [];
      ghost var all := WalkAll(t.kids, marked, false);
      ghost var done, later := [], all;
      assert t.kids[0..] == t.kids;
      for i := 0 to |temp|
        invariant SoundAll(t.kids[i..], this) && NodesOfAll(t.kids[i..]) <= NodesOfAll(t.kids)
        invariant later == WalkAll(t.kids[i..], marked, false) && done + later == all
        invariant unlinked == PathStrings(owner, done, sep)
      {
        ghost var rest := t.kids[i..];
        assert rest[0] == t.kids[i] && rest[1..] == t.kids[i + 1..] && temp[i] == rest[0].top;
        ghost var now := Walk(rest[0], marked, false);
        later := WalkAll(rest[1..], marked, false);
        assert WalkAll(rest, marked, false) == now + later;
        var more := temp[i].Delete(rest[0], nodes, at, owner, sep, marked);
        PathStringsConcat(owner, done, now, sep);
        ConcatAssoc(done, now, later);
        unlinked, done := unlinked + more, done + now;
      }
      assert t.kids[|temp|..] == [] && later == [];
      assert done == done + later;
    }
  }

  lemma ConcatAssoc<T>(a: seq<T>, b: seq<T>, c: seq<T>)
    ensures a + (b + c) == (a + b) + c
  {
  }

  lemma {:induction false} PathStringsConcat(owner: string, a: seq<Path>, b: seq<Path>, sep: char)
    ensures PathStrings(owner, a + b, sep) == PathStrings(owner, a, sep) + PathStrings(owner, b, sep)
  {
    if a == [] {
      assert a + b == b;
    } else {
      PathStringsConcat(owner, a[1..], b, sep);
      assert (a + b)[1..] == a[1..] + b;
    }
  }

  // ---- The shape of a subtree, as the recursive operations walk it ----

  datatype Shape = Shape(top: Node, kids: seq<Shape>)

  ghost function NodesOf(t: Shape): set<Node> {
    {t.top} + NodesOfAll(t.kids)
  }

  ghost function NodesOfAll(l: seq<Shape>): set<Node> {
    if l == [] then {} else NodesOf(l[0]) + NodesOfAll(l[1..])
  }

  ghost function Tops(l: seq<Shape>): seq<Node> {
    seq(|l|, i requires 0 <= i < |l| => l[i].top)
  }

  // The heap holds shape t, without sharing.
  ghost predicate Sound(t: Shape)
    reads NodesOf(t)
  {
    t.top.children == Tops(t.kids) && t.top !in NodesOfAll(t.kids) && SoundAll(t.kids, t.top)
  }

  ghost predicate SoundAll(l: seq<Shape>, parent: Node)
    reads NodesOfAll(l)
  {
    l == [] ||
    (Sound(l[0]) && l[0].top.parent == parent && NodesOf(l[0]) !! NodesOfAll(l[1..]) && SoundAll(l[1..], parent))
  }

  // The keys of the picked nodes: each node before its children, the children forwards or
  // backwards.
  ghost function Walk(t: Shape, pick: set<Node>, back: bool): seq<Path>
    reads NodesOf(t)`key
  {
    (if t.top in pick then [t.top.key] else []) + WalkAll(t.kids, pick, back)
  }

  ghost function WalkAll(l: seq<Shape>, pick: set<Node>, back: bool): seq<Path>
    reads NodesOfAll(l)`key
  {
    if l == [] then []
    else if back then WalkAll(l[1..], pick, back) + Walk(l[0], pick, back)
    else Walk(l[0], pick, back) + WalkAll(l[1..], pick, back)
  }

  ghost predicate Exact(keys: seq<Path>, from: set<Node>)
    reads from`key
  {
    Distinct(keys) && forall q :: q in keys <==> exists n :: n in from && n.key == q
  }

  ghost predicate KeysApart(nodes: set<Node>)
    reads nodes`key
  {
    forall m, n :: m in nodes && n in nodes && m.key == n.key ==> m == n
  }

  // A walk meets every picked node of the shape exactly once.
  lemma {:induction false} WalkExact(t: Shape, pick: set<Node>, back: bool)
    requires Sound(t) && KeysApart(NodesOf(t))
    ensures Exact(Walk(t, pick, back), NodesOf(t) * pick)
    decreases t, 1
  {
    WalkAllExact(t.kids, t.top, pick, back);
    ExactConcat(if t.top in pick then [t.top.key] else [], {t.top} * pick,
                WalkAll(t.kids, pick, back), NodesOfAll(t.kids) * pick, NodesOf(t));
    assert NodesOf(t) * pick == {t.top} * pick + NodesOfAll(t.kids) * pick;
  }

  lemma {:induction false} WalkAllExact(l: seq<Shape>, parent: Node, pick: set<Node>, back: bool)
    requires SoundAll(l, parent) && KeysApart(NodesOfAll(l))
    ensures Exact(WalkAll(l, pick, back), NodesOfAll(l) * pick)
    decreases l, 0
  {
    if l != [] {
      WalkExact(l[0], pick, back);
      WalkAllExact(l[1..], parent, pick, back);
      var first, rest := NodesOf(l[0]) * pick, NodesOfAll(l[1..]) * pick;
      if back {
        ExactConcat(WalkAll(l[1..], pick, back), rest, Walk(l[0], pick, back), first, NodesOfAll(l));
      } else {
        ExactConcat(Walk(l[0], pick, back), first, WalkAll(l[1..], pick, back), rest, NodesOfAll(l));
      }
      assert NodesOfAll(l) * pick == first + rest == rest + first;
    }
  }

  lemma ExactConcat(a: seq<Path>, m: set<Node>, b: seq<Path>, n: set<Node>, all: set<Node>)
    requires Exact(a, m) && Exact(b, n) && m !! n && m + n <= all && KeysApart(all)
    ensures Exact(a + b, m + n)
  {
    forall q | q in b ensures q !in a {
      var y :| y in n && y.key == q;
    }
    DistinctConcat(a, b);
  }
}
