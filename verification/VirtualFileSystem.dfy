/** The virtual file system of one client: a heap tree with parent pointers, changed in
    place, that stands for a map from component sequences to the cached flag. */
module VirtualFileSystem {
  import opened Paths
  import opened PathTree
  import opened TreeNode
  import opened TreeFacts

  class VirtualFileSystemTree {
    const separator: char
    var owner: string
    var root: Node
    ghost var nodes: set<Node>
    ghost var at: Index

    ghost predicate Valid()
      reads `root, `nodes, `at, nodes
    {
      && Up(nodes, at, separator) && Down(nodes)
      && at[[]] == root && !root.cached && root.name == [separator]
    }

    // What the tree stands for.
    ghost function Contents(): Files
      requires Valid()
      reads `root, `nodes, `at, nodes
    {
      FilesOf(nodes, at)
    }

    constructor (separator: char, owner: string)
      ensures Valid() && Contents() == map[] && fresh(nodes)
      ensures this.separator == separator && this.owner == owner
    {
      this.separator, this.owner := separator, owner;
      var r := new Node([separator], null, []);
      root := r;
      nodes := {r};
      at := map[[] := r];
    }

    lemma ContentsClosed()
      requires Valid()
      ensures Closed(Contents().Keys) && Contents().Keys == at.Keys - {[]}
    {
    }

    // No node of a valid tree has two children of the same name.
    lemma NoTwins(n: Node)
      requires Valid() && n in nodes
      ensures !Twins(n)
    {
      assert Distinct(n.children);
      forall i, j | 0 <= i < j < |n.children| ensures n.children[i].name != n.children[j].name {
        var c, d := n.children[i], n.children[j];
        assert c in n.children && d in n.children;
        assert at[c.key].parent == n && at[d.key].parent == n;
        assert c.name == Last(c.key) && d.name == Last(d.key);
        assert c.key == Init(c.key) + [Last(c.key)] && d.key == Init(d.key) + [Last(d.key)];
      }
    }

    method DoFindPath(parent: Node, comps: seq<string>) returns (found: Node?)
      requires Valid() && parent in nodes
      ensures found != null <==> parent.key + comps in at
      ensures found != null ==> found == at[parent.key + comps]
      decreases |comps|
    {
      if comps == [] {
        assert parent.key + comps == parent.key;
        return parent;
      }
      var child := parent.GetChildren(comps[0]);
      ghost var k := parent.key + [comps[0]];
      assert parent.key + comps == k + comps[1..];
      assert Init(k) == parent.key && (parent.key + comps)[..|k|] == k;
      if child != null {
        assert at[child.key].parent == parent;
        assert child.key == Init(child.key) + [Last(child.key)] == k;
        found := DoFindPath(child, comps[1..]);
      } else {
        found := null;
        NoChildNamed(parent, comps[0]);
        if parent.key + comps in at {
          IndexPrefix(nodes, at, separator, parent.key + comps, |k|);
        }
      }
    }

    method DoFindNode(path: string) returns (found: Node?)
      requires Valid()
      ensures found != null <==> Components(path, separator) in Contents()
      ensures found != null ==> found == at[Components(path, separator)]
    {
      var comps := Components(path, separator);
      if comps == [] {
        return null;
      }
      found := DoFindPath(root, comps);
      assert [] + comps == comps;
    }

    method Find(path: string) returns (found: bool, cached: bool)
      requires Valid()
      ensures found <==> Components(path, separator) in Contents()
      ensures found ==> cached == Contents()[Components(path, separator)]
    {
      var node := DoFindNode(path);
      if node != null {
        return true, node.cached;
      }
      return false, false;
    }

    method SetCached(path: string, cached: bool) returns (ok: bool)
      requires Valid()
      modifies nodes`cached
      ensures Valid() && at == old(at) && nodes == old(nodes)
      ensures ok <==> Components(path, separator) in old(Contents())
      ensures Contents() == SetFlag(old(Contents()), Components(path, separator), cached)
      ensures ok ==> Contents()[Components(path, separator)] == cached
    {
      var node := DoFindNode(path);
      ok := node != null;
      ghost var before := Contents();
      if node != null {
        node.cached := cached;
        assert at[node.key] == node;
        FlagSet(before, FilesOf(nodes, at), node.key, cached);
      }
    }

    static lemma FlagSet(before: Files, after: Files, k: Path, cached: bool)
      requires after.Keys == before.Keys && k in before && after[k] == cached
      requires forall p :: p in before && p != k ==> after[p] == before[p]
      ensures after == SetFlag(before, k, cached)
    {
    }

    method Empty() returns (empty: bool)
      requires Valid()
      ensures empty <==> Contents() == map[]
    {
      empty := root.children == [];
      ChildrenCover(nodes, at, separator, []);
      if root.children != [] {
        assert root.children[0] in root.children;
        assert root.children[0].key in Contents();
      } else {
        assert forall p :: p in at ==> at[p] in Below(nodes, []);
      }
    }

    // One recursion of the listing: the current path grows by this node's name and is back at
    // its old value on return.
    method DoGetPaths(node: Node, current: string, paths: seq<string>, kind: PathType,
                      ghost t: Shape, ghost pick: set<Node>)
      returns (current': string, paths': seq<string>)
      requires Up(nodes, at, separator)
      requires t.top == node && Sound(t) && NodesOf(t) <= nodes && node.key != []
      requires current == Canonical(Init(node.key), separator) + [separator]
      requires forall n :: n in NodesOf(t) ==> (n in pick <==> Matches(kind, n.children == []))
      ensures current' == current
      ensures paths' == PathStrings("", Walk(t, pick, true), separator) + paths
      decreases t, 1
    {
      var start := current + node.name;
      assert start == Canonical(node.key, separator) by {
        assert at[node.key].parent == at[Init(node.key)];
        assert node.key == Init(node.key) + [node.name];
        CanonicalSnoc(Init(node.key), node.name, separator);
      }
      current', paths' := DoGetAll(node.children, start + [separator], paths, kind, t, pick);
      current' := current'[..|current'| - 1];
      assert current' == start;
      if Matches(kind, node.children == []) {
        paths' := [current'] + paths';
      }
      PathStringsFront(node in pick, node.key, WalkAll(t.kids, pick, true), separator, paths);
      current' := current'[..|current'| - |node.name|];
    }

    static lemma PathStringsFront(picked: bool, k: Path, rest: seq<Path>, sep: char, paths: seq<string>)
      ensures PathStrings("", (if picked then [k] else []) + rest, sep) + paths
           == (if picked then [Canonical(k, sep)] else []) + (PathStrings("", rest, sep) + paths)
    {
      if picked {
        assert LocalPath("", k, sep) == Canonical(k, sep);
        assert ([k] + rest)[1..] == rest;
      } else {
        assert [] + rest == rest;
      }
    }

    // The listing loop over the copied child list of one node.
    method DoGetAll(children: seq<Node>, current: string, paths: seq<string>, kind: PathType,
                    ghost t: Shape, ghost pick: set<Node>)
      returns (current': string, paths': seq<string>)
      requires Up(nodes, at, separator)
      requires SoundAll(t.kids, t.top) && NodesOfAll(t.kids) <= nodes && t.top in nodes && children == Tops(t.kids)
      requires current == Canonical(t.top.key, separator) + [separator]
      requires forall n :: n in NodesOfAll(t.kids) ==> (n in pick <==> Matches(kind, n.children == []))
      ensures current' == current
      ensures paths' == PathStrings("", WalkAll(t.kids, pick, true), separator) + paths
      decreases t, 0
    {
      current', paths' := current, paths;
      ghost var done, later := [], WalkAll(t.kids, pick, true);
      assert t.kids[0..] == t.kids;
      for i := 0 to |children|
        invariant current' == current
        invariant SoundAll(t.kids[i..], t.top) && NodesOfAll(t.kids[i..]) <= NodesOfAll(t.kids)
        invariant later == WalkAll(t.kids[i..], pick, true) && later + done == WalkAll(t.kids, pick, true)
        invariant paths' == PathStrings("", done, separator) + paths
      {
        ghost var rest := t.kids[i..];
        assert rest[0] == t.kids[i] && rest[1..] == t.kids[i + 1..] && children[i] == rest[0].top;
        assert at[children[i].key].parent == t.top;
        ghost var now := Walk(rest[0], pick, true);
        later := WalkAll(rest[1..], pick, true);
        current', paths' := DoGetPaths(children[i], current', paths', kind, rest[0], pick);
        PathStringsConcat("", now, done, separator);
        ConcatAssoc(PathStrings("", now, separator), PathStrings("", done, separator), paths);
        ConcatAssoc(later, now, done);
        done := now + done;
      }
      assert t.kids[|children|..] == [] && later == [];
      assert done == later + done;
    }

    // The listing: every path of the asked kind, exactly once.
    method Get(kind: PathType) returns (paths: seq<string>)
      requires Valid()
      ensures Distinct(paths)
      ensures Elements(paths) == Listing(Contents().Keys, kind, separator)
    {
      ghost var t := ShapeAt(nodes, at, separator, []);
      ghost var pick := Listed(kind);
      ShapeSound(nodes, at, separator, []);
      WalkListing(kind);
      var current;
      current, paths := DoGetAll(root.children, root.name, [], kind, t, pick);
    }

    ghost function Listed(kind: PathType): set<Node>
      reads this, nodes
    {
      set n | n in nodes && n != root && Matches(kind, n.children == [])
    }

    lemma WalkListing(kind: PathType)
      requires Valid()
      ensures var u := PathStrings("", WalkAll(ShapeAt(nodes, at, separator, []).kids, Listed(kind), true), separator);
              Distinct(u + []) && Elements(u + []) == Listing(Contents().Keys, kind, separator)
    {
      var t := ShapeAt(nodes, at, separator, []);
      assert WalkAll(t.kids, Listed(kind), true) == Walk(t, Listed(kind), true);
      var u := PathStrings("", WalkAll(t.kids, Listed(kind), true), separator);
      assert u + [] == u;
      WalkStrings(nodes, at, separator, [], Listed(kind), true, "");
      ListingStrings(kind, Listed(kind));
    }

    lemma ListingStrings(kind: PathType, pick: set<Node>)
      requires Valid() && pick == Listed(kind)
      ensures Picked(at, [], pick, "", separator) == Listing(Contents().Keys, kind, separator)
    {
      var s := at.Keys - {[]};
      ContentsClosed();
      forall q ensures q in PickedPaths(at, [], pick) <==> q in KindPaths(s, kind) {
        if q in s {
          LeafIffNoChildren(nodes, at, separator, q);
          assert at[q].key == q;
        }
      }
      forall q ensures LocalPath("", q, separator) == Canonical(q, separator) {
        assert "" + Canonical(q, separator) == Canonical(q, separator);
      }
    }

    // A new node below parent. It is entered in the index when its path is not taken;
    // otherwise the parent has two children of the same name.
    method NewNode(name: string, parent: Node) returns (node: Node)
      requires Valid() && parent in nodes && ValidName(name, separator)
      modifies this`at, this`nodes, parent`children
      ensures fresh(node) && node.key == parent.key + [name] && node.children == [] && !node.cached
      ensures node.key !in old(at) ==>
                Valid() && at == old(at)[node.key := node] && nodes == old(nodes) + {node}
      ensures node.key in old(at) ==> at == old(at) && nodes == old(nodes) && Twins(parent)
    {
      ghost var k := parent.key + [name];
      assert Init(k) == parent.key && Last(k) == name;
      ghost var siblings := parent.children;
      DownSplit(nodes, parent);
      ghost var j := if k in at then IndexOf(k) else 0;
      node := new Node(name, parent, k);
      if k !in at {
        Enter(node, parent, siblings);
      } else {
        assert parent.children[0].name == parent.children[j + 1].name;
      }
    }

    // A node that was put in front of its parent's child list enters the index.
    ghost method Enter(node: Node, parent: Node, siblings: seq<Node>)
      requires Up(nodes, at, separator) && at[[]] == root && !root.cached && root.name == [separator]
      requires parent in nodes && DownWith(nodes, parent, siblings) && parent.children == [node] + siblings
      requires node !in nodes && node.key != [] && node.key !in at && Init(node.key) == parent.key
      requires node.name == Last(node.key) && ValidName(node.name, separator)
      requires node.parent == parent && node.children == [] && forall c :: c in nodes ==> c.parent != node
      modifies this`at, this`nodes
      ensures Valid() && at == old(at)[node.key := node] && nodes == old(nodes) + {node}
    {
      ghost var nodes0, at0 := nodes, at;
      at, nodes := at[node.key := node], nodes + {node};
      DownGrown(nodes0, parent, siblings, node);
      GrownUp(nodes0, at0, separator, node);
    }

    // Where the node at k stands in its parent's child list.
    ghost function IndexOf(k: Path): (j: nat)
      requires Valid() && k in at && k != []
      reads this, nodes
      ensures Init(k) in at && j < |at[Init(k)].children| && at[Init(k)].children[j] == at[k] && at[k].name == Last(k)
    {
      assert at[k].parent == at[Init(k)] && at[k].parent.children == at[Init(k)].children;
      var j :| 0 <= j < |at[Init(k)].children| && at[Init(k)].children[j] == at[k];
      j
    }

    lemma NewContents(before: Files, at0: Index, node: Node)
      requires Valid() && node.key != [] && node.key !in at0 && at == at0[node.key := node] && !node.cached
      requires before.Keys == at0.Keys - {[]} && forall p :: p in before ==> before[p] == at0[p].cached
      ensures Contents() == before[node.key := false]
    {
    }

    // The addressed node exists already: a second node is hung below it.
    method AddBelow(match_: Node, current: string) returns (ghost added: set<Node>)
      requires Valid() && match_ in nodes && match_.key != [] && current == Last(match_.key) && ValidName(current, separator)
      modifies this`at, this`nodes, match_`children
      ensures nodes == old(nodes) + added && fresh(added)
      ensures AddOk(old(Contents()), match_.key) ==>
                Valid() && Contents() == AddFile(old(Contents()), match_.key)
      ensures !AddOk(old(Contents()), match_.key) ==> match_.key in at && at[match_.key] == match_ && Twins(match_)
    {
      ghost var before, at0 := Contents(), at;
      var node := NewNode(current, match_);
      added := nodes - old(nodes);
      if node.key !in before {
        NewContents(before, at0, node);
      }
    }

    // The state to reach by adding what is left of the way to full, and whether it can be
    // reached without giving one node two children of the same name.
    static ghost predicate Goal(before: Files, comps: seq<string>, full: Path, goal: Files, ok: bool) {
      if comps == [] then goal == before && ok
      else goal == AddFile(before, full) && ok == AddOk(before, full)
    }

    // The first missing node on the way to full.
    method AddFirstMissing(parent: Node, comps: seq<string>,
                           ghost before: Files, ghost full: Path, ghost goal: Files, ghost ok: bool)
      returns (node: Node, ghost after: Files)
      requires Valid() && parent in nodes && ValidPath(comps, separator) && full == parent.key + comps
      requires comps != [] && parent.key + [comps[0]] !in at && Contents() == before && Goal(before, comps, full, goal, ok)
      modifies this`at, this`nodes, parent`children
      ensures Valid() && node in nodes && nodes == old(nodes) + {node} && fresh(node)
      ensures full == node.key + comps[1..] && Contents() == after && Goal(after, comps[1..], full, goal, ok) && ok
    {
      ghost var at0 := at;
      ghost var k := parent.key + [comps[0]];
      assert parent.key != [] ==> parent.key in before;
      ContentsClosed();
      GoalStep(before, parent.key, comps, full, goal, ok);
      node := NewNode(comps[0], parent);
      NewContents(before, at0, node);
      after := before[k := false];
      assert k + comps[1..] == full;
    }

    static lemma GoalStep(before: Files, p: Path, comps: seq<string>, full: Path, goal: Files, ok: bool)
      requires Closed(before.Keys) && comps != [] && p + [comps[0]] !in before && (p == [] || p in before)
      requires full == p + comps && Goal(before, comps, full, goal, ok)
      ensures Goal(before[p + [comps[0]] := false], comps[1..], full, goal, ok) && ok
    {
      var k := p + [comps[0]];
      assert Init(k) == p && k + comps[1..] == full;
      if comps[1..] == [] {
        assert full == k;
        AddOneFile(before, k);
      } else {
        AddViaPrefix(before, k, full);
      }
    }

    // No child matches: the missing nodes are created from here on down.
    method AddMissing(parent: Node, comps: seq<string>, done: bool,
                      ghost before: Files, ghost full: Path, ghost goal: Files, ghost ok: bool)
      returns (rest: seq<string>, ghost added: set<Node>)
      requires Valid() && parent in nodes && ValidPath(comps, separator) && !done && full == parent.key + comps
      requires comps != [] && parent.key + [comps[0]] !in at && Contents() == before && Goal(before, comps, full, goal, ok)
      modifies this`at, this`nodes, nodes`children
      ensures rest == [] && nodes == old(nodes) + added && fresh(added)
      ensures ok && Valid() && Contents() == goal
      decreases |comps|, 0
    {
      var node, after := AddFirstMissing(parent, comps, before, full, goal, ok);
      rest, added := DoAdd(node, comps[1..], done, after, full, goal, ok);
      added := {node} + added;
    }

    // A child matches: when no component is left a node is hung below it, and the flag is set;
    // otherwise the addition goes on below it with the flag as it was.
    method AddAtMatch(child: Node, comps: seq<string>, done: bool,
                      ghost before: Files, ghost full: Path, ghost goal: Files, ghost ok: bool)
      returns (rest: seq<string>, done': bool, ghost added: set<Node>)
      requires Valid() && child in nodes && child.key != [] && ValidPath(comps, separator) && !done
      requires full == child.key + comps
      requires Contents() == before && goal == AddFile(before, full) && ok == AddOk(before, full)
      modifies this`at, this`nodes, nodes`children
      ensures rest == [] && nodes == old(nodes) + added && fresh(added) && (done' <==> comps == [])
      ensures ok ==> Valid() && Contents() == goal
      ensures !ok ==> full in at && Twins(at[full])
      decreases |comps|, 2
    {
      rest, done' := comps, done;
      if rest == [] {
        assert full == child.key && at[full].parent == at[Init(full)];
        added := AddBelow(child, child.name);
        done' := true;
      } else {
        rest, added := DoAdd(child, rest, done', before, full, goal, ok);
      }
    }

    // One level of the addition. The flag travels by value, as in the original, so a caller
    // one level up never sees it set; sibling names being distinct makes that harmless.
    method DoAdd(parent: Node, comps: seq<string>, done: bool,
                 ghost before: Files, ghost full: Path, ghost goal: Files, ghost ok: bool)
      returns (rest: seq<string>, ghost added: set<Node>)
      requires Valid() && parent in nodes && ValidPath(comps, separator) && !done
      requires full == parent.key + comps && Contents() == before && Goal(before, comps, full, goal, ok)
      modifies this`at, this`nodes, nodes`children
      ensures rest == [] && nodes == old(nodes) + added && fresh(added)
      ensures ok ==> Valid() && Contents() == goal
      ensures !ok ==> full in at && Twins(at[full])
      decreases |comps|, 1
    {
      added := {};
      if comps == [] {
        return [], {};
      }
      ghost var k := parent.key + [comps[0]];
      assert k + comps[1..] == full;
      var current, pending, finished := comps[0], comps, done;
      var childrens := parent.children;
      for i := 0 to |childrens|
        invariant !finished && (pending == comps || pending == [])
        invariant pending != [] ==> Valid() && nodes == old(nodes) && Contents() == before
        invariant pending != [] ==> parent.children == childrens
        invariant pending != [] ==> forall j :: 0 <= j < i ==> childrens[j].name != current
        invariant pending == [] ==> nodes == old(nodes) + added && fresh(added)
        invariant pending == [] ==> forall j :: i <= j < |childrens| ==> childrens[j].name != current
        invariant pending == [] && ok ==> Valid() && Contents() == goal
        invariant pending == [] && !ok ==> full in at && Twins(at[full])
      {
        if childrens[i].name == current {
          assert pending == comps;
          ChildKey(parent, childrens[i]);
          ChildrenNames(parent);
          pending, finished, added := AddAtMatch(childrens[i], pending[1..], finished, before, full, goal, ok);
          if finished {
            return [], added;
          }
        }
        if finished {
          break;
        }
      }
      if pending == [] {
        return [], added;
      }
      NoChildNamed(parent, current);
      rest, added := AddMissing(parent, pending, finished, before, full, goal, ok);
    }

    lemma ChildrenNames(parent: Node)
      requires Valid() && parent in nodes
      ensures forall j, l :: 0 <= j < l < |parent.children| ==> parent.children[j].name != parent.children[l].name
    {
      NoTwins(parent);
    }

    lemma ChildKey(parent: Node, child: Node)
      requires Valid() && parent in nodes && child in parent.children
      ensures child in nodes && child.key == parent.key + [child.name] && ValidName(child.name, separator)
    {
    }

    lemma NoChildNamed(parent: Node, name: string)
      requires Valid() && parent in nodes && forall c :: c in parent.children ==> c.name != name
      ensures parent.key + [name] !in at
    {
      var k := parent.key + [name];
      if k in at {
        var j := IndexOf(k);
      }
    }

    // Adding a path inserts exactly its missing prefixes, or a second node below it when it
    // was there already; sibling names stay distinct exactly when AddOk held.
    method Add(path: string)
      requires Valid()
      modifies this`at, this`nodes, nodes`children
      ensures fresh(nodes - old(nodes))
      ensures AddOk(old(Contents()), Components(path, separator)) ==>
                Valid() && Contents() == AddFile(old(Contents()), Components(path, separator))
      ensures !AddOk(old(Contents()), Components(path, separator)) ==>
                Components(path, separator) in at && Twins(at[Components(path, separator)])
    {
      var comps := Components(path, separator);
      ComponentsValid(path, separator);
      assert root.key + comps == comps;
      var rest, added := DoAdd(root, comps, false, Contents(), comps, AddFile(Contents(), comps), AddOk(Contents(), comps));
    }

    // Renaming gives the node at path the last component of newPath; it fails when there is
    // no such node or no such component, and it breaks sibling-name distinctness exactly
    // when the new name is taken by a sibling.
    method Rename(path: string, newPath: string) returns (ok: bool)
      requires Valid()
      modifies this`at, nodes`name, nodes`key
      ensures ok <==> Components(path, separator) in old(Contents()) && Last(Tokens(newPath, separator)) != []
      ensures RenameOk(old(Contents()), Components(path, separator), Last(Tokens(newPath, separator))) ==>
                Valid() && nodes == old(nodes) &&
                Contents() == RenameFile(old(Contents()), Components(path, separator), Last(Tokens(newPath, separator)))
      ensures !RenameOk(old(Contents()), Components(path, separator), Last(Tokens(newPath, separator))) ==>
                ok && exists n :: n in nodes && Twins(n)
    {
      var node := DoFindNode(path);
      ghost var k, before := Components(path, separator), Contents();
      if node == null {
        assert RenameFile(before, k, Last(Tokens(newPath, separator))) == before;
        return false;
      }
      var fileName := Filename(newPath, separator);
      if fileName == [] {
        assert RenameFile(before, k, fileName) == before;
        return false;
      }
      assert node.key == k;
      SetName(node, fileName);
      ok := true;
    }

    method SetName(node: Node, name: string)
      requires Valid() && node in nodes && node.key != [] && ValidName(name, separator)
      modifies this`at, node`name, nodes`key
      ensures nodes == old(nodes)
      ensures RenameOk(old(Contents()), old(node.key), name) ==>
                Valid() && Contents() == RenameFile(old(Contents()), old(node.key), name)
      ensures !RenameOk(old(Contents()), old(node.key), name) ==> exists n :: n in nodes && Twins(n)
    {
      ghost var p, before := node.key, Contents();
      ghost var q := Renamed(p, name);
      ghost var i, j := IndexOf(p), if q in at then IndexOf(q) else 0;
      ghost var keyOf := KeysRecorded(nodes, at);
      ContentsClosed();
      assert Init(q) == Init(p) && Last(q) == name;
      node.name := name;
      if q == p || q !in at {
        MoveKeys(node, keyOf, before, p, name);
      } else {
        TwinsAt(at[Init(p)], i, j);
      }
    }

    static lemma TwinsAt(n: Node, i: nat, j: nat)
      requires i < |n.children| && j < |n.children| && i != j && n.children[i].name == n.children[j].name
      ensures Twins(n)
    {
    }

    // The node at p has a new name: its subtree gets its new keys.
    ghost method MoveKeys(node: Node, keyOf: map<Node, Path>, before: Files, p: Path, name: string)
      requires LinksWith(nodes, at, keyOf) && Down(nodes)
      requires at[[]] == root && !root.cached && root.name == [separator]
      requires node in nodes && keyOf[node] == p && p != [] && node.name == name && ValidName(name, separator)
      requires forall n {:trigger n.key} :: n in nodes ==> n.key == keyOf[n]
      requires forall n :: n in nodes && n != node && keyOf[n] != [] ==> n.name == Last(keyOf[n]) && ValidName(n.name, separator)
      requires Closed(before.Keys) && before == FilesOf(nodes, at)
      requires Renamed(p, name) == p || Renamed(p, name) !in at
      modifies this`at, nodes`key
      ensures Valid() && nodes == old(nodes) && Contents() == RenameFile(before, p, name)
    {
      ghost var at0 := at;
      at := MovedIndex(at, p, name);
      AssignKeys(nodes, keyOf, p, Renamed(p, name));
      MovedTree(nodes, at0, at, separator, keyOf, node, before, p, name);
    }

    // Removing a path drops exactly one subtree and unlinks the local files of exactly its
    // cached nodes, each once.
    method Remove(path: string) returns (ok: bool, unlinked: seq<string>)
      requires Valid()
      modifies this`at, this`nodes, nodes`children
      ensures Valid() && nodes <= old(nodes)
      ensures ok <==> Components(path, separator) in old(Contents())
      ensures Contents() == if ok then RemoveFile(old(Contents()), Components(path, separator)) else old(Contents())
      ensures Distinct(unlinked)
      ensures Elements(unlinked) == if ok then CachedFiles(old(Contents()), Components(path, separator), owner, separator) else {}
    {
      var node := DoFindNode(path);
      if node == null {
        return false, [];
      }
      unlinked := Destroy(node);
      ok := true;
    }

    // The effect of deleting the subtree at a node other than the root.
    method Destroy(node: Node) returns (unlinked: seq<string>)
      requires Valid() && node in nodes && node.key != []
      modifies this`at, this`nodes, nodes`children
      ensures Valid() && nodes <= old(nodes)
      ensures Contents() == RemoveFile(old(Contents()), node.key)
      ensures Distinct(unlinked) && Elements(unlinked) == CachedFiles(old(Contents()), node.key, owner, separator)
    {
      ghost var k, goal := node.key, RemoveFile(Contents(), node.key);
      ghost var marked := set n | n in nodes && n.cached;
      ghost var t := ShapeAt(nodes, at, separator, k);
      ghost var rest, at' := nodes - Below(nodes, k), Pruned(at, k);
      ShapeSound(nodes, at, separator, k);
      CachedStrings(k, marked);
      PrunedDown(k, node);
      PrunedUp(nodes, at, separator, k);
      PrunedFiles(nodes, at, separator, k);
      unlinked := DeleteSubtree(node, t, rest, at', marked);
      assert FilesOf(nodes, at) == goal;
    }

    method DeleteSubtree(node: Node, ghost t: Shape, ghost rest: set<Node>, ghost at': Index, ghost marked: set<Node>)
      returns (unlinked: seq<string>)
      requires t.top == node && Sound(t) && NodesOf(t) <= nodes && rest == nodes - NodesOf(t)
      requires Up(nodes, at, separator) && Up(rest, at', separator)
      requires [] in at' && at'[[]] == root && !root.cached && root.name == [separator]
      requires node.parent != null && node.parent in rest
      requires DownWith(rest, node.parent, Without<Node>(node.parent.children, node))
      requires forall n :: n in nodes ==> (n in marked <==> n.cached) && (n.cached ==> n.key != [])
      modifies this`at, this`nodes, nodes`children
      ensures Valid() && nodes == rest && at == at'
      ensures unlinked == PathStrings(owner, old(Walk(t, marked, false)), separator)
    {
      unlinked := node.Delete(t, nodes, at, owner, separator, marked);
      nodes, at := rest, at';
      DownJoin(rest, node.parent);
    }

    // The tree's own destructor unlinks the local file of every cached node, each once.
    method DestroyAll() returns (unlinked: seq<string>)
      requires Valid()
      modifies nodes`children
      ensures Distinct(unlinked) && Elements(unlinked) == CachedFiles(old(Contents()), [], owner, separator)
    {
      ghost var marked := set n | n in nodes && n.cached;
      ghost var t := ShapeAt(nodes, at, separator, []);
      ShapeSound(nodes, at, separator, []);
      CachedStrings([], marked);
      unlinked := root.Delete(t, nodes, at, owner, separator, marked);
    }

    lemma CachedStrings(k: Path, marked: set<Node>)
      requires Valid() && k in at && marked == set n | n in nodes && n.cached
      ensures var u := PathStrings(owner, Walk(ShapeAt(nodes, at, separator, k), marked, false), separator);
              Distinct(u) && Elements(u) == CachedFiles(Contents(), k, owner, separator)
    {
      WalkStrings(nodes, at, separator, k, marked, false, owner);
      ContentsClosed();
      assert PickedPaths(at, k, marked) == CachedBelow(Contents(), k);
    }

    lemma PrunedDown(k: Path, node: Node)
      requires Valid() && k in at && k != [] && node == at[k]
      ensures var rest := nodes - Below(nodes, k);
              && node.parent != null && node.parent in rest && node.parent !in Below(nodes, k)
              && DownWith(rest, node.parent, Without<Node>(node.parent.children, node))
    {
      var below := Below(nodes, k);
      var rest := nodes - below;
      assert at[k].parent == at[Init(k)];
      assert Distinct(node.parent.children);
      WithoutDistinct<Node>(node.parent.children, node);
      forall c | c in nodes && c.key != [] ensures c.parent == at[Init(c.key)] && c.parent != null {
        assert at[c.key].parent == at[Init(c.key)];
      }
      forall n, c | n in rest && c in n.children && c != node ensures c in rest {
        if k <= c.key { PrefixOfParent(k, c.key); }
      }
      forall c | c in rest && c.parent == node.parent ensures c in Without<Node>(node.parent.children, node) {
        assert c in c.parent.children;
        WithoutHas<Node>(node.parent.children, node, c);
      }
      forall c | c in Without<Node>(node.parent.children, node) ensures c in rest && c.parent == node.parent {
        WithoutHas<Node>(node.parent.children, node, c);
      }
    }

    static lemma PrefixOfParent(k: Path, q: Path)
      requires k <= q && q != []
      ensures k != q ==> k <= Init(q)
    {
    }
  }
}
