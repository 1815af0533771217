/** What a virtual file system tree means: a prefix-closed map from non-empty component
    sequences to the cached flag, and the path sets other users keep of it. */
module PathTree {
  import opened Paths

  type Files = map<Path, bool>

  predicate Closed(s: set<Path>) {
    && [] !in s
    && forall p {:trigger Init(p)} :: p in s && |p| > 1 ==> Init(p) in s
  }

  function Prefixes(p: Path): set<Path> {
    set i | 1 <= i <= |p| :: p[..i]
  }

  // ---- Path sets: the effect of a notification on a view ----

  function InsertPath(s: set<Path>, p: Path): set<Path> {
    s + Prefixes(p)
  }

  function ErasePath(s: set<Path>, p: Path): set<Path> {
    if p == [] then s else set k | k in s && !(p <= k)
  }

  // Where key k goes when the node at p becomes the node at q.
  function Rekey(k: Path, p: Path, q: Path): Path {
    if p <= k then q + k[|p|..] else k
  }

  function Renamed(p: Path, name: string): Path
    requires p != []
  {
    Init(p) + [name]
  }

  function MovePath(s: set<Path>, p: Path, name: string): set<Path> {
    if p == [] || p !in s || name == [] then s
    else set k | k in s :: Rekey(k, p, Renamed(p, name))
  }

  // ---- Maps: the effect of an operation on the tree itself ----

  // Adding a path that is already a node hangs a second node below it, named like its
  // last component.
  function AddFile(m: Files, p: Path): Files {
    if p == [] then m
    else if p in m then (if p + [Last(p)] in m then m else m[p + [Last(p)] := false])
    else m + map k | k in Prefixes(p) - m.Keys :: false
  }

  // The guard under which adding p leaves sibling names distinct.
  predicate AddOk(m: Files, p: Path) {
    p == [] || p !in m || p + [Last(p)] !in m
  }

  function AddAll(m: Files, l: seq<Path>): Files
    decreases |l|
  {
    if l == [] then m else AddAll(AddFile(m, l[0]), l[1..])
  }

  predicate AllAddsOk(m: Files, l: seq<Path>)
    decreases |l|
  {
    l == [] || (AddOk(m, l[0]) && AllAddsOk(AddFile(m, l[0]), l[1..]))
  }

  function RemoveFile(m: Files, p: Path): Files {
    if p == [] then m else map k | k in m && !(p <= k) :: m[k]
  }

  function FlagAt(m: Files, k: Path): bool {
    k in m && m[k]
  }

  predicate RenameOk(m: Files, p: Path, name: string) {
    p == [] || p !in m || name == [] || Renamed(p, name) == p || Renamed(p, name) !in m
  }

  function RenameFile(m: Files, p: Path, name: string): Files {
    if p == [] || p !in m || name == [] then m
    else
      var q := Renamed(p, name);
      map k | k in MovePath(m.Keys, p, name) :: FlagAt(m, Rekey(k, q, p))
  }

  function SetFlag(m: Files, p: Path, cached: bool): Files {
    if p in m then m[p := cached] else m
  }

  // ---- Closure under prefixes ----

  lemma {:induction false} ClosedPrefix(s: set<Path>, p: Path, i: nat)
    requires Closed(s) && p in s && 1 <= i <= |p|
    ensures p[..i] in s
    decreases |p|
  {
    if i < |p| {
      ClosedPrefix(s, Init(p), i);
      assert Init(p)[..i] == p[..i];
    } else {
      assert p[..i] == p;
    }
  }

  lemma PrefixesIn(s: set<Path>, p: Path)
    requires Closed(s) && p in s
    ensures Prefixes(p) <= s
  {
    forall k | k in Prefixes(p) ensures k in s {
      var i :| 1 <= i <= |p| && k == p[..i];
      ClosedPrefix(s, p, i);
    }
  }

  lemma PrefixesShape(p: Path)
    ensures forall k :: k in Prefixes(p) <==> k != [] && k <= p
    ensures Closed(Prefixes(p))
  {
    forall k | k != [] && k <= p ensures k in Prefixes(p) {
      assert k == p[..|k|];
    }
    forall k | k in Prefixes(p) && |k| > 1 ensures Init(k) in Prefixes(p) {
      assert Init(k) == p[..|k| - 1];
    }
  }

  lemma InsertClosed(s: set<Path>, p: Path)
    requires Closed(s)
    ensures Closed(InsertPath(s, p))
  {
    PrefixesShape(p);
  }

  lemma EraseClosed(s: set<Path>, p: Path)
    requires Closed(s)
    ensures Closed(ErasePath(s, p))
  {
  }

  lemma RekeyInit(k: Path, p: Path, name: string)
    requires p != [] && |k| > 1
    ensures var q := Renamed(p, name);
            && Rekey(k, p, q) != []
            && (k == p ==> Init(Rekey(k, p, q)) == Init(p))
            && (k != p ==> Init(Rekey(k, p, q)) == Rekey(Init(k), p, q))
  {
  }

  lemma RekeyParts(k: Path, p: Path, name: string)
    requires p != [] && k != []
    ensures var q := Renamed(p, name);
            && Rekey(k, p, q) != []
            && Init(Rekey(k, p, q)) == Rekey(Init(k), p, q)
            && Last(Rekey(k, p, q)) == if k == p then name else Last(k)
  {
  }

  lemma MoveClosed(s: set<Path>, p: Path, name: string)
    requires Closed(s)
    ensures Closed(MovePath(s, p, name))
  {
    if p != [] && p in s && name != [] {
      var q := Renamed(p, name);
      forall k' | k' in MovePath(s, p, name)
        ensures k' != [] && (|k'| > 1 ==> Init(k') in MovePath(s, p, name))
      {
        var k :| k in s && k' == Rekey(k, p, q);
        assert k != [] && |k'| == |k|;
        if |k| > 1 {
          RekeyInit(k, p, name);
          if k == p {
            assert Init(p) in s && !(p <= Init(p));
            assert Rekey(Init(p), p, q) == Init(p);
          }
        }
      }
    }
  }

  lemma AddClosed(m: Files, p: Path)
    requires Closed(m.Keys)
    ensures Closed(AddFile(m, p).Keys)
  {
    if p != [] {
      if p in m {
        assert Init(p + [Last(p)]) == p;
      } else {
        PrefixesShape(p);
      }
    }
  }

  lemma {:induction false} AddAllClosed(m: Files, l: seq<Path>)
    requires Closed(m.Keys)
    ensures Closed(AddAll(m, l).Keys)
    decreases |l|
  {
    if l != [] {
      AddClosed(m, l[0]);
      AddAllClosed(AddFile(m, l[0]), l[1..]);
    }
  }

  // ---- Trees against views ----

  // An addition marks nothing cached, and unmarks nothing.
  lemma AddKeepsFlags(m: Files, p: Path)
    ensures forall k :: k in AddFile(m, p) ==> AddFile(m, p)[k] == (k in m && m[k])
    ensures forall k :: k in m ==> k in AddFile(m, p)
  {
  }

  // A view that inserts the announced path follows the tree exactly when the announced
  // path was not yet a node (or the second node below it was there already).
  lemma AddMatchesInsert(m: Files, p: Path)
    requires Closed(m.Keys)
    ensures AddFile(m, p).Keys == InsertPath(m.Keys, p)
            <==> (p == [] || p !in m || p + [Last(p)] in m)
  {
    PrefixesShape(p);
    if p in m {
      PrefixesIn(m.Keys, p);
      assert InsertPath(m.Keys, p) == m.Keys;
    } else if p != [] {
      assert AddFile(m, p).Keys == m.Keys + (Prefixes(p) - m.Keys);
    }
  }

  lemma RemoveMatchesErase(m: Files, p: Path)
    ensures RemoveFile(m, p).Keys == ErasePath(m.Keys, p)
  {
  }

  lemma RekeyBack(k: Path, p: Path, q: Path)
    requires |p| == |q| && (p <= k || !(q <= k))
    ensures Rekey(Rekey(k, p, q), q, p) == k
  {
  }

  lemma NothingBelow(s: set<Path>, q: Path, k: Path)
    requires Closed(s) && q != [] && q !in s && k in s
    ensures !(q <= k)
  {
    if q <= k {
      assert k[..|q|] == q;
      ClosedPrefix(s, k, |q|);
    }
  }

  // r holds m's flags, the subtree at p moved to q.
  ghost predicate Rekeyed(m: Files, r: Files, p: Path, q: Path) {
    && (forall k {:trigger Rekey(k, p, q)} :: k in m ==> Rekey(k, p, q) in r && r[Rekey(k, p, q)] == m[k])
    && (forall j {:trigger Rekey(j, q, p)} :: j in r ==> Rekey(j, q, p) in m)
    && (forall j {:trigger Rekey(Rekey(j, q, p), p, q)} :: j in r ==> Rekey(Rekey(j, q, p), p, q) == j)
  }

  // Renaming rekeys exactly the subtree at p and keeps every flag.
  lemma RenameRekeys(m: Files, p: Path, name: string)
    requires Closed(m.Keys) && RenameOk(m, p, name) && p != [] && p in m && name != []
    ensures Rekeyed(m, RenameFile(m, p, name), p, Renamed(p, name))
    ensures RenameFile(m, p, name).Keys == MovePath(m.Keys, p, name)
  {
    var q := Renamed(p, name);
    forall k | k in m ensures Rekey(Rekey(k, p, q), q, p) == k {
      if q != p { NothingBelow(m.Keys, q, k); }
      RekeyBack(k, p, q);
    }
  }

  lemma RekeyedBack(m: Files, r: Files, b: Files, p: Path, q: Path)
    requires Rekeyed(m, r, p, q) && Rekeyed(r, b, q, p) && |p| == |q|
    requires forall k :: k in m ==> !(q <= k)
    ensures b == m
  {
    forall k | k in m ensures k in b && b[k] == m[k] {
      RekeyBack(k, p, q);
    }
    forall k | k in b ensures k in m {
      RekeyBack(Rekey(Rekey(k, p, q), q, p), p, q);
    }
  }

  lemma OldNameFree(s: set<Path>, p: Path, name: string)
    requires p != [] && p in s && name != [] && Renamed(p, name) != p
    ensures p !in MovePath(s, p, name)
  {
  }

  // Renaming back restores the tree, flags included.
  lemma RenameBack(m: Files, p: Path, name: string)
    requires Closed(m.Keys) && p != [] && p in m && name != [] && Last(p) != []
    requires Renamed(p, name) != p && Renamed(p, name) !in m
    ensures RenameOk(RenameFile(m, p, name), Renamed(p, name), Last(p))
    ensures RenameFile(RenameFile(m, p, name), Renamed(p, name), Last(p)) == m
  {
    var q := Renamed(p, name);
    var r := RenameFile(m, p, name);
    assert Renamed(q, Last(p)) == p;
    RenameRekeys(m, p, name);
    assert q in r by { assert Rekey(p, p, q) == q; }
    assert Closed(r.Keys) by { MoveClosed(m.Keys, p, name); }
    assert RenameOk(r, q, Last(p)) by { OldNameFree(m.Keys, p, name); }
    RenameRekeys(r, q, Last(p));
    forall k | k in m ensures !(q <= k) { NothingBelow(m.Keys, q, k); }
    RekeyedBack(m, r, RenameFile(r, q, Last(p)), p, q);
  }

  // Removing a freshly added node whose parent existed restores the tree.
  lemma RemoveUndoesAdd(m: Files, p: Path)
    requires Closed(m.Keys) && p != [] && p !in m && (|p| == 1 || Init(p) in m)
    ensures RemoveFile(AddFile(m, p), p) == m
  {
    AddOneFile(m, p);
    forall k | k in m ensures !(p <= k) { NothingBelow(m.Keys, p, k); }
  }

  // Adding one missing node below an existing one.
  lemma AddOneFile(m: Files, k: Path)
    requires Closed(m.Keys) && k != [] && k !in m && (|k| == 1 || Init(k) in m)
    ensures AddFile(m, k) == m[k := false]
  {
    PrefixesShape(k);
    if |k| > 1 { PrefixesIn(m.Keys, Init(k)); }
    PrefixesShape(Init(k));
    forall j | j in Prefixes(k) && j != k ensures j in m {
      assert j == k[..|j|];
      assert j == Init(k)[..|j|];
    }
  }

  // Adding a path may start with its topmost missing prefix.
  lemma AddViaPrefix(m: Files, k: Path, p: Path)
    requires Closed(m.Keys) && k != [] && k !in m && k <= p && k != p
    ensures AddFile(m, p) == AddFile(m[k := false], p)
    ensures p !in m && p !in m[k := false]
  {
    if p in m { NothingBelow(m.Keys, k, p); }
    PrefixesShape(p);
  }

  // ---- Applying one announcement twice is applying it once ----

  lemma InsertTwice(s: set<Path>, p: Path)
    ensures InsertPath(InsertPath(s, p), p) == InsertPath(s, p)
  {
  }

  lemma EraseTwice(s: set<Path>, p: Path)
    ensures ErasePath(ErasePath(s, p), p) == ErasePath(s, p)
  {
  }

  lemma MoveTwice(s: set<Path>, p: Path, name: string)
    ensures MovePath(MovePath(s, p, name), p, name) == MovePath(s, p, name)
  {
  }

  // ---- Listings ----

  predicate Leaf(s: set<Path>, p: Path) {
    p in s && forall k :: k in s && p <= k ==> k == p
  }

  function Leaves(s: set<Path>): set<Path> {
    set p | p in s && Leaf(s, p)
  }

  predicate Distinct<T(==)>(l: seq<T>) {
    forall i, j :: 0 <= i < j < |l| ==> l[i] != l[j]
  }

  function Elements<T(==)>(l: seq<T>): set<T> {
    set x | x in l
  }

  lemma DistinctConcat<T>(a: seq<T>, b: seq<T>)
    requires Distinct(a) && Distinct(b) && forall x :: x in b ==> x !in a
    ensures Distinct(a + b)
  {
    forall i, j | 0 <= i < j < |a + b| ensures (a + b)[i] != (a + b)[j] {
      assert j >= |a| ==> (a + b)[j] == b[j - |a|] && b[j - |a|] in b;
      assert i < |a| ==> (a + b)[i] in a;
    }
  }

  // Every node lies on the way to a leaf.
  lemma {:induction false} LeafAbove(s: set<Path>, k: Path) returns (leaf: Path)
    requires k in s
    ensures Leaf(s, leaf) && k <= leaf
    decreases Above(s, k)
  {
    if Leaf(s, k) {
      leaf := k;
    } else {
      var j :| j in s && k <= j && j != k;
      AboveShrinks(s, k, j);
      leaf := LeafAbove(s, j);
    }
  }

  function Above(s: set<Path>, k: Path): set<Path> {
    set x | x in s && k <= x
  }

  lemma AboveShrinks(s: set<Path>, k: Path, j: Path)
    requires k in s && k <= j && j != k
    ensures Above(s, j) < Above(s, k)
  {
    assert k in Above(s, k) && k !in Above(s, j);
    forall x | x in Above(s, j) ensures x in Above(s, k) {
      assert x[..|k|] == j[..|k|] == k;
    }
  }

  function Covered(l: seq<Path>): set<Path> {
    if l == [] then {} else Prefixes(l[0]) + Covered(l[1..])
  }

  lemma {:induction false} CoveredHas(l: seq<Path>, k: Path)
    ensures k in Covered(l) <==> k != [] && exists i :: 0 <= i < |l| && k <= l[i]
  {
    if l != [] {
      PrefixesShape(l[0]);
      CoveredHas(l[1..], k);
      if k in Covered(l[1..]) {
        var i :| 0 <= i < |l[1..]| && k <= l[1..][i];
        assert k <= l[i + 1];
      }
      if i :| 0 < i < |l| && k <= l[i] {
        assert l[1..][i - 1] == l[i];
      }
    }
  }

  lemma {:induction false} AddLeaves(m: Files, l: seq<Path>, s: set<Path>)
    requires Closed(s) && Closed(m.Keys) && Distinct(l)
    requires forall i :: 0 <= i < |l| ==> Leaf(s, l[i]) && l[i] !in m
    requires forall k :: k in m ==> !m[k]
    ensures AllAddsOk(m, l)
    ensures AddAll(m, l).Keys == m.Keys + Covered(l)
    ensures forall k :: k in AddAll(m, l) ==> !AddAll(m, l)[k]
    decreases |l|
  {
    if l != [] {
      var n := AddFile(m, l[0]);
      AddClosed(m, l[0]);
      assert l[0] in s && l[0] !in m;
      assert n.Keys == m.Keys + Prefixes(l[0]);
      forall i | 0 <= i < |l[1..]| ensures Leaf(s, l[1..][i]) && l[1..][i] !in n {
        assert l[1..][i] == l[i + 1] && l[0] != l[i + 1];
        PrefixesShape(l[0]);
      }
      AddLeaves(n, l[1..], s);
    }
  }

  // Adding every listed file of a tree to an empty tree rebuilds its path set, in any
  // order of the listing.
  lemma ListingRebuilds(s: set<Path>, l: seq<Path>)
    requires Closed(s) && Distinct(l) && Elements(l) == Leaves(s)
    ensures AllAddsOk(map[], l)
    ensures AddAll(map[], l).Keys == s
    ensures forall k :: k in s ==> !AddAll(map[], l)[k]
  {
    forall i | 0 <= i < |l| ensures Leaf(s, l[i]) {
      assert l[i] in Elements(l);
    }
    AddLeaves(map[], l, s);
    LeavesCover(s, l);
  }

  lemma LeavesCover(s: set<Path>, l: seq<Path>)
    requires Closed(s) && Elements(l) == Leaves(s)
    ensures Covered(l) == s
  {
    forall k | k in s ensures k in Covered(l) {
      CoveredHas(l, k);
      var leaf := LeafAbove(s, k);
      assert leaf in Elements(l);
      var i :| 0 <= i < |l| && l[i] == leaf;
    }
    forall k | k in Covered(l) ensures k in s {
      CoveredHas(l, k);
      var i :| 0 <= i < |l| && k <= l[i];
      assert l[i] in Elements(l);
      ClosedPrefix(s, l[i], |k|);
      assert l[i][..|k|] == k;
    }
  }
}
