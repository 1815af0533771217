/** What clients are told about each other's trees, and what a client makes of it. */
module Notifications {
  import opened Paths
  import opened PathTree
  import opened TreeFacts

  type Nick = string
  type View = map<Nick, set<Path>>

  // A change of one's own tree, as its notification carries it.
  datatype Op =
    | AddOp(path: string)
    | RemoveOp(path: string)
    | RenameOp(path: string, newName: string)

  datatype Msg =
    | Registered(owner: Nick, listing: seq<string>)
    | Snapshot(listings: map<Nick, seq<string>>)
    | Changed(owner: Nick, op: Op)
    | LoggedOut(owner: Nick)

  // ---- The tree side ----

  // The change succeeds, and is then announced.
  predicate OpSucceeds(m: Files, op: Op, sep: char) {
    match op
    case AddOp(p) => true
    case RemoveOp(p) => Components(p, sep) in m
    case RenameOp(p, n) => Components(p, sep) in m && Last(Tokens(n, sep)) != []
  }

  function TreeApply(m: Files, op: Op, sep: char): Files {
    match op
    case AddOp(p) => AddFile(m, Components(p, sep))
    case RemoveOp(p) => RemoveFile(m, Components(p, sep))
    case RenameOp(p, n) => RenameFile(m, Components(p, sep), Last(Tokens(n, sep)))
  }

  // The change keeps sibling names distinct.
  predicate OpOk(m: Files, op: Op, sep: char) {
    match op
    case AddOp(p) => AddOk(m, Components(p, sep))
    case RemoveOp(p) => true
    case RenameOp(p, n) => RenameOk(m, Components(p, sep), Last(Tokens(n, sep)))
  }

  // No client adds a path that is a node of its tree already.
  predicate Announceable(m: Files, op: Op, sep: char) {
    op.AddOp? ==> Components(op.path, sep) == [] || Components(op.path, sep) !in m
  }

  // ---- The view side ----

  function ViewApply(s: set<Path>, op: Op, sep: char): set<Path> {
    match op
    case AddOp(p) => InsertPath(s, Components(p, sep))
    case RemoveOp(p) => ErasePath(s, Components(p, sep))
    case RenameOp(p, n) => MovePath(s, Components(p, sep), Last(Tokens(n, sep)))
  }

  function Split(l: seq<string>, sep: char): seq<Path> {
    if l == [] then [] else [Components(l[0], sep)] + Split(l[1..], sep)
  }

  // The path set a client builds from a listing: every listed path added to an empty tree.
  function Rebuilt(l: seq<string>, sep: char): set<Path> {
    AddAll(map[], Split(l, sep)).Keys
  }

  function ApplyMsg(v: View, m: Msg, sep: char): View {
    match m
    case Registered(o, l) => v[o := Rebuilt(l, sep)]
    case Snapshot(t) => v + map o | o in t :: Rebuilt(t[o], sep)
    case Changed(o, op) => if o in v then v[o := ViewApply(v[o], op, sep)] else v
    case LoggedOut(o) => v - {o}
  }

  function ApplyAll(v: View, q: seq<Msg>, sep: char): View
    decreases |q|
  {
    if q == [] then v else ApplyAll(ApplyMsg(v, q[0], sep), q[1..], sep)
  }

  lemma {:induction false} ApplyAllSnoc(v: View, q: seq<Msg>, m: Msg, sep: char)
    ensures ApplyAll(v, q + [m], sep) == ApplyMsg(ApplyAll(v, q, sep), m, sep)
    decreases |q|
  {
    if q == [] {
      assert [] + [m] == [m];
    } else {
      ApplyAllSnoc(ApplyMsg(v, q[0], sep), q[1..], m, sep);
      assert (q + [m])[1..] == q[1..] + [m];
    }
  }

  // What a change leaves of the paths that were not shown: adding a path shows it and all
  // above it, and if it was a node already hangs one below it that is not shown.
  function Unseen(m: Files, unseen: set<Path>, op: Op, sep: char): set<Path> {
    match op
    case AddOp(p) =>
      var k := Components(p, sep);
      (unseen - Prefixes(k)) + (if k != [] && k in m then {k + [Last(k)]} else {})
    case RemoveOp(p) => ErasePath(unseen, Components(p, sep))
    case RenameOp(p, n) => MoveUnder(unseen, m, Components(p, sep), Last(Tokens(n, sep)))
  }

  function MoveUnder(unseen: set<Path>, m: Files, p: Path, name: string): set<Path> {
    if p == [] || p !in m || name == [] then unseen else set k | k in unseen :: Rekey(k, p, Renamed(p, name))
  }

  // ---- The two sides agree ----

  // A view that held the tree's paths holds them after the announcement exactly when the
  // change was announceable.
  lemma ViewFollowsTree(m: Files, op: Op, sep: char)
    requires Closed(m.Keys) && OpSucceeds(m, op, sep) && OpOk(m, op, sep)
    ensures ViewApply(m.Keys, op, sep) == TreeApply(m, op, sep).Keys <==> Announceable(m, op, sep)
  {
    match op
    case AddOp(p) => AddMatchesInsert(m, Components(p, sep));
    case RemoveOp(p) => RemoveMatchesErase(m, Components(p, sep));
    case RenameOp(p, n) => RenameRekeys(m, Components(p, sep), Last(Tokens(n, sep)));
  }

  // A newcomer whose snapshot already showed a change hears of the change again: nothing happens.
  lemma ViewApplyTwice(s: set<Path>, op: Op, sep: char)
    ensures ViewApply(ViewApply(s, op, sep), op, sep) == ViewApply(s, op, sep)
  {
    match op
    case AddOp(p) => InsertTwice(s, Components(p, sep));
    case RemoveOp(p) => EraseTwice(s, Components(p, sep));
    case RenameOp(p, n) => MoveTwice(s, Components(p, sep), Last(Tokens(n, sep)));
  }

  // The tree itself is not changed by its own announcement.
  lemma TreeAbsorbs(m: Files, op: Op, sep: char)
    requires Closed(m.Keys) && OpSucceeds(m, op, sep) && OpOk(m, op, sep)
    ensures ViewApply(TreeApply(m, op, sep).Keys, op, sep) == TreeApply(m, op, sep).Keys
  {
    if Announceable(m, op, sep) {
      ViewFollowsTree(m, op, sep);
      ViewApplyTwice(m.Keys, op, sep);
    } else {
      var p, after := Components(op.path, sep), TreeApply(m, op, sep);
      AddClosed(m, p);
      PrefixesIn(after.Keys, p);
    }
  }

  // A view that shows nothing but paths of the tree does so after the announcement too.
  lemma ViewStaysWithin(shown: set<Path>, m: Files, op: Op, sep: char)
    requires Closed(shown) && Closed(m.Keys) && shown <= m.Keys && OpSucceeds(m, op, sep) && OpOk(m, op, sep)
    ensures Closed(ViewApply(shown, op, sep)) && ViewApply(shown, op, sep) <= TreeApply(m, op, sep).Keys
  {
    ViewClosed(shown, op, sep);
    match op
    case AddOp(p) => TreeAbsorbs(m, op, sep);
    case RemoveOp(p) =>
    case RenameOp(p, n) => MovedWithin(shown, m, Components(p, sep), Last(Tokens(n, sep)));
  }

  // A view that shows all but the unseen paths does so after the announcement too.
  lemma ViewMissesUnseen(shown: set<Path>, m: Files, unseen: set<Path>, op: Op, sep: char)
    requires Closed(shown) && m.Keys - unseen <= shown <= m.Keys && OpSucceeds(m, op, sep) && OpOk(m, op, sep)
    ensures TreeApply(m, op, sep).Keys - Unseen(m, unseen, op, sep) <= ViewApply(shown, op, sep)
  {
    match op
    case AddOp(p) =>
    case RemoveOp(p) =>
    case RenameOp(p, n) => MovedAbove(shown, m, unseen, Components(p, sep), Last(Tokens(n, sep)));
  }

  // A view that shows exactly all but the unseen paths goes on to do so.
  lemma ViewShowsAllButUnseen(m: Files, unseen: set<Path>, op: Op, sep: char)
    requires Closed(m.Keys) && Closed(m.Keys - unseen) && unseen <= m.Keys && OpSucceeds(m, op, sep) && OpOk(m, op, sep)
    ensures ViewApply(m.Keys - unseen, op, sep) == TreeApply(m, op, sep).Keys - Unseen(m, unseen, op, sep)
    ensures Unseen(m, unseen, op, sep) <= TreeApply(m, op, sep).Keys
  {
    var shown := m.Keys - unseen;
    ViewMissesUnseen(shown, m, unseen, op, sep);
    ViewStaysWithin(shown, m, op, sep);
    match op
    case AddOp(p) => AddHides(m, unseen, Components(p, sep));
    case RemoveOp(p) =>
    case RenameOp(p, n) => MovedBeside(m, unseen, Components(p, sep), Last(Tokens(n, sep)));
  }

  lemma NothingUnseen(m: Files, op: Op, sep: char)
    ensures Unseen(m, {}, op, sep) == {} <==> Announceable(m, op, sep)
  {
    if !Announceable(m, op, sep) {
      var k := Components(op.path, sep);
      assert k + [Last(k)] in Unseen(m, {}, op, sep);
    }
  }

  lemma AddHides(m: Files, unseen: set<Path>, p: Path)
    requires Closed(m.Keys) && unseen <= m.Keys && AddOk(m, p)
    ensures var after := (unseen - Prefixes(p)) + (if p != [] && p in m then {p + [Last(p)]} else {});
            after <= AddFile(m, p).Keys && after !! InsertPath(m.Keys - unseen, p)
  {
    PrefixesShape(p);
  }

  lemma MovedBeside(m: Files, unseen: set<Path>, p: Path, name: string)
    requires Closed(m.Keys) && Closed(m.Keys - unseen) && unseen <= m.Keys && RenameOk(m, p, name)
    ensures MoveUnder(unseen, m, p, name) <= RenameFile(m, p, name).Keys
    ensures MoveUnder(unseen, m, p, name) !! MovePath(m.Keys - unseen, p, name)
  {
    if p != [] && p in m && name != [] {
      var q, shown := Renamed(p, name), m.Keys - unseen;
      RenameRekeys(m, p, name);
      forall k | k in MoveUnder(unseen, m, p, name) && k in MovePath(shown, p, name) ensures false {
        var u :| u in unseen && k == Rekey(u, p, q);
        if q != p { NothingBelow(m.Keys, q, u); }
        RekeyBack(u, p, q);
        if p in shown {
          var f :| f in shown && k == Rekey(f, p, q);
          if q != p { NothingBelow(m.Keys, q, f); }
          RekeyBack(f, p, q);
        } else {
          NothingBelow(shown, p, k);
          if q != p { NothingBelow(m.Keys, q, k); }
        }
      }
    }
  }

  lemma MovedAbove(shown: set<Path>, m: Files, unseen: set<Path>, p: Path, name: string)
    requires Closed(shown) && m.Keys - unseen <= shown <= m.Keys
    ensures RenameFile(m, p, name).Keys - MoveUnder(unseen, m, p, name) <= MovePath(shown, p, name)
  {
    if p != [] && p in m && name != [] {
      forall k | k in RenameFile(m, p, name).Keys - MoveUnder(unseen, m, p, name) ensures k in MovePath(shown, p, name) {
        var f :| f in m && k == Rekey(f, p, Renamed(p, name));
        assert f !in unseen;
        if p !in shown {
          NothingBelow(shown, p, f);
        }
      }
    }
  }

  lemma ViewClosed(shown: set<Path>, op: Op, sep: char)
    requires Closed(shown)
    ensures Closed(ViewApply(shown, op, sep))
  {
    match op
    case AddOp(p) => InsertClosed(shown, Components(p, sep));
    case RemoveOp(p) => EraseClosed(shown, Components(p, sep));
    case RenameOp(p, n) => MoveClosed(shown, Components(p, sep), Last(Tokens(n, sep)));
  }

  lemma MovedWithin(shown: set<Path>, m: Files, p: Path, name: string)
    requires Closed(shown) && Closed(m.Keys) && shown <= m.Keys && RenameOk(m, p, name)
    ensures MovePath(shown, p, name) <= RenameFile(m, p, name).Keys
  {
    if p != [] && p in m && name != [] {
      RenameRekeys(m, p, name);
      if p !in shown {
        forall k | k in shown ensures Rekey(k, p, Renamed(p, name)) == k {
          NothingBelow(shown, p, k);
        }
      }
    }
  }

  predicate ValidKeys(s: set<Path>, sep: char) {
    forall p :: p in s ==> ValidPath(p, sep)
  }

  // The listing of the leaves of a tree with path set s, in some order.
  predicate IsListing(l: seq<string>, s: set<Path>, sep: char) {
    Distinct(l) && Elements(l) == Listing(s, FILE, sep)
  }

  lemma {:induction false} SplitAt(l: seq<string>, sep: char)
    ensures |Split(l, sep)| == |l|
    ensures forall i :: 0 <= i < |l| ==> Split(l, sep)[i] == Components(l[i], sep)
  {
    if l != [] {
      SplitAt(l[1..], sep);
    }
  }

  // Every listed path is split back into its node's components, and adding them all to an
  // empty tree gives the listed tree's path set.
  lemma ListingRoundTrip(l: seq<string>, s: set<Path>, sep: char)
    requires IsListing(l, s, sep) && Closed(s) && ValidKeys(s, sep)
    ensures AllAddsOk(map[], Split(l, sep))
    ensures Rebuilt(l, sep) == s
    ensures forall k :: k in s ==> !AddAll(map[], Split(l, sep))[k]
  {
    var k := Split(l, sep);
    SplitAt(l, sep);
    forall i | 0 <= i < |l| ensures k[i] in Leaves(s) && Canonical(k[i], sep) == l[i] {
      assert l[i] in Elements(l);
      var q :| q in KindPaths(s, FILE) && Canonical(q, sep) == l[i];
      ComponentsOfCanonical(q, sep);
    }
    forall i, j | 0 <= i < j < |k| ensures k[i] != k[j] {
      assert l[i] != l[j];
    }
    forall q | q in Leaves(s) ensures q in Elements(k) {
      assert q in KindPaths(s, FILE);
      assert Canonical(q, sep) in Elements(l);
      var i :| 0 <= i < |l| && l[i] == Canonical(q, sep);
      ComponentsOfCanonical(q, sep);
      assert k[i] == q;
    }
    ListingRebuilds(s, k);
  }

  // ---- Changes keep trees well formed ----

  lemma OpKeepsClosed(m: Files, op: Op, sep: char)
    requires Closed(m.Keys) && OpSucceeds(m, op, sep) && OpOk(m, op, sep)
    ensures Closed(TreeApply(m, op, sep).Keys)
  {
    match op
    case AddOp(p) => AddClosed(m, Components(p, sep));
    case RemoveOp(p) =>
      EraseClosed(m.Keys, Components(p, sep));
      RemoveMatchesErase(m, Components(p, sep));
    case RenameOp(p, n) =>
      RenameRekeys(m, Components(p, sep), Last(Tokens(n, sep)));
      MoveClosed(m.Keys, Components(p, sep), Last(Tokens(n, sep)));
  }

  lemma OpKeeps(m: Files, op: Op, sep: char)
    requires Closed(m.Keys) && ValidKeys(m.Keys, sep) && OpSucceeds(m, op, sep) && OpOk(m, op, sep)
    ensures Closed(TreeApply(m, op, sep).Keys) && ValidKeys(TreeApply(m, op, sep).Keys, sep)
  {
    OpKeepsClosed(m, op, sep);
    match op
    case AddOp(p) => AddKeeps(m, p, sep);
    case RemoveOp(p) =>
    case RenameOp(p, n) =>
      var k, name := Components(p, sep), Last(Tokens(n, sep));
      RenameRekeys(m, k, name);
      TokensJoin(n, sep);
      MoveValid(m.Keys, k, name, sep);
  }

  lemma AddKeeps(m: Files, p: string, sep: char)
    requires Closed(m.Keys) && ValidKeys(m.Keys, sep)
    ensures Closed(AddFile(m, Components(p, sep)).Keys) && ValidKeys(AddFile(m, Components(p, sep)).Keys, sep)
  {
    var k := Components(p, sep);
    ComponentsValid(p, sep);
    AddClosed(m, k);
    PrefixesShape(k);
    forall q | q in AddFile(m, k) && q !in m ensures ValidPath(q, sep) {
      if k in m {
        assert q == k + [Last(k)];
      } else {
        assert q == k[..|q|];
      }
    }
  }

  lemma MoveValid(s: set<Path>, k: Path, name: string, sep: char)
    requires ValidKeys(s, sep) && k != [] && ValidName(name, sep)
    ensures ValidKeys(MovePath(s, k, name), sep)
  {
  }

  lemma {:induction false} PushKeeps(m: Files, l: seq<string>, sep: char)
    requires Closed(m.Keys) && ValidKeys(m.Keys, sep)
    ensures Closed(AddAll(m, Split(l, sep)).Keys) && ValidKeys(AddAll(m, Split(l, sep)).Keys, sep)
    decreases |l|
  {
    if l != [] {
      AddKeeps(m, l[0], sep);
      PushKeeps(AddFile(m, Components(l[0], sep)), l[1..], sep);
      assert Split(l, sep)[1..] == Split(l[1..], sep);
    }
  }
}
