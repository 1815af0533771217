/** The users' trees serve both notifications and downloads: what the connection manager does to
    them is what the download protocol sees, and what a download marks is marked in the tree. */
module SharedTrees {
  import opened Paths
  import opened PathTree
  import opened Notifications
  import opened TreeFacts
  import opened ConnectionManagers
  import B = Broadcast
  import BroadcastRuns
  import R = Rendezvous
  import RendezvousRuns
  import opened CommandGate

  // ---- One set of trees ----

  function Nicks(clients: map<B.ConnId, B.Client>): set<Nick> {
    set c | c in clients && clients[c].nick != "" :: clients[c].nick
  }

  ghost function Bearer(clients: map<B.ConnId, B.Client>, n: Nick): (c: B.ConnId)
    requires n in Nicks(clients)
    ensures c in clients && clients[c].nick == n
  {
    var c :| c in clients && clients[c].nick == n;
    c
  }

  // The trees by nickname, as downloads look them up.
  ghost function UserTrees(clients: map<B.ConnId, B.Client>): map<Nick, Files> {
    map n | n in Nicks(clients) :: clients[Bearer(clients, n)].files
  }

  lemma TreeOfBearer(clients: map<B.ConnId, B.Client>, c: B.ConnId)
    requires B.NicksOk(clients) && c in clients && clients[c].nick != ""
    ensures clients[c].nick in UserTrees(clients) && UserTrees(clients)[clients[c].nick] == clients[c].files
  {
    assert clients[c].nick in Nicks(clients);
  }

  lemma NobodysTree(clients: map<B.ConnId, B.Client>, n: Nick)
    requires n in UserTrees(clients)
    ensures n != "" && exists c :: c in clients && clients[c].nick == n
  {
  }

  lemma SameUserTrees(a: map<B.ConnId, B.Client>, b: map<B.ConnId, B.Client>)
    requires B.NicksOk(a) && B.NicksOk(b) && SameTrees(a, b)
    ensures UserTrees(a) == UserTrees(b)
  {
    forall n | n in UserTrees(a) ensures n in UserTrees(b) && UserTrees(b)[n] == UserTrees(a)[n] {
      var c := Bearer(a, n);
      TreeOfBearer(a, c);
      TreeOfBearer(b, c);
    }
    forall n | n in UserTrees(b) ensures n in UserTrees(a) {
      TreeOfBearer(a, Bearer(b, n));
    }
  }

  // One client's nickname or tree changes.
  lemma OneUserTree(clients: map<B.ConnId, B.Client>, c: B.ConnId, me: B.Client)
    requires B.NicksOk(clients) && B.NicksOk(clients[c := me]) && me.nick != ""
    requires c in clients && (clients[c].nick == me.nick || clients[c].nick == "")
    ensures UserTrees(clients[c := me]) == UserTrees(clients)[me.nick := me.files]
  {
    var after := clients[c := me];
    TreeOfBearer(after, c);
    forall n | n in UserTrees(after) && n != me.nick
      ensures n in UserTrees(clients) && UserTrees(clients)[n] == UserTrees(after)[n]
    {
      var d := Bearer(after, n);
      TreeOfBearer(clients, d);
    }
    forall n | n in UserTrees(clients) && n != me.nick ensures n in UserTrees(after) {
      TreeOfBearer(after, Bearer(clients, n));
    }
  }

  lemma StillApart(clients: map<B.ConnId, B.Client>, c: B.ConnId)
    requires B.NicksOk(clients)
    ensures B.NicksOk(clients - {c})
  {
  }

  lemma WithoutUser(clients: map<B.ConnId, B.Client>, c: B.ConnId)
    requires B.NicksOk(clients) && c in clients && B.NicksOk(clients - {c})
    ensures UserTrees(clients - {c}) == UserTrees(clients) - {clients[c].nick}
  {
    var after := clients - {c};
    forall n | n in UserTrees(after)
      ensures n in UserTrees(clients) && UserTrees(clients)[n] == UserTrees(after)[n] && n != clients[c].nick
    {
      TreeOfBearer(clients, Bearer(after, n));
    }
    OthersStay(clients, c);
  }

  lemma OthersStay(clients: map<B.ConnId, B.Client>, c: B.ConnId)
    requires B.NicksOk(clients) && c in clients && B.NicksOk(clients - {c})
    ensures forall n :: n in UserTrees(clients) && n != clients[c].nick ==> n in UserTrees(clients - {c})
  {
    forall n | n in UserTrees(clients) && n != clients[c].nick ensures n in UserTrees(clients - {c}) {
      TreeOfBearer(clients - {c}, Bearer(clients, n));
    }
  }

  // ---- Every step of the one protocol is a run of the other ----

  // Nothing but trees, and the local files that go with them.
  ghost predicate OnlyTrees(r: R.State, t: R.State) {
    t == r.(trees := t.trees, localFiles := t.localFiles)
  }

  ghost predicate Agree(b: B.State, r: R.State) {
    r.trees == UserTrees(b.clients) && r.sep == b.sep
  }

  lemma SignInFollows(b: B.State, c: B.ConnId, nick: Nick, r: R.State) returns (run: seq<R.Step>, t: R.State)
    requires B.Inv(b) && B.Enabled(b, B.SignsIn(c, nick)) && Agree(b, r)
    ensures R.Run(r, run, t) && OnlyTrees(r, t) && Agree(B.Next(b, B.SignsIn(c, nick)), t)
  {
    assert B.ClientOk(b.clients[c], b.sep);
    BroadcastRuns.SignsInKeeps(b, c, nick);
    if nick in UserTrees(b.clients) { NobodysTree(b.clients, nick); }
    OneUserTree(b.clients, c, b.clients[c].(nick := nick, state := B.Logged));
    var e := R.Arrives(nick, map[]);
    RendezvousRuns.StepOf(r, e);
    run, t := [e], R.Next(r, e);
  }

  // The local files that go when a path is removed, and when a user leaves.
  lemma ChangeUnlinks(r: R.State, nick: Nick, op: Op)
    requires R.Enabled(r, R.Changes(nick, op))
    ensures R.Next(r, R.Changes(nick, op)).localFiles
         == if op.RemoveOp? then r.localFiles - CachedFiles(r.trees[nick], Components(op.path, r.sep), nick, r.sep)
            else r.localFiles
  {
  }

  lemma LeaveUnlinks(r: R.State, nick: Nick, cleaned: bool)
    requires nick in r.trees
    ensures R.Next(r, R.Leaves(nick, cleaned)).localFiles.Keys
         == set name | name in r.localFiles && name !in CachedFiles(r.trees[nick], [], nick, r.sep)
                       && !(cleaned && nick + [r.sep] <= name)
  {
  }

  lemma ChangeFollows(b: B.State, c: B.ConnId, op: Op, r: R.State) returns (run: seq<R.Step>, t: R.State)
    requires B.Inv(b) && B.Enabled(b, B.Changes(c, op)) && Agree(b, r)
    ensures R.Run(r, run, t) && OnlyTrees(r, t) && Agree(B.Next(b, B.Changes(c, op)), t)
    ensures var me := b.clients[c];
            t.localFiles == if op.RemoveOp? then r.localFiles - CachedFiles(me.files, Components(op.path, b.sep), me.nick, b.sep)
                            else r.localFiles
  {
    var me := b.clients[c];
    BroadcastRuns.ChangesKeeps(b, c, op);
    TreeOfBearer(b.clients, c);
    OneUserTree(b.clients, c, B.WithChange(me, op, B.InProcessing(b.clients), b.sep));
    var e := R.Changes(me.nick, op);
    ChangeUnlinks(r, me.nick, op);
    RendezvousRuns.StepOf(r, e);
    run, t := [e], R.Next(r, e);
  }

  // A push adds its paths one after another.
  lemma {:induction false} AddsFollow(r: R.State, nick: Nick, paths: seq<string>) returns (run: seq<R.Step>, t: R.State)
    requires nick in r.trees && AllAddsOk(r.trees[nick], Split(paths, r.sep))
    ensures R.Run(r, run, t) && OnlyTrees(r, t) && t.trees == r.trees[nick := AddAll(r.trees[nick], Split(paths, r.sep))]
    decreases |paths|
  {
    if paths == [] {
      run, t := [], r;
    } else {
      var e := R.Changes(nick, AddOp(paths[0]));
      var u := R.Next(r, e);
      assert Split(paths, r.sep)[0] == Components(paths[0], r.sep) && Split(paths, r.sep)[1..] == Split(paths[1..], r.sep);
      var rest;
      rest, t := AddsFollow(u, nick, paths[1..]);
      RendezvousRuns.StepOf(r, e);
      RendezvousRuns.RunConcat(r, [e], u, rest, t);
      run := [e] + rest;
    }
  }

  lemma PushFollows(b: B.State, c: B.ConnId, paths: seq<string>, r: R.State) returns (run: seq<R.Step>, t: R.State)
    requires B.Inv(b) && B.Enabled(b, B.Pushes(c, paths)) && Agree(b, r)
    ensures R.Run(r, run, t) && OnlyTrees(r, t) && Agree(B.Next(b, B.Pushes(c, paths)), t)
  {
    BroadcastRuns.PushesKeeps(b, c, paths);
    TreeOfBearer(b.clients, c);
    OneUserTree(b.clients, c, B.Pushed(b.clients[c], paths, b.sep));
    run, t := AddsFollow(r, b.clients[c].nick, paths);
  }

  lemma LeftTrees(b: B.State, c: B.ConnId)
    requires B.NicksOk(b.clients) && c in b.clients && B.NicksOk(B.Disconnect(b, c).clients)
    ensures UserTrees(B.Disconnect(b, c).clients) == UserTrees(b.clients) - {b.clients[c].nick}
    ensures B.Disconnect(b, c).sep == b.sep
  {
    StillApart(b.clients, c);
    WithoutUser(b.clients, c);
    DisconnectionSameTrees(b, c);
    SameUserTrees(b.clients - {c}, B.Disconnect(b, c).clients);
  }

  // cleaned: the leaving user's directory is cleaned up. Its cached files go in any case.
  lemma DisconnectFollows(b: B.State, c: B.ConnId, r: R.State, cleaned: bool) returns (run: seq<R.Step>, t: R.State)
    requires B.Inv(b) && B.Enabled(b, B.Disconnects(c)) && Agree(b, r)
    ensures R.Run(r, run, t) && OnlyTrees(r, t) && Agree(B.Next(b, B.Disconnects(c)), t)
    ensures var me := b.clients[c];
            if me.nick == "" then t.localFiles == r.localFiles
            else t.localFiles.Keys == set name | name in r.localFiles && name !in CachedFiles(me.files, [], me.nick, b.sep)
                                                 && !(cleaned && me.nick + [b.sep] <= name)
  {
    BroadcastRuns.NextKeeps(b, B.Disconnects(c));
    LeftTrees(b, c);
    if b.clients[c].nick == "" {
      assert "" !in UserTrees(b.clients);
      return [], r;
    }
    TreeOfBearer(b.clients, c);
    LeaveUnlinks(r, b.clients[c].nick, cleaned);
    var e := R.Leaves(b.clients[c].nick, cleaned);
    RendezvousRuns.StepOf(r, e);
    run, t := [e], R.Next(r, e);
  }

  // The manager is stopped: everybody leaves.
  lemma {:induction false} AllLeave(r: R.State) returns (run: seq<R.Step>, t: R.State)
    ensures R.Run(r, run, t) && OnlyTrees(r, t) && t.trees == map[]
    decreases |r.trees|
  {
    if r.trees == map[] {
      run, t := [], r;
    } else {
      var nick :| nick in r.trees;
      var e := R.Leaves(nick, false);
      var u := R.Next(r, e);
      assert r.trees.Keys == u.trees.Keys + {nick};
      var rest;
      rest, t := AllLeave(u);
      RendezvousRuns.StepOf(r, e);
      RendezvousRuns.RunConcat(r, [e], u, rest, t);
      run := [e] + rest;
    }
  }

  // The other steps leave the trees alone.
  lemma QuietFollows(b: B.State, e: B.Step)
    requires B.Inv(b) && B.Enabled(b, e)
    requires e.Connects? || e.Registers? || e.Announces? || e.WriteDone? || e.WriteLost? || e.Delivers?
    ensures UserTrees(B.Next(b, e).clients) == UserTrees(b.clients) && B.Next(b, e).sep == b.sep
  {
    BroadcastRuns.NextKeeps(b, e);
    match e
    case Connects => NewcomerQuiet(b.clients, b.nextConn);
    case Registers(c, listings, snapshot) =>
      RegistrationSameTrees(b, c, listings[c], snapshot);
      SameUserTrees(b.clients, B.Next(b, e).clients);
    case Announces(c) =>
      AnnouncementSameTrees(b, c);
      SameUserTrees(b.clients, B.Next(b, e).clients);
    case WriteDone(c, buffer) => assert B.Next(b, e).clients == b.clients;
    case WriteLost(c, buffer) => assert B.Next(b, e).clients == b.clients;
    case Delivers(c) => DeliveryQuiet(b, c);
    case _ =>
  }

  lemma DeliveryQuiet(b: B.State, c: B.ConnId)
    requires B.NicksOk(b.clients) && B.Enabled(b, B.Delivers(c))
    ensures UserTrees(B.Next(b, B.Delivers(c)).clients) == UserTrees(b.clients)
  {
    SameUserTrees(b.clients, B.Next(b, B.Delivers(c)).clients);
  }

  lemma NewcomerQuiet(clients: map<B.ConnId, B.Client>, c: B.ConnId)
    requires B.NicksOk(clients) && B.NicksOk(clients[c := B.NEWCOMER]) && c !in clients
    ensures UserTrees(clients[c := B.NEWCOMER]) == UserTrees(clients)
  {
    var after := clients[c := B.NEWCOMER];
    assert clients == after - {c};
    WithoutUser(after, c);
    assert "" !in UserTrees(after);
  }

  lemma StepFollows(b: B.State, e: B.Step, r: R.State) returns (run: seq<R.Step>, t: R.State)
    requires B.Inv(b) && B.Enabled(b, e) && !e.Caches? && Agree(b, r)
    ensures R.Run(r, run, t) && OnlyTrees(r, t) && Agree(B.Next(b, e), t)
  {
    match e
    case SignsIn(c, nick) => run, t := SignInFollows(b, c, nick, r);
    case Pushes(c, paths) => run, t := PushFollows(b, c, paths, r);
    case Changes(c, op) => run, t := ChangeFollows(b, c, op, r);
    case Disconnects(c) => run, t := DisconnectFollows(b, c, r, true);
    case StopsAll => run, t := AllLeave(r);
    case _ =>
      QuietFollows(b, e);
      run, t := [], r;
  }

  // Every run of the notifications in which no file is marked is matched, step by step, by a
  // run of the downloads in which the trees are the same.
  lemma {:induction false} RunFollows(b: B.State, steps: seq<B.Step>, c: B.State, r: R.State)
    returns (run: seq<R.Step>, t: R.State)
    requires B.Inv(b) && B.Run(b, steps, c) && Agree(b, r) && forall i :: 0 <= i < |steps| ==> !steps[i].Caches?
    ensures R.Run(r, run, t) && OnlyTrees(r, t) && Agree(c, t)
    decreases |steps|
  {
    if steps == [] {
      run, t := [], r;
    } else {
      var first, u := StepFollows(b, steps[0], r);
      BroadcastRuns.NextKeeps(b, steps[0]);
      var rest;
      rest, t := RunFollows(B.Next(b, steps[0]), steps[1..], c, u);
      RendezvousRuns.RunConcat(r, first, u, rest, t);
      run := first + rest;
    }
  }

  // ---- Asking and replying ----

  // A path that downloads know is in the tree of a client that has pushed its files.
  lemma KnownIsShared(b: B.State, c: B.ConnId, file: R.Wanted)
    requires B.Inv(b) && c in b.clients && b.clients[c].nick == file.owner != ""
    requires R.Known(UserTrees(b.clients), file, b.sep)
    ensures Sharing(b.clients[c])
  {
    TreeOfBearer(b.clients, c);
    assert B.ClientOk(b.clients[c], b.sep);
  }

  // An owner is asked for a file while downloads know it; from then on, while it is connected
  // and not just being registered, its approval passes the gate.
  lemma AskedOwnerCanReply(before: seq<B.Step>, sep: char, b: B.State, c: B.ConnId, file: R.Wanted, run: seq<B.Step>, t: B.State)
    requires B.Run(B.Start(sep), before, b) && c in b.clients && b.clients[c].nick == file.owner != ""
    requires R.Known(UserTrees(b.clients), file, b.sep)
    requires B.Run(b, run, t) && c in t.clients && t.clients[c].busy != B.Registering
    ensures Validate(ReplyToQuerry, t.clients[c].state) == Accepted
  {
    BroadcastRuns.StartOk(sep);
    BroadcastRuns.RunKeeps(B.Start(sep), before, b);
    KnownIsShared(b, c, file);
    SharingStays(b, run, t, c);
  }

  // ---- The marking ----

  // Marking a file in the trees that downloads see is the caching step of its owner.
  lemma MarkFollows(b: B.State, c: B.ConnId, file: R.Wanted)
    requires B.Inv(b) && c in b.clients && b.clients[c].nick == file.owner != ""
    ensures R.MarkCached(UserTrees(b.clients), file, b.sep)
         == UserTrees(B.Next(b, B.Caches(c, Components(file.path, b.sep))).clients)
  {
    var k := Components(file.path, b.sep);
    BroadcastRuns.CachesKeeps(b, c, k);
    TreeOfBearer(b.clients, c);
    OneUserTree(b.clients, c, b.clients[c].(files := SetFlag(b.clients[c].files, k, true)));
  }

  // What the marking finds, and leaves, when the owner is there.
  lemma BearerMarked(b: B.State, c: B.ConnId, file: R.Wanted)
    requires B.Inv(b) && c in b.clients && b.clients[c].nick == file.owner != ""
    ensures var k := Components(file.path, b.sep);
            && B.Inv(B.Next(b, B.Caches(c, k)))
            && UserTrees(B.Next(b, B.Caches(c, k)).clients) == R.MarkCached(UserTrees(b.clients), file, b.sep)
            && (R.MarkFinds(UserTrees(b.clients), file, b.sep) <==> k in b.clients[c].files)
  {
    TreeOfBearer(b.clients, c);
    MarkFollows(b, c, file);
    BroadcastRuns.CachesKeeps(b, c, Components(file.path, b.sep));
  }

  // ---- On the heap ----

  // The user's tree is asked for the path, as a download query asks.
  method FindShared(manager: ConnectionManager, file: R.Wanted) returns (known: bool, cached: bool)
    requires manager.Linked() && B.NicksOk(manager.connections) && file.owner != ""
    ensures known <==> R.Known(UserTrees(manager.connections), file, manager.separator)
    ensures known ==> cached == UserTrees(manager.connections)[file.owner][Components(file.path, manager.separator)]
  {
    known, cached := false, false;
    var there, c := manager.FindByNickname(file.owner);
    if there {
      TreeOfBearer(manager.connections, c);
      var tree := manager.trees[c];
      assert TreeIs(tree, manager.connections[c].files, file.owner, manager.separator);
      known, cached := tree.Find(file.path);
    } else if file.owner in UserTrees(manager.connections) {
      NobodysTree(manager.connections, file.owner);
    }
  }

  // The node of one client's tree is marked.
  method CacheInTree(manager: ConnectionManager, c: B.ConnId, path: string) returns (found: bool)
    requires manager.Linked() && c in manager.trees
    modifies manager`connections, manager.RemoteFileSystem(c).nodes`cached
    ensures manager.Model() == B.Next(old(manager.Model()), B.Caches(c, Components(path, manager.separator)))
    ensures manager.Linked() && manager.trees == old(manager.trees)
    ensures found <==> Components(path, manager.separator) in old(manager.connections)[c].files
  {
    var tree := manager.trees[c];
    ghost var others, clients := manager.trees - {c}, manager.connections;
    assert TreeIs(tree, clients[c].files, clients[c].nick, manager.separator);
    RecordedWithout(manager.trees, clients, c, manager.separator);
    found := tree.SetCached(path, true);
    assert Recorded(others, clients, manager.separator);
    manager.RecordCached(c, Components(path, manager.separator));
  }

  method CacheShared(manager: ConnectionManager, c: B.ConnId, file: R.Wanted) returns (found: bool)
    requires manager.Linked() && B.Inv(manager.Model()) && file.owner != ""
    requires c in manager.connections && manager.connections[c].nick == file.owner
    modifies manager`connections, manager.RemoteFileSystem(c).nodes`cached
    ensures manager.Linked() && manager.trees == old(manager.trees) && B.Inv(manager.Model())
    ensures UserTrees(manager.connections) == R.MarkCached(old(UserTrees(manager.connections)), file, manager.separator)
    ensures found <==> R.MarkFinds(old(UserTrees(manager.connections)), file, manager.separator)
  {
    BearerMarked(manager.Model(), c, file);
    found := CacheInTree(manager, c, file.path);
  }

  // A download is marked in its owner's tree, if the owner is there: found is what is asserted
  // then. Downloads see exactly that.
  method SetFileToCached(manager: ConnectionManager, file: R.Wanted) returns (found: bool)
    requires manager.Linked() && B.Inv(manager.Model()) && file.owner != ""
    modifies manager`connections, manager.AllNodes()`cached
    ensures manager.Linked() && manager.trees == old(manager.trees) && B.Inv(manager.Model())
    ensures UserTrees(manager.connections) == R.MarkCached(old(UserTrees(manager.connections)), file, manager.separator)
    ensures found <==> R.MarkFinds(old(UserTrees(manager.connections)), file, manager.separator)
  {
    found := true;
    var there, c := manager.FindByNickname(file.owner);
    if there {
      found := CacheShared(manager, c, file);
    } else if file.owner in UserTrees(manager.connections) {
      NobodysTree(manager.connections, file.owner);
    }
  }
}
