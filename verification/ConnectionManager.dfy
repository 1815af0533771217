/** The connection manager as it runs: the loops of its critical sections, each proved to do
    what the step functions of the Broadcast module say. */
module ConnectionManagers {
  import opened Paths
  import opened PathTree
  import opened TreeNode
  import opened TreeFacts
  import opened VirtualFileSystem
  import opened Notifications
  import opened Broadcast

  lemma PostOne(clients: map<ConnId, Client>, done: set<ConnId>, d: ConnId, m: Msg)
    requires d in clients && d !in done
    ensures Post(clients, done + {d}, m)
         == Post(clients, done, m)[d := clients[d].(inbox := clients[d].inbox + [m])]
  {
  }

  lemma StartedOne(done: set<ConnId>, d: ConnId, b: BufId)
    ensures Started(done + {d}, b) == Started(done, b) + {(d, b)}
  {
  }

  // The listings of the clients in done, under their nicknames.
  ghost predicate Collected(t: map<Nick, seq<string>>, clients: map<ConnId, Client>, done: set<ConnId>,
                            listings: map<ConnId, seq<string>>)
    requires done <= clients.Keys && done <= listings.Keys
  {
    && t.Keys == (set d | d in done :: clients[d].nick)
    && forall d :: d in done ==> t[clients[d].nick] == listings[d]
  }

  lemma CollectOne(t: map<Nick, seq<string>>, clients: map<ConnId, Client>, done: set<ConnId>,
                   listings: map<ConnId, seq<string>>, d: ConnId)
    requires done <= clients.Keys && done <= listings.Keys && d in clients && d in listings
    requires Collected(t, clients, done, listings) && forall x :: x in done ==> clients[x].nick != clients[d].nick
    ensures Collected(t[clients[d].nick := listings[d]], clients, done + {d}, listings)
  {
  }

  // No two processing clients bear the same nickname.
  ghost predicate NicksApart(clients: map<ConnId, Client>) {
    forall c, d {:trigger clients[c].nick, clients[d].nick} ::
      c in InProcessing(clients) && d in InProcessing(clients) && c != d ==> clients[c].nick != clients[d].nick
  }

  lemma NicksOkApart(clients: map<ConnId, Client>)
    requires NicksOk(clients)
    ensures NicksApart(clients)
  {
  }

  lemma NobodySnapshot(clients: map<ConnId, Client>, listings: map<ConnId, seq<string>>)
    requires InProcessing(clients) == {}
    ensures IsSnapshot(map[], clients, listings)
  {
  }

  // What a client that is to be registered may count on.
  lemma BeforeRegistration(s: State, c: ConnId)
    requires Inv(s) && c in s.clients && s.clients[c].busy == Registering
    ensures s.clients[c].state != Processing && NicksApart(s.clients)
    ensures s.processing == 0 <==> InProcessing(s.clients) == {}
  {
    assert ClientOk(s.clients[c], s.sep);
    NicksOkApart(s.clients);
  }

  lemma RegistersEnabled(s: State, c: ConnId, listings: map<ConnId, seq<string>>, snapshot: map<Nick, seq<string>>)
    requires c in s.clients && s.clients[c].busy == Registering && listings.Keys == InProcessing(s.clients) + {c}
    requires IsSnapshot(snapshot, s.clients, listings)
    requires forall d :: d in listings ==> IsListing(listings[d], s.clients[d].files.Keys, s.sep)
    ensures Enabled(s, Registers(c, listings, snapshot))
    ensures Next(s, Registers(c, listings, snapshot)) == Register(s, c, listings[c], snapshot)
  {
  }

  // A registration beside other processing clients, its updates put together.
  lemma RegisterIs(s: State, c: ConnId, me: Client, m: Msg, listing: seq<string>, snapshot: map<Nick, seq<string>>)
    requires c in s.clients && me == s.clients[c] && me.state != Processing && m == Registered(me.nick, listing)
    requires s.processing != 0
    ensures Register(s, c, listing, snapshot)
         == s.(processing := s.processing + 1, lastBuffer := s.lastBuffer + 1,
               storage := s.storage[s.lastBuffer + 1 := Shared(m, s.processing)],
               writes := s.writes + Started(InProcessing(s.clients), s.lastBuffer + 1),
               clients := Post(s.clients, InProcessing(s.clients), m)
                            [c := me.(inbox := me.inbox + [Snapshot(snapshot)], state := Processing, busy := Idle)])
  {
  }

  // The processing clients whose nickname is not skipped.
  function ToldBut(clients: map<ConnId, Client>, skip: set<Nick>): set<ConnId> {
    set c | c in InProcessing(clients) && clients[c].nick !in skip
  }

  // Tree t is that of a client with these files and this nickname.
  ghost predicate TreeIs(t: VirtualFileSystemTree, files: Files, nick: Nick, sep: char)
    reads t, t.nodes
  {
    t.Valid() && t.Contents() == files && t.separator == sep && t.owner == nick
  }

  // No two clients share a tree or a node of one.
  ghost predicate TreesApart(trees: map<ConnId, VirtualFileSystemTree>)
    reads trees.Values
  {
    forall c, d {:trigger trees[c], trees[d]} :: c in trees && d in trees && c != d ==>
      trees[c] != trees[d] && trees[c].nodes !! trees[d].nodes
  }

  ghost predicate Recorded(trees: map<ConnId, VirtualFileSystemTree>, clients: map<ConnId, Client>, sep: char)
    reads trees.Values, set t, n | t in trees.Values && n in t.nodes :: n
  {
    trees.Keys <= clients.Keys &&
    forall c {:trigger TreeIs(trees[c], clients[c].files, clients[c].nick, sep)} :: c in trees ==>
      TreeIs(trees[c], clients[c].files, clients[c].nick, sep)
  }

  // The same clients, with the same trees and nicknames.
  ghost predicate SameTrees(a: map<ConnId, Client>, b: map<ConnId, Client>) {
    a.Keys == b.Keys && forall c {:trigger b[c]} :: c in a ==> b[c].files == a[c].files && b[c].nick == a[c].nick
  }

  lemma StillRecorded(trees: map<ConnId, VirtualFileSystemTree>, a: map<ConnId, Client>, b: map<ConnId, Client>, sep: char)
    requires Recorded(trees, a, sep) && SameTrees(a, b)
    ensures Recorded(trees, b, sep)
  {
    forall c | c in trees ensures TreeIs(trees[c], b[c].files, b[c].nick, sep) {
      assert TreeIs(trees[c], a[c].files, a[c].nick, sep);
    }
  }

  lemma RecordedWithout(trees: map<ConnId, VirtualFileSystemTree>, clients: map<ConnId, Client>, c: ConnId, sep: char)
    requires Recorded(trees, clients, sep) && TreesApart(trees)
    ensures Recorded(trees - {c}, clients, sep) && Recorded(trees - {c}, clients - {c}, sep) && TreesApart(trees - {c})
  {
    var others := trees - {c};
    forall d | d in others ensures TreeIs(others[d], clients[d].files, clients[d].nick, sep) {
      assert TreeIs(trees[d], clients[d].files, clients[d].nick, sep);
    }
  }

  lemma AnnouncementSameTrees(s: State, c: ConnId)
    requires c in s.clients && s.clients[c].busy.Announcing?
    ensures SameTrees(s.clients, AnnounceOwed(s, c).clients)
  {
  }

  lemma RegistrationSameTrees(s: State, c: ConnId, listing: seq<string>, snapshot: map<Nick, seq<string>>)
    requires c in s.clients
    ensures SameTrees(s.clients, Register(s, c, listing, snapshot).clients)
  {
  }

  lemma DisconnectionSameTrees(s: State, c: ConnId)
    requires c in s.clients
    ensures SameTrees(s.clients - {c}, Disconnect(s, c).clients)
  {
  }

  lemma ChangeRecorded(trees: map<ConnId, VirtualFileSystemTree>, a: map<ConnId, Client>, c: ConnId, me: Client, sep: char)
    requires c in trees && Recorded(trees - {c}, a, sep) && TreeIs(trees[c], me.files, me.nick, sep)
    ensures Recorded(trees, a[c := me], sep)
  {
    var b, others := a[c := me], trees - {c};
    forall d | d in trees ensures TreeIs(trees[d], b[d].files, b[d].nick, sep) {
      if d != c {
        assert TreeIs(others[d], a[d].files, a[d].nick, sep);
      }
    }
  }

  lemma RecordedAnnounced(s: State, c: ConnId, op: Op)
    requires Enabled(s, Changes(c, op))
    ensures ChangeAnnounced(s, c, op)
         == AnnounceOwed(s.(clients := s.clients[c := WithChange(s.clients[c], op, InProcessing(s.clients), s.sep)]), c)
  {
  }

  class ConnectionManager {
    const separator: char
    // The clients' records; the trees they stand for are apart.
    var connections: map<ConnId, Client>
    var trees: map<ConnId, VirtualFileSystemTree>
    var sharedStorage: map<BufId, Shared>
    var processingCounter: int
    var sharedStorageIDCounter: nat
    var nextConn: nat
    ghost var writes: set<(ConnId, BufId)>
    ghost var lost: set<(ConnId, BufId)>

    ghost function Model(): State
      reads this
    {
      State(separator, connections, sharedStorage, processingCounter, sharedStorageIDCounter, nextConn, writes, lost)
    }

    function RemoteFileSystem(c: ConnId): VirtualFileSystemTree
      requires c in trees
      reads this
    {
      trees[c]
    }

    ghost function AllNodes(): set<Node>
      reads this, trees.Values
    {
      set t, n | t in trees.Values && n in t.nodes :: n
    }

    // Every client has its own tree, and its record is that of its tree.
    ghost predicate Linked()
      reads this, trees.Values, set t, n | t in trees.Values && n in t.nodes :: n
    {
      trees.Keys == connections.Keys && TreesApart(trees) && Recorded(trees, connections, separator)
    }

    constructor (separator: char)
      ensures Model() == Broadcast.Start(separator) && Linked() && trees == map[]
    {
      this.separator := separator;
      connections, trees, sharedStorage, processingCounter, sharedStorageIDCounter := map[], map[], map[], 0, 0;
      nextConn, writes, lost := 0, {}, {};
    }

    // A new connection, with an empty tree.
    method Start() returns (c: ConnId)
      requires Linked() && nextConn !in connections
      modifies this
      ensures c == old(nextConn) && Model() == Next(old(Model()), Connects) && Linked()
      ensures trees.Keys == old(trees).Keys + {c} && fresh(trees[c])
      ensures forall d :: d in old(trees) ==> trees[d] == old(trees)[d]
    {
      c := nextConn;
      var tree := new VirtualFileSystemTree(separator, "");
      ghost var all, before := trees[c := tree], connections;
      assert all - {c} == trees && Recorded(trees, before, separator) && TreeIs(tree, map[], "", separator);
      ChangeRecorded(all, before, c, NEWCOMER, separator);
      connections, trees, nextConn := connections[c := NEWCOMER], trees[c := tree], nextConn + 1;
      assert Recorded(all, before[c := NEWCOMER], separator);
    }

    // Some connection that bears the nickname.
    method FindByNickname(nick: Nick) returns (there: bool, c: ConnId)
      ensures there <==> exists d :: d in connections && connections[d].nick == nick
      ensures there ==> c in connections && connections[c].nick == nick
    {
      there, c := false, 0;
      var todo := connections.Keys;
      while todo != {}
        invariant todo <= connections.Keys
        invariant forall d :: d in connections && connections[d].nick == nick ==> d in todo
      {
        var d :| d in todo;
        if connections[d].nick == nick {
          return true, d;
        }
        todo := todo - {d};
      }
    }

    method IsLogged(nick: Nick) returns (logged: bool)
      ensures logged <==> exists c :: c in connections && connections[c].nick == nick
    {
      var c;
      logged, c := FindByNickname(nick);
    }

    // A write of the stored buffer is started: its notification is on its way to c.
    method StartSharedWrite(c: ConnId, m: Msg, b: BufId)
      requires c in connections
      modifies this`connections, this`writes
      ensures connections == old(connections)[c := old(connections)[c].(inbox := old(connections)[c].inbox + [m])]
      ensures writes == old(writes) + {(c, b)}
    {
      connections := connections[c := connections[c].(inbox := connections[c].inbox + [m])];
      writes := writes + {(c, b)};
    }

    // Stores the buffer and writes it to every processing client whose nickname is not skipped.
    method StoreAndSend(m: Msg, count: int, skip: set<Nick>)
      modifies this`connections, this`sharedStorage, this`sharedStorageIDCounter, this`writes
      ensures Model() == Send(old(Model()), ToldBut(old(connections), skip), m, count)
    {
      sharedStorageIDCounter := sharedStorageIDCounter + 1;
      sharedStorage := sharedStorage[sharedStorageIDCounter := Shared(m, count)];
      SendToAll(m, sharedStorageIDCounter, skip);
    }

    method SendToAll(m: Msg, b: BufId, skip: set<Nick>)
      modifies this`connections, this`writes
      ensures connections == Post(old(connections), ToldBut(old(connections), skip), m)
      ensures writes == old(writes) + Started(ToldBut(old(connections), skip), b)
    {
      ghost var before, to := connections, ToldBut(connections, skip);
      ghost var done := {};
      var todo := connections.Keys;
      assert Post(before, {}, m) == before;
      while todo != {}
        invariant todo <= before.Keys && done == to - todo
        invariant connections == Post(before, done, m)
        invariant writes == old(writes) + Started(done, b)
      {
        var c :| c in todo;
        assert connections[c] == before[c];
        if connections[c].state == Processing && connections[c].nick !in skip {
          PostOne(before, done, c, m);
          StartedOne(done, c, b);
          StartSharedWrite(c, m, b);
          done := done + {c};
        }
        todo := todo - {c};
      }
      assert done == to;
    }

    method DoNotify(notifier: Nick, m: Msg)
      modifies this`connections, this`sharedStorage, this`sharedStorageIDCounter, this`writes
      ensures Model() == Announce(old(Model()), notifier, m)
    {
      if processingCounter == 1 {
        return;
      }
      assert ToldBut(connections, {notifier}) == Others(connections, notifier);
      StoreAndSend(m, processingCounter - 1, {notifier});
    }

    // c bears a nickname now, and is logged in.
    method RecordSignin(c: ConnId, login: Nick)
      requires c in trees && trees.Keys == connections.Keys && TreesApart(trees)
      requires Recorded(trees - {c}, connections, separator)
      requires TreeIs(trees[c], connections[c].files, login, separator)
      modifies this`connections
      ensures connections == old(connections)[c := old(connections)[c].(nick := login, state := Logged)]
      ensures Linked() && trees == old(trees)
    {
      ChangeRecorded(trees, connections, c, connections[c].(nick := login, state := Logged), separator);
      connections := connections[c := connections[c].(nick := login, state := Logged)];
    }

    // The tree of c has been filled: its record follows, and the registration is to come.
    method RecordPush(c: ConnId, paths: seq<string>)
      requires c in trees && trees.Keys == connections.Keys && TreesApart(trees)
      requires Recorded(trees - {c}, connections, separator)
      requires TreeIs(trees[c], AddAll(connections[c].files, Split(paths, separator)), connections[c].nick, separator)
      modifies this`connections
      ensures connections == old(connections)[c := Pushed(old(connections)[c], paths, separator)]
      ensures Linked() && trees == old(trees)
    {
      ChangeRecorded(trees, connections, c, Pushed(connections[c], paths, separator), separator);
      connections := connections[c := Pushed(connections[c], paths, separator)];
    }

    // The tree of c has been changed: its record follows, and the announcement is owed.
    method RecordChange(c: ConnId, op: Op)
      requires c in trees && trees.Keys == connections.Keys && TreesApart(trees)
      requires Recorded(trees - {c}, connections, separator)
      requires TreeIs(trees[c], TreeApply(connections[c].files, op, separator), connections[c].nick, separator)
      modifies this`connections
      ensures connections == old(connections)[c := WithChange(old(connections)[c], op, old(InProcessing(connections)), separator)]
      ensures Linked() && trees == old(trees)
    {
      ChangeRecorded(trees, connections, c, WithChange(connections[c], op, InProcessing(connections), separator), separator);
      connections := connections[c := WithChange(connections[c], op, InProcessing(connections), separator)];
    }

    // The tree of c has a file marked: its record follows.
    method RecordCached(c: ConnId, path: Path)
      requires c in trees && trees.Keys == connections.Keys && TreesApart(trees)
      requires Recorded(trees - {c}, connections, separator)
      requires TreeIs(trees[c], SetFlag(connections[c].files, path, true), connections[c].nick, separator)
      modifies this`connections
      ensures Model() == Next(old(Model()), Caches(c, path)) && Linked() && trees == old(trees)
    {
      var me := connections[c].(files := SetFlag(connections[c].files, path, true));
      ChangeRecorded(trees, connections, c, me, separator);
      connections := connections[c := me];
    }

    lemma RecordSame(c: ConnId)
      requires c in trees && trees.Keys == connections.Keys && TreesApart(trees)
      requires Recorded(trees - {c}, connections, separator)
      requires TreeIs(trees[c], connections[c].files, connections[c].nick, separator)
      ensures Linked()
    {
      ChangeRecorded(trees, connections, c, connections[c], separator);
      assert connections[c := connections[c]] == connections;
    }

    // What c owes is announced, and it is idle again.
    method AnnounceChange(c: ConnId, op: Op)
      requires Linked() && c in connections && connections[c].busy == Announcing(op)
      modifies this`connections, this`sharedStorage, this`sharedStorageIDCounter, this`writes
      ensures Model() == AnnounceOwed(old(Model()), c) && Linked() && trees == old(trees)
    {
      ghost var before, after := connections, AnnounceOwed(Model(), c).clients;
      AnnouncementSameTrees(Model(), c);
      StillRecorded(trees, before, after, separator);
      DoNotify(connections[c].nick, Changed(connections[c].nick, op));
      assert Recorded(trees, after, separator) && connections[c := connections[c].(busy := Idle)] == after;
      connections := connections[c := connections[c].(busy := Idle)];
      assert Recorded(trees, after, separator);
    }

    method NotifyFileAdd(path: string, c: ConnId)
      requires Linked() && c in connections && connections[c].busy == Announcing(AddOp(path))
      modifies this`connections, this`sharedStorage, this`sharedStorageIDCounter, this`writes
      ensures Model() == AnnounceOwed(old(Model()), c) && Linked() && trees == old(trees)
    {
      AnnounceChange(c, AddOp(path));
    }

    method NotifyPathRemoved(path: string, c: ConnId)
      requires Linked() && c in connections && connections[c].busy == Announcing(RemoveOp(path))
      modifies this`connections, this`sharedStorage, this`sharedStorageIDCounter, this`writes
      ensures Model() == AnnounceOwed(old(Model()), c) && Linked() && trees == old(trees)
    {
      AnnounceChange(c, RemoveOp(path));
    }

    method NotifyPathRenamed(oldPath: string, newName: string, c: ConnId)
      requires Linked() && c in connections && connections[c].busy == Announcing(RenameOp(oldPath, newName))
      modifies this`connections, this`sharedStorage, this`sharedStorageIDCounter, this`writes
      ensures Model() == AnnounceOwed(old(Model()), c) && Linked() && trees == old(trees)
    {
      AnnounceChange(c, RenameOp(oldPath, newName));
    }

    // The tree of c has been filled: c is registered.
    method TreePushed(c: ConnId, paths: seq<string>)
      returns (snapshot: map<Nick, seq<string>>, listings: map<ConnId, seq<string>>)
      requires c in trees && trees.Keys == connections.Keys && TreesApart(trees)
      requires Recorded(trees - {c}, connections, separator) && Enabled(Model(), Pushes(c, paths))
      requires TreeIs(trees[c], AddAll(connections[c].files, Split(paths, separator)), connections[c].nick, separator)
      requires var after := connections[c := Pushed(connections[c], paths, separator)];
               after[c].state != Processing && NicksApart(after) && (processingCounter == 0 <==> InProcessing(after) == {})
      modifies this`connections, this`sharedStorage, this`sharedStorageIDCounter, this`writes, this`processingCounter
      ensures PushRegistered(old(Model()), c, paths, listings, snapshot, Model()) && Linked() && trees == old(trees)
    {
      RecordPush(c, paths);
      snapshot, listings := NotifyFilesRegistration(c);
    }

    // The tree of c has been changed: everybody is told.
    method TreeChanged(c: ConnId, op: Op)
      requires c in trees && trees.Keys == connections.Keys && TreesApart(trees)
      requires Recorded(trees - {c}, connections, separator) && Enabled(Model(), Changes(c, op))
      requires TreeIs(trees[c], TreeApply(connections[c].files, op, separator), connections[c].nick, separator)
      modifies this`connections, this`sharedStorage, this`sharedStorageIDCounter, this`writes
      ensures Model() == ChangeAnnounced(old(Model()), c, op) && Linked() && trees == old(trees)
    {
      RecordedAnnounced(Model(), c, op);
      ghost var me := WithChange(connections[c], op, InProcessing(connections), separator);
      ghost var changed := Model().(clients := connections[c := me]);
      RecordChange(c, op);
      assert Model() == changed;
      match op
      case AddOp(path) => NotifyFileAdd(path, c);
      case RemoveOp(path) => NotifyPathRemoved(path, c);
      case RenameOp(oldPath, newName) => NotifyPathRenamed(oldPath, newName, c);
    }

    // c leaves, and its tree with it.
    method Stop(c: ConnId)
      requires Linked() && c in connections
      modifies this
      ensures Model() == Disconnect(old(Model()), c) && Linked() && trees == old(trees) - {c}
    {
      ghost var before, after := connections, Disconnect(Model(), c).clients;
      RecordedWithout(trees, before, c, separator);
      DisconnectionSameTrees(Model(), c);
      StillRecorded(trees - {c}, before - {c}, after, separator);
      NotifyDisconnection(c);
      trees := trees - {c};
      assert connections == after && Recorded(trees, after, separator);
    }

    method NotifyDisconnection(c: ConnId)
      requires c in connections
      modifies this`connections, this`sharedStorage, this`sharedStorageIDCounter, this`writes, this`processingCounter
      ensures Model() == Disconnect(old(Model()), c)
    {
      var state, nick := connections[c].state, connections[c].nick;
      connections := connections - {c};
      if state == Processing {
        processingCounter := processingCounter - 1;
        if processingCounter == 0 {
          return;
        }
        assert ToldBut(connections, {}) == InProcessing(connections);
        StoreAndSend(LoggedOut(nick), processingCounter, {});
      }
    }

    // The listing of the tree of c.
    method ListFiles(c: ConnId, ghost files: Files, ghost nick: Nick) returns (l: seq<string>)
      requires c in trees && TreeIs(trees[c], files, nick, separator)
      ensures IsListing(l, files.Keys, separator)
    {
      l := trees[c].Get(FILE);
    }

    // The listings of the trees of c and of everyone processing.
    method ListTrees(c: ConnId) returns (listings: map<ConnId, seq<string>>)
      requires trees.Keys == connections.Keys && Recorded(trees, connections, separator) && c in connections
      ensures listings.Keys == InProcessing(connections) + {c}
      ensures forall d :: d in listings ==> IsListing(listings[d], connections[d].files.Keys, separator)
    {
      var own := ListFiles(c, connections[c].files, connections[c].nick);
      listings := map[c := own];
      var todo := connections.Keys;
      while todo != {}
        invariant todo <= connections.Keys && listings.Keys == (InProcessing(connections) - todo) + {c}
        invariant forall d :: d in listings ==> IsListing(listings[d], connections[d].files.Keys, separator)
      {
        var d :| d in todo;
        if connections[d].state == Processing {
          var l := ListFiles(d, connections[d].files, connections[d].nick);
          listings := listings[d := l];
        }
        todo := todo - {d};
      }
    }

    // The newcomer's listing goes to everyone processing, everyone's listing to the newcomer.
    method NotifyFilesRegistration(c: ConnId) returns (snapshot: map<Nick, seq<string>>, listings: map<ConnId, seq<string>>)
      requires Linked() && c in connections && connections[c].busy == Registering && connections[c].state != Processing
      requires NicksApart(connections) && (processingCounter == 0 <==> InProcessing(connections) == {})
      modifies this`connections, this`sharedStorage, this`sharedStorageIDCounter, this`writes, this`processingCounter
      ensures Enabled(old(Model()), Registers(c, listings, snapshot)) && Linked() && trees == old(trees)
      ensures Model() == Next(old(Model()), Registers(c, listings, snapshot))
    {
      ghost var before, all := connections, trees;
      snapshot, listings := ListAndRegister(c);
      assert Recorded(all, before, separator) && TreesApart(all);
      StillRecorded(all, before, connections, separator);
    }

    method ListAndRegister(c: ConnId) returns (snapshot: map<Nick, seq<string>>, listings: map<ConnId, seq<string>>)
      requires trees.Keys == connections.Keys && Recorded(trees, connections, separator)
      requires c in connections && connections[c].busy == Registering && connections[c].state != Processing
      requires NicksApart(connections) && (processingCounter == 0 <==> InProcessing(connections) == {})
      modifies this`connections, this`sharedStorage, this`sharedStorageIDCounter, this`writes, this`processingCounter
      ensures Enabled(old(Model()), Registers(c, listings, snapshot)) && SameTrees(old(connections), connections)
      ensures Model() == Next(old(Model()), Registers(c, listings, snapshot))
    {
      ghost var s := Model();
      listings := ListTrees(c);
      snapshot := RegisterWith(c, listings);
      RegistersEnabled(s, c, listings, snapshot);
      RegistrationSameTrees(s, c, listings[c], snapshot);
    }

    method RegisterWith(c: ConnId, listings: map<ConnId, seq<string>>) returns (snapshot: map<Nick, seq<string>>)
      requires c in connections && connections[c].state != Processing && InProcessing(connections) + {c} <= listings.Keys
      requires NicksApart(connections) && (processingCounter == 0 <==> InProcessing(connections) == {})
      modifies this`connections, this`sharedStorage, this`sharedStorageIDCounter, this`writes, this`processingCounter
      ensures Model() == Register(old(Model()), c, listings[c], snapshot)
      ensures IsSnapshot(snapshot, old(connections), listings)
    {
      snapshot := map[];
      processingCounter := processingCounter + 1;
      if processingCounter == 1 {
        NobodySnapshot(connections, listings);
        connections := connections[c := connections[c].(state := Processing, busy := Idle)];
        return;
      }
      snapshot := RegisterBeside(c, listings);
    }

    // The newcomer is counted already, and there are others.
    method RegisterBeside(c: ConnId, listings: map<ConnId, seq<string>>) returns (snapshot: map<Nick, seq<string>>)
      requires c in connections && connections[c].state != Processing && InProcessing(connections) + {c} <= listings.Keys
      requires NicksApart(connections) && processingCounter != 1
      modifies this`connections, this`sharedStorage, this`sharedStorageIDCounter, this`writes
      ensures Model() == Register(old(Model()).(processing := processingCounter - 1), c, listings[c], snapshot)
      ensures IsSnapshot(snapshot, old(connections), listings)
    {
      ghost var s := Model();
      var me := connections[c];
      sharedStorageIDCounter := sharedStorageIDCounter + 1;
      var b, m := sharedStorageIDCounter, Registered(me.nick, listings[c]);
      sharedStorage := sharedStorage[b := Shared(m, processingCounter - 1)];
      snapshot := SendAndCollect(m, b, listings);
      assert connections[c] == me;
      Welcome(c, snapshot);
      assert Model() == s.(lastBuffer := b, storage := s.storage[b := Shared(m, s.processing - 1)],
                           writes := s.writes + Started(InProcessing(s.clients), b), clients := connections);
      RegisterIs(s.(processing := s.processing - 1), c, me, m, listings[c], snapshot);
    }

    // The newcomer is sent the others' listings, and is then processing.
    method Welcome(c: ConnId, snapshot: map<Nick, seq<string>>)
      requires c in connections
      modifies this`connections
      ensures connections == old(connections)[c := old(connections)[c].(inbox := old(connections)[c].inbox + [Snapshot(snapshot)],
                                                                        state := Processing, busy := Idle)]
    {
      connections := connections[c := connections[c].(inbox := connections[c].inbox + [Snapshot(snapshot)])];
      connections := connections[c := connections[c].(state := Processing, busy := Idle)];
    }

    // The loop of the registration: a write to every processing client, and its listing.
    method SendAndCollect(m: Msg, b: BufId, listings: map<ConnId, seq<string>>)
      returns (snapshot: map<Nick, seq<string>>)
      requires InProcessing(connections) <= listings.Keys && NicksApart(connections)
      modifies this`connections, this`writes
      ensures connections == Post(old(connections), InProcessing(old(connections)), m)
      ensures writes == old(writes) + Started(InProcessing(old(connections)), b)
      ensures IsSnapshot(snapshot, old(connections), listings)
    {
      snapshot := map[];
      ghost var before, to := connections, InProcessing(connections);
      ghost var done := {};
      var todo := connections.Keys;
      assert Post(before, {}, m) == before;
      while todo != {}
        invariant todo <= before.Keys && forall d :: d in done <==> d in to && d !in todo
        invariant connections == Post(before, done, m)
        invariant writes == old(writes) + Started(done, b)
        invariant Collected(snapshot, before, done, listings)
      {
        var d :| d in todo;
        assert connections[d] == before[d];
        if connections[d].state == Processing {
          PostOne(before, done, d, m);
          StartedOne(done, d, b);
          CollectOne(snapshot, before, done, listings, d);
          snapshot := snapshot[connections[d].nick := listings[d]];
          done := done + {d};
          StartSharedWrite(d, m, b);
        }
        todo := todo - {d};
      }
      assert done == to;
    }

    method NotifySharedWriteDone(b: BufId)
      modifies this`sharedStorage
      ensures sharedStorage == CountDown(old(sharedStorage), b)
    {
      if b !in sharedStorage {
        sharedStorage := sharedStorage[b := Shared(LoggedOut(""), 0)];
      }
      sharedStorage := sharedStorage[b := sharedStorage[b].(counter := sharedStorage[b].counter - 1)];
      if sharedStorage[b].counter == 0 {
        sharedStorage := sharedStorage - {b};
      }
    }

    method StopAll()
      modifies this
      ensures Model() == Next(old(Model()), StopsAll) && Linked()
      ensures connections == map[] && trees == map[] && processingCounter == 0
    {
      connections, trees := map[], map[];
      processingCounter := 0;
    }
  }
}
