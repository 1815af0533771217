/** The command handlers that change a client's tree and then announce the change. */
module ServerSideHandler {
  import opened Paths
  import opened PathTree
  import opened TreeNode
  import opened Notifications
  import opened TreeFacts
  import opened VirtualFileSystem
  import opened Broadcast
  import opened BroadcastRuns
  import opened ConnectionManagers

  datatype Reply = Successful | Failed

  // What the users' database says of a nickname and its password.
  datatype UserStatus = CredentialsOk | UserNotFound | PasswordIncorrect | InternalError

  datatype SigninReply = LoginSuccessful | UserAlreadyLogged | NicknameIncorrect | WrongPassword | InternalServerError

  lemma {:induction false} AllAddsPrefix(m: Files, l: seq<string>, i: nat, sep: char)
    requires i < |l| && AllAddsOk(m, Split(l, sep))
    ensures AddOk(AddAll(m, Split(l[..i], sep)), Components(l[i], sep))
    ensures AddAll(m, Split(l[..i + 1], sep)) == AddFile(AddAll(m, Split(l[..i], sep)), Components(l[i], sep))
    decreases i
  {
    assert Split(l, sep)[0] == Components(l[0], sep) && Split(l, sep)[1..] == Split(l[1..], sep);
    if i == 0 {
      assert l[..1] == [l[0]] && l[..0] == [];
      assert Split([l[0]], sep) == [Components(l[0], sep)] + [];
      assert AddAll(AddFile(m, Components(l[0], sep)), []) == AddFile(m, Components(l[0], sep));
    } else {
      AllAddsPrefix(AddFile(m, Components(l[0], sep)), l[1..], i - 1, sep);
      assert l[1..][..i - 1] == l[..i][1..] && l[1..][..i] == l[..i + 1][1..] && l[1..][i - 1] == l[i];
      SplitStep(l[..i], sep);
      SplitStep(l[..i + 1], sep);
    }
  }

  lemma SplitStep(l: seq<string>, sep: char)
    requires l != []
    ensures Split(l, sep)[0] == Components(l[0], sep) && Split(l, sep)[1..] == Split(l[1..], sep)
    ensures Split(l, sep) != []
  {
  }

  lemma SignsInIs(s: State, c: ConnId, login: Nick)
    requires c in s.clients && s.clients[c].state == Connected && s.clients[c].busy == Idle
    requires forall d :: d in s.clients ==> s.clients[d].nick != login
    ensures Enabled(s, SignsIn(c, login))
    ensures Next(s, SignsIn(c, login)) == s.(clients := s.clients[c := s.clients[c].(nick := login, state := Logged)])
  {
  }

  // The tree of c belongs to the user of that nickname.
  method OwnTree(manager: ConnectionManager, c: ConnId, login: Nick)
    requires manager.Linked() && c in manager.trees
    modifies manager.RemoteFileSystem(c)`owner
    ensures manager.Model() == old(manager.Model()) && manager.trees == old(manager.trees)
    ensures TreesApart(manager.trees) && Recorded(manager.trees - {c}, manager.connections, manager.separator)
    ensures TreeIs(manager.trees[c], manager.connections[c].files, login, manager.separator)
  {
    var tree := manager.trees[c];
    ghost var others, clients := manager.trees - {c}, manager.connections;
    assert TreeIs(tree, clients[c].files, clients[c].nick, manager.separator);
    RecordedWithout(manager.trees, clients, c, manager.separator);
    tree.owner := login;
    assert Recorded(others, clients, manager.separator);
  }

  method TakeNickname(manager: ConnectionManager, c: ConnId, login: Nick)
    requires manager.Linked() && c in manager.connections
    requires manager.connections[c].state == Connected && manager.connections[c].busy == Idle
    requires forall d :: d in manager.connections ==> manager.connections[d].nick != login
    modifies manager`connections, manager.RemoteFileSystem(c)`owner
    ensures Enabled(old(manager.Model()), SignsIn(c, login)) && manager.Model() == Next(old(manager.Model()), SignsIn(c, login))
    ensures manager.Linked() && manager.trees == old(manager.trees)
  {
    SignsInIs(manager.Model(), c, login);
    OwnTree(manager, c, login);
    manager.RecordSignin(c, login);
  }

  // A client with the right password takes its nickname, unless somebody bears it.
  method DoSignin(manager: ConnectionManager, c: ConnId, login: Nick, status: UserStatus) returns (reply: SigninReply)
    requires manager.Linked() && c in manager.connections
    requires manager.connections[c].state == Connected && manager.connections[c].busy == Idle
    modifies manager`connections, manager.RemoteFileSystem(c)`owner
    ensures manager.Linked() && manager.trees == old(manager.trees)
    ensures reply == LoginSuccessful <==>
            status == CredentialsOk && forall d :: d in old(manager.connections) ==> old(manager.connections)[d].nick != login
    ensures reply == LoginSuccessful ==>
              Enabled(old(manager.Model()), SignsIn(c, login)) && manager.Model() == Next(old(manager.Model()), SignsIn(c, login))
    ensures reply != LoginSuccessful ==> manager.Model() == old(manager.Model())
    ensures reply == UserAlreadyLogged <==>
            status == CredentialsOk && exists d :: d in old(manager.connections) && old(manager.connections)[d].nick == login
    ensures reply == NicknameIncorrect <==> status == UserNotFound
    ensures reply == WrongPassword <==> status == PasswordIncorrect
    ensures reply == InternalServerError <==> status == InternalError
  {
    match status
    case CredentialsOk =>
      var logged := manager.IsLogged(login);
      if logged {
        return UserAlreadyLogged;
      }
      TakeNickname(manager, c, login);
      reply := LoginSuccessful;
    case UserNotFound => reply := NicknameIncorrect;
    case PasswordIncorrect => reply := WrongPassword;
    case InternalError => reply := InternalServerError;
  }

  // Every pushed path is added, in order.
  method PushAll(tree: VirtualFileSystemTree, paths: seq<string>)
    requires tree.Valid() && AllAddsOk(tree.Contents(), Split(paths, tree.separator))
    modifies tree`at, tree`nodes, tree.nodes`children
    ensures tree.Valid() && tree.Contents() == AddAll(old(tree.Contents()), Split(paths, tree.separator))
    ensures fresh(tree.nodes - old(tree.nodes))
  {
    ghost var before, nodes0 := tree.Contents(), tree.nodes;
    for i := 0 to |paths|
      invariant tree.Valid() && fresh(tree.nodes - nodes0)
      invariant tree.Contents() == AddAll(before, Split(paths[..i], tree.separator))
    {
      AllAddsPrefix(before, paths, i, tree.separator);
      tree.Add(paths[i]);
    }
    assert paths[..|paths|] == paths;
  }

  // The changes of one client's tree: every other tree stays as it is, and apart.
  method PushToTree(manager: ConnectionManager, c: ConnId, paths: seq<string>)
    requires manager.Linked() && c in manager.trees
    requires AllAddsOk(manager.connections[c].files, Split(paths, manager.separator))
    modifies manager.RemoteFileSystem(c)`at, manager.RemoteFileSystem(c)`nodes, manager.RemoteFileSystem(c).nodes`children
    ensures manager.Model() == old(manager.Model()) && manager.trees == old(manager.trees)
    ensures TreesApart(manager.trees) && Recorded(manager.trees - {c}, manager.connections, manager.separator)
    ensures TreeIs(manager.trees[c], AddAll(manager.connections[c].files, Split(paths, manager.separator)),
                   manager.connections[c].nick, manager.separator)
  {
    var tree := manager.trees[c];
    ghost var others, clients := manager.trees - {c}, manager.connections;
    assert TreeIs(tree, clients[c].files, clients[c].nick, manager.separator);
    RecordedWithout(manager.trees, clients, c, manager.separator);
    PushAll(tree, paths);
    assert Recorded(others, clients, manager.separator);
  }

  method AddToTree(manager: ConnectionManager, c: ConnId, path: string)
    requires manager.Linked() && c in manager.trees && OpOk(manager.connections[c].files, AddOp(path), manager.separator)
    modifies manager.RemoteFileSystem(c)`at, manager.RemoteFileSystem(c)`nodes, manager.RemoteFileSystem(c).nodes`children
    ensures manager.Model() == old(manager.Model()) && manager.trees == old(manager.trees)
    ensures TreesApart(manager.trees) && Recorded(manager.trees - {c}, manager.connections, manager.separator)
    ensures TreeIs(manager.trees[c], TreeApply(manager.connections[c].files, AddOp(path), manager.separator),
                   manager.connections[c].nick, manager.separator)
  {
    var tree := manager.trees[c];
    ghost var others, clients := manager.trees - {c}, manager.connections;
    assert TreeIs(tree, clients[c].files, clients[c].nick, manager.separator);
    RecordedWithout(manager.trees, clients, c, manager.separator);
    tree.Add(path);
    assert Recorded(others, clients, manager.separator);
  }

  method RemoveFromTree(manager: ConnectionManager, c: ConnId, path: string) returns (ok: bool, unlinked: seq<string>)
    requires manager.Linked() && c in manager.trees
    modifies manager.RemoteFileSystem(c)`at, manager.RemoteFileSystem(c)`nodes, manager.RemoteFileSystem(c).nodes`children
    ensures manager.Model() == old(manager.Model()) && manager.trees == old(manager.trees)
    ensures TreesApart(manager.trees) && Recorded(manager.trees - {c}, manager.connections, manager.separator)
    ensures ok <==> OpSucceeds(manager.connections[c].files, RemoveOp(path), manager.separator)
    ensures TreeIs(manager.trees[c],
                   if ok then TreeApply(manager.connections[c].files, RemoveOp(path), manager.separator)
                   else manager.connections[c].files,
                   manager.connections[c].nick, manager.separator)
    ensures Distinct(unlinked)
    ensures Elements(unlinked) == if ok
              then CachedFiles(manager.connections[c].files, Components(path, manager.separator),
                               manager.connections[c].nick, manager.separator)
              else {}
  {
    var tree := manager.trees[c];
    ghost var others, clients := manager.trees - {c}, manager.connections;
    assert TreeIs(tree, clients[c].files, clients[c].nick, manager.separator);
    RecordedWithout(manager.trees, clients, c, manager.separator);
    ok, unlinked := tree.Remove(path);
    assert Recorded(others, clients, manager.separator);
  }

  method RenameInTree(manager: ConnectionManager, c: ConnId, oldPath: string, newName: string) returns (ok: bool)
    requires manager.Linked() && c in manager.trees
    requires OpOk(manager.connections[c].files, RenameOp(oldPath, newName), manager.separator)
    modifies manager.RemoteFileSystem(c)`at, manager.RemoteFileSystem(c).nodes`name, manager.RemoteFileSystem(c).nodes`key
    ensures manager.Model() == old(manager.Model()) && manager.trees == old(manager.trees)
    ensures TreesApart(manager.trees) && Recorded(manager.trees - {c}, manager.connections, manager.separator)
    ensures ok <==> OpSucceeds(manager.connections[c].files, RenameOp(oldPath, newName), manager.separator)
    ensures TreeIs(manager.trees[c],
                   if ok then TreeApply(manager.connections[c].files, RenameOp(oldPath, newName), manager.separator)
                   else manager.connections[c].files,
                   manager.connections[c].nick, manager.separator)
  {
    var tree := manager.trees[c];
    ghost var others, clients := manager.trees - {c}, manager.connections;
    assert TreeIs(tree, clients[c].files, clients[c].nick, manager.separator);
    RecordedWithout(manager.trees, clients, c, manager.separator);
    ok := RenameTree(tree, oldPath, newName);
    assert Recorded(others, clients, manager.separator);
  }

  method RenameTree(tree: VirtualFileSystemTree, oldPath: string, newName: string) returns (ok: bool)
    requires tree.Valid() && OpOk(tree.Contents(), RenameOp(oldPath, newName), tree.separator)
    modifies tree`at, tree.nodes`name, tree.nodes`key
    ensures tree.Valid() && tree.nodes == old(tree.nodes)
    ensures ok <==> OpSucceeds(old(tree.Contents()), RenameOp(oldPath, newName), tree.separator)
    ensures tree.Contents() == if ok
              then TreeApply(old(tree.Contents()), RenameOp(oldPath, newName), tree.separator) else old(tree.Contents())
  {
    ghost var before, k, name := tree.Contents(), Components(oldPath, tree.separator), Last(Tokens(newName, tree.separator));
    if k !in before || name == [] {
      assert RenameFile(before, k, name) == before;
    }
    ok := tree.Rename(oldPath, newName);
  }

  lemma PushedReady(s: State, c: ConnId, paths: seq<string>)
    requires Inv(s) && Enabled(s, Pushes(c, paths))
    ensures var clients := s.clients[c := Pushed(s.clients[c], paths, s.sep)];
            && Next(s, Pushes(c, paths)) == s.(clients := clients) && clients[c].state != Processing
            && NicksApart(clients) && (s.processing == 0 <==> InProcessing(clients) == {})
  {
    NextKeeps(s, Pushes(c, paths));
    BeforeRegistration(Next(s, Pushes(c, paths)), c);
  }

  lemma ChangeEnabled(s: State, c: ConnId, op: Op)
    requires c in s.clients && s.clients[c].state == Processing && s.clients[c].busy == Idle
    requires OpOk(s.clients[c].files, op, s.sep)
    ensures Enabled(s, Changes(c, op)) <==> OpSucceeds(s.clients[c].files, op, s.sep)
  {
  }

  // The pushed files make up the client's tree, which is then registered with everybody.
  method DoPushFiles(manager: ConnectionManager, c: ConnId, paths: seq<string>)
    returns (snapshot: map<Nick, seq<string>>, listings: map<ConnId, seq<string>>)
    requires manager.Linked() && Inv(manager.Model()) && Enabled(manager.Model(), Pushes(c, paths))
    modifies manager, manager.RemoteFileSystem(c)`at, manager.RemoteFileSystem(c)`nodes,
             manager.RemoteFileSystem(c).nodes`children
    ensures manager.Linked() && manager.trees == old(manager.trees)
    ensures PushRegistered(old(manager.Model()), c, paths, listings, snapshot, manager.Model())
  {
    PushedReady(manager.Model(), c, paths);
    PushToTree(manager, c, paths);
    snapshot, listings := manager.TreePushed(c, paths);
  }

  // The announcement of a change that is not recorded.
  function AnnouncedOnly(s: State, c: ConnId, op: Op): State
    requires c in s.clients
  {
    Announce(s, s.clients[c].nick, Changed(s.clients[c].nick, op))
  }

  // The tree gets the path, and everybody is told. If the path was a node, and that node had a
  // child named like itself, it has two of them then, and no record can be that of the tree.
  method DoAddFile(manager: ConnectionManager, c: ConnId, path: string) returns (reply: Reply)
    requires manager.Linked() && c in manager.connections
    requires manager.connections[c].state == Processing && manager.connections[c].busy == Idle
    modifies manager, manager.RemoteFileSystem(c)`at, manager.RemoteFileSystem(c)`nodes,
             manager.RemoteFileSystem(c).nodes`children
    ensures reply == Successful && manager.trees == old(manager.trees)
    ensures OpOk(old(manager.connections)[c].files, AddOp(path), manager.separator) ==>
              manager.Linked() && Enabled(old(manager.Model()), Changes(c, AddOp(path))) &&
              manager.Model() == ChangeAnnounced(old(manager.Model()), c, AddOp(path))
    ensures !OpOk(old(manager.connections)[c].files, AddOp(path), manager.separator) ==>
              manager.Model() == AnnouncedOnly(old(manager.Model()), c, AddOp(path)) &&
              var tree, k := manager.trees[c], Components(path, manager.separator);
              k in tree.at && Twins(tree.at[k])
  {
    reply := Successful;
    if OpOk(manager.connections[c].files, AddOp(path), manager.separator) {
      AddToTree(manager, c, path);
      manager.TreeChanged(c, AddOp(path));
    } else {
      var tree := manager.trees[c];
      assert TreeIs(tree, manager.connections[c].files, manager.connections[c].nick, manager.separator);
      tree.Add(path);
      manager.DoNotify(manager.connections[c].nick, Changed(manager.connections[c].nick, AddOp(path)));
    }
  }

  // A path that is not there is answered with a failure, and nobody is told.
  method DoRemovePath(manager: ConnectionManager, c: ConnId, path: string) returns (reply: Reply, unlinked: seq<string>)
    requires manager.Linked() && c in manager.connections
    requires manager.connections[c].state == Processing && manager.connections[c].busy == Idle
    modifies manager, manager.RemoteFileSystem(c)`at, manager.RemoteFileSystem(c)`nodes,
             manager.RemoteFileSystem(c).nodes`children
    ensures manager.Linked() && manager.trees == old(manager.trees)
    ensures reply == Successful <==> Enabled(old(manager.Model()), Changes(c, RemoveOp(path)))
    ensures reply == Successful ==>
              manager.Model() == ChangeAnnounced(old(manager.Model()), c, RemoveOp(path))
    ensures reply == Failed ==> manager.Model() == old(manager.Model())
    ensures Distinct(unlinked)
    ensures Elements(unlinked) == if reply == Successful
              then CachedFiles(old(manager.connections)[c].files, Components(path, manager.separator),
                               old(manager.connections)[c].nick, manager.separator)
              else {}
  {
    var ok;
    ChangeEnabled(manager.Model(), c, RemoveOp(path));
    ok, unlinked := RemoveFromTree(manager, c, path);
    if !ok {
      manager.RecordSame(c);
      return Failed, unlinked;
    }
    reply := Successful;
    manager.TreeChanged(c, RemoveOp(path));
  }

  // A renaming that keeps sibling names apart.
  method RenameRecorded(manager: ConnectionManager, c: ConnId, oldPath: string, newName: string) returns (reply: Reply)
    requires manager.Linked() && c in manager.connections
    requires manager.connections[c].state == Processing && manager.connections[c].busy == Idle
    requires OpOk(manager.connections[c].files, RenameOp(oldPath, newName), manager.separator)
    modifies manager, manager.RemoteFileSystem(c)`at, manager.RemoteFileSystem(c).nodes`name,
             manager.RemoteFileSystem(c).nodes`key
    ensures manager.Linked() && manager.trees == old(manager.trees)
    ensures reply == Successful <==> Enabled(old(manager.Model()), Changes(c, RenameOp(oldPath, newName)))
    ensures reply == Successful ==>
              manager.Model() == ChangeAnnounced(old(manager.Model()), c, RenameOp(oldPath, newName))
    ensures reply == Failed ==> manager.Model() == old(manager.Model())
  {
    ChangeEnabled(manager.Model(), c, RenameOp(oldPath, newName));
    var ok := RenameInTree(manager, c, oldPath, newName);
    if !ok {
      manager.RecordSame(c);
      return Failed;
    }
    reply := Successful;
    manager.TreeChanged(c, RenameOp(oldPath, newName));
  }

  // One that does not.
  method RenameUnrecorded(manager: ConnectionManager, c: ConnId, oldPath: string, newName: string)
    requires manager.Linked() && c in manager.connections
    requires !OpOk(manager.connections[c].files, RenameOp(oldPath, newName), manager.separator)
    modifies manager, manager.RemoteFileSystem(c)`at, manager.RemoteFileSystem(c).nodes`name,
             manager.RemoteFileSystem(c).nodes`key
    ensures manager.trees == old(manager.trees)
    ensures manager.Model() == AnnouncedOnly(old(manager.Model()), c, RenameOp(oldPath, newName))
    ensures exists n :: n in manager.trees[c].nodes && Twins(n)
  {
    var tree := manager.trees[c];
    assert TreeIs(tree, manager.connections[c].files, manager.connections[c].nick, manager.separator);
    var renamed := tree.Rename(oldPath, newName);
    manager.DoNotify(manager.connections[c].nick, Changed(manager.connections[c].nick, RenameOp(oldPath, newName)));
  }

  // A renaming onto a sibling's name succeeds too, and gives two siblings of that name.
  method DoRenamePath(manager: ConnectionManager, c: ConnId, oldPath: string, newName: string) returns (reply: Reply)
    requires manager.Linked() && c in manager.connections
    requires manager.connections[c].state == Processing && manager.connections[c].busy == Idle
    modifies manager, manager.RemoteFileSystem(c)`at, manager.RemoteFileSystem(c).nodes`name,
             manager.RemoteFileSystem(c).nodes`key
    ensures manager.trees == old(manager.trees)
    ensures reply == Successful <==>
            OpSucceeds(old(manager.connections)[c].files, RenameOp(oldPath, newName), manager.separator)
    ensures OpOk(old(manager.connections)[c].files, RenameOp(oldPath, newName), manager.separator) ==>
              && manager.Linked()
              && (reply == Successful <==> Enabled(old(manager.Model()), Changes(c, RenameOp(oldPath, newName))))
              && (reply == Successful ==>
                    manager.Model() == ChangeAnnounced(old(manager.Model()), c, RenameOp(oldPath, newName)))
    ensures !OpOk(old(manager.connections)[c].files, RenameOp(oldPath, newName), manager.separator) ==>
              && reply == Successful && manager.Model() == AnnouncedOnly(old(manager.Model()), c, RenameOp(oldPath, newName))
              && exists n :: n in manager.trees[c].nodes && Twins(n)
    ensures reply == Failed ==> manager.Model() == old(manager.Model())
  {
    if !OpOk(manager.connections[c].files, RenameOp(oldPath, newName), manager.separator) {
      RenameUnrecorded(manager, c, oldPath, newName);
      return Successful;
    }
    reply := RenameRecorded(manager, c, oldPath, newName);
  }

  lemma ListedKeysValid(tree: VirtualFileSystemTree)
    requires tree.Valid()
    ensures ValidKeys(tree.Contents().Keys, tree.separator)
  {
    forall k | k in tree.Contents() ensures ValidPath(k, tree.separator) {
      IndexValid(tree.nodes, tree.at, tree.separator, k);
    }
  }

  // A listing pushed into an empty tree makes a tree of the listed paths, none of them cached.
  method PushListing(tree: VirtualFileSystemTree, paths: seq<string>, ghost keys: set<Path>)
    requires tree.Valid() && tree.Contents() == map[]
    requires IsListing(paths, keys, tree.separator) && Closed(keys) && ValidKeys(keys, tree.separator)
    modifies tree`at, tree`nodes, tree.nodes`children
    ensures tree.Valid() && tree.Contents().Keys == keys && forall k :: k in keys ==> !tree.Contents()[k]
  {
    ListingRoundTrip(paths, keys, tree.separator);
    PushAll(tree, paths);
  }

  // The listing of one tree, pushed into an empty one, makes a tree of the same paths.
  method Mirror(source: VirtualFileSystemTree, target: VirtualFileSystemTree)
    requires source.Valid() && target.Valid() && target.Contents() == map[] && source.separator == target.separator
    requires source != target && source.nodes !! target.nodes
    modifies target`at, target`nodes, target.nodes`children
    ensures target.Valid() && target.Contents().Keys == old(source.Contents()).Keys
    ensures forall k :: k in target.Contents() ==> !target.Contents()[k]
    ensures source.Valid() && source.Contents() == old(source.Contents())
  {
    source.ContentsClosed();
    ListedKeysValid(source);
    var paths := source.Get(FILE);
    PushListing(target, paths, source.Contents().Keys);
  }
}
