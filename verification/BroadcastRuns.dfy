/** What every run of the connection manager keeps: the processing counter, the countdown of
    every shared buffer, and the convergence of all views. */
module BroadcastRuns {
  import opened Paths
  import opened PathTree
  import opened Notifications
  import opened Broadcast

  // ---- Shared buffers ----

  lemma {:induction false} StartedCount(to: set<ConnId>, b: BufId)
    ensures |Started(to, b)| == |to|
  {
    if to != {} {
      var d :| d in to;
      StartedCount(to - {d}, b);
      assert Started(to, b) == Started(to - {d}, b) + {(d, b)};
      assert (d, b) !in Started(to - {d}, b);
    }
  }

  lemma PairsOfSum(all: set<(ConnId, BufId)>, to: set<ConnId>, b: BufId, i: BufId)
    requires forall w :: w in all ==> w.1 != b
    ensures Pairs(all + Started(to, b), i) == if i == b then Started(to, b) else Pairs(all, i)
  {
  }

  // Sending stores a counter equal to the number of writes started.
  lemma SendBuffers(s: State, to: set<ConnId>, m: Msg, count: int)
    requires BuffersOk(s) && count == |to| >= 1
    ensures BuffersOk(Send(s, to, m, count))
  {
    var t := Send(s, to, m, count);
    CountingSend(s.writes + s.lost, s.storage, s.lastBuffer, to, m);
    assert t.writes + t.lost == (s.writes + s.lost) + Started(to, t.lastBuffer);
    assert forall w :: w in s.lost ==> w in s.writes + s.lost;
  }

  lemma CountingSend(all: set<(ConnId, BufId)>, storage: map<BufId, Shared>, last: nat, to: set<ConnId>, m: Msg)
    requires Counting(all, storage, last) && to != {}
    ensures Counting(all + Started(to, last + 1), storage[last + 1 := Shared(m, |to|)], last + 1)
    ensures forall w :: w in all ==> w.1 != last + 1
  {
    var b := last + 1;
    StartedCount(to, b);
    forall w | w in all ensures w.1 != b {
      assert storage[w.1].counter >= 1;
    }
    forall i | i in storage[b := Shared(m, |to|)]
      ensures storage[b := Shared(m, |to|)][i].counter == |Pairs(all + Started(to, b), i)| >= 1
    {
      assert i in storage ==> i <= last && storage[i].counter >= 1;
      PairsOfSum(all, to, b, i);
    }
  }

  lemma WriteDoneBuffers(s: State, c: ConnId, b: BufId)
    requires BuffersOk(s) && (c, b) in s.writes
    ensures BuffersOk(Next(s, WriteDone(c, b)))
  {
    var t := Next(s, WriteDone(c, b));
    var all, rest := s.writes + s.lost, t.writes + t.lost;
    assert rest == all - {(c, b)};
    assert Pairs(rest, b) == Pairs(all, b) - {(c, b)};
    assert (c, b) in Pairs(all, b);
    assert |Pairs(rest, b)| == |Pairs(all, b)| - 1;
    forall i | i in s.storage && i != b ensures Pairs(rest, i) == Pairs(all, i) {}
    if s.storage[b].counter - 1 == 0 {
      assert Pairs(rest, b) == {};
      assert forall w :: w in rest && w.1 == b ==> w in Pairs(rest, b);
    }
  }

  lemma WriteLostBuffers(s: State, c: ConnId, b: BufId)
    requires BuffersOk(s) && (c, b) in s.writes && c !in s.clients
    ensures BuffersOk(Next(s, WriteLost(c, b)))
  {
    var t := Next(s, WriteLost(c, b));
    assert t.writes + t.lost == s.writes + s.lost;
  }

  // ---- Recipients ----

  lemma OthersAre(s: State, c: ConnId)
    requires NicksOk(s.clients) && c in s.clients && s.clients[c].state == Processing
    ensures Others(s.clients, s.clients[c].nick) == InProcessing(s.clients) - {c}
    ensures |Others(s.clients, s.clients[c].nick)| == |InProcessing(s.clients)| - 1
  {
  }

  lemma PostKeeps(clients: map<ConnId, Client>, to: set<ConnId>, m: Msg)
    ensures Post(clients, to, m).Keys == clients.Keys
    ensures InProcessing(Post(clients, to, m)) == InProcessing(clients)
    ensures NicksOk(clients) ==> NicksOk(Post(clients, to, m))
  {
  }

  // ---- Convergence ----

  // A view entry only matters per nickname, so a message about one client moves one entry.
  lemma EventualPosted(c: Client, m: Msg, sep: char)
    ensures Eventual(c.(inbox := c.inbox + [m]), sep) == ApplyMsg(Eventual(c, sep), m, sep)
  {
    ApplyAllSnoc(c.view, c.inbox, m, sep);
  }

  // No peer other than c bears c's nickname.
  ghost predicate NickApart(peers: map<ConnId, Peer>, c: ConnId, nick: Nick) {
    forall d :: d in peers && d != c ==> peers[d].nick != nick
  }

  lemma ViewOfNewcomer(v: View, peers: map<ConnId, Peer>, r: ConnId, c: ConnId, p: Peer, sep: char)
    requires Converged(v, peers, r, sep) && c !in peers && r != c && p.busy == Idle && NickApart(peers, c, p.nick)
    requires Closed(p.paths) && p.unseen == map[]
    ensures Converged(v[p.nick := p.paths], peers[c := p], r, sep)
  {
    var w, after := v[p.nick := p.paths], peers[c := p];
    forall n | n in w ensures exists d :: d in after && d != r && after[d].nick == n {
      if n == p.nick {
        assert c in after && after[c].nick == n;
      } else {
        var d :| d in peers && d != r && peers[d].nick == n;
        assert d in after && after[d].nick == n;
      }
    }
  }

  // What a change does to a settled entry: it shows the new tree but for what is not announced.
  lemma ChangeSettles(p: Client, op: Op, viewers: set<ConnId>, r: ConnId, shown: set<Path>, sep: char)
    requires Closed(p.files.Keys) && p.busy == Idle && r in viewers && Settled(PeerOf(p), r, shown, sep)
    requires OpSucceeds(p.files, op, sep) && OpOk(p.files, op, sep)
    ensures Settled(PeerOf(WithChange(p, op, viewers, sep)), r, shown, sep)
  {
    assert shown == p.files.Keys - HiddenFrom(p.unseen, r);
    ViewShowsAllButUnseen(p.files, HiddenFrom(p.unseen, r), op, sep);
  }

  lemma ChangeSettlesAll(p: Client, op: Op, viewers: set<ConnId>, r: ConnId, sep: char)
    requires Closed(p.files.Keys) && p.busy == Idle && r in viewers && OpSucceeds(p.files, op, sep) && OpOk(p.files, op, sep)
    ensures forall shown :: Settled(PeerOf(p), r, shown, sep) ==> Settled(PeerOf(WithChange(p, op, viewers, sep)), r, shown, sep)
  {
    forall shown | Settled(PeerOf(p), r, shown, sep) ensures Settled(PeerOf(WithChange(p, op, viewers, sep)), r, shown, sep) {
      ChangeSettles(p, op, viewers, r, shown, sep);
    }
  }

  lemma ViewOfChange(v: View, peers: map<ConnId, Peer>, r: ConnId, c: ConnId, p: Peer, sep: char)
    requires Converged(v, peers, r, sep) && c in peers && p.nick == peers[c].nick
    requires forall shown :: Settled(peers[c], r, shown, sep) ==> Settled(p, r, shown, sep)
    ensures Converged(v, peers[c := p], r, sep)
  {
    var after := peers[c := p];
    forall n | n in v ensures exists d :: d in after && d != r && after[d].nick == n {
      var d :| d in peers && d != r && peers[d].nick == n;
      assert d in after && after[d].nick == n;
    }
  }

  lemma ViewOfAnnouncement(v: View, peers: map<ConnId, Peer>, r: ConnId, c: ConnId, sep: char)
    requires Converged(v, peers, r, sep) && c in peers && r != c && peers[c].busy.Announcing?
    requires NickApart(peers, c, peers[c].nick)
    ensures Converged(ApplyMsg(v, Changed(peers[c].nick, peers[c].busy.op), sep),
                      peers[c := peers[c].(busy := Idle)], r, sep)
  {
    var w := ApplyMsg(v, Changed(peers[c].nick, peers[c].busy.op), sep);
    var after := peers[c := peers[c].(busy := Idle)];
    assert w.Keys == v.Keys;
    assert Settled(peers[c], r, v[peers[c].nick], sep) && w[peers[c].nick] == ViewApply(v[peers[c].nick], peers[c].busy.op, sep);
    ViewClosed(v[peers[c].nick], peers[c].busy.op, sep);
    forall n | n in w ensures exists d :: d in after && d != r && after[d].nick == n {
      var d :| d in peers && d != r && peers[d].nick == n;
      assert d in after && after[d].nick == n;
    }
  }

  lemma ViewOfLeaver(v: View, peers: map<ConnId, Peer>, r: ConnId, c: ConnId, sep: char)
    requires Converged(v, peers, r, sep) && c in peers && r != c && NickApart(peers, c, peers[c].nick)
    ensures Converged(v - {peers[c].nick}, peers - {c}, r, sep)
  {
    var w, after := v - {peers[c].nick}, peers - {c};
    forall n | n in w ensures exists d :: d in after && d != r && after[d].nick == n {
      var d :| d in peers && d != r && peers[d].nick == n;
      assert d in after && after[d].nick == n;
    }
  }

  // A client that alone is processing, or turns so, is owed nothing about itself.
  lemma ViewIgnoresSelf(v: View, peers: map<ConnId, Peer>, r: ConnId, p: Peer, sep: char)
    requires Converged(v, peers, r, sep)
    ensures Converged(v, peers[r := p], r, sep)
  {
    var after := peers[r := p];
    forall n | n in v ensures exists d :: d in after && d != r && after[d].nick == n {
      var d :| d in peers && d != r && peers[d].nick == n;
      assert d in after && after[d].nick == n;
    }
  }

  // A listing shows a client's tree exactly, also while its announcement is still owed.
  lemma ListingSettles(c: Client, listing: seq<string>, r: ConnId, sep: char)
    requires ClientOk(c, sep) && IsListing(listing, c.files.Keys, sep) && r !in c.unseen
    ensures Settled(PeerOf(c), r, Rebuilt(listing, sep), sep)
  {
    ListingRoundTrip(listing, c.files.Keys, sep);
  }

  // The newcomer's own first view: its snapshot shows every processing client's tree, also one
  // whose announcement is still owed.
  lemma ViewFromSnapshot(t: map<Nick, seq<string>>, clients: map<ConnId, Client>,
                         listings: map<ConnId, seq<string>>, c: ConnId, sep: char)
    requires InProcessing(clients) <= listings.Keys && IsSnapshot(t, clients, listings) && c !in InProcessing(clients)
    requires forall d :: d in InProcessing(clients) ==>
               IsListing(listings[d], clients[d].files.Keys, sep) && ClientOk(clients[d], sep) && c !in clients[d].unseen
    ensures Converged(ApplyMsg(map[], Snapshot(t), sep), Peers(clients), c, sep)
  {
    var w := ApplyMsg(map[], Snapshot(t), sep);
    var peers := Peers(clients);
    assert w.Keys == t.Keys;
    forall d | d in peers && d != c ensures peers[d].nick in w && Settled(peers[d], c, w[peers[d].nick], sep) {
      ListingSettles(clients[d], listings[d], c, sep);
    }
    forall n | n in w ensures exists d :: d in peers && d != c && peers[d].nick == n {
      var d :| d in InProcessing(clients) && clients[d].nick == n;
      assert d in peers && peers[d].nick == n;
    }
  }

  // ---- Every critical section keeps convergence ----

  lemma QuietTable(a: map<ConnId, Client>, b: map<ConnId, Client>, sep: char)
    requires AllConverged(a, sep) && Peers(b) == Peers(a)
    requires forall r :: r in InProcessing(a) ==> r in b && Eventual(b[r], sep) == Eventual(a[r], sep)
    ensures AllConverged(b, sep)
  {
    assert InProcessing(b) == Peers(b).Keys == InProcessing(a);
  }

  lemma PostedView(clients: map<ConnId, Client>, to: set<ConnId>, m: Msg, sep: char, r: ConnId)
    requires r in to && r in clients
    ensures Eventual(Post(clients, to, m)[r], sep) == ApplyMsg(Eventual(clients[r], sep), m, sep)
  {
    EventualPosted(clients[r], m, sep);
  }

  lemma ApartOf(clients: map<ConnId, Client>, c: ConnId)
    requires NicksOk(clients) && c in clients && clients[c].state != Connected
    ensures NickApart(Peers(clients), c, clients[c].nick)
  {
  }

  // The first client to register: nobody is told, and nothing is owed to it.
  lemma FirstRegisters(clients: map<ConnId, Client>, c: ConnId, me: Client, sep: char)
    requires c in clients && InProcessing(clients) == {} && me.state == Processing && me.inbox == [] && me.view == map[]
    ensures AllConverged(clients[c := me], sep)
  {
    var after := clients[c := me];
    assert InProcessing(after) == {c};
    assert Eventual(after[c], sep) == map[];
  }

  lemma PeersUpdated(clients: map<ConnId, Client>, to: set<ConnId>, m: Msg, c: ConnId, me: Client)
    requires c in clients && me.state == Processing
    ensures Peers(Post(clients, to, m)[c := me]) == Peers(clients)[c := PeerOf(me)]
    ensures Peers(clients[c := me]) == Peers(clients)[c := PeerOf(me)]
  {
  }

  lemma NewcomerEventual(me: Client, after: Client, t: map<Nick, seq<string>>, sep: char)
    requires me.inbox == [] && me.view == map[] && after.view == map[] && after.inbox == me.inbox + [Snapshot(t)]
    ensures Eventual(after, sep) == ApplyMsg(map[], Snapshot(t), sep)
  {
    EventualPosted(me, Snapshot(t), sep);
  }

  lemma RegisterTable(clients: map<ConnId, Client>, c: ConnId, listing: seq<string>, me: Client,
                      snapshotView: View, sep: char)
    requires NicksOk(clients) && AllConverged(clients, sep)
    requires c in clients && clients[c].state == Logged && Rebuilt(listing, sep) == clients[c].files.Keys
    requires me.state == Processing && me.busy == Idle && me.nick == clients[c].nick && me.files == clients[c].files
    requires me.unseen == map[]
    requires Closed(me.files.Keys)
    requires Eventual(me, sep) == snapshotView && Converged(snapshotView, Peers(clients), c, sep)
    ensures AllConverged(Post(clients, InProcessing(clients), Registered(clients[c].nick, listing))[c := me], sep)
  {
    var m := Registered(clients[c].nick, listing);
    var after := Post(clients, InProcessing(clients), m)[c := me];
    var peers, p := Peers(clients), PeerOf(me);
    PeersUpdated(clients, InProcessing(clients), m, c, me);
    assert InProcessing(after) == Peers(after).Keys;
    ApartOf(clients, c);
    forall r | r in InProcessing(after) ensures Converged(Eventual(after[r], sep), peers[c := p], r, sep) {
      if r == c {
        ViewIgnoresSelf(snapshotView, peers, c, p, sep);
      } else {
        assert r in peers && r in InProcessing(clients);
        PostedView(clients, InProcessing(clients), m, sep, r);
        ViewOfNewcomer(Eventual(clients[r], sep), peers, r, c, p, sep);
      }
    }
  }

  lemma ChangeTable(clients: map<ConnId, Client>, c: ConnId, op: Op, me: Client, sep: char)
    requires AllConverged(clients, sep)
    requires c in clients && clients[c].state == Processing && clients[c].busy == Idle
    requires Closed(clients[c].files.Keys) && OpSucceeds(clients[c].files, op, sep) && OpOk(clients[c].files, op, sep)
    requires me == WithChange(clients[c], op, InProcessing(clients), sep)
    ensures AllConverged(clients[c := me], sep)
  {
    var peers, after := Peers(clients), clients[c := me];
    PeersUpdated(clients, {}, LoggedOut(""), c, me);
    assert InProcessing(after) == Peers(after).Keys;
    forall r | r in InProcessing(after) ensures Converged(Eventual(after[r], sep), peers[c := PeerOf(me)], r, sep) {
      assert r in peers && Eventual(after[r], sep) == Eventual(clients[r], sep);
      ChangeSettlesAll(clients[c], op, InProcessing(clients), r, sep);
      ViewOfChange(Eventual(clients[r], sep), peers, r, c, PeerOf(me), sep);
    }
  }

  lemma AnnounceTable(clients: map<ConnId, Client>, to: set<ConnId>, c: ConnId, m: Msg, sep: char)
    requires NicksOk(clients) && AllConverged(clients, sep)
    requires c in clients && clients[c].state == Processing && clients[c].busy.Announcing?
    requires to == InProcessing(clients) - {c} && m == Changed(clients[c].nick, clients[c].busy.op)
    ensures AllConverged(Post(clients, to, m)[c := clients[c].(busy := Idle)], sep)
  {
    var me := clients[c].(busy := Idle);
    var peers, after := Peers(clients), Post(clients, to, m)[c := me];
    PeersUpdated(clients, to, m, c, me);
    assert PeerOf(me) == peers[c].(busy := Idle);
    assert InProcessing(after) == Peers(after).Keys;
    ApartOf(clients, c);
    forall r | r in InProcessing(after) ensures Converged(Eventual(after[r], sep), peers[c := PeerOf(me)], r, sep) {
      assert r in peers;
      if r == c {
        assert Eventual(after[c], sep) == Eventual(clients[c], sep);
        ViewIgnoresSelf(Eventual(clients[c], sep), peers, c, PeerOf(me), sep);
      } else {
        PostedView(clients, to, m, sep, r);
        ViewOfAnnouncement(Eventual(clients[r], sep), peers, r, c, sep);
      }
    }
  }

  lemma LeaveTable(clients: map<ConnId, Client>, c: ConnId, m: Msg, sep: char)
    requires NicksOk(clients) && AllConverged(clients, sep)
    requires c in clients && clients[c].state == Processing && m == LoggedOut(clients[c].nick)
    ensures AllConverged(Post(clients - {c}, InProcessing(clients - {c}), m), sep)
  {
    var peers, gone := Peers(clients), clients - {c};
    var after := Post(gone, InProcessing(gone), m);
    ApartOf(clients, c);
    PostKeeps(gone, InProcessing(gone), m);
    assert Peers(after) == peers - {c};
    forall r | r in InProcessing(after) ensures Converged(Eventual(after[r], sep), peers - {c}, r, sep) {
      assert r in InProcessing(gone) && r in InProcessing(clients) && r != c;
      PostedView(gone, InProcessing(gone), m, sep, r);
      ViewOfLeaver(Eventual(clients[r], sep), peers, r, c, sep);
    }
  }

  // ---- Every step keeps the invariant ----

  // A step that changes one client's record, but nothing that others see of it.
  lemma TouchKeeps(s: State, c: ConnId, me: Client)
    requires Inv(s) && c in s.clients && ClientOk(me, s.sep) && NicksOk(s.clients[c := me])
    requires me.state == Processing <==> s.clients[c].state == Processing
    requires me.state == Processing ==>
               PeerOf(me) == PeerOf(s.clients[c]) && Eventual(me, s.sep) == Eventual(s.clients[c], s.sep)
    ensures Inv(s.(clients := s.clients[c := me]))
  {
    TouchTable(s.clients, c, me, s.sep);
    assert ClientOk(s.clients[c], s.sep);
    TouchUnseen(s.clients, c, me, s.nextConn);
  }

  lemma TouchTable(clients: map<ConnId, Client>, c: ConnId, me: Client, sep: char)
    requires ClientsOk(clients, sep) && AllConverged(clients, sep) && c in clients && ClientOk(me, sep)
    requires me.state == Processing <==> clients[c].state == Processing
    requires me.state == Processing ==> PeerOf(me) == PeerOf(clients[c]) && Eventual(me, sep) == Eventual(clients[c], sep)
    ensures ClientsOk(clients[c := me], sep) && AllConverged(clients[c := me], sep)
    ensures InProcessing(clients[c := me]) == InProcessing(clients)
  {
    var after := clients[c := me];
    assert InProcessing(after) == InProcessing(clients);
    assert Peers(after) == Peers(clients);
    QuietTable(clients, after, sep);
    forall d | d in after ensures ClientOk(after[d], sep) {
      assert d != c ==> ClientOk(clients[d], sep);
    }
  }

  lemma TouchUnseen(clients: map<ConnId, Client>, c: ConnId, me: Client, nextConn: nat)
    requires UnseenOk(clients) && UnseenBelow(clients, nextConn) && c in clients
    requires me.unseen == clients[c].unseen || me.unseen == map[]
    requires me.state == Processing <==> clients[c].state == Processing
    ensures UnseenOk(clients[c := me]) && UnseenBelow(clients[c := me], nextConn)
  {
    var after := clients[c := me];
    forall d, r | d in after && r in after[d].unseen ensures r < nextConn && (r in after ==> after[r].state == Processing) {
      assert r in clients[d].unseen;
    }
  }

  lemma ConnectUnseen(clients: map<ConnId, Client>, c: ConnId)
    requires UnseenOk(clients) && c !in clients && UnseenBelow(clients, c)
    ensures UnseenOk(clients[c := NEWCOMER]) && UnseenBelow(clients[c := NEWCOMER], c + 1)
  {
    var after := clients[c := NEWCOMER];
    forall d, r | d in after && r in after[d].unseen ensures r < c && (r in after ==> after[r].state == Processing) {
      assert r in clients[d].unseen;
    }
  }

  lemma ConnectTable(clients: map<ConnId, Client>, c: ConnId, sep: char)
    requires TableOk(clients, sep) && c !in clients && UnseenBelow(clients, c)
    ensures TableOk(clients[c := NEWCOMER], sep)
    ensures InProcessing(clients[c := NEWCOMER]) == InProcessing(clients)
  {
    var after := clients[c := NEWCOMER];
    assert InProcessing(after) == InProcessing(clients);
    assert Peers(after) == Peers(clients);
    ConnectUnseen(clients, c);
    QuietTable(clients, after, sep);
    forall d | d in after ensures ClientOk(after[d], sep) {
      assert d != c ==> ClientOk(clients[d], sep);
    }
  }

  lemma ConnectsKeeps(s: State)
    requires Inv(s)
    ensures Inv(Next(s, Connects))
  {
    assert s.nextConn !in s.clients;
    ConnectUnseen(s.clients, s.nextConn);
    ConnectTable(s.clients, s.nextConn, s.sep);
    assert forall w :: w in s.lost ==> w in s.writes + s.lost;
  }

  lemma DeliversKeeps(s: State, c: ConnId)
    requires Inv(s) && Enabled(s, Delivers(c))
    ensures Inv(Next(s, Delivers(c)))
  {
    var me := s.clients[c];
    assert ClientOk(me, s.sep);
    TouchKeeps(s, c, me.(view := ApplyMsg(me.view, me.inbox[0], s.sep), inbox := me.inbox[1..]));
  }

  lemma PushesKeeps(s: State, c: ConnId, paths: seq<string>)
    requires Inv(s) && Enabled(s, Pushes(c, paths))
    ensures Inv(Next(s, Pushes(c, paths)))
  {
    var me := s.clients[c];
    assert ClientOk(me, s.sep);
    PushKeeps(me.files, paths, s.sep);
    TouchKeeps(s, c, Pushed(me, paths, s.sep));
  }

  lemma SignsInKeeps(s: State, c: ConnId, nick: Nick)
    requires Inv(s) && Enabled(s, SignsIn(c, nick))
    ensures Inv(Next(s, SignsIn(c, nick)))
  {
    var me := s.clients[c];
    assert ClientOk(me, s.sep) && me.nick == "" && nick != "";
    TouchKeeps(s, c, me.(nick := nick, state := Logged));
  }

  lemma CachesKeeps(s: State, c: ConnId, path: Path)
    requires Inv(s) && Enabled(s, Caches(c, path))
    ensures Inv(Next(s, Caches(c, path)))
  {
    var me := s.clients[c];
    assert ClientOk(me, s.sep);
    assert SetFlag(me.files, path, true).Keys == me.files.Keys;
    TouchKeeps(s, c, me.(files := SetFlag(me.files, path, true)));
  }

  lemma ChangesKeeps(s: State, c: ConnId, op: Op)
    requires Inv(s) && Enabled(s, Changes(c, op))
    ensures Inv(Next(s, Changes(c, op)))
  {
    var before := s.clients[c];
    var me := WithChange(before, op, InProcessing(s.clients), s.sep);
    assert ClientOk(before, s.sep);
    OpKeeps(before.files, op, s.sep);
    TreeAbsorbs(before.files, op, s.sep);
    ChangeTable(s.clients, c, op, me, s.sep);
    assert InProcessing(s.clients[c := me]) == InProcessing(s.clients);
  }

  lemma PostOk(clients: map<ConnId, Client>, to: set<ConnId>, m: Msg, sep: char)
    requires ClientsOk(clients, sep) && to <= InProcessing(clients)
    ensures ClientsOk(Post(clients, to, m), sep)
  {
    forall c | c in clients ensures ClientOk(Post(clients, to, m)[c], sep) {
      assert ClientOk(clients[c], sep);
    }
  }

  // A critical section that sends one buffer and leaves a good client table.
  lemma SendKeeps(s: State, to: set<ConnId>, m: Msg, count: int, table: map<ConnId, Client>)
    requires BuffersOk(s) && IdsOk(s) && count == |to| >= 1 && to <= s.clients.Keys
    requires TableOk(table, s.sep) && UnseenBelow(table, s.nextConn) && table.Keys == s.clients.Keys
    requires s.processing == |InProcessing(table)|
    ensures Inv(Send(s, to, m, count).(clients := table))
  {
    SendBuffers(s, to, m, count);
    SendIds(s, to, m, count, table);
  }

  lemma SendIds(s: State, to: set<ConnId>, m: Msg, count: int, table: map<ConnId, Client>)
    requires IdsOk(s) && to <= s.clients.Keys && table.Keys == s.clients.Keys
    ensures IdsOk(Send(s, to, m, count).(clients := table))
  {
  }

  lemma AnnouncedTable(clients: map<ConnId, Client>, to: set<ConnId>, c: ConnId, m: Msg, sep: char)
    requires TableOk(clients, sep)
    requires c in clients && clients[c].state == Processing && clients[c].busy.Announcing?
    requires to == InProcessing(clients) - {c} && m == Changed(clients[c].nick, clients[c].busy.op)
    ensures TableOk(Post(clients, to, m)[c := clients[c].(busy := Idle)], sep)
    ensures InProcessing(Post(clients, to, m)[c := clients[c].(busy := Idle)]) == InProcessing(clients)
  {
    PostOk(clients, to, m, sep);
    PostKeeps(clients, to, m);
    assert ClientOk(clients[c], sep);
    AnnounceTable(clients, to, c, m, sep);
  }

  lemma QuietAnnounces(s: State, c: ConnId, to: set<ConnId>, m: Msg)
    requires BuffersOk(s) && IdsOk(s) && UnseenBelow(s.clients, s.nextConn) && c in s.clients && to == {}
    requires TableOk(Post(s.clients, to, m)[c := s.clients[c].(busy := Idle)], s.sep)
    requires s.processing == |InProcessing(Post(s.clients, to, m)[c := s.clients[c].(busy := Idle)])|
    ensures Inv(s.(clients := s.clients[c := s.clients[c].(busy := Idle)]))
  {
    assert Post(s.clients, to, m) == s.clients;
  }

  lemma AnnouncesIs(s: State, c: ConnId, to: set<ConnId>, m: Msg)
    requires Enabled(s, Announces(c)) && c !in to
    requires to == Others(s.clients, s.clients[c].nick) && m == Changed(s.clients[c].nick, s.clients[c].busy.op)
    ensures Next(s, Announces(c)) == if s.processing == 1
              then s.(clients := s.clients[c := s.clients[c].(busy := Idle)])
              else Send(s, to, m, s.processing - 1).(clients := Post(s.clients, to, m)[c := s.clients[c].(busy := Idle)])
  {
  }

  lemma AnnouncesKeeps(s: State, c: ConnId)
    requires Inv(s) && Enabled(s, Announces(c))
    ensures Inv(Next(s, Announces(c)))
  {
    var me := s.clients[c];
    var to, m := Others(s.clients, me.nick), Changed(me.nick, me.busy.op);
    assert ClientOk(me, s.sep);
    OthersAre(s, c);
    AnnouncedTable(s.clients, to, c, m, s.sep);
    AnnouncesIs(s, c, to, m);
    if s.processing == 1 {
      assert to == {};
      QuietAnnounces(s, c, to, m);
    } else {
      LaterAnnounces(s, c, to, m);
    }
  }

  lemma LaterAnnounces(s: State, c: ConnId, to: set<ConnId>, m: Msg)
    requires BuffersOk(s) && IdsOk(s) && UnseenBelow(s.clients, s.nextConn)
    requires c in s.clients && s.clients[c].busy.Announcing? && to <= s.clients.Keys
    requires s.processing == |InProcessing(s.clients)| && |to| == s.processing - 1 >= 1
    requires TableOk(Post(s.clients, to, m)[c := s.clients[c].(busy := Idle)], s.sep) && c !in to
    requires InProcessing(Post(s.clients, to, m)[c := s.clients[c].(busy := Idle)]) == InProcessing(s.clients)
    ensures Inv(Send(s, to, m, s.processing - 1).(clients := Post(s.clients, to, m)[c := s.clients[c].(busy := Idle)]))
  {
    SendKeeps(s, to, m, s.processing - 1, Post(s.clients, to, m)[c := s.clients[c].(busy := Idle)]);
  }

  lemma QuietLeave(clients: map<ConnId, Client>, c: ConnId, sep: char)
    requires TableOk(clients, sep) && c in clients && clients[c].state != Processing
    ensures TableOk(clients - {c}, sep) && InProcessing(clients - {c}) == InProcessing(clients)
  {
    var gone := clients - {c};
    assert InProcessing(gone) == InProcessing(clients);
    assert Peers(gone) == Peers(clients);
    QuietTable(clients, gone, sep);
  }

  lemma LeftTable(clients: map<ConnId, Client>, c: ConnId, m: Msg, sep: char)
    requires TableOk(clients, sep)
    requires c in clients && clients[c].state == Processing && m == LoggedOut(clients[c].nick)
    ensures TableOk(Post(clients - {c}, InProcessing(clients - {c}), m), sep)
    ensures InProcessing(Post(clients - {c}, InProcessing(clients - {c}), m)) == InProcessing(clients) - {c}
  {
    var gone := clients - {c};
    assert InProcessing(gone) == InProcessing(clients) - {c};
    assert ClientsOk(gone, sep) && NicksOk(gone);
    PostOk(gone, InProcessing(gone), m, sep);
    PostKeeps(gone, InProcessing(gone), m);
    LeaveTable(clients, c, m, sep);
  }

  lemma QuietDisconnect(s: State, c: ConnId)
    requires Inv(s) && c in s.clients && s.clients[c].state != Processing
    ensures Inv(Disconnect(s, c))
  {
    QuietLeave(s.clients, c, s.sep);
  }

  // The state between erasing a processing connection and telling the others.
  function Erased(s: State, c: ConnId): State {
    s.(clients := s.clients - {c}, processing := s.processing - 1)
  }

  lemma ErasedOk(s: State, c: ConnId)
    requires Inv(s) && c in s.clients && s.clients[c].state == Processing
    ensures BuffersOk(Erased(s, c)) && IdsOk(Erased(s, c)) && UnseenBelow(Erased(s, c).clients, s.nextConn)
    ensures Erased(s, c).processing == |InProcessing(Erased(s, c).clients)|
    ensures TableOk(Post(s.clients - {c}, InProcessing(s.clients - {c}), LoggedOut(s.clients[c].nick)), s.sep)
  {
    assert InProcessing(s.clients - {c}) == InProcessing(s.clients) - {c};
    LeftTable(s.clients, c, LoggedOut(s.clients[c].nick), s.sep);
    IdsLeave(s, c);
  }

  lemma ToldDisconnect(s: State, c: ConnId)
    requires Inv(s) && c in s.clients && s.clients[c].state == Processing
    ensures Inv(Disconnect(s, c))
  {
    ErasedOk(s, c);
    ErasedTold(s, c, Erased(s, c));
  }

  lemma ErasedTold(s: State, c: ConnId, base: State)
    requires c in s.clients && s.clients[c].state == Processing && base == Erased(s, c)
    requires BuffersOk(base) && IdsOk(base) && base.processing == |InProcessing(base.clients)|
    requires UnseenBelow(base.clients, base.nextConn)
    requires TableOk(Post(base.clients, InProcessing(base.clients), LoggedOut(s.clients[c].nick)), base.sep)
    ensures Inv(Disconnect(s, c))
  {
    var m := LoggedOut(s.clients[c].nick);
    if base.processing == 0 {
      assert InProcessing(base.clients) == {};
      assert Post(base.clients, {}, m) == base.clients;
      assert Disconnect(s, c) == base;
    } else {
      LaterDisconnect(base, m);
    }
  }

  lemma IdsLeave(s: State, c: ConnId)
    requires IdsOk(s)
    ensures IdsOk(Erased(s, c))
  {
  }

  lemma LaterDisconnect(base: State, m: Msg)
    requires BuffersOk(base) && IdsOk(base) && base.processing == |InProcessing(base.clients)| >= 1
    requires UnseenBelow(base.clients, base.nextConn)
    requires TableOk(Post(base.clients, InProcessing(base.clients), m), base.sep)
    ensures Inv(Send(base, InProcessing(base.clients), m, base.processing))
  {
    var to := InProcessing(base.clients);
    PostKeeps(base.clients, to, m);
    SendKeeps(base, to, m, base.processing, Post(base.clients, to, m));
  }

  // The client table after a registration.
  function RegisteredTable(clients: map<ConnId, Client>, c: ConnId, listing: seq<string>,
                           snapshot: map<Nick, seq<string>>): map<ConnId, Client>
    requires c in clients
  {
    var me := clients[c].(state := Processing, busy := Idle, inbox := clients[c].inbox + [Snapshot(snapshot)]);
    Post(clients, InProcessing(clients), Registered(clients[c].nick, listing))[c := me]
  }

  lemma RegisteredUnseen(clients: map<ConnId, Client>, c: ConnId, listing: seq<string>, snapshot: map<Nick, seq<string>>)
    requires UnseenOk(clients) && c in clients && clients[c].state == Logged
    ensures UnseenOk(RegisteredTable(clients, c, listing, snapshot))
    ensures forall d :: d in clients ==> c !in clients[d].unseen
  {
    var after := RegisteredTable(clients, c, listing, snapshot);
    forall d, r | d in after && r in after[d].unseen && r in after ensures after[r].state == Processing {
      assert r in clients[d].unseen;
    }
  }

  lemma RegisteredConverges(clients: map<ConnId, Client>, c: ConnId, listings: map<ConnId, seq<string>>,
                            snapshot: map<Nick, seq<string>>, sep: char)
    requires TableOk(clients, sep) && c in clients && clients[c].busy == Registering
    requires InProcessing(clients) + {c} <= listings.Keys && IsSnapshot(snapshot, clients, listings)
    requires forall d :: d in InProcessing(clients) + {c} ==> IsListing(listings[d], clients[d].files.Keys, sep)
    ensures AllConverged(RegisteredTable(clients, c, listings[c], snapshot), sep)
  {
    var before, after := clients[c], RegisteredTable(clients, c, listings[c], snapshot);
    assert ClientOk(before, sep);
    RegisteredUnseen(clients, c, listings[c], snapshot);
    ListingRoundTrip(listings[c], before.files.Keys, sep);
    ViewFromSnapshot(snapshot, clients, listings, c, sep);
    NewcomerEventual(before, after[c], snapshot, sep);
    RegisterTable(clients, c, listings[c], after[c], ApplyMsg(map[], Snapshot(snapshot), sep), sep);
  }

  lemma RegisteredTableOk(clients: map<ConnId, Client>, c: ConnId, listings: map<ConnId, seq<string>>,
                          snapshot: map<Nick, seq<string>>, sep: char)
    requires TableOk(clients, sep) && c in clients && clients[c].busy == Registering
    requires InProcessing(clients) + {c} <= listings.Keys && IsSnapshot(snapshot, clients, listings)
    requires forall d :: d in InProcessing(clients) + {c} ==> IsListing(listings[d], clients[d].files.Keys, sep)
    ensures TableOk(RegisteredTable(clients, c, listings[c], snapshot), sep)
    ensures InProcessing(RegisteredTable(clients, c, listings[c], snapshot)) == InProcessing(clients) + {c}
  {
    var to, m := InProcessing(clients), Registered(clients[c].nick, listings[c]);
    assert ClientOk(clients[c], sep);
    RegisteredUnseen(clients, c, listings[c], snapshot);
    PostOk(clients, to, m, sep);
    PostKeeps(clients, to, m);
    RegisteredConverges(clients, c, listings, snapshot, sep);
    RegisteredProcessing(clients, c, listings[c], snapshot);
  }

  lemma FirstTableOk(clients: map<ConnId, Client>, c: ConnId, sep: char)
    requires TableOk(clients, sep) && c in clients && clients[c].busy == Registering && InProcessing(clients) == {}
    ensures TableOk(clients[c := clients[c].(state := Processing, busy := Idle)], sep)
    ensures InProcessing(clients[c := clients[c].(state := Processing, busy := Idle)]) == {c}
  {
    var me := clients[c].(state := Processing, busy := Idle);
    assert ClientOk(clients[c], sep);
    FirstRegisters(clients, c, me, sep);
  }

  lemma RegistersKeeps(s: State, c: ConnId, listings: map<ConnId, seq<string>>, snapshot: map<Nick, seq<string>>)
    requires Inv(s) && Enabled(s, Registers(c, listings, snapshot))
    ensures Inv(Register(s, c, listings[c], snapshot))
  {
    var to := InProcessing(s.clients);
    assert ClientOk(s.clients[c], s.sep) && c !in to;
    if s.processing + 1 == 1 {
      assert to == {};
      FirstTableOk(s.clients, c, s.sep);
    } else {
      RegisteredTableOk(s.clients, c, listings, snapshot, s.sep);
      assert |to + {c}| == |to| + 1;
      LaterRegisters(s, c, listings[c], snapshot);
    }
  }

  lemma LaterRegisters(s: State, c: ConnId, listing: seq<string>, snapshot: map<Nick, seq<string>>)
    requires BuffersOk(s) && IdsOk(s) && c in s.clients && s.processing == |InProcessing(s.clients)| >= 1
    requires UnseenBelow(s.clients, s.nextConn)
    requires TableOk(RegisteredTable(s.clients, c, listing, snapshot), s.sep)
    requires |InProcessing(RegisteredTable(s.clients, c, listing, snapshot))| == s.processing + 1
    ensures Inv(Register(s, c, listing, snapshot))
  {
    var to, m := InProcessing(s.clients), Registered(s.clients[c].nick, listing);
    SendKeeps(s.(processing := s.processing + 1), to, m, |to|, RegisteredTable(s.clients, c, listing, snapshot));
  }

  lemma NextKeeps(s: State, e: Step)
    requires Inv(s) && Enabled(s, e)
    ensures Inv(Next(s, e))
  {
    match e
    case Connects => ConnectsKeeps(s);
    case SignsIn(c, nick) => SignsInKeeps(s, c, nick);
    case Pushes(c, paths) => PushesKeeps(s, c, paths);
    case Registers(c, listings, snapshot) => RegistersKeeps(s, c, listings, snapshot);
    case Changes(c, op) => ChangesKeeps(s, c, op);
    case Announces(c) => AnnouncesKeeps(s, c);
    case Caches(c, path) => CachesKeeps(s, c, path);
    case Disconnects(c) => if s.clients[c].state == Processing { ToldDisconnect(s, c); } else { QuietDisconnect(s, c); }
    case WriteDone(c, b) => WriteDoneBuffers(s, c, b);
    case WriteLost(c, b) => WriteLostBuffers(s, c, b);
    case Delivers(c) => DeliversKeeps(s, c);
    case StopsAll => assert InProcessing(map[]) == {};
  }

  lemma {:induction false} RunKeeps(s: State, run: seq<Step>, t: State)
    requires Inv(s) && Run(s, run, t)
    ensures Inv(t)
    decreases |run|
  {
    if run != [] {
      NextKeeps(s, run[0]);
      RunKeeps(Next(s, run[0]), run[1..], t);
    }
  }

  // ---- Main results, for every run from the start ----

  lemma StartOk(sep: char)
    ensures Inv(Start(sep))
  {
  }

  // Client r is shown of c, with the announcement c still owes, all paths but those that c's
  // announcements have not shown to it.
  ghost predicate Shown(c: Client, r: ConnId, shown: set<Path>, sep: char) {
    && HiddenFrom(c.unseen, r) <= c.files.Keys
    && Owed(PeerOf(c), shown, sep) == c.files.Keys - HiddenFrom(c.unseen, r)
  }

  // Once what is on its way has arrived and what is owed has been announced, the view of a
  // processing client shows exactly the other processing users, and of each of them exactly its
  // paths, but for those that no announcement has shown to the client.
  lemma ViewsConverge(sep: char, run: seq<Step>, t: State, r: ConnId)
    requires Run(Start(sep), run, t) && r in InProcessing(t.clients)
    ensures var v := ApplyAll(t.clients[r].view, t.clients[r].inbox, t.sep);
            && v.Keys == (set c | c in InProcessing(t.clients) && c != r :: t.clients[c].nick)
            && forall c :: c in InProcessing(t.clients) && c != r ==> Shown(t.clients[c], r, v[t.clients[c].nick], t.sep)
  {
    StartOk(sep);
    RunKeeps(Start(sep), run, t);
    var v := Eventual(t.clients[r], t.sep);
    var peers := Peers(t.clients);
    assert Converged(v, peers, r, t.sep);
    forall c | c in InProcessing(t.clients) && c != r
      ensures t.clients[c].nick in v && Shown(t.clients[c], r, v[t.clients[c].nick], t.sep)
    {
      assert c in peers && peers[c].nick == t.clients[c].nick;
    }
  }

  // With nothing on its way and nothing owed, a client's view is exactly the others' trees.
  lemma QuietViewsExact(sep: char, run: seq<Step>, t: State, r: ConnId)
    requires Run(Start(sep), run, t) && r in InProcessing(t.clients) && t.clients[r].inbox == []
    requires forall c :: c in InProcessing(t.clients) && c != r ==> t.clients[c].busy == Idle
    ensures t.clients[r].view.Keys == (set c | c in InProcessing(t.clients) && c != r :: t.clients[c].nick)
    ensures forall c :: c in InProcessing(t.clients) && c != r ==>
              t.clients[r].view[t.clients[c].nick] == t.clients[c].files.Keys - HiddenFrom(t.clients[c].unseen, r)
  {
    ViewsConverge(sep, run, t, r);
  }

  // Something is hidden from a processing client, by a user it has seen all of, exactly when
  // that user adds a path that is a node already.
  lemma HidesExactly(s: State, c: ConnId, op: Op, r: ConnId)
    requires Inv(s) && Enabled(s, Changes(c, op)) && r in InProcessing(s.clients) && HiddenFrom(s.clients[c].unseen, r) == {}
    ensures HiddenFrom(Next(s, Changes(c, op)).clients[c].unseen, r) == {} <==> Announceable(s.clients[c].files, op, s.sep)
  {
    var files := s.clients[c].files;
    assert HiddenFrom(Next(s, Changes(c, op)).clients[c].unseen, r) == Unseen(files, {}, op, s.sep);
    NothingUnseen(files, op, s.sep);
  }

  // The counter is exact, and every outstanding write finds its buffer, whose countdown is
  // the number of writes of it outstanding or lost.
  lemma BuffersConserved(sep: char, run: seq<Step>, t: State)
    requires Run(Start(sep), run, t)
    ensures t.processing == |InProcessing(t.clients)|
    ensures forall w :: w in t.writes ==> w.1 in t.storage
    ensures forall b :: b in t.storage ==> t.storage[b].counter == |Pairs(t.writes, b)| + |Pairs(t.lost, b)| >= 1
  {
    StartOk(sep);
    RunKeeps(Start(sep), run, t);
    forall b | b in t.storage
      ensures t.storage[b].counter == |Pairs(t.writes, b)| + |Pairs(t.lost, b)| >= 1
    {
      assert Pairs(t.writes + t.lost, b) == Pairs(t.writes, b) + Pairs(t.lost, b);
      assert Pairs(t.writes, b) !! Pairs(t.lost, b);
    }
  }

  // A completed write finds its buffer, and frees it exactly when no other write of it is
  // outstanding or lost; no other buffer is touched.
  lemma LastCompletionFrees(sep: char, run: seq<Step>, t: State, c: ConnId, b: BufId)
    requires Run(Start(sep), run, t) && (c, b) in t.writes
    ensures b in t.storage
    ensures var u := Next(t, WriteDone(c, b));
            && (b !in u.storage <==> forall w :: w in (t.writes + t.lost) - {(c, b)} ==> w.1 != b)
            && forall i :: i != b ==> (i in u.storage <==> i in t.storage) && (i in t.storage ==> u.storage[i] == t.storage[i])
  {
    StartOk(sep);
    RunKeeps(Start(sep), run, t);
    var u := Next(t, WriteDone(c, b));
    WriteDoneBuffers(t, c, b);
    var rest := (t.writes + t.lost) - {(c, b)};
    assert u.writes + u.lost == rest;
    if b in u.storage {
      assert u.storage[b].counter == |Pairs(rest, b)| >= 1;
      var w :| w in Pairs(rest, b);
    } else {
      assert forall w :: w in u.writes + u.lost ==> w.1 in u.storage;
    }
  }

  // An announcement starts exactly one write of a new buffer to every processing client other
  // than its subject, and counts them.
  lemma AnnouncementReaches(s: State, c: ConnId)
    requires Inv(s) && Enabled(s, Announces(c))
    ensures var t, to := Next(s, Announces(c)), InProcessing(s.clients) - {c};
            && t.writes == s.writes + Started(to, s.lastBuffer + 1)
            && (to != {} ==> s.lastBuffer + 1 in t.storage && t.storage[s.lastBuffer + 1].counter == |to|)
            && (to == {} ==> t.storage == s.storage)
            && t.clients[c].busy == Idle && t.clients[c].state == Processing
  {
    assert ClientOk(s.clients[c], s.sep);
    OthersAre(s, c);
    assert |InProcessing(s.clients) - {c}| == |InProcessing(s.clients)| - 1;
  }

  lemma RegisteredProcessing(clients: map<ConnId, Client>, c: ConnId, listing: seq<string>, snapshot: map<Nick, seq<string>>)
    requires c in clients
    ensures InProcessing(RegisteredTable(clients, c, listing, snapshot)) == InProcessing(clients) + {c}
    ensures InProcessing(clients[c := clients[c].(state := Processing, busy := Idle)]) == InProcessing(clients) + {c}
  {
  }

  // A registration reaches every client that was processing before, and makes one more.
  lemma RegistrationReaches(s: State, c: ConnId, listing: seq<string>, snapshot: map<Nick, seq<string>>)
    requires Counted(s) && c in s.clients && c !in InProcessing(s.clients)
    ensures var t, to := Register(s, c, listing, snapshot), InProcessing(s.clients);
            && InProcessing(t.clients) == to + {c} && t.processing == |to| + 1 && t.clients[c].busy == Idle
            && t.writes == s.writes + Started(to, s.lastBuffer + 1)
            && (to != {} ==> s.lastBuffer + 1 in t.storage && t.storage[s.lastBuffer + 1].counter == |to|)
            && (to == {} ==> t.storage == s.storage)
  {
    var to := InProcessing(s.clients);
    RegisteredProcessing(s.clients, c, listing, snapshot);
    var t := Register(s, c, listing, snapshot);
    if s.processing == 0 {
      assert to == {} && Started(to, s.lastBuffer + 1) == {};
      assert t.clients == s.clients[c := s.clients[c].(state := Processing, busy := Idle)];
    } else {
      assert t.clients == RegisteredTable(s.clients, c, listing, snapshot);
    }
  }

  // Any disconnection takes exactly that connection out; that of a client that is not
  // processing tells nobody.
  lemma DisconnectionErases(s: State, c: ConnId)
    requires c in s.clients
    ensures var t := Disconnect(s, c);
            && t.clients.Keys == s.clients.Keys - {c}
            && (s.clients[c].state != Processing ==>
                  t == s.(clients := t.clients) && forall d :: d in t.clients ==> t.clients[d] == s.clients[d])
  {
  }

  // A disconnection of a processing client reaches every client that is still processing.
  lemma DisconnectionReaches(s: State, c: ConnId)
    requires Counted(s) && c in InProcessing(s.clients)
    ensures var t, to := Disconnect(s, c), InProcessing(s.clients) - {c};
            && InProcessing(t.clients) == to && t.processing == |to|
            && t.writes == s.writes + Started(to, s.lastBuffer + 1)
            && (to != {} ==> s.lastBuffer + 1 in t.storage && t.storage[s.lastBuffer + 1].counter == |to|)
            && (to == {} ==> t.storage == s.storage)
  {
    var gone := s.clients - {c};
    assert InProcessing(gone) == InProcessing(s.clients) - {c};
    assert |InProcessing(gone)| == s.processing - 1;
    PostKeeps(gone, InProcessing(gone), LoggedOut(s.clients[c].nick));
  }

  // The countdown an announcement stores fits the writes it starts exactly when the announcer
  // is itself a processing client; a connection stopped between its command and its
  // announcement would leave a countdown that is one too small.
  lemma CountdownFitsExactly(s: State, nick: Nick, m: Msg)
    requires Counted(s) && NicksOk(s.clients) && nick != "" && s.processing != 1
    ensures var t := Announce(s, nick, m);
            s.lastBuffer + 1 in t.storage &&
            (t.storage[s.lastBuffer + 1].counter == |Others(s.clients, nick)|
            <==> exists c :: c in InProcessing(s.clients) && s.clients[c].nick == nick)
  {
    if c :| c in InProcessing(s.clients) && s.clients[c].nick == nick {
      OthersAre(s, c);
    } else {
      assert Others(s.clients, nick) == InProcessing(s.clients);
    }
  }
}
