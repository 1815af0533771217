/** The connection manager at the granularity of its mutex: sign-in, registration, tree
    changes and their announcements, disconnection, and the shared buffers that carry one
    notification to many clients. */
module Broadcast {
  import opened Paths
  import opened PathTree
  import opened Notifications

  type ConnId = nat
  type BufId = nat

  datatype ClientState = Connected | Logged | Processing

  // What a client's accepted command still has to announce.
  datatype Busy = Idle | Registering | Announcing(op: Op)

  // A registered connection: the server's record of the client, the notifications on their
  // way to it, and the view it has built from those that arrived. unseen: by client, the
  // paths of its tree that its announcements have not shown to that client.
  datatype Client = Client(state: ClientState, nick: Nick, files: Files, busy: Busy, unseen: map<ConnId, set<Path>>,
                           inbox: seq<Msg>, view: View)

  datatype Shared = Shared(msg: Msg, counter: int)

  // writes: shared writes under way; lost: shared writes that will never complete.
  datatype State = State(
    sep: char,
    clients: map<ConnId, Client>,
    storage: map<BufId, Shared>,
    processing: int,
    lastBuffer: nat,
    nextConn: nat,
    writes: set<(ConnId, BufId)>,
    lost: set<(ConnId, BufId)>)

  function InProcessing(clients: map<ConnId, Client>): set<ConnId> {
    set c | c in clients && clients[c].state == Processing
  }

  function Post(clients: map<ConnId, Client>, to: set<ConnId>, m: Msg): map<ConnId, Client> {
    map c | c in clients :: if c in to then clients[c].(inbox := clients[c].inbox + [m]) else clients[c]
  }

  function Started(to: set<ConnId>, b: BufId): set<(ConnId, BufId)> {
    set c | c in to :: (c, b)
  }

  // One buffer is stored with a countdown and a write of it is started to each client of to.
  function Send(s: State, to: set<ConnId>, m: Msg, count: int): State {
    var b := s.lastBuffer + 1;
    s.(lastBuffer := b,
       storage := s.storage[b := Shared(m, count)],
       clients := Post(s.clients, to, m),
       writes := s.writes + Started(to, b))
  }

  // ---- The critical sections ----

  function Register(s: State, c: ConnId, listing: seq<string>, snapshot: map<Nick, seq<string>>): State
    requires c in s.clients
  {
    var me := s.clients[c].(state := Processing, busy := Idle);
    var n := s.processing + 1;
    if n == 1 then s.(processing := n, clients := s.clients[c := me])
    else
      var t := Send(s.(processing := n), InProcessing(s.clients), Registered(me.nick, listing), n - 1);
      t.(clients := t.clients[c := me.(inbox := me.inbox + [Snapshot(snapshot)])])
  }

  // The recipients of an announcement: the processing clients under another nickname.
  function Others(clients: map<ConnId, Client>, nick: Nick): set<ConnId> {
    set c | c in InProcessing(clients) && clients[c].nick != nick
  }

  function Announce(s: State, nick: Nick, m: Msg): State {
    if s.processing == 1 then s
    else Send(s, Others(s.clients, nick), m, s.processing - 1)
  }

  // The client that owes an announcement makes it.
  function AnnounceOwed(s: State, c: ConnId): State
    requires c in s.clients && s.clients[c].busy.Announcing?
  {
    var me := s.clients[c];
    var t := Announce(s, me.nick, Changed(me.nick, me.busy.op));
    t.(clients := t.clients[c := t.clients[c].(busy := Idle)])
  }

  function Disconnect(s: State, c: ConnId): State
    requires c in s.clients
  {
    var gone := s.(clients := s.clients - {c});
    if s.clients[c].state != Processing then gone
    else if s.processing - 1 == 0 then gone.(processing := 0)
    else Send(gone.(processing := s.processing - 1), InProcessing(gone.clients), LoggedOut(s.clients[c].nick),
              s.processing - 1)
  }

  // The look-up creates a zero entry when there is none.
  function CountDown(storage: map<BufId, Shared>, b: BufId): map<BufId, Shared> {
    var entry := if b in storage then storage[b] else Shared(LoggedOut(""), 0);
    if entry.counter - 1 == 0 then storage - {b} else storage[b := entry.(counter := entry.counter - 1)]
  }

  // ---- One client's record ----

  const NEWCOMER := Client(Connected, "", map[], Idle, map[], [], map[])

  // Every pushed path is in the tree, and the registration is still to come.
  function Pushed(me: Client, paths: seq<string>, sep: char): Client {
    me.(files := AddAll(me.files, Split(paths, sep)), busy := Registering)
  }

  function HiddenFrom(unseen: map<ConnId, set<Path>>, r: ConnId): set<Path> {
    if r in unseen then unseen[r] else {}
  }

  // The tree is changed, and the announcement to the viewers is still to come.
  function WithChange(me: Client, op: Op, viewers: set<ConnId>, sep: char): Client {
    me.(files := TreeApply(me.files, op, sep), busy := Announcing(op),
        unseen := map r | r in viewers :: Unseen(me.files, HiddenFrom(me.unseen, r), op, sep))
  }

  // ---- The steps of a run ----

  datatype Step =
    | Connects
    | SignsIn(c: ConnId, nick: Nick)
    | Pushes(c: ConnId, paths: seq<string>)
    | Registers(c: ConnId, listings: map<ConnId, seq<string>>, snapshot: map<Nick, seq<string>>)
    | Changes(c: ConnId, op: Op)
    | Announces(c: ConnId)
    | Caches(c: ConnId, path: Path)
    | Disconnects(c: ConnId)
    | WriteDone(c: ConnId, b: BufId)
    | WriteLost(c: ConnId, b: BufId)
    | Delivers(c: ConnId)
    | StopsAll

  // The snapshot holds one listing for each processing client, under its nickname.
  ghost predicate IsSnapshot(t: map<Nick, seq<string>>, clients: map<ConnId, Client>, listings: map<ConnId, seq<string>>)
    requires InProcessing(clients) <= listings.Keys
  {
    && t.Keys == (set c | c in InProcessing(clients) :: clients[c].nick)
    && forall c :: c in InProcessing(clients) ==> t[clients[c].nick] == listings[c]
  }

  // What the per-state command gate, one command at a time per connection, distinct
  // nicknames and the contract of the tree listing leave possible.
  ghost predicate Enabled(s: State, e: Step) {
    match e
    case Connects => true
    case SignsIn(c, nick) =>
      && c in s.clients && s.clients[c].state == Connected && s.clients[c].busy == Idle
      && forall d :: d in s.clients ==> s.clients[d].nick != nick
    case Pushes(c, paths) =>
      && c in s.clients && s.clients[c].state == Logged && s.clients[c].busy == Idle
      && AllAddsOk(s.clients[c].files, Split(paths, s.sep))
    case Registers(c, listings, snapshot) =>
      && c in s.clients && s.clients[c].busy == Registering
      && InProcessing(s.clients) + {c} <= listings.Keys && IsSnapshot(snapshot, s.clients, listings)
      && forall d :: d in InProcessing(s.clients) + {c} ==> IsListing(listings[d], s.clients[d].files.Keys, s.sep)
    case Changes(c, op) =>
      && c in s.clients && s.clients[c].state == Processing && s.clients[c].busy == Idle
      && OpSucceeds(s.clients[c].files, op, s.sep) && OpOk(s.clients[c].files, op, s.sep)
    case Announces(c) => c in s.clients && s.clients[c].busy.Announcing?
    case Caches(c, path) => c in s.clients
    case Disconnects(c) => c in s.clients && s.clients[c].busy == Idle
    case WriteDone(c, b) => (c, b) in s.writes
    case WriteLost(c, b) => (c, b) in s.writes && c !in s.clients
    case Delivers(c) => c in s.clients && s.clients[c].inbox != []
    case StopsAll => true
  }

  function Next(s: State, e: Step): State
    requires Enabled(s, e)
  {
    match e
    case Connects =>
      s.(clients := s.clients[s.nextConn := NEWCOMER], nextConn := s.nextConn + 1)
    case SignsIn(c, nick) =>
      s.(clients := s.clients[c := s.clients[c].(nick := nick, state := Logged)])
    case Pushes(c, paths) => s.(clients := s.clients[c := Pushed(s.clients[c], paths, s.sep)])
    case Registers(c, listings, snapshot) => Register(s, c, listings[c], snapshot)
    case Changes(c, op) => s.(clients := s.clients[c := WithChange(s.clients[c], op, InProcessing(s.clients), s.sep)])
    case Announces(c) => AnnounceOwed(s, c)
    case Caches(c, path) =>
      s.(clients := s.clients[c := s.clients[c].(files := SetFlag(s.clients[c].files, path, true))])
    case Disconnects(c) => Disconnect(s, c)
    case WriteDone(c, b) => s.(storage := CountDown(s.storage, b), writes := s.writes - {(c, b)})
    case WriteLost(c, b) => s.(writes := s.writes - {(c, b)}, lost := s.lost + {(c, b)})
    case Delivers(c) =>
      var me := s.clients[c];
      s.(clients := s.clients[c := me.(view := ApplyMsg(me.view, me.inbox[0], s.sep), inbox := me.inbox[1..])])
    case StopsAll => s.(clients := map[], processing := 0)
  }

  // A change and its announcement, with nothing in between.
  function ChangeAnnounced(s: State, c: ConnId, op: Op): State
    requires Enabled(s, Changes(c, op))
  {
    Next(Next(s, Changes(c, op)), Announces(c))
  }

  // A push and its registration, with nothing in between, lead from s to t.
  ghost predicate PushRegistered(s: State, c: ConnId, paths: seq<string>, listings: map<ConnId, seq<string>>,
                                 snapshot: map<Nick, seq<string>>, t: State) {
    && Enabled(s, Pushes(c, paths))
    && var u := Next(s, Pushes(c, paths));
       Enabled(u, Registers(c, listings, snapshot)) && t == Next(u, Registers(c, listings, snapshot))
  }

  function Start(sep: char): State {
    State(sep, map[], map[], 0, 0, 0, {}, {})
  }

  ghost predicate Run(s: State, run: seq<Step>, t: State)
    decreases |run|
  {
    if run == [] then s == t
    else Enabled(s, run[0]) && Run(Next(s, run[0]), run[1..], t)
  }

  // ---- What every run keeps ----

  function Pairs(p: set<(ConnId, BufId)>, b: BufId): set<(ConnId, BufId)> {
    set w | w in p && w.1 == b
  }

  // The counter is the number of processing connections.
  ghost predicate Counted(s: State) {
    s.processing == |InProcessing(s.clients)|
  }

  // Every stored buffer counts its outstanding and its lost writes, of which there is at
  // least one, and no outstanding write is without its buffer.
  ghost predicate BuffersOk(s: State) {
    s.writes !! s.lost && Counting(s.writes + s.lost, s.storage, s.lastBuffer)
  }

  ghost predicate Counting(all: set<(ConnId, BufId)>, storage: map<BufId, Shared>, last: nat) {
    && (forall w {:trigger w in all} :: w in all ==> w.1 in storage)
    && (forall b {:trigger storage[b]} :: b in storage ==> b <= last && storage[b].counter == |Pairs(all, b)| >= 1)
  }

  ghost predicate IdsOk(s: State) {
    && (forall c :: c in s.clients ==> c < s.nextConn)
    && (forall w :: w in s.writes + s.lost ==> w.0 < s.nextConn)
    && (forall w {:trigger w in s.lost} :: w in s.lost ==> w.0 !in s.clients)
  }

  ghost predicate NicksOk(clients: map<ConnId, Client>) {
    && (forall c {:trigger clients[c].nick} :: c in clients ==> (clients[c].state == Connected <==> clients[c].nick == ""))
    && (forall c, d {:trigger clients[c].nick, clients[d].nick} ::
          c in clients && d in clients && c != d && clients[c].nick == clients[d].nick ==> clients[c].nick == "")
  }

  ghost predicate ClientOk(c: Client, sep: char) {
    && Closed(c.files.Keys) && ValidKeys(c.files.Keys, sep)
    && (c.state != Processing && c.busy == Idle ==> c.files == map[])
    && (c.busy == Registering ==> c.state == Logged)
    && (c.busy.Announcing? ==> c.state == Processing && ViewApply(c.files.Keys, c.busy.op, sep) == c.files.Keys)
    && (c.state != Processing ==> c.inbox == [] && c.view == map[] && c.unseen == map[])
  }

  ghost predicate ClientsOk(clients: map<ConnId, Client>, sep: char) {
    forall c {:trigger ClientOk(clients[c], sep)} :: c in clients ==> ClientOk(clients[c], sep)
  }

  // What the view of client r becomes once everything on its way has arrived.
  function Eventual(c: Client, sep: char): View {
    ApplyAll(c.view, c.inbox, sep)
  }

  // What the views of others are about: a processing client's nickname, paths and debt.
  datatype Peer = Peer(nick: Nick, paths: set<Path>, busy: Busy, unseen: map<ConnId, set<Path>>)

  function PeerOf(c: Client): Peer {
    Peer(c.nick, c.files.Keys, c.busy, c.unseen)
  }

  function Peers(clients: map<ConnId, Client>): map<ConnId, Peer> {
    map c | c in InProcessing(clients) :: PeerOf(clients[c])
  }

  // What is shown of p once the announcement it still owes, if any, has been made.
  function Owed(p: Peer, shown: set<Path>, sep: char): set<Path> {
    if p.busy.Announcing? then ViewApply(shown, p.busy.op, sep) else shown
  }

  // Client r is shown all of p but what was never announced to it.
  ghost predicate Settled(p: Peer, r: ConnId, shown: set<Path>, sep: char) {
    var hidden := HiddenFrom(p.unseen, r);
    Closed(shown) && hidden <= p.paths && Owed(p, shown, sep) == p.paths - hidden
  }

  ghost predicate Converged(v: View, peers: map<ConnId, Peer>, r: ConnId, sep: char) {
    && (forall n :: n in v ==> exists c :: c in peers && c != r && peers[c].nick == n)
    && (forall c :: c in peers && c != r ==> peers[c].nick in v && Settled(peers[c], r, v[peers[c].nick], sep))
  }

  ghost predicate AllConverged(clients: map<ConnId, Client>, sep: char) {
    forall r {:trigger Eventual(clients[r], sep)} ::
      r in InProcessing(clients) ==> Converged(Eventual(clients[r], sep), Peers(clients), r, sep)
  }

  // Paths are hidden only from clients that are, or were, processing.
  ghost predicate UnseenOk(clients: map<ConnId, Client>) {
    forall c, r {:trigger r in clients[c].unseen} :: c in clients && r in clients[c].unseen && r in clients ==>
      clients[r].state == Processing
  }

  ghost predicate UnseenBelow(clients: map<ConnId, Client>, nextConn: nat) {
    forall c, r {:trigger r in clients[c].unseen} :: c in clients && r in clients[c].unseen ==> r < nextConn
  }

  ghost predicate TableOk(clients: map<ConnId, Client>, sep: char) {
    NicksOk(clients) && ClientsOk(clients, sep) && UnseenOk(clients) && AllConverged(clients, sep)
  }

  ghost predicate Inv(s: State) {
    Counted(s) && BuffersOk(s) && IdsOk(s) && TableOk(s.clients, s.sep) && UnseenBelow(s.clients, s.nextConn)
  }
}
