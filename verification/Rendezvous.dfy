/** Downloads: many requesters wait on one transfer from the file's owner. Two timers, the
    owner's replies, the sender's greeting and the end of the transfer race to answer them. */
module Rendezvous {
  import opened Paths
  import opened PathTree
  import opened Notifications
  import TreeFacts
  import Broadcast
  import Delivery
  import Reception

  type ConnId = Broadcast.ConnId
  // A query as it was accepted, by its position in the order of acceptance.
  type Token = nat
  type ReqId = nat
  type UpId = nat

  datatype Compression = NoCompression | Zlib | Gzip | Bzip2 | Lzma
  datatype SslVersion = Sslv23 | OtherVersion

  // One file of one user.
  datatype Wanted = Wanted(owner: Nick, path: string) {
    function LocalName(): string {
      owner + path
    }
  }

  datatype Query = Query(conn: ConnId, file: Wanted)
  datatype Answer = Approved(upload: UpId, mode: Compression, size: nat) | Denied | SslIncompatible
  datatype Reply = Reply(token: Token, answer: Answer)

  datatype Request = Request(conn: ConnId, wanted: Compression, token: Token)
  datatype DownloadInfo = DownloadInfo(file: Wanted, requests: seq<Request>, timerArmed: bool)

  // An approval of the owner's, between its validation and the start of the transaction.
  datatype Accepted = Accepted(id: ReqId, file: Wanted, size: nat, mode: Compression)
  // input: all that its sender will ever send; receiver: how far its receiver is.
  datatype Download = Download(file: Wanted, size: nat, mode: Compression, input: string, receiver: Reception.Receiver,
                               running: bool, handleOpen: bool)

  // What every transfer has in common: the codec, the header's width and the buffer's capacity.
  datatype Wire = Wire(codec: Delivery.Codec, width: nat, capacity: nat) {
    predicate Valid() {
      0 < width < capacity
    }

    function ConfigOf(size: nat, mode: Compression): Reception.Config {
      Reception.Config(if mode == Zlib then Delivery.Compressed(codec, width) else Delivery.Stream, capacity, size)
    }
  }

  // An owner is told under which ID to send.
  datatype Notice = Notice(owner: Nick, id: ReqId, mode: Compression)

  datatype Upload = Upload(localName: string, mode: Compression)
  // running: the stored transactions; begun: every transaction there ever was.
  datatype Uploads = Uploads(running: map<UpId, Upload>, begun: map<UpId, Upload>, counter: UpId)

  // What the file system says of a local file: to the caller, then to the download manager.
  datatype Probe = Probe(announced: nat, sized: bool, size: nat, readable: bool, opens: bool)

  // Where the download thread is: the completion of a receiver, or an expired transaction.
  datatype Worker =
    | Free
    | Reported(id: ReqId, ok: bool, file: Wanted)
    | Shut(id: ReqId, ok: bool, file: Wanted)
    | Marked(id: ReqId, file: Wanted)
    | Expired(id: ReqId)
    | Finished(id: ReqId)

  // localFiles: the contents of the server's local files, by name.
  datatype State = State(
    sep: char,
    wire: Wire,
    trees: map<Nick, Files>,
    live: set<ConnId>,
    nextConn: ConnId,
    queries: seq<Query>,
    sent: seq<Reply>,
    backup: map<ReqId, DownloadInfo>,
    lastId: ReqId,
    asked: map<ReqId, Wanted>,
    notices: seq<Notice>,
    accepted: multiset<Accepted>,
    denying: multiset<ReqId>,
    downloads: map<ReqId, Download>,
    armed: set<ReqId>,
    greeted: set<ReqId>,
    worker: Worker,
    uploads: Uploads,
    localFiles: map<string, string>)

  // ---- Answers ----

  const LARGE_FILE: nat := 104857600

  // The first of the server's compressions that the user offers.
  function Negotiated(offered: seq<Compression>): Compression {
    if Zlib in offered then Zlib else if Gzip in offered then Gzip else NoCompression
  }

  function DeliverMode(size: nat, wanted: Compression): Compression {
    if size > LARGE_FILE && wanted == Zlib then Zlib else NoCompression
  }

  function BeginUpload(u: Uploads, localName: string, wanted: Compression, probe: Probe): Uploads {
    if probe.size == 0 || !probe.readable || !probe.opens then u
    else
      var upload := Upload(localName, DeliverMode(probe.size, wanted));
      Uploads(u.running[u.counter := upload], u.begun[u.counter := upload], u.counter + 1)
  }

  // The answer from local storage; an upload begun for a file without a size is denied all the same.
  function DeliverAnswer(u: Uploads, wanted: Compression, probe: Probe): Answer {
    if probe.size == 0 || !probe.readable || !probe.opens || !probe.sized then Denied
    else Approved(u.counter, DeliverMode(probe.size, wanted), probe.announced)
  }

  // A requester that is gone is passed over.
  function DenyAll(live: set<ConnId>, requests: seq<Request>): seq<Reply> {
    if requests == [] then []
    else (if requests[0].conn in live then [Reply(requests[0].token, Denied)] else []) + DenyAll(live, requests[1..])
  }

  function ProbeOf(probes: map<Token, Probe>, token: Token): Probe {
    if token in probes then probes[token] else Probe(0, false, 0, false, false)
  }

  function DeliverReplies(u: Uploads, live: set<ConnId>, localName: string, requests: seq<Request>,
                          probes: map<Token, Probe>): seq<Reply>
    decreases |requests|
  {
    if requests == [] then []
    else
      var r := requests[0];
      var probe := ProbeOf(probes, r.token);
      if r.conn in live then
        [Reply(r.token, DeliverAnswer(u, r.wanted, probe))]
        + DeliverReplies(BeginUpload(u, localName, r.wanted, probe), live, localName, requests[1..], probes)
      else DeliverReplies(u, live, localName, requests[1..], probes)
  }

  function DeliverUploads(u: Uploads, live: set<ConnId>, localName: string, requests: seq<Request>,
                          probes: map<Token, Probe>): Uploads
    decreases |requests|
  {
    if requests == [] then u
    else
      var r := requests[0];
      var v := if r.conn in live then BeginUpload(u, localName, r.wanted, ProbeOf(probes, r.token)) else u;
      DeliverUploads(v, live, localName, requests[1..], probes)
  }

  // ---- Waiting lists ----

  function Waiting(backup: map<ReqId, DownloadInfo>, id: ReqId): seq<Request> {
    if id in backup then backup[id].requests else []
  }

  predicate Pending(backup: map<ReqId, DownloadInfo>, file: Wanted) {
    exists id :: id in backup && backup[id].file == file
  }

  function JoinEntry(backup: map<ReqId, DownloadInfo>, file: Wanted, r: Request): map<ReqId, DownloadInfo> {
    map id | id in backup ::
      if backup[id].file == file then backup[id].(requests := [r] + backup[id].requests) else backup[id]
  }

  function DenyEntry(s: State, id: ReqId): State {
    s.(sent := s.sent + DenyAll(s.live, Waiting(s.backup, id)), backup := s.backup - {id})
  }

  function DeliverEntry(s: State, id: ReqId, localName: string, probes: map<Token, Probe>): State {
    var requests := Waiting(s.backup, id);
    s.(sent := s.sent + DeliverReplies(s.uploads, s.live, localName, requests, probes),
       uploads := DeliverUploads(s.uploads, s.live, localName, requests, probes),
       backup := s.backup - {id})
  }

  // ---- Queries and replies ----

  predicate Known(trees: map<Nick, Files>, file: Wanted, sep: char) {
    file.owner in trees && Components(file.path, sep) in trees[file.owner]
  }

  function Ask(s: State, c: ConnId, version: SslVersion, file: Wanted, offered: seq<Compression>, probe: Probe): (t: State)
    ensures t == s.(queries := s.queries + [Query(c, file)], sent := t.sent, backup := t.backup, lastId := t.lastId,
                    asked := t.asked, uploads := t.uploads)
    ensures s.sent <= t.sent
  {
    var q, token := s.queries + [Query(c, file)], |s.queries|;
    if version != Sslv23 then s.(queries := q, sent := s.sent + [Reply(token, SslIncompatible)])
    else if !Known(s.trees, file, s.sep) then s.(queries := q, sent := s.sent + [Reply(token, Denied)])
    else Supply(s, c, file, Negotiated(offered), probe)
  }

  // A known file comes from local storage, or else from the transfer that is or now will be under way.
  function Supply(s: State, c: ConnId, file: Wanted, wanted: Compression, probe: Probe): (t: State)
    requires Known(s.trees, file, s.sep)
    ensures t == s.(queries := s.queries + [Query(c, file)], sent := t.sent, backup := t.backup, lastId := t.lastId,
                    asked := t.asked, uploads := t.uploads)
    ensures s.sent <= t.sent
  {
    var q, token := s.queries + [Query(c, file)], |s.queries|;
    if s.trees[file.owner][Components(file.path, s.sep)] then
      s.(queries := q,
         sent := s.sent + [Reply(token, DeliverAnswer(s.uploads, wanted, probe))],
         uploads := BeginUpload(s.uploads, file.LocalName(), wanted, probe))
    else if Pending(s.backup, file) then
      s.(queries := q, backup := JoinEntry(s.backup, file, Request(c, wanted, token)))
    else
      s.(queries := q,
         lastId := s.lastId + 1,
         asked := s.asked[s.lastId + 1 := file],
         backup := s.backup[s.lastId + 1 := DownloadInfo(file, [Request(c, wanted, token)], true)])
  }

  function Accept(s: State, id: ReqId, size: nat, offered: seq<Compression>): State {
    if id !in s.backup then s
    else
      s.(backup := s.backup[id := s.backup[id].(timerArmed := false)],
         accepted := s.accepted + multiset{Accepted(id, s.backup[id].file, size, Negotiated(offered))})
  }

  // The local file is created anew, empty. A stored transaction is not replaced, but its timer
  // is started again.
  function Begin(s: State, a: Accepted, created: bool): State {
    var t := s.(accepted := s.accepted - multiset{a});
    if !created then t.(denying := s.denying + multiset{a.id})
    else
      t.(armed := s.armed + {a.id}, localFiles := s.localFiles[a.file.LocalName() := ""],
         downloads := if a.id in s.downloads then s.downloads else s.downloads[a.id := Fresh(s.wire, a)],
         notices := if a.file.owner in s.trees then s.notices + [Notice(a.file.owner, a.id, a.mode)] else s.notices)
  }

  function Fresh(wire: Wire, a: Accepted): Download {
    Download(a.file, a.size, a.mode, "", Reception.Start(wire.ConfigOf(a.size, a.mode)), false, true)
  }

  // ---- The receivers ----

  function Config(s: State, id: ReqId): Reception.Config
    requires id in s.downloads
  {
    s.wire.ConfigOf(s.downloads[id].size, s.downloads[id].mode)
  }

  // A receiver goes on with its next completion; its verdict goes to the download thread.
  function Receive(s: State, id: ReqId, c: Reception.Completion): (t: State)
    requires id in s.downloads
    requires Reception.Possible(Config(s, id), s.downloads[id].input, s.downloads[id].receiver, c)
    ensures t == s.(downloads := t.downloads, worker := t.worker, localFiles := t.localFiles)
  {
    var d := s.downloads[id];
    var r := Reception.Next(Config(s, id), d.input, d.receiver, c);
    if r.pending.Reported? then
      s.(downloads := s.downloads[id := d.(receiver := r, running := false)],
         worker := Reported(id, true in r.verdicts, d.file))
    else
      s.(downloads := s.downloads[id := d.(receiver := r)],
         localFiles := if c == Reception.Stored(true)
           then Extended(s.localFiles, d.file.LocalName(), d.receiver.pending.data) else s.localFiles)
  }

  // What is written to a file that was unlinked goes nowhere.
  function Extended(files: map<string, string>, name: string, data: string): map<string, string> {
    if name in files then files[name := files[name] + data] else files
  }

  // ---- Unlinked files ----

  // The local files that go when a user removes a path, or leaves: those of cached nodes, and
  // all of a leaving user's directory if that is cleaned up.
  function Unlinked(s: State, nick: Nick, op: Op): set<string>
    requires nick in s.trees
  {
    if op.RemoveOp? then TreeFacts.CachedFiles(s.trees[nick], Components(op.path, s.sep), nick, s.sep) else {}
  }

  predicate InDirectory(name: string, nick: Nick, sep: char) {
    nick + [sep] <= name
  }

  function LeftBehind(s: State, nick: Nick, cleaned: bool): set<string> {
    (if nick in s.trees then TreeFacts.CachedFiles(s.trees[nick], [], nick, s.sep) else {})
    + (set name | name in s.localFiles && cleaned && InDirectory(name, nick, s.sep))
  }

  // ---- The download thread ----

  function CloseDownload(downloads: map<ReqId, Download>, id: ReqId): map<ReqId, Download> {
    if id in downloads then downloads[id := downloads[id].(handleOpen := false)] else downloads
  }

  function MarkCached(trees: map<Nick, Files>, file: Wanted, sep: char): map<Nick, Files> {
    if file.owner in trees then trees[file.owner := SetFlag(trees[file.owner], Components(file.path, sep), true)]
    else trees
  }

  // What is asserted when a file is marked: an owner that is there still has the path.
  predicate MarkFinds(trees: map<Nick, Files>, file: Wanted, sep: char) {
    file.owner in trees ==> Components(file.path, sep) in trees[file.owner]
  }

  function Work(s: State, probes: map<Token, Probe>): (t: State)
    ensures t == s.(trees := t.trees, sent := t.sent, backup := t.backup, downloads := t.downloads, worker := t.worker,
                    uploads := t.uploads)
    ensures !(s.worker.Shut? && s.worker.ok) ==> t.trees == s.trees
    ensures s.sent <= t.sent && t.backup.Keys <= s.backup.Keys
  {
    match s.worker
    case Free => s
    case Reported(id, ok, file) => s.(downloads := CloseDownload(s.downloads, id), worker := Shut(id, ok, file))
    case Shut(id, ok, file) =>
      if ok then s.(trees := MarkCached(s.trees, file, s.sep), worker := Marked(id, file))
      else DenyEntry(s, id).(worker := Finished(id))
    case Marked(id, file) => DeliverEntry(s, id, file.LocalName(), probes).(worker := Finished(id))
    case Expired(id) => DenyEntry(s, id).(worker := Finished(id))
    case Finished(id) => s.(downloads := s.downloads - {id}, worker := Free)
  }

  function Rank(w: Worker): nat {
    match w
    case Free => 0
    case Finished(id) => 1
    case Expired(id) => 2
    case Marked(id, file) => 2
    case Shut(id, ok, file) => 3
    case Reported(id, ok, file) => 4
  }

  // ---- The steps of a run ----

  datatype Step =
    | Connects
    | Dies(c: ConnId)
    | Arrives(nick: Nick, files: Files)
    | Leaves(nick: Nick, cleaned: bool)
    | Changes(nick: Nick, op: Op)
    | Asks(c: ConnId, version: SslVersion, file: Wanted, offered: seq<Compression>, probe: Probe)
    | Accepts(id: ReqId, size: nat, offered: seq<Compression>)
    | Begins(a: Accepted, created: bool)
    | EntryExpires(id: ReqId)
    | Denies(id: ReqId)
    | Greets(id: ReqId, input: string)
    | Receives(id: ReqId, done: Reception.Completion)
    | TransactionExpires(id: ReqId)
    | Works(probes: map<Token, Probe>)
    | UploadEnds(up: UpId)

  predicate Uncached(files: Files) {
    forall k :: k in files ==> !files[k]
  }

  // The file is held open for writing, shared for deletion only, by a stored transaction.
  predicate HeldOpen(downloads: map<ReqId, Download>, file: Wanted) {
    exists id :: id in downloads && downloads[id].handleOpen && downloads[id].file.LocalName() == file.LocalName()
  }

  predicate Running(s: State, id: ReqId) {
    s.worker == Free && id in s.downloads && s.downloads[id].running
  }

  ghost predicate Enabled(s: State, e: Step) {
    match e
    case Connects => true
    case Dies(c) => c in s.live
    case Arrives(nick, files) => nick !in s.trees && Closed(files.Keys) && Uncached(files)
    case Leaves(nick, cleaned) => true
    case Changes(nick, op) => nick in s.trees && OpSucceeds(s.trees[nick], op, s.sep) && OpOk(s.trees[nick], op, s.sep)
    case Asks(c, version, file, offered, probe) => c in s.live
    case Accepts(id, size, offered) => Negotiated(offered) != Gzip
    case Begins(a, created) => a in s.accepted && (created ==> !HeldOpen(s.downloads, a.file))
    case EntryExpires(id) => id in s.backup && s.backup[id].timerArmed
    case Denies(id) => id in s.denying
    case Greets(id, input) => s.worker == Free && id !in s.greeted
    case Receives(id, c) =>
      Running(s, id) && Reception.Possible(Config(s, id), s.downloads[id].input, s.downloads[id].receiver, c)
    case TransactionExpires(id) => s.worker == Free && id in s.armed
    case Works(probes) => s.worker != Free
    case UploadEnds(up) => true
  }

  function Next(s: State, e: Step): State
    requires Enabled(s, e)
  {
    match e
    case Connects => s.(live := s.live + {s.nextConn}, nextConn := s.nextConn + 1)
    case Dies(c) => s.(live := s.live - {c})
    case Arrives(nick, files) => s.(trees := s.trees[nick := files])
    case Leaves(nick, cleaned) => s.(trees := s.trees - {nick}, localFiles := s.localFiles - LeftBehind(s, nick, cleaned))
    case Changes(nick, op) =>
      s.(trees := s.trees[nick := TreeApply(s.trees[nick], op, s.sep)], localFiles := s.localFiles - Unlinked(s, nick, op))
    case Asks(c, version, file, offered, probe) => Ask(s, c, version, file, offered, probe)
    case Accepts(id, size, offered) => Accept(s, id, size, offered)
    case Begins(a, created) => Begin(s, a, created)
    case EntryExpires(id) =>
      s.(backup := s.backup[id := s.backup[id].(timerArmed := false)], denying := s.denying + multiset{id})
    case Denies(id) => DenyEntry(s, id).(denying := s.denying - multiset{id})
    case Greets(id, input) =>
      if id !in s.downloads then s
      else s.(armed := s.armed - {id}, greeted := s.greeted + {id},
              downloads := s.downloads[id := s.downloads[id].(running := true, input := input)])
    case Receives(id, c) => Receive(s, id, c)
    case TransactionExpires(id) => s.(armed := s.armed - {id}, worker := Expired(id))
    case Works(probes) => Work(s, probes)
    case UploadEnds(up) => s.(uploads := s.uploads.(running := s.uploads.running - {up}))
  }

  function Start(sep: char, wire: Wire): State {
    State(sep, wire, map[], {}, 0, [], [], map[], 1, map[], [], multiset{}, multiset{}, map[], {}, {}, Free,
          Uploads(map[], map[], 1), map[])
  }

  ghost predicate Run(s: State, run: seq<Step>, t: State)
    decreases |run|
  {
    if run == [] then s == t
    else Enabled(s, run[0]) && Run(Next(s, run[0]), run[1..], t)
  }

  // ---- What every run keeps ----

  function Answered(sent: seq<Reply>): seq<Token> {
    seq(|sent|, i requires 0 <= i < |sent| => sent[i].token)
  }

  function TokensOf(requests: seq<Request>): seq<Token> {
    seq(|requests|, i requires 0 <= i < |requests| => requests[i].token)
  }

  // No query is answered twice, waits twice, or waits after its answer.
  ghost predicate AtMostOnce(sent: seq<Reply>, backup: map<ReqId, DownloadInfo>) {
    && Distinct(Answered(sent))
    && (forall id {:trigger backup[id]} :: id in backup ==>
          Distinct(TokensOf(backup[id].requests)) && Elements(TokensOf(backup[id].requests)) !! Elements(Answered(sent)))
    && (forall id, jd {:trigger backup[id], backup[jd]} :: id in backup && jd in backup && id != jd ==>
          Elements(TokensOf(backup[id].requests)) !! Elements(TokensOf(backup[jd].requests)))
  }

  ghost predicate Awaits(backup: map<ReqId, DownloadInfo>, token: Token) {
    exists id :: id in backup && token in TokensOf(backup[id].requests)
  }

  // The query of a requester that is still there waits or has been answered.
  ghost predicate AtLeastOnce(queries: seq<Query>, live: set<ConnId>, sent: seq<Reply>, backup: map<ReqId, DownloadInfo>) {
    forall token :: 0 <= token < |queries| && queries[token].conn in live ==>
      token in Answered(sent) || Awaits(backup, token)
  }

  // Only accepted queries are answered or wait, and they wait for the file they asked for.
  ghost predicate Genuine(queries: seq<Query>, sent: seq<Reply>, backup: map<ReqId, DownloadInfo>) {
    && (forall i {:trigger sent[i]} :: 0 <= i < |sent| ==> sent[i].token < |queries|)
    && (forall id {:trigger backup[id]} :: id in backup ==> RequestsGenuine(queries, backup[id]))
  }

  ghost predicate RequestsGenuine(queries: seq<Query>, info: DownloadInfo) {
    forall r :: r in info.requests ==> r.token < |queries| && queries[r.token] == Query(r.conn, info.file)
  }

  // One entry a file; an entry's owner was asked for its file under its ID.
  ghost predicate EntriesOk(backup: map<ReqId, DownloadInfo>, asked: map<ReqId, Wanted>, lastId: ReqId) {
    && (forall id :: id in asked ==> id <= lastId)
    && (forall id :: id in backup ==> id in asked && asked[id] == backup[id].file)
    && (forall id, jd :: id in backup && jd in backup && backup[id].file == backup[jd].file ==> id == jd)
  }

  // An owner is told only IDs under which it was asked for a file of its own.
  ghost predicate NoticesOk(notices: seq<Notice>, asked: map<ReqId, Wanted>) {
    forall i {:trigger notices[i]} :: 0 <= i < |notices| ==>
      notices[i].id in asked && asked[notices[i].id].owner == notices[i].owner
  }

  // The transaction or approval of an ID is for the file that was asked for under it, a
  // file is held open until its receiver has had a sender, and a running receiver has no timer.
  ghost predicate AgentsOk(s: State) {
    && (forall a {:trigger s.accepted[a]} :: a in s.accepted ==> a.id in s.asked && s.asked[a.id] == a.file)
    && (forall id {:trigger s.downloads[id]} :: id in s.downloads ==>
          && id in s.asked && s.asked[id] == s.downloads[id].file
          && ReceiverOk(s.wire, s.downloads[id], id in s.greeted)
          && (s.downloads[id].running ==> id in s.greeted && id !in s.armed))
    && (forall id {:trigger id in s.armed} :: id in s.armed ==> id in s.asked)
    && (s.worker.Free? || s.worker.id in s.asked)
    && WorkerOk(s)
  }

  // A receiver keeps its own invariant, and has read nothing before its sender came.
  ghost predicate ReceiverOk(wire: Wire, d: Download, greeted: bool) {
    var cfg := wire.ConfigOf(d.size, d.mode);
    && Reception.Inv(cfg, d.input, d.receiver)
    && (!greeted ==> d.handleOpen && d.receiver == Reception.Start(cfg))
    && (d.running ==> d.handleOpen && !d.receiver.pending.Reported?)
  }

  ghost predicate WorkerOk(s: State) {
    match s.worker
    case Free => true
    case Reported(id, ok, file) => Received(s, id, ok, file)
    case Shut(id, ok, file) => Received(s, id, ok, file) && !s.downloads[id].handleOpen
    case Marked(id, file) => Received(s, id, true, file) && !s.downloads[id].handleOpen
    case Expired(id) => true
    case Finished(id) => id !in s.backup
  }

  ghost predicate Received(s: State, id: ReqId, ok: bool, file: Wanted) {
    && id in s.downloads && id in s.asked && s.downloads[id].file == s.asked[id] == file
    && id in s.greeted && !s.downloads[id].running
    && s.downloads[id].receiver.verdicts == [ok]
  }

  ghost predicate Approving(accepted: multiset<Accepted>, id: ReqId) {
    exists a :: a in accepted && a.id == id
  }

  // The agent that will empty the waiting list of id.
  ghost predicate Tended(s: State, id: ReqId) {
    || (id in s.backup && s.backup[id].timerArmed)
    || Approving(s.accepted, id)
    || id in s.denying
    || (id in s.downloads && (id in s.armed || s.downloads[id].running))
    || (!s.worker.Free? && !s.worker.Finished? && s.worker.id == id)
  }

  ghost predicate NoOrphans(s: State) {
    forall id :: id in s.backup ==> Tended(s, id)
  }

  // Every approval names its own transaction, of the announced mode, on the file asked for.
  ghost predicate ApprovalsOk(queries: seq<Query>, sent: seq<Reply>, uploads: Uploads) {
    && (forall i {:trigger sent[i]} :: 0 <= i < |sent| && sent[i].answer.Approved? ==>
          && sent[i].token < |queries| && sent[i].answer.upload in uploads.begun
          && uploads.begun[sent[i].answer.upload] == Upload(queries[sent[i].token].file.LocalName(), sent[i].answer.mode))
    && (forall i, j {:trigger sent[i], sent[j]} :: 0 <= i < j < |sent| && sent[i].answer.Approved? && sent[j].answer.Approved? ==>
          sent[i].answer.upload != sent[j].answer.upload)
  }

  // Transaction IDs are below the counter: the next one is fresh.
  ghost predicate UploadsOk(uploads: Uploads) {
    && (forall up :: up in uploads.begun ==> up < uploads.counter && uploads.begun[up].mode in {NoCompression, Zlib})
    && (forall up :: up in uploads.running ==> up in uploads.begun && uploads.running[up] == uploads.begun[up])
  }

  ghost predicate ConnectionsOk(live: set<ConnId>, nextConn: ConnId, queries: seq<Query>) {
    && (forall c :: c in live ==> c < nextConn)
    && (forall i :: 0 <= i < |queries| ==> queries[i].conn < nextConn)
  }

  ghost predicate TreesOk(trees: map<Nick, Files>) {
    forall n :: n in trees ==> Closed(trees[n].Keys)
  }

  ghost predicate AnswersOk(queries: seq<Query>, live: set<ConnId>, sent: seq<Reply>, backup: map<ReqId, DownloadInfo>) {
    AtMostOnce(sent, backup) && AtLeastOnce(queries, live, sent, backup) && Genuine(queries, sent, backup)
  }

  ghost predicate Inv(s: State) {
    && AnswersOk(s.queries, s.live, s.sent, s.backup)
    && EntriesOk(s.backup, s.asked, s.lastId) && AgentsOk(s) && NoOrphans(s) && NoticesOk(s.notices, s.asked)
    && ApprovalsOk(s.queries, s.sent, s.uploads) && UploadsOk(s.uploads)
    && ConnectionsOk(s.live, s.nextConn, s.queries) && TreesOk(s.trees) && s.wire.Valid()
  }
}
