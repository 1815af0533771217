/** What every run of the download protocol promises. */
module RendezvousTheorems {
  import opened Paths
  import opened PathTree
  import opened Notifications
  import TreeNode
  import opened Rendezvous
  import opened RendezvousRuns

  // ---- Exactly one answer ----

  predicate AnsweredAt(sent: seq<Reply>, token: Token, i: nat) {
    i < |sent| && sent[i].token == token
  }

  predicate WaitsAt(backup: map<ReqId, DownloadInfo>, token: Token, id: ReqId, i: nat) {
    id in backup && i < |backup[id].requests| && backup[id].requests[i].token == token
  }

  lemma AnsweredElement(sent: seq<Reply>, token: Token, i: nat)
    requires AnsweredAt(sent, token, i)
    ensures Answered(sent)[i] == token && token in Elements(Answered(sent))
  {
  }

  lemma WaitingElement(backup: map<ReqId, DownloadInfo>, token: Token, id: ReqId, i: nat)
    requires WaitsAt(backup, token, id, i)
    ensures TokensOf(backup[id].requests)[i] == token && token in Elements(TokensOf(backup[id].requests))
  {
  }

  // However queries, replies, timers, greetings and completions interleave, a query has one
  // answer or waits in one place, never both, and one of the two while its requester stays.
  lemma AnsweredExactlyOnce(sep: char, wire: Wire, run: seq<Step>, t: State, token: Token)
    requires wire.Valid() && Run(Start(sep, wire), run, t) && token < |t.queries|
    ensures forall i, j :: AnsweredAt(t.sent, token, i) && AnsweredAt(t.sent, token, j) ==> i == j
    ensures forall id, i, jd, j :: WaitsAt(t.backup, token, id, i) && WaitsAt(t.backup, token, jd, j) ==> id == jd && i == j
    ensures forall i, id, j :: !(AnsweredAt(t.sent, token, i) && WaitsAt(t.backup, token, id, j))
    ensures t.queries[token].conn in t.live ==>
              (exists i :: AnsweredAt(t.sent, token, i)) || exists id, i :: WaitsAt(t.backup, token, id, i)
  {
    StartOk(sep, wire);
    RunKeeps(Start(sep, wire), run, t);
    forall i, j | AnsweredAt(t.sent, token, i) && AnsweredAt(t.sent, token, j) ensures i == j {
      AnsweredElement(t.sent, token, i);
      AnsweredElement(t.sent, token, j);
    }
    forall id, i, jd, j | WaitsAt(t.backup, token, id, i) && WaitsAt(t.backup, token, jd, j) ensures id == jd && i == j {
      WaitingElement(t.backup, token, id, i);
      WaitingElement(t.backup, token, jd, j);
    }
    forall i, id, j | AnsweredAt(t.sent, token, i) && WaitsAt(t.backup, token, id, j) ensures false {
      AnsweredElement(t.sent, token, i);
      WaitingElement(t.backup, token, id, j);
    }
    if token in Answered(t.sent) {
      var i :| 0 <= i < |t.sent| && Answered(t.sent)[i] == token;
      assert AnsweredAt(t.sent, token, i);
    } else if Awaits(t.backup, token) {
      var id :| id in t.backup && token in TokensOf(t.backup[id].requests);
      var i :| 0 <= i < |t.backup[id].requests| && TokensOf(t.backup[id].requests)[i] == token;
      assert WaitsAt(t.backup, token, id, i);
    }
  }

  // Answers are never taken back.
  lemma {:induction false} AnswersStay(s: State, run: seq<Step>, t: State)
    requires Run(s, run, t)
    ensures s.sent <= t.sent && s.queries <= t.queries
    decreases |run|
  {
    if run != [] {
      StepGrows(s, run[0]);
      AnswersStay(Next(s, run[0]), run[1..], t);
    }
  }

  lemma StepGrows(s: State, e: Step)
    requires Enabled(s, e)
    ensures s.sent <= Next(s, e).sent && s.queries <= Next(s, e).queries
  {
  }

  // ---- What becomes of a query ----

  // A query is answered at once when the versions differ, the file is unknown or it is cached.
  lemma AnsweredAtOnceExactly(s: State, c: ConnId, version: SslVersion, file: Wanted, offered: seq<Compression>, probe: Probe)
    ensures var t := Ask(s, c, version, file, offered, probe);
            && (s.sent == t.sent <==> version == Sslv23 && Known(s.trees, file, s.sep) && !IsCached(s, file))
            && (s.sent != t.sent ==>
                  && |t.sent| == |s.sent| + 1 && t.sent[|s.sent|].token == |s.queries| && t.backup == s.backup
                  && (t.sent[|s.sent|].answer == SslIncompatible <==> version != Sslv23)
                  && (t.sent[|s.sent|].answer.Approved? ==> IsCached(s, file)))
  {
    var t := Ask(s, c, version, file, offered, probe);
    assert s.sent == t.sent || |t.sent| == |s.sent| + 1;
  }

  // Otherwise it waits, in front, in the one list for its file; that is a new one, with its
  // timer running and its owner asked, exactly if nobody waited for the file.
  lemma WaitsOtherwise(s: State, c: ConnId, version: SslVersion, file: Wanted, offered: seq<Compression>, probe: Probe)
    returns (id: ReqId)
    requires Inv(s) && version == Sslv23 && Known(s.trees, file, s.sep) && !IsCached(s, file)
    ensures var t := Ask(s, c, version, file, offered, probe);
            && WaitsAt(t.backup, |s.queries|, id, 0) && t.backup[id].file == file
            && (Pending(s.backup, file) <==> id in s.backup)
            && (id !in s.backup ==> t.backup[id].timerArmed && id !in s.asked && t.asked == s.asked[id := file])
            && (id in s.backup ==> t.asked == s.asked && t.backup[id].requests[1..] == s.backup[id].requests)
  {
    if Pending(s.backup, file) {
      id :| id in s.backup && s.backup[id].file == file;
    } else {
      id := s.lastId + 1;
    }
  }

  predicate IsCached(s: State, file: Wanted) {
    Known(s.trees, file, s.sep) && s.trees[file.owner][Components(file.path, s.sep)]
  }

  // An owner is only ever told an ID under which it was asked for a file of its own.
  lemma NoticesAreOwn(sep: char, wire: Wire, run: seq<Step>, t: State, i: nat)
    requires wire.Valid() && Run(Start(sep, wire), run, t) && i < |t.notices|
    ensures t.notices[i].id in t.asked && t.asked[t.notices[i].id].owner == t.notices[i].owner
  {
    StartOk(sep, wire);
    RunKeeps(Start(sep, wire), run, t);
  }

  // ---- No orphaned waiters ----

  // Every waiting list has an agent that will empty it: its own armed timer, an approval or
  // a refusal being carried out, the transaction of its ID with an armed timer or a running
  // receiver, or the download thread.
  lemma NoWaiterOrphaned(sep: char, wire: Wire, run: seq<Step>, t: State, id: ReqId)
    requires wire.Valid() && Run(Start(sep, wire), run, t) && id in t.backup
    ensures Tended(t, id)
    ensures id in t.asked && t.asked[id] == t.backup[id].file
    ensures forall jd :: jd in t.backup && t.backup[jd].file == t.backup[id].file ==> jd == id
  {
    StartOk(sep, wire);
    RunKeeps(Start(sep, wire), run, t);
  }

  // ---- Approvals ----

  // Every approval names a transaction of its own, begun on the very file its query asked
  // for, in the mode the requester was told; and the next transaction's ID is unused.
  lemma ApprovalsNameTheirTransactions(sep: char, wire: Wire, run: seq<Step>, t: State)
    requires wire.Valid() && Run(Start(sep, wire), run, t)
    ensures forall i :: 0 <= i < |t.sent| && t.sent[i].answer.Approved? ==>
              && t.sent[i].token < |t.queries| && t.sent[i].answer.upload in t.uploads.begun
              && t.uploads.begun[t.sent[i].answer.upload]
                 == Upload(t.queries[t.sent[i].token].file.LocalName(), t.sent[i].answer.mode)
    ensures forall i, j :: 0 <= i < j < |t.sent| && t.sent[i].answer.Approved? && t.sent[j].answer.Approved? ==>
              t.sent[i].answer.upload != t.sent[j].answer.upload
    ensures t.uploads.counter !in t.uploads.begun && t.uploads.counter !in t.uploads.running
  {
    StartOk(sep, wire);
    RunKeeps(Start(sep, wire), run, t);
  }

  // A stored upload stays stored until it ends, and is gone then.
  lemma {:induction false} UploadStays(s: State, run: seq<Step>, t: State, up: UpId)
    requires Run(s, run, t) && up < s.uploads.counter
    ensures up in t.uploads.running <==> up in s.uploads.running && UploadEnds(up) !in run
    ensures up < t.uploads.counter
    decreases |run|
  {
    if run != [] {
      UploadStep(s, run[0], up);
      UploadStays(Next(s, run[0]), run[1..], t, up);
      assert run == [run[0]] + run[1..];
    }
  }

  lemma UploadStep(s: State, e: Step, up: UpId)
    requires Enabled(s, e) && up < s.uploads.counter
    ensures up in Next(s, e).uploads.running <==> up in s.uploads.running && e != UploadEnds(up)
    ensures up < Next(s, e).uploads.counter
  {
    match e
    case Asks(c, version, file, offered, probe) => AskUploads(s, c, version, file, offered, probe, up);
    case Works(probes) => WorkUploads(s, probes, up);
    case UploadEnds(ended) =>
    case _ => QuietUploads(s, e);
  }

  lemma AskUploads(s: State, c: ConnId, version: SslVersion, file: Wanted, offered: seq<Compression>, probe: Probe, up: UpId)
    requires up < s.uploads.counter
    ensures var u := Ask(s, c, version, file, offered, probe).uploads;
            (up in u.running <==> up in s.uploads.running) && up < u.counter
  {
  }

  lemma WorkUploads(s: State, probes: map<Token, Probe>, up: UpId)
    requires up < s.uploads.counter
    ensures var u := Work(s, probes).uploads; (up in u.running <==> up in s.uploads.running) && up < u.counter
  {
    if s.worker.Marked? {
      UploadsBeyond(s.uploads, s.live, s.worker.file.LocalName(), Waiting(s.backup, s.worker.id), probes, up);
    }
  }

  lemma QuietUploads(s: State, e: Step)
    requires Enabled(s, e) && !e.Asks? && !e.Works? && !e.UploadEnds?
    ensures Next(s, e).uploads == s.uploads
  {
    match e
    case Receives(id, done) => assert Next(s, e) == Receive(s, id, done);
    case _ =>
  }

  lemma {:induction false} UploadsBeyond(u: Uploads, live: set<ConnId>, localName: string, requests: seq<Request>,
                                         probes: map<Token, Probe>, up: UpId)
    requires up < u.counter
    ensures var v := DeliverUploads(u, live, localName, requests, probes);
            (up in v.running <==> up in u.running) && up < v.counter
    decreases |requests|
  {
    if requests != [] {
      var r := requests[0];
      var v := if r.conn in live then BeginUpload(u, localName, r.wanted, ProbeOf(probes, r.token)) else u;
      UploadsBeyond(v, live, localName, requests[1..], probes, up);
    }
  }

  // A requester is there from its connection to its end, and then no more.
  lemma {:induction false} LiveUntilItDies(s: State, run: seq<Step>, t: State, c: ConnId)
    requires Run(s, run, t) && c < s.nextConn
    ensures c in t.live <==> c in s.live && Dies(c) !in run
    decreases |run|
  {
    if run != [] {
      LiveStep(s, run[0], c);
      LiveUntilItDies(Next(s, run[0]), run[1..], t, c);
      assert run == [run[0]] + run[1..];
    }
  }

  lemma LiveStep(s: State, e: Step, c: ConnId)
    requires Enabled(s, e) && c < s.nextConn
    ensures c in Next(s, e).live <==> c in s.live && e != Dies(c)
    ensures c < Next(s, e).nextConn
  {
    match e
    case Connects =>
    case Dies(d) =>
    case Asks(d, version, file, offered, probe) => assert Next(s, e) == Ask(s, d, version, file, offered, probe);
    case _ => QuietConnections(s, e);
  }

  // ---- Cached files ----

  ghost predicate Cached(s: State, nick: Nick, k: Path) {
    nick in s.trees && k in s.trees[nick] && s.trees[nick][k]
  }

  ghost predicate NotCached(s: State, nick: Nick, k: Path) {
    nick in s.trees && k in s.trees[nick] && !s.trees[nick][k]
  }

  lemma CachingStep(s: State, e: Step, nick: Nick, k: Path)
    requires TreesOk(s.trees) && Enabled(s, e) && NotCached(s, nick, k) && Cached(Next(s, e), nick, k)
    ensures e.Works? && s.worker.Shut? && s.worker.ok
    ensures s.worker.file.owner == nick && Components(s.worker.file.path, s.sep) == k
  {
    match e
    case Changes(n, op) =>
      if n == nick {
        ChangeNeverCaches(s.trees[nick], op, s.sep, k);
      }
    case Works(probes) =>
    case Asks(c, version, file, offered, probe) =>
    case _ =>
  }

  // A node becomes cached only in the completion of a receiver for that owner and path that
  // reported success, having written exactly the announced number of bytes, its file closed. What
  // the file holds by then is in RendezvousFiles.
  lemma CachedOnlyAfterArrival(sep: char, wire: Wire, run: seq<Step>, s: State, e: Step, nick: Nick, k: Path)
    requires wire.Valid() && Run(Start(sep, wire), run, s) && Enabled(s, e)
    requires NotCached(s, nick, k) && Cached(Next(s, e), nick, k)
    ensures e.Works? && s.worker.Shut? && s.worker.ok
    ensures s.worker.file.owner == nick && Components(s.worker.file.path, s.sep) == k
    ensures var id := s.worker.id;
            && id in s.downloads && id in s.asked && s.downloads[id].file == s.worker.file == s.asked[id]
            && s.downloads[id].receiver.verdicts == [true] && |s.downloads[id].receiver.disk| == s.downloads[id].size
            && !s.downloads[id].handleOpen && id in s.greeted
  {
    StartOk(sep, wire);
    RunKeeps(Start(sep, wire), run, s);
    CachingStep(s, e, nick, k);
  }

  // The file a download is written to and read from is the one that goes when the node is
  // removed exactly when the path was given in canonical form.
  lemma DownloadedIsUnlinked(file: Wanted, sep: char)
    ensures file.LocalName() == TreeNode.LocalPath(file.owner, Components(file.path, sep), sep)
            <==> WellFormed(file.path, sep)
    ensures file.LocalName() == file.owner + file.path
  {
    CanonicalIff(file.path, sep);
    var c := Canonical(Components(file.path, sep), sep);
    assert (file.owner + file.path)[|file.owner|..] == file.path;
    assert (file.owner + c)[|file.owner|..] == c;
  }
}
