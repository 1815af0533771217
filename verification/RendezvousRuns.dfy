/** Every run of the download protocol answers each query of a requester that stays exactly
    once, leaves no waiter without an agent, and marks a file cached only after it arrived. */
module RendezvousRuns {
  import opened Paths
  import opened PathTree
  import opened Notifications
  import opened Rendezvous
  import Reception

  // ---- Emptying a waiting list ----

  function LiveTokens(live: set<ConnId>, requests: seq<Request>): seq<Token> {
    if requests == [] then []
    else (if requests[0].conn in live then [requests[0].token] else []) + LiveTokens(live, requests[1..])
  }

  lemma AnsweredConcat(a: seq<Reply>, b: seq<Reply>)
    ensures Answered(a + b) == Answered(a) + Answered(b)
  {
  }

  lemma {:induction false} DenyTokens(live: set<ConnId>, requests: seq<Request>)
    ensures Answered(DenyAll(live, requests)) == LiveTokens(live, requests)
    ensures forall i :: 0 <= i < |DenyAll(live, requests)| ==> DenyAll(live, requests)[i].answer == Denied
  {
    if requests != [] {
      DenyTokens(live, requests[1..]);
      var first := if requests[0].conn in live then [Reply(requests[0].token, Denied)] else [];
      AnsweredConcat(first, DenyAll(live, requests[1..]));
      assert Answered(first) == if requests[0].conn in live then [requests[0].token] else [];
    }
  }

  lemma {:induction false} DeliverTokens(u: Uploads, live: set<ConnId>, localName: string, requests: seq<Request>,
                                         probes: map<Token, Probe>)
    ensures Answered(DeliverReplies(u, live, localName, requests, probes)) == LiveTokens(live, requests)
    decreases |requests|
  {
    if requests != [] {
      var r := requests[0];
      var probe := ProbeOf(probes, r.token);
      if r.conn in live {
        var v := BeginUpload(u, localName, r.wanted, probe);
        DeliverTokens(v, live, localName, requests[1..], probes);
        var first := [Reply(r.token, DeliverAnswer(u, r.wanted, probe))];
        AnsweredConcat(first, DeliverReplies(v, live, localName, requests[1..], probes));
        assert Answered(first) == [r.token];
      } else {
        DeliverTokens(u, live, localName, requests[1..], probes);
      }
    }
  }

  lemma {:induction false} LiveTokensAre(live: set<ConnId>, requests: seq<Request>)
    requires Distinct(TokensOf(requests))
    ensures Distinct(LiveTokens(live, requests))
    ensures forall t :: t in LiveTokens(live, requests) <==> exists r :: r in requests && r.conn in live && r.token == t
  {
    if requests != [] {
      var r, rest := requests[0], requests[1..];
      assert TokensOf(rest) == TokensOf(requests)[1..];
      LiveTokensAre(live, rest);
      assert requests == [r] + rest;
      forall t | t in LiveTokens(live, rest) ensures t != r.token {
        var x :| x in rest && x.token == t;
        var i :| 0 <= i < |rest| && rest[i] == x;
        assert TokensOf(requests)[i + 1] == t && TokensOf(requests)[0] == r.token;
      }
      if r.conn in live {
        DistinctConcat([r.token], LiveTokens(live, rest));
      }
    }
  }

  lemma TokenOf(requests: seq<Request>, r: Request)
    requires r in requests
    ensures r.token in TokensOf(requests)
  {
    var i :| 0 <= i < |requests| && requests[i] == r;
    assert TokensOf(requests)[i] == r.token;
  }

  // more answers the requesters of id that are still there.
  ghost predicate Empties(live: set<ConnId>, backup: map<ReqId, DownloadInfo>, id: ReqId, more: seq<Reply>) {
    Answered(more) == LiveTokens(live, Waiting(backup, id))
  }

  lemma EmptiedOnce(live: set<ConnId>, sent: seq<Reply>, backup: map<ReqId, DownloadInfo>, id: ReqId, more: seq<Reply>)
    requires AtMostOnce(sent, backup) && Empties(live, backup, id, more)
    ensures AtMostOnce(sent + more, backup - {id})
  {
    AnsweredConcat(sent, more);
    if id in backup {
      var requests := backup[id].requests;
      LiveTokensAre(live, requests);
      forall t | t in Answered(more) ensures t in Elements(TokensOf(requests)) {
        var r :| r in requests && r.token == t;
        TokenOf(requests, r);
      }
      DistinctConcat(Answered(sent), Answered(more));
    } else {
      assert Answered(sent) + [] == Answered(sent);
    }
  }

  lemma EmptiedAll(queries: seq<Query>, live: set<ConnId>, sent: seq<Reply>, backup: map<ReqId, DownloadInfo>, id: ReqId,
                   more: seq<Reply>)
    requires AnswersOk(queries, live, sent, backup) && Empties(live, backup, id, more)
    ensures AtLeastOnce(queries, live, sent + more, backup - {id})
  {
    AnsweredConcat(sent, more);
    forall token | 0 <= token < |queries| && queries[token].conn in live && token !in Answered(sent)
      ensures token in Answered(more) || Awaits(backup - {id}, token)
    {
      var jd :| jd in backup && token in TokensOf(backup[jd].requests);
      if jd == id {
        var i :| 0 <= i < |backup[id].requests| && backup[id].requests[i].token == token;
        LiveTokensAre(live, backup[id].requests);
        assert backup[id].requests[i] in backup[id].requests;
      } else {
        assert jd in backup - {id};
      }
    }
  }

  lemma EmptiedAnswers(queries: seq<Query>, live: set<ConnId>, sent: seq<Reply>, backup: map<ReqId, DownloadInfo>,
                       id: ReqId, more: seq<Reply>)
    requires AnswersOk(queries, live, sent, backup) && Empties(live, backup, id, more)
    ensures AnswersOk(queries, live, sent + more, backup - {id})
  {
    EmptiedOnce(live, sent, backup, id, more);
    EmptiedAll(queries, live, sent, backup, id, more);
    forall i | 0 <= i < |more| ensures more[i].token < |queries| {
      assert Answered(more)[i] == more[i].token;
      assert id in backup;
      LiveTokensAre(live, backup[id].requests);
      assert more[i].token in LiveTokens(live, backup[id].requests);
      var r :| r in backup[id].requests && r.token == more[i].token;
    }
  }

  // ---- A new query ----

  lemma AnsweredAtOnce(queries: seq<Query>, live: set<ConnId>, sent: seq<Reply>, backup: map<ReqId, DownloadInfo>,
                       q: Query, a: Answer)
    requires AnswersOk(queries, live, sent, backup)
    ensures AnswersOk(queries + [q], live, sent + [Reply(|queries|, a)], backup)
  {
    var more := [Reply(|queries|, a)];
    AnsweredConcat(sent, more);
    assert Answered(more) == [|queries|];
    forall t | t in Answered(sent) ensures t < |queries| {
    }
    DistinctConcat(Answered(sent), Answered(more));
    forall id | id in backup ensures |queries| !in TokensOf(backup[id].requests) {
      WaitersKnown(queries, backup[id]);
    }
    forall id | id in backup ensures RequestsGenuine(queries + [q], backup[id]) {
    }
  }

  lemma WaitersKnown(queries: seq<Query>, info: DownloadInfo)
    requires RequestsGenuine(queries, info)
    ensures forall t :: t in TokensOf(info.requests) ==> t < |queries|
  {
  }

  // The new query waits in one entry, in front of those who were there.
  lemma Enqueued(queries: seq<Query>, live: set<ConnId>, sent: seq<Reply>, backup: map<ReqId, DownloadInfo>, q: Query,
                 id: ReqId, info: DownloadInfo, wanted: Compression)
    requires AnswersOk(queries, live, sent, backup)
    requires info.file == q.file && info.requests == [Request(q.conn, wanted, |queries|)] + Waiting(backup, id)
    requires id in backup ==> backup[id].file == info.file
    ensures AnswersOk(queries + [q], live, sent, backup[id := info])
  {
    var n := |queries|;
    var rest := Waiting(backup, id);
    assert TokensOf(info.requests) == [n] + TokensOf(rest);
    forall jd | jd in backup ensures n !in TokensOf(backup[jd].requests) {
      WaitersKnown(queries, backup[jd]);
    }
    assert n !in TokensOf(rest);
    DistinctConcat([n], TokensOf(rest));
    EnqueuedOnce(sent, backup, id, info, n);
    assert AtLeastOnce(queries + [q], live, sent, backup[id := info]) by {
      EnqueuedAll(queries, live, sent, backup, q, id, info);
    }
    var after := backup[id := info];
    forall jd | jd in after ensures RequestsGenuine(queries + [q], after[jd]) {
      assert jd in backup ==> RequestsGenuine(queries, backup[jd]);
    }
  }

  lemma EnqueuedOnce(sent: seq<Reply>, backup: map<ReqId, DownloadInfo>, id: ReqId, info: DownloadInfo, n: Token)
    requires AtMostOnce(sent, backup) && n !in Answered(sent) && Distinct(TokensOf(info.requests))
    requires TokensOf(info.requests) == [n] + TokensOf(Waiting(backup, id))
    requires forall jd :: jd in backup ==> n !in TokensOf(backup[jd].requests)
    ensures AtMostOnce(sent, backup[id := info])
  {
  }

  lemma EnqueuedAll(queries: seq<Query>, live: set<ConnId>, sent: seq<Reply>, backup: map<ReqId, DownloadInfo>, q: Query,
                    id: ReqId, info: DownloadInfo)
    requires AtLeastOnce(queries, live, sent, backup)
    requires TokensOf(info.requests) == [|queries|] + TokensOf(Waiting(backup, id))
    ensures AtLeastOnce(queries + [q], live, sent, backup[id := info])
  {
    var after := backup[id := info];
    forall token | 0 <= token < |queries| + 1 && (queries + [q])[token].conn in live && token !in Answered(sent)
      ensures Awaits(after, token)
    {
      if token == |queries| {
        assert id in after && token in TokensOf(after[id].requests);
      } else {
        var jd :| jd in backup && token in TokensOf(backup[jd].requests);
        assert jd in after && token in TokensOf(after[jd].requests);
      }
    }
  }

  // ---- Approvals ----

  ghost predicate Extends(u: Uploads, v: Uploads) {
    && u.counter <= v.counter
    && forall up :: up in u.begun ==> up in v.begun && v.begun[up] == u.begun[up]
  }

  // The approvals among more name distinct transactions begun from u to v on the local file.
  ghost predicate Begun(u: Uploads, v: Uploads, localName: string, more: seq<Reply>) {
    && (forall i {:trigger more[i]} :: 0 <= i < |more| && more[i].answer.Approved? ==>
          && u.counter <= more[i].answer.upload < v.counter && more[i].answer.upload in v.begun
          && v.begun[more[i].answer.upload] == Upload(localName, more[i].answer.mode))
    && (forall i, j {:trigger more[i], more[j]} :: 0 <= i < j < |more| && more[i].answer.Approved? && more[j].answer.Approved? ==>
          more[i].answer.upload != more[j].answer.upload)
  }

  lemma BeginsOne(u: Uploads, localName: string, wanted: Compression, probe: Probe, token: Token)
    requires UploadsOk(u)
    ensures var v := BeginUpload(u, localName, wanted, probe);
            UploadsOk(v) && Extends(u, v) && Begun(u, v, localName, [Reply(token, DeliverAnswer(u, wanted, probe))])
  {
  }

  lemma BegunConcat(u: Uploads, v: Uploads, w: Uploads, localName: string, a: seq<Reply>, b: seq<Reply>)
    requires UploadsOk(v) && Extends(u, v) && Extends(v, w) && Begun(u, v, localName, a) && Begun(v, w, localName, b)
    ensures Extends(u, w) && Begun(u, w, localName, a + b)
  {
  }

  lemma {:induction false} BeginsAll(u: Uploads, live: set<ConnId>, localName: string, requests: seq<Request>,
                                     probes: map<Token, Probe>)
    requires UploadsOk(u)
    ensures var v := DeliverUploads(u, live, localName, requests, probes);
            UploadsOk(v) && Extends(u, v) && Begun(u, v, localName, DeliverReplies(u, live, localName, requests, probes))
    decreases |requests|
  {
    if requests != [] {
      var r := requests[0];
      if r.conn in live {
        var probe := ProbeOf(probes, r.token);
        var v := BeginUpload(u, localName, r.wanted, probe);
        BeginsOne(u, localName, r.wanted, probe, r.token);
        BeginsAll(v, live, localName, requests[1..], probes);
        BegunConcat(u, v, DeliverUploads(v, live, localName, requests[1..], probes), localName,
                    [Reply(r.token, DeliverAnswer(u, r.wanted, probe))],
                    DeliverReplies(v, live, localName, requests[1..], probes));
      } else {
        BeginsAll(u, live, localName, requests[1..], probes);
      }
    }
  }

  lemma MoreApprovals(queries: seq<Query>, sent: seq<Reply>, u: Uploads, v: Uploads, localName: string, more: seq<Reply>)
    requires ApprovalsOk(queries, sent, u) && UploadsOk(u) && Extends(u, v) && Begun(u, v, localName, more)
    requires forall i {:trigger more[i]} :: 0 <= i < |more| && more[i].answer.Approved? ==>
               more[i].token < |queries| && queries[more[i].token].file.LocalName() == localName
    ensures ApprovalsOk(queries, sent + more, v)
  {
  }

  lemma OldApprovals(queries: seq<Query>, q: Query, sent: seq<Reply>, u: Uploads)
    requires ApprovalsOk(queries, sent, u)
    ensures ApprovalsOk(queries + [q], sent, u)
  {
  }

  // ---- The steps that answer ----

  lemma NoApprovals(queries: seq<Query>, sent: seq<Reply>, u: Uploads, more: seq<Reply>)
    requires ApprovalsOk(queries, sent, u) && UploadsOk(u)
    requires forall i {:trigger more[i]} :: 0 <= i < |more| ==> !more[i].answer.Approved?
    ensures ApprovalsOk(queries, sent + more, u)
  {
  }

  // The replies to the waiters of id go to queries for its file.
  lemma WaitersWant(queries: seq<Query>, live: set<ConnId>, info: DownloadInfo, more: seq<Reply>)
    requires RequestsGenuine(queries, info) && Distinct(TokensOf(info.requests))
    requires Answered(more) == LiveTokens(live, info.requests)
    ensures forall i {:trigger more[i]} :: 0 <= i < |more| ==>
              more[i].token < |queries| && queries[more[i].token].file == info.file
  {
    LiveTokensAre(live, info.requests);
    forall i | 0 <= i < |more| ensures more[i].token < |queries| && queries[more[i].token].file == info.file {
      assert Answered(more)[i] == more[i].token && more[i].token in LiveTokens(live, info.requests);
      var r :| r in info.requests && r.token == more[i].token;
    }
  }

  // What emptying a list keeps, whoever empties it.
  ghost predicate Books(s: State) {
    && AnswersOk(s.queries, s.live, s.sent, s.backup) && EntriesOk(s.backup, s.asked, s.lastId)
    && ApprovalsOk(s.queries, s.sent, s.uploads) && UploadsOk(s.uploads)
  }

  lemma DenyBooks(s: State, id: ReqId)
    requires Books(s)
    ensures Books(DenyEntry(s, id))
  {
    var more := DenyAll(s.live, Waiting(s.backup, id));
    DenyTokens(s.live, Waiting(s.backup, id));
    EmptiedAnswers(s.queries, s.live, s.sent, s.backup, id, more);
    NoApprovals(s.queries, s.sent, s.uploads, more);
  }

  lemma DeliverBooks(s: State, id: ReqId, localName: string, probes: map<Token, Probe>)
    requires Books(s) && (id in s.backup ==> s.backup[id].file.LocalName() == localName)
    ensures Books(DeliverEntry(s, id, localName, probes))
  {
    var requests := Waiting(s.backup, id);
    var more := DeliverReplies(s.uploads, s.live, localName, requests, probes);
    var v := DeliverUploads(s.uploads, s.live, localName, requests, probes);
    DeliverTokens(s.uploads, s.live, localName, requests, probes);
    EmptiedAnswers(s.queries, s.live, s.sent, s.backup, id, more);
    BeginsAll(s.uploads, s.live, localName, requests, probes);
    if id in s.backup {
      WaitersWant(s.queries, s.live, s.backup[id], more);
    }
    MoreApprovals(s.queries, s.sent, s.uploads, v, localName, more);
  }

  lemma AnswerBooks(s: State, q: Query, a: Answer, v: Uploads)
    requires Books(s) && UploadsOk(v) && Extends(s.uploads, v)
    requires Begun(s.uploads, v, q.file.LocalName(), [Reply(|s.queries|, a)])
    ensures Books(s.(queries := s.queries + [q], sent := s.sent + [Reply(|s.queries|, a)], uploads := v))
  {
    AnsweredAtOnce(s.queries, s.live, s.sent, s.backup, q, a);
    OldApprovals(s.queries, q, s.sent, s.uploads);
    MoreApprovals(s.queries + [q], s.sent, s.uploads, v, q.file.LocalName(), [Reply(|s.queries|, a)]);
  }

  // The file's only entry is the one that is joined.
  lemma JoinOne(backup: map<ReqId, DownloadInfo>, asked: map<ReqId, Wanted>, lastId: ReqId, id: ReqId, r: Request)
    requires EntriesOk(backup, asked, lastId) && id in backup
    ensures JoinEntry(backup, backup[id].file, r) == backup[id := backup[id].(requests := [r] + backup[id].requests)]
  {
  }

  lemma JoinBooks(s: State, q: Query, wanted: Compression, id: ReqId)
    requires Books(s) && id in s.backup && s.backup[id].file == q.file
    ensures Books(s.(queries := s.queries + [q], backup := JoinEntry(s.backup, q.file, Request(q.conn, wanted, |s.queries|))))
  {
    var r := Request(q.conn, wanted, |s.queries|);
    JoinOne(s.backup, s.asked, s.lastId, id, r);
    Enqueued(s.queries, s.live, s.sent, s.backup, q, id, s.backup[id].(requests := [r] + s.backup[id].requests), wanted);
    OldApprovals(s.queries, q, s.sent, s.uploads);
  }

  lemma NewEntryBooks(s: State, q: Query, wanted: Compression)
    requires Books(s) && !Pending(s.backup, q.file)
    ensures Books(s.(queries := s.queries + [q], lastId := s.lastId + 1, asked := s.asked[s.lastId + 1 := q.file],
                     backup := s.backup[s.lastId + 1 := DownloadInfo(q.file, [Request(q.conn, wanted, |s.queries|)], true)]))
  {
    var info := DownloadInfo(q.file, [Request(q.conn, wanted, |s.queries|)], true);
    assert info.requests + [] == info.requests;
    Enqueued(s.queries, s.live, s.sent, s.backup, q, s.lastId + 1, info, wanted);
    OldApprovals(s.queries, q, s.sent, s.uploads);
    NewEntryOk(s.backup, s.asked, s.lastId, info);
  }

  lemma NewEntryOk(backup: map<ReqId, DownloadInfo>, asked: map<ReqId, Wanted>, lastId: ReqId, info: DownloadInfo)
    requires EntriesOk(backup, asked, lastId) && !Pending(backup, info.file)
    ensures EntriesOk(backup[lastId + 1 := info], asked[lastId + 1 := info.file], lastId + 1)
  {
  }

  lemma CachedBooks(s: State, c: ConnId, file: Wanted, wanted: Compression, probe: Probe)
    requires Books(s) && Known(s.trees, file, s.sep) && s.trees[file.owner][Components(file.path, s.sep)]
    ensures Books(Supply(s, c, file, wanted, probe))
  {
    BeginsOne(s.uploads, file.LocalName(), wanted, probe, |s.queries|);
    AnswerBooks(s, Query(c, file), DeliverAnswer(s.uploads, wanted, probe),
                BeginUpload(s.uploads, file.LocalName(), wanted, probe));
  }

  lemma JoinedBooks(s: State, c: ConnId, file: Wanted, wanted: Compression, probe: Probe)
    requires Books(s) && Known(s.trees, file, s.sep) && !s.trees[file.owner][Components(file.path, s.sep)]
    requires Pending(s.backup, file)
    ensures Books(Supply(s, c, file, wanted, probe))
  {
    var id :| id in s.backup && s.backup[id].file == file;
    JoinBooks(s, Query(c, file), wanted, id);
  }

  lemma AskedBooks(s: State, c: ConnId, file: Wanted, wanted: Compression, probe: Probe)
    requires Books(s) && Known(s.trees, file, s.sep) && !s.trees[file.owner][Components(file.path, s.sep)]
    requires !Pending(s.backup, file)
    ensures Books(Supply(s, c, file, wanted, probe))
  {
    NewEntryBooks(s, Query(c, file), wanted);
  }

  lemma SupplyBooks(s: State, c: ConnId, file: Wanted, wanted: Compression, probe: Probe)
    requires Books(s) && Known(s.trees, file, s.sep)
    ensures Books(Supply(s, c, file, wanted, probe))
  {
    if s.trees[file.owner][Components(file.path, s.sep)] {
      CachedBooks(s, c, file, wanted, probe);
    } else if Pending(s.backup, file) {
      JoinedBooks(s, c, file, wanted, probe);
    } else {
      AskedBooks(s, c, file, wanted, probe);
    }
  }

  lemma AskBooks(s: State, c: ConnId, version: SslVersion, file: Wanted, offered: seq<Compression>, probe: Probe)
    requires Books(s)
    ensures Books(Ask(s, c, version, file, offered, probe))
  {
    if version != Sslv23 {
      AnswerBooks(s, Query(c, file), SslIncompatible, s.uploads);
    } else if !Known(s.trees, file, s.sep) {
      AnswerBooks(s, Query(c, file), Denied, s.uploads);
    } else {
      SupplyBooks(s, c, file, Negotiated(offered), probe);
    }
  }

  lemma DisarmBooks(s: State, id: ReqId)
    requires Books(s) && id in s.backup
    ensures Books(s.(backup := s.backup[id := s.backup[id].(timerArmed := false)]))
  {
    var after := s.backup[id := s.backup[id].(timerArmed := false)];
    assert forall jd {:trigger after[jd]} :: jd in after ==>
      after[jd].requests == s.backup[jd].requests && after[jd].file == s.backup[jd].file;
    forall token | 0 <= token < |s.queries| && Awaits(s.backup, token) ensures Awaits(after, token) {
      var jd :| jd in s.backup && token in TokensOf(s.backup[jd].requests);
      assert jd in after && token in TokensOf(after[jd].requests);
    }
  }

  // ---- Agents ----

  // What a query leaves as it is, but for entries and the record of what owners were asked.
  ghost predicate SameAgents(s: State, t: State) {
    && t.wire == s.wire && t.accepted == s.accepted && t.denying == s.denying && t.downloads == s.downloads
    && t.notices == s.notices && t.armed == s.armed && t.greeted == s.greeted && t.worker == s.worker
  }

  ghost predicate AskedMore(s: State, t: State) {
    && SameAgents(s, t)
    && (forall id {:trigger s.asked[id]} :: id in s.asked ==> id in t.asked && t.asked[id] == s.asked[id])
    && (forall id {:trigger t.backup[id]} :: id in t.backup ==>
          if id in s.backup then t.backup[id].timerArmed == s.backup[id].timerArmed
          else t.backup[id].timerArmed && id !in s.asked)
  }

  lemma AsksMore(s: State, c: ConnId, version: SslVersion, file: Wanted, offered: seq<Compression>, probe: Probe)
    requires EntriesOk(s.backup, s.asked, s.lastId)
    ensures AskedMore(s, Ask(s, c, version, file, offered, probe))
  {
    assert s.lastId + 1 !in s.asked;
  }

  lemma AskedAgents(s: State, t: State)
    requires AgentsOk(s) && NoOrphans(s) && AskedMore(s, t)
    ensures AgentsOk(t) && NoOrphans(t)
  {
  }

  lemma AskAgents(s: State, c: ConnId, version: SslVersion, file: Wanted, offered: seq<Compression>, probe: Probe)
    requires AgentsOk(s) && NoOrphans(s) && EntriesOk(s.backup, s.asked, s.lastId)
    ensures AgentsOk(Ask(s, c, version, file, offered, probe)) && NoOrphans(Ask(s, c, version, file, offered, probe))
  {
    AsksMore(s, c, version, file, offered, probe);
    AskedAgents(s, Ask(s, c, version, file, offered, probe));
  }

  lemma AcceptAgents(s: State, id: ReqId, size: nat, offered: seq<Compression>)
    requires AgentsOk(s) && NoOrphans(s) && EntriesOk(s.backup, s.asked, s.lastId)
    ensures AgentsOk(Accept(s, id, size, offered)) && NoOrphans(Accept(s, id, size, offered))
  {
  }

  lemma BeginAgents(s: State, a: Accepted, created: bool)
    requires AgentsOk(s) && Enabled(s, Begins(a, created))
    ensures AgentsOk(Begin(s, a, created))
  {
  }

  lemma BeginTends(s: State, a: Accepted, created: bool)
    requires NoOrphans(s) && Enabled(s, Begins(a, created))
    ensures NoOrphans(Begin(s, a, created))
  {
  }

  lemma ExpiryAgents(s: State, id: ReqId)
    requires AgentsOk(s) && NoOrphans(s) && Enabled(s, EntryExpires(id)) && EntriesOk(s.backup, s.asked, s.lastId)
    ensures AgentsOk(Next(s, EntryExpires(id))) && NoOrphans(Next(s, EntryExpires(id)))
  {
  }

  lemma DenyAgents(s: State, id: ReqId)
    requires AgentsOk(s) && NoOrphans(s) && Enabled(s, Denies(id))
    ensures AgentsOk(Next(s, Denies(id))) && NoOrphans(Next(s, Denies(id)))
  {
    var t := Next(s, Denies(id));
    forall jd | jd in t.backup ensures Tended(t, jd) {
      assert Tended(s, jd);
    }
  }

  lemma GreetAgents(s: State, id: ReqId, input: string)
    requires AgentsOk(s) && NoOrphans(s) && Enabled(s, Greets(id, input))
    ensures AgentsOk(Next(s, Greets(id, input))) && NoOrphans(Next(s, Greets(id, input)))
  {
  }

  lemma ReceiveTends(s: State, id: ReqId, c: Reception.Completion)
    requires NoOrphans(s) && Enabled(s, Receives(id, c))
    ensures NoOrphans(Receive(s, id, c))
  {
  }

  lemma ReceiveAgents(s: State, id: ReqId, c: Reception.Completion)
    requires AgentsOk(s) && Enabled(s, Receives(id, c))
    ensures AgentsOk(Receive(s, id, c))
  {
    var d := s.downloads[id];
    Reception.NextKeeps(Config(s, id), d.input, d.receiver, c);
  }

  lemma TransactionExpiryAgents(s: State, id: ReqId)
    requires AgentsOk(s) && NoOrphans(s) && Enabled(s, TransactionExpires(id))
    ensures AgentsOk(Next(s, TransactionExpires(id))) && NoOrphans(Next(s, TransactionExpires(id)))
  {
  }

  lemma EmptiedAgents(s: State, t: State, id: ReqId)
    requires AgentsOk(s) && NoOrphans(s) && !s.worker.Free? && s.worker.id == id
    requires SameAgents(s, t.(worker := s.worker)) && t.worker == Finished(id)
    requires t.backup == s.backup - {id} && t.asked == s.asked
    ensures AgentsOk(t) && NoOrphans(t)
  {
  }

  lemma WorkOnAgents(s: State, probes: map<Token, Probe>)
    requires AgentsOk(s) && NoOrphans(s) && (s.worker.Reported? || s.worker.Finished? || (s.worker.Shut? && s.worker.ok))
    ensures AgentsOk(Work(s, probes)) && NoOrphans(Work(s, probes))
  {
  }

  lemma WorkAgents(s: State, probes: map<Token, Probe>)
    requires AgentsOk(s) && NoOrphans(s) && !s.worker.Free?
    ensures AgentsOk(Work(s, probes)) && NoOrphans(Work(s, probes))
  {
    if s.worker.Expired? || s.worker.Marked? || (s.worker.Shut? && !s.worker.ok) {
      EmptiedAgents(s, Work(s, probes), s.worker.id);
    } else {
      WorkOnAgents(s, probes);
    }
  }

  // ---- Trees ----

  // No change a user makes to a tree marks a file cached.
  lemma ChangeNeverCaches(m: Files, op: Op, sep: char, k: Path)
    requires PathTree.Closed(m.Keys) && OpSucceeds(m, op, sep) && OpOk(m, op, sep)
    requires k in m && k in TreeApply(m, op, sep)
    ensures TreeApply(m, op, sep)[k] == m[k]
  {
    match op
    case AddOp(p) =>
    case RemoveOp(p) =>
    case RenameOp(p, n) =>
      var x, name := Components(p, sep), Last(Paths.Tokens(n, sep));
      var q := Renamed(x, name);
      if x != [] && q != x {
        NothingBelow(m.Keys, q, k);
        RenameRekeys(m, x, name);
      }
  }

  // ---- Every step, and every run ----

  ghost predicate Around(s: State) {
    ConnectionsOk(s.live, s.nextConn, s.queries) && TreesOk(s.trees) && NoticesOk(s.notices, s.asked) && s.wire.Valid()
  }

  lemma InvParts(s: State)
    ensures Inv(s) <==> Books(s) && AgentsOk(s) && NoOrphans(s) && Around(s)
  {
  }

  // A step that touches none of the books, except that requesters may go.
  lemma SameBooks(s: State, t: State)
    requires Books(s) && t.queries == s.queries && t.sent == s.sent && t.backup == s.backup && t.live <= s.live
    requires t.asked == s.asked && t.lastId == s.lastId && t.uploads == s.uploads
    ensures Books(t)
  {
  }

  lemma NextBooks(s: State, e: Step)
    requires Books(s) && AgentsOk(s) && Around(s) && Enabled(s, e)
    ensures Books(Next(s, e))
  {
    match e
    case Connects =>
    case Asks(c, version, file, offered, probe) => AskBooks(s, c, version, file, offered, probe);
    case Accepts(id, size, offered) => if id in s.backup { DisarmBooks(s, id); }
    case EntryExpires(id) => DisarmBooks(s, id);
    case Denies(id) => DenyBooks(s, id);
    case Works(probes) => WorkBooks(s, probes);
    case Receives(id, done) => SameBooks(s, Receive(s, id, done));
    case UploadEnds(up) =>
    case _ => SameBooks(s, Next(s, e));
  }

  lemma WorkBooks(s: State, probes: map<Token, Probe>)
    requires Books(s) && WorkerOk(s)
    ensures Books(Work(s, probes))
  {
    match s.worker
    case Free =>
    case Reported(id, ok, file) =>
    case Shut(id, ok, file) => if !ok { DenyBooks(s, id); }
    case Marked(id, file) => DeliverBooks(s, id, file.LocalName(), probes);
    case Expired(id) => DenyBooks(s, id);
    case Finished(id) =>
  }

  lemma NextAgents(s: State, e: Step)
    requires Books(s) && AgentsOk(s) && NoOrphans(s) && Enabled(s, e)
    ensures AgentsOk(Next(s, e)) && NoOrphans(Next(s, e))
  {
    match e
    case Asks(c, version, file, offered, probe) => AskAgents(s, c, version, file, offered, probe);
    case Accepts(id, size, offered) => AcceptAgents(s, id, size, offered);
    case Begins(a, created) =>
      BeginAgents(s, a, created);
      BeginTends(s, a, created);
    case EntryExpires(id) => ExpiryAgents(s, id);
    case Denies(id) => DenyAgents(s, id);
    case Greets(id, input) => GreetAgents(s, id, input);
    case Receives(id, c) =>
      ReceiveAgents(s, id, c);
      ReceiveTends(s, id, c);
    case TransactionExpires(id) => TransactionExpiryAgents(s, id);
    case Works(probes) => WorkAgents(s, probes);
    case _ => QuietAgents(s, e);
  }

  lemma QuietAgents(s: State, e: Step)
    requires AgentsOk(s) && NoOrphans(s) && Enabled(s, e)
    requires e.Connects? || e.Dies? || e.Arrives? || e.Leaves? || e.Changes? || e.UploadEnds?
    ensures AgentsOk(Next(s, e)) && NoOrphans(Next(s, e))
  {
    AskedAgents(s, Next(s, e));
  }

  lemma NextTrees(s: State, e: Step)
    requires TreesOk(s.trees) && Enabled(s, e)
    ensures TreesOk(Next(s, e).trees)
  {
    match e
    case Changes(nick, op) => OpKeepsClosed(s.trees[nick], op, s.sep);
    case Works(probes) => MarkedTrees(s.trees, s.worker, s.sep);
    case Asks(c, version, file, offered, probe) => assert Next(s, e).trees == s.trees;
    case _ =>
  }

  lemma MarkedTrees(trees: map<Nick, Files>, worker: Worker, sep: char)
    requires TreesOk(trees)
    ensures worker.Shut? ==> TreesOk(MarkCached(trees, worker.file, sep))
  {
  }

  lemma QuietConnections(s: State, e: Step)
    requires Enabled(s, e) && !e.Connects? && !e.Dies? && !e.Asks?
    ensures var t := Next(s, e); t.live == s.live && t.nextConn == s.nextConn && t.queries == s.queries
  {
    match e
    case Receives(id, done) => assert Next(s, e) == Receive(s, id, done);
    case Works(probes) => assert Next(s, e) == Work(s, probes);
    case _ =>
  }

  lemma NextConnections(s: State, e: Step)
    requires ConnectionsOk(s.live, s.nextConn, s.queries) && Enabled(s, e)
    ensures var t := Next(s, e); ConnectionsOk(t.live, t.nextConn, t.queries)
  {
    match e
    case Connects =>
    case Dies(c) =>
    case Asks(c, version, file, offered, probe) =>
    case _ => QuietConnections(s, e);
  }

  lemma NextNotices(s: State, e: Step)
    requires NoticesOk(s.notices, s.asked) && AgentsOk(s) && EntriesOk(s.backup, s.asked, s.lastId) && Enabled(s, e)
    ensures NoticesOk(Next(s, e).notices, Next(s, e).asked) && Next(s, e).wire == s.wire
  {
    match e
    case Begins(a, created) =>
    case Asks(c, version, file, offered, probe) => AsksMore(s, c, version, file, offered, probe);
    case _ =>
  }

  lemma NextKeeps(s: State, e: Step)
    requires Inv(s) && Enabled(s, e)
    ensures Inv(Next(s, e))
  {
    InvParts(s);
    NextBooks(s, e);
    NextAgents(s, e);
    NextTrees(s, e);
    NextConnections(s, e);
    NextNotices(s, e);
    InvParts(Next(s, e));
  }

  lemma {:induction false} RunKeeps(s: State, run: seq<Step>, t: State)
    requires Inv(s) && Run(s, run, t)
    ensures Inv(t)
    decreases |run|
  {
    if run != [] {
      NextKeeps(s, run[0]);
      RunKeeps(Next(s, run[0]), run[1..], t);
    }
  }

  lemma StartOk(sep: char, wire: Wire)
    requires wire.Valid()
    ensures Inv(Start(sep, wire))
  {
  }

  // ---- Runs ----

  lemma {:induction false} RunConcat(s: State, a: seq<Step>, t: State, b: seq<Step>, u: State)
    requires Run(s, a, t) && Run(t, b, u)
    ensures Run(s, a + b, u)
    decreases |a|
  {
    if a == [] {
      assert a + b == b;
    } else {
      RunConcat(Next(s, a[0]), a[1..], t, b, u);
      assert (a + b)[0] == a[0] && (a + b)[1..] == a[1..] + b;
    }
  }

  lemma StepOf(s: State, e: Step)
    requires Enabled(s, e)
    ensures Run(s, [e], Next(s, e))
  {
  }

  lemma TwoSteps(s: State, e: Step, f: Step)
    requires Enabled(s, e) && Enabled(Next(s, e), f)
    ensures Run(s, [e, f], Next(Next(s, e), f))
  {
  }
}
