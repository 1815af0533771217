/** The connection manager's part in downloads: queries, the owner's replies, the completion
    of transfers and the expiry of timers. */
module DownloadResolvers {
  import opened Paths
  import opened PathTree
  import opened Notifications
  import opened Rendezvous
  import opened RendezvousRuns
  import opened RendezvousTheorems
  import opened RendezvousAnswers
  import Reception
  import opened DownloadManagers

  // What an owner's approval does when nothing comes between its steps.
  ghost function Approve(s: State, id: ReqId, size: nat, offered: seq<Compression>, created: bool): State {
    if id !in s.backup then s
    else
      var t := Begin(Accept(s, id, size, offered), Accepted(id, s.backup[id].file, size, Negotiated(offered)), created);
      if created then t else DenyEntry(t, id).(denying := s.denying)
  }

  lemma ApproveBegins(s: State, id: ReqId, size: nat, offered: seq<Compression>)
    requires id in s.backup
    ensures Approve(s, id, size, offered, true)
         == Begin(s.(backup := s.backup[id := s.backup[id].(timerArmed := false)]),
                  Accepted(id, s.backup[id].file, size, Negotiated(offered)), true).(accepted := s.accepted)
  {
  }

  lemma ApproveFails(s: State, id: ReqId, size: nat, offered: seq<Compression>)
    requires id in s.backup
    ensures Approve(s, id, size, offered, false) == DenyEntry(s, id)
  {
  }

  // An approval is a run: its acceptance, the start of the transaction, and the denial of all
  // when that fails.
  lemma ApproveIsRun(s: State, id: ReqId, size: nat, offered: seq<Compression>, created: bool) returns (run: seq<Step>)
    requires Negotiated(offered) != Gzip && (created && id in s.backup ==> !HeldOpen(s.downloads, s.backup[id].file))
    ensures Run(s, run, Approve(s, id, size, offered, created))
  {
    var t := Accept(s, id, size, offered);
    StepOf(s, Accepts(id, size, offered));
    if id !in s.backup {
      return [Accepts(id, size, offered)];
    }
    var a := Accepted(id, s.backup[id].file, size, Negotiated(offered));
    assert a in t.accepted;
    StepOf(t, Begins(a, created));
    RunConcat(s, [Accepts(id, size, offered)], t, [Begins(a, created)], Begin(t, a, created));
    run := [Accepts(id, size, offered)] + [Begins(a, created)];
    if !created {
      var u := Begin(t, a, false);
      assert u.denying - multiset{id} == s.denying;
      StepOf(u, Denies(id));
      RunConcat(s, run, u, [Denies(id)], Next(u, Denies(id)));
      run := run + [Denies(id)];
    }
  }

  // What a query counts on holds in every state of a run.
  lemma QueriesResolvable(s: State)
    requires Inv(s)
    ensures OneEntryPerFile(s.backup) && s.lastId + 1 !in s.backup
  {
  }

  // The download thread at work until it is done.
  ghost function Completed(s: State, probes: map<Token, Probe>): State
    decreases Rank(s.worker)
  {
    if s.worker.Free? then s else Completed(Work(s, probes), probes)
  }

  lemma {:induction false} CompletedIsRun(s: State, probes: map<Token, Probe>) returns (run: seq<Step>)
    ensures Run(s, run, Completed(s, probes)) && |run| <= Rank(s.worker)
    decreases Rank(s.worker)
  {
    if s.worker.Free? {
      return [];
    }
    var rest := CompletedIsRun(Work(s, probes), probes);
    StepOf(s, Works(probes));
    RunConcat(s, [Works(probes)], Work(s, probes), rest, Completed(s, probes));
    run := [Works(probes)] + rest;
  }

  // A completed transfer that succeeded: marked, delivered to everybody waiting, and ended.
  lemma CompletedDelivers(s: State, id: ReqId, file: Wanted, probes: map<Token, Probe>)
    requires s.worker == Reported(id, true, file)
    ensures Completed(s, probes)
         == DeliverEntry(s, id, file.LocalName(), probes)
            .(trees := MarkCached(s.trees, file, s.sep), downloads := CloseDownload(s.downloads, id) - {id}, worker := Free)
  {
    var s1 := Work(s, probes);
    var s2 := Work(s1, probes);
    var s3 := Work(s2, probes);
    assert Completed(s, probes) == Completed(s1, probes) == Completed(s2, probes) == Completed(s3, probes);
    assert Completed(s3, probes) == Completed(Work(s3, probes), probes);
  }

  // One that failed, or never began: everybody waiting is denied.
  lemma CompletedDenies(s: State, id: ReqId, file: Wanted, probes: map<Token, Probe>)
    requires s.worker == Reported(id, false, file)
    ensures Completed(s, probes)
         == DenyEntry(s, id).(downloads := CloseDownload(s.downloads, id) - {id}, worker := Free)
  {
    var s1 := Work(s, probes);
    var s2 := Work(s1, probes);
    assert Completed(s, probes) == Completed(s1, probes) == Completed(s2, probes);
    assert Completed(s2, probes) == Completed(Work(s2, probes), probes);
  }

  lemma ExpiredDenies(s: State, id: ReqId, probes: map<Token, Probe>)
    requires s.worker == Expired(id)
    ensures Completed(s, probes) == DenyEntry(s, id).(downloads := s.downloads - {id}, worker := Free)
  {
    var s1 := Work(s, probes);
    assert Completed(s, probes) == Completed(s1, probes);
    assert Completed(s1, probes) == Completed(Work(s1, probes), probes);
  }

  // What the waiters get: a transfer that succeeded serves all of them that are still there,
  // once and in order, each by its own probe of the file; any other end denies them all.
  lemma CompletedServes(s: State, id: ReqId, file: Wanted, probes: map<Token, Probe>)
    requires UploadsOk(s.uploads) && s.worker == Reported(id, true, file)
    ensures ListGetsFile(s, id, file.owner + file.path, probes, Completed(s, probes))
  {
    CompletedDelivers(s, id, file, probes);
    DeliveryServes(s, id, file.LocalName(), probes);
  }

  lemma CompletedRefuses(s: State, probes: map<Token, Probe>)
    requires s.worker.Expired? || (s.worker.Reported? && !s.worker.ok)
    ensures ListIsDenied(s, s.worker.id, Completed(s, probes))
  {
    DenialDenies(s, s.worker.id);
    if s.worker.Expired? {
      ExpiredDenies(s, s.worker.id, probes);
    } else {
      CompletedDenies(s, s.worker.id, s.worker.file, probes);
    }
  }

  // From a query for a file that is not cached, through any run, to the success of the
  // transfer it waits for: if its requester is still there, it is approved exactly if the file
  // is good then, with a transaction on the file it asked for, compressed exactly if it offered
  // zlib and the file is large.
  lemma QueryServedInTheEnd(sep: char, wire: Wire, before: seq<Step>, s: State, c: ConnId, file: Wanted,
                            offered: seq<Compression>, probe: Probe, between: seq<Step>, t: State, i: nat,
                            probes: map<Token, Probe>) returns (k: nat)
    requires wire.Valid() && Run(Start(sep, wire), before, s) && Enabled(s, Asks(c, Sslv23, file, offered, probe))
    requires Known(s.trees, file, s.sep) && !IsCached(s, file)
    requires Run(Ask(s, c, Sslv23, file, offered, probe), between, t)
    requires t.worker.Reported? && t.worker.ok && WaitsAt(t.backup, |s.queries|, t.worker.id, i) && c in t.live
    ensures var u := Completed(t, probes);
            AnsweredAt(u.sent, |s.queries|, k) &&
            Served(u.sent[k].answer, u.uploads, file.owner + file.path, Zlib in offered, probes, |s.queries|)
  {
    StartOk(sep, wire);
    RunKeeps(Start(sep, wire), before, s);
    StillWaits(s, c, file, offered, probe, between, t, t.worker.id, i);
    k := WaiterServed(t, i, probes);
  }

  // Through any run, a query waits with what it asked for.
  lemma StillWaits(s: State, c: ConnId, file: Wanted, offered: seq<Compression>, probe: Probe, between: seq<Step>, t: State,
                   id: ReqId, i: nat)
    requires Inv(s) && Enabled(s, Asks(c, Sslv23, file, offered, probe)) && Known(s.trees, file, s.sep) && !IsCached(s, file)
    requires Run(Ask(s, c, Sslv23, file, offered, probe), between, t) && WaitsAt(t.backup, |s.queries|, id, i)
    ensures Inv(t) && id in t.asked && t.asked[id] == file
    ensures t.backup[id].requests[i].conn == c && (t.backup[id].requests[i].wanted == Zlib <==> Zlib in offered)
  {
    var u, token := Ask(s, c, Sslv23, file, offered, probe), |s.queries|;
    NextKeeps(s, Asks(c, Sslv23, file, offered, probe));
    RunKeeps(u, between, t);
    var jd := WaitsWith(s, c, file, offered, probe);
    var j := RunKeepsPlace(u, between, t, token, id, i);
    OnePlace(u, token, jd, 0, id, j);
    RunKeepsAsked(u, between, t, id);
  }

  lemma WaiterServed(s: State, i: nat, probes: map<Token, Probe>) returns (k: nat)
    requires Inv(s) && s.worker.Reported? && s.worker.ok && s.worker.id in s.backup
    requires i < |s.backup[s.worker.id].requests| && s.backup[s.worker.id].requests[i].conn in s.live
    ensures var t, r, file := Completed(s, probes), s.backup[s.worker.id].requests[i], s.asked[s.worker.id];
            && AnsweredAt(t.sent, r.token, k)
            && Served(t.sent[k].answer, t.uploads, file.owner + file.path, r.wanted == Zlib, probes, r.token)
  {
    var t, id := Completed(s, probes), s.worker.id;
    CompletedServes(s, id, s.worker.file, probes);
    var l := LiveHas(s.live, s.backup[id].requests, i);
    k := l + |s.sent|;
    assert t.sent[k] == t.sent[|s.sent|..][l];
  }

  // A query waits in one place.
  lemma OnePlace(s: State, token: Token, id: ReqId, i: nat, jd: ReqId, j: nat)
    requires AtMostOnce(s.sent, s.backup) && WaitsAt(s.backup, token, id, i) && WaitsAt(s.backup, token, jd, j)
    ensures id == jd && i == j
  {
    WaitingElement(s.backup, token, id, i);
    WaitingElement(s.backup, token, jd, j);
  }

  // An ID stays that of the file that was asked for under it.
  lemma {:induction false} RunKeepsAsked(s: State, run: seq<Step>, t: State, id: ReqId)
    requires Inv(s) && Run(s, run, t) && id in s.asked
    ensures id in t.asked && t.asked[id] == s.asked[id]
    decreases |run|
  {
    if run != [] {
      NextKeeps(s, run[0]);
      AskedStays(s, run[0], id);
      RunKeepsAsked(Next(s, run[0]), run[1..], t, id);
    }
  }

  lemma AskedStays(s: State, e: Step, id: ReqId)
    requires EntriesOk(s.backup, s.asked, s.lastId) && Enabled(s, e) && id in s.asked
    ensures id in Next(s, e).asked && Next(s, e).asked[id] == s.asked[id]
  {
    match e
    case Asks(c, version, file, offered, probe) => AsksMore(s, c, version, file, offered, probe);
    case Receives(jd, done) => assert Next(s, e) == Receive(s, jd, done);
    case _ =>
  }

  class DownloadResolver {
    const separator: char
    const backup: RequestsBackupManager
    const downloads: DownloadManager
    var trees: map<Nick, Files>
    var live: set<ConnId>
    var downloadTransactionsIDCounter: ReqId
    var sent: seq<Reply>
    var asked: map<ReqId, Wanted>
    var notices: seq<Notice>
    ghost var nextConn: ConnId
    ghost var queries: seq<Query>
    ghost var accepted: multiset<Accepted>
    ghost var denying: multiset<ReqId>
    ghost var worker: Worker

    ghost function Model(): State
      reads this, backup, downloads
    {
      State(separator, downloads.wire, trees, live, nextConn, queries, sent, backup.backedupRequests, downloadTransactionsIDCounter,
            asked, notices, accepted, denying, downloads.downloadTransactions, downloads.armedTimers, downloads.greeted, worker,
            downloads.Ups(), downloads.localFiles)
    }

    constructor (separator: char, wire: Wire)
      ensures Model() == Start(separator, wire)
    {
      this.separator := separator;
      backup := new RequestsBackupManager();
      downloads := new DownloadManager(wire);
      trees, live, downloadTransactionsIDCounter, sent, asked := map[], {}, 1, [], map[];
      notices := [];
      nextConn, queries, accepted, denying, worker := 0, [], multiset{}, multiset{}, Free;
    }

    method DeliverFileFromLocalStorage(wanted: Compression, token: Token, localName: string, probe: Probe)
      modifies this`sent, downloads`uploadTransactions, downloads`uploadTransactionsIDCounter, downloads`begun
      ensures sent == old(sent) + [Reply(token, DeliverAnswer(old(downloads.Ups()), wanted, probe))]
      ensures downloads.Ups() == BeginUpload(old(downloads.Ups()), localName, wanted, probe)
    {
      var ok, mode, transactionID := downloads.BeginUploadTransaction(localName, wanted, probe);
      if ok && probe.sized {
        sent := sent + [Reply(token, Approved(transactionID, mode, probe.announced))];
      } else {
        sent := sent + [Reply(token, Denied)];
      }
    }

    // The request joins those who wait for the file, or the owner is asked for it.
    method AwaitFile(file: Wanted, request: Request)
      requires OneEntryPerFile(backup.backedupRequests) && downloadTransactionsIDCounter + 1 !in backup.backedupRequests
      modifies this`downloadTransactionsIDCounter, this`asked, backup
      ensures Pending(old(backup.backedupRequests), file) ==>
                && backup.backedupRequests == JoinEntry(old(backup.backedupRequests), file, request)
                && downloadTransactionsIDCounter == old(downloadTransactionsIDCounter) && asked == old(asked)
      ensures !Pending(old(backup.backedupRequests), file) ==>
                && downloadTransactionsIDCounter == old(downloadTransactionsIDCounter) + 1
                && asked == old(asked)[downloadTransactionsIDCounter := file]
                && backup.backedupRequests == old(backup.backedupRequests)
                     [downloadTransactionsIDCounter := DownloadInfo(file, [request], true)]
    {
      var pending := backup.IsDownloadPending(file, request);
      if !pending {
        downloadTransactionsIDCounter := downloadTransactionsIDCounter + 1;
        asked := asked[downloadTransactionsIDCounter := file];
        backup.BackupAndStartTimer(downloadTransactionsIDCounter, DownloadInfo(file, [request], false));
      }
    }

    method SupplyFile(c: ConnId, token: Token, file: Wanted, wanted: Compression, probe: Probe)
      requires Known(trees, file, separator) && OneEntryPerFile(backup.backedupRequests) && token == |queries|
      requires downloadTransactionsIDCounter + 1 !in backup.backedupRequests
      modifies this`queries, this`sent, this`downloadTransactionsIDCounter, this`asked, backup
      modifies downloads`uploadTransactions, downloads`uploadTransactionsIDCounter, downloads`begun
      ensures Model() == Supply(old(Model()), c, file, wanted, probe)
    {
      queries := queries + [Query(c, file)];
      if trees[file.owner][Components(file.path, separator)] {
        DeliverFileFromLocalStorage(wanted, token, file.LocalName(), probe);
      } else {
        AwaitFile(file, Request(c, wanted, token));
      }
    }

    // token: the query's ID, which its answer will carry.
    method ResolveDownloadFileQuerry(c: ConnId, token: Token, version: SslVersion, file: Wanted, offered: seq<Compression>,
                                     probe: Probe)
      requires OneEntryPerFile(backup.backedupRequests) && token == |queries|
      requires downloadTransactionsIDCounter + 1 !in backup.backedupRequests
      modifies this, backup, downloads
      ensures Model() == Ask(old(Model()), c, version, file, offered, probe)
    {
      if version != Sslv23 {
        queries, sent := queries + [Query(c, file)], sent + [Reply(token, SslIncompatible)];
        return;
      }
      if file.owner !in trees || Components(file.path, separator) !in trees[file.owner] {
        queries, sent := queries + [Query(c, file)], sent + [Reply(token, Denied)];
        return;
      }
      var wanted := GetCompression(offered);
      SupplyFile(c, token, file, wanted, probe);
    }

    // Everybody who still waits for id is denied the file.
    method DenyWaiting(id: ReqId)
      modifies this`sent, backup
      ensures sent == old(sent) + DenyAll(live, Waiting(old(backup.backedupRequests), id))
      ensures backup.backedupRequests == old(backup.backedupRequests) - {id}
    {
      var requests := backup.Take(id);
      for i := 0 to |requests|
        invariant sent + DenyAll(live, requests[i..]) == old(sent) + DenyAll(live, requests)
        invariant backup.backedupRequests == old(backup.backedupRequests) - {id}
      {
        assert requests[i..][1..] == requests[i + 1..];
        if requests[i].conn in live {
          sent := sent + [Reply(requests[i].token, Denied)];
        }
      }
      assert requests[|requests|..] == [] && sent + [] == sent;
    }

    // Everybody who still waits for id gets a transaction of their own on the local file.
    method DeliverWaiting(id: ReqId, localName: string, probes: map<Token, Probe>)
      modifies this`sent, backup, downloads`uploadTransactions, downloads`uploadTransactionsIDCounter, downloads`begun
      ensures sent == old(sent) + DeliverReplies(old(downloads.Ups()), live, localName,
                                                 Waiting(old(backup.backedupRequests), id), probes)
      ensures downloads.Ups() == DeliverUploads(old(downloads.Ups()), live, localName,
                                                Waiting(old(backup.backedupRequests), id), probes)
      ensures backup.backedupRequests == old(backup.backedupRequests) - {id}
    {
      var requests := backup.Take(id);
      ghost var u, already := downloads.Ups(), sent;
      for i := 0 to |requests|
        invariant sent + DeliverReplies(downloads.Ups(), live, localName, requests[i..], probes)
               == already + DeliverReplies(u, live, localName, requests, probes)
        invariant DeliverUploads(downloads.Ups(), live, localName, requests[i..], probes)
               == DeliverUploads(u, live, localName, requests, probes)
        invariant backup.backedupRequests == old(backup.backedupRequests) - {id}
      {
        assert requests[i..][1..] == requests[i + 1..];
        var r := requests[i];
        if r.conn in live {
          DeliverFileFromLocalStorage(r.wanted, r.token, localName, ProbeOf(probes, r.token));
        }
      }
      assert requests[|requests|..] == [] && sent + [] == sent;
    }

    // found: what is asserted of the owner's tree, if the owner is there.
    method SetFileToCached(file: Wanted) returns (found: bool)
      modifies this`trees
      ensures trees == MarkCached(old(trees), file, separator)
      ensures found <==> MarkFinds(old(trees), file, separator)
    {
      found := true;
      if file.owner in trees {
        found := Components(file.path, separator) in trees[file.owner];
        trees := trees[file.owner := SetFlag(trees[file.owner], Components(file.path, separator), true)];
      }
    }

    // The owner, if it is there, is told under which ID to send.
    method NotifyFileDownload(owner: Nick, id: ReqId, mode: Compression)
      modifies this`notices
      ensures notices == if owner in trees then old(notices) + [Notice(owner, id, mode)] else old(notices)
    {
      if owner in trees {
        notices := notices + [Notice(owner, id, mode)];
      }
    }

    // A validated approval starts the transfer; when that fails the waiters must be told here.
    method StartTransfer(a: Accepted, created: bool)
      modifies this`sent, this`notices, backup, downloads`downloadTransactions, downloads`armedTimers, downloads`localFiles
      ensures created ==> Model() == Begin(old(Model()), a, true).(accepted := accepted)
      ensures !created ==> Model() == DenyEntry(old(Model()), a.id)
    {
      var ok := downloads.BeginDownloadTransaction(a, created);
      if ok {
        NotifyFileDownload(a.file.owner, a.id, a.mode);
      } else {
        DenyWaiting(a.id);
      }
    }

    // Only an approval of a request that is still backed up is acted upon; any other reply is
    // left to the timer.
    method ResolveDownloadReply(approved: bool, id: ReqId, size: nat, offered: seq<Compression>, created: bool)
      modifies this, backup, downloads
      ensures Model() == if approved then Approve(old(Model()), id, size, offered, created) else old(Model())
    {
      if !approved {
        return;
      }
      var mode := GetCompression(offered);
      if id in backup.backedupRequests {
        ApproveBegins(Model(), id, size, offered);
        ApproveFails(Model(), id, size, offered);
      }
      var valid, file := backup.IsRequestIDValid(id);
      if valid {
        StartTransfer(Accepted(id, file, size, mode), created);
      }
    }

    // A successful transfer is marked and delivered to everybody waiting, a failed one is denied them.
    method OnDownloadCompleted(id: ReqId, success: bool, file: Wanted, probes: map<Token, Probe>)
      modifies this`trees, this`sent, backup
      modifies downloads`uploadTransactions, downloads`uploadTransactionsIDCounter, downloads`begun
      ensures success ==> Model() == DeliverEntry(old(Model()), id, file.LocalName(), probes)
                                       .(trees := MarkCached(old(trees), file, separator))
      ensures !success ==> Model() == DenyEntry(old(Model()), id)
    {
      if success {
        var found := SetFileToCached(file);
        DeliverWaiting(id, file.LocalName(), probes);
      } else {
        DenyWaiting(id);
      }
    }

    // The receiver of id has reported: its file is closed, the waiters are answered, and its
    // transaction ends.
    method CompleteDownload(id: ReqId, success: bool, file: Wanted, probes: map<Token, Probe>)
      requires worker == Reported(id, success, file)
      modifies this, backup, downloads
      ensures Model() == Completed(old(Model()), probes)
    {
      ghost var s := Model();
      if success {
        CompletedDelivers(s, id, file, probes);
      } else {
        CompletedDenies(s, id, file, probes);
      }
      downloads.CloseDownloadTransaction(id);
      assert Model() == s.(downloads := CloseDownload(s.downloads, id));
      OnDownloadCompleted(id, success, file, probes);
      ghost var t := Model();
      var erased := downloads.EndDownloadTransaction(id);
      worker := Free;
      assert Model() == t.(downloads := t.downloads - {id}, worker := Free);
    }

    // A receiver's read or write completes; a verdict makes the thread complete the download.
    method ReceiverCompletes(id: ReqId, done: Reception.Completion)
      requires Enabled(Model(), Receives(id, done))
      modifies this`worker, downloads`downloadTransactions, downloads`localFiles
      ensures Model() == Receive(old(Model()), id, done)
    {
      var d := downloads.downloadTransactions[id];
      var r := Reception.Next(downloads.wire.ConfigOf(d.size, d.mode), d.input, d.receiver, done);
      if r.pending.Reported? {
        downloads.downloadTransactions := downloads.downloadTransactions[id := d.(receiver := r, running := false)];
        worker := Reported(id, true in r.verdicts, d.file);
      } else {
        downloads.downloadTransactions := downloads.downloadTransactions[id := d.(receiver := r)];
        if done == Reception.Stored(true) {
          downloads.localFiles := Extended(downloads.localFiles, d.file.LocalName(), d.receiver.pending.data);
        }
      }
    }

    // No sender came for id in time.
    method ExpireDownload(id: ReqId)
      requires worker == Expired(id)
      modifies this, backup, downloads
      ensures Model() == Completed(old(Model()), map[])
    {
      ExpiredDenies(Model(), id, map[]);
      DenyWaiting(id);
      var erased := downloads.EndDownloadTransaction(id);
      worker := Free;
    }
  }
}
