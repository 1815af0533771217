/** What requesters are told: which answer each query gets, of what kind, and with what. */
module RendezvousAnswers {
  import opened Rendezvous
  import opened RendezvousRuns
  import opened RendezvousTheorems

  // The local file is there, not empty, readable and not locked.
  predicate Good(p: Probe) {
    p.size != 0 && p.readable && p.opens && p.sized
  }

  // The compression agreed on is the first of zlib and gzip that the user offers.
  lemma NegotiatedIs(offered: seq<Compression>)
    ensures Negotiated(offered) == Zlib <==> Zlib in offered
    ensures Negotiated(offered) == Gzip <==> Gzip in offered && Zlib !in offered
    ensures Negotiated(offered) == NoCompression <==> Zlib !in offered && Gzip !in offered
  {
  }

  // A requester who is served is approved exactly if its file is good, and denied otherwise;
  // it is told the file's size and a transaction that delivers that very file, compressed
  // exactly if it offers zlib and the file is large.
  ghost predicate Served(a: Answer, v: Uploads, localName: string, zlib: bool, probes: map<Token, Probe>, token: Token) {
    && (a.Approved? <==> token in probes && Good(probes[token]))
    && (!a.Approved? ==> a == Denied)
    && (a.Approved? ==>
          && a.size == probes[token].announced
          && a.mode == (if zlib && probes[token].size > 104857600 then Zlib else NoCompression)
          && a.upload in v.begun && v.begun[a.upload] == Upload(localName, a.mode))
  }

  lemma ServesOne(u: Uploads, localName: string, wanted: Compression, probes: map<Token, Probe>, token: Token)
    ensures var v := BeginUpload(u, localName, wanted, ProbeOf(probes, token));
            Served(DeliverAnswer(u, wanted, ProbeOf(probes, token)), v, localName, wanted == Zlib, probes, token)
  {
  }

  // ---- A cached file ----

  // A query for a cached file is answered at once, and alone, with an approval exactly if the
  // file is good; the approved transaction is a new one, and stored.
  lemma CachedAnswer(s: State, c: ConnId, file: Wanted, offered: seq<Compression>, probe: Probe)
    requires UploadsOk(s.uploads) && IsCached(s, file)
    ensures var t, n, token := Ask(s, c, Sslv23, file, offered, probe), |s.sent|, |s.queries|;
            && s.sent <= t.sent && |t.sent| == n + 1 && t.sent[n].token == token
            && Served(t.sent[n].answer, t.uploads, file.owner + file.path, Zlib in offered, map[token := probe], token)
            && (t.sent[n].answer.Approved? ==>
                  t.sent[n].answer.upload !in s.uploads.begun && t.sent[n].answer.upload in t.uploads.running)
  {
    NegotiatedIs(offered);
    ServesOne(s.uploads, file.LocalName(), Negotiated(offered), map[|s.queries| := probe], |s.queries|);
  }

  // ---- A waiting list ----

  // The requests of those who are still there.
  function LiveOf(live: set<ConnId>, requests: seq<Request>): seq<Request> {
    if requests == [] then []
    else (if requests[0].conn in live then [requests[0]] else []) + LiveOf(live, requests[1..])
  }

  // more answers the requests l, each once and in their order, by serving them.
  ghost predicate AllServed(more: seq<Reply>, l: seq<Request>, v: Uploads, localName: string, probes: map<Token, Probe>) {
    |more| == |l| && forall i {:trigger more[i]} :: 0 <= i < |l| ==>
      more[i].token == l[i].token && Served(more[i].answer, v, localName, l[i].wanted == Zlib, probes, l[i].token)
  }

  ghost predicate AllDenied(more: seq<Reply>, l: seq<Request>) {
    |more| == |l| && forall i {:trigger more[i]} :: 0 <= i < |l| ==> more[i] == Reply(l[i].token, Denied)
  }

  lemma ServedLater(a: Answer, u: Uploads, v: Uploads, localName: string, zlib: bool, probes: map<Token, Probe>, token: Token)
    requires Served(a, u, localName, zlib, probes, token) && Extends(u, v)
    ensures Served(a, v, localName, zlib, probes, token)
  {
  }

  lemma {:induction false} ListServed(u: Uploads, live: set<ConnId>, localName: string, requests: seq<Request>,
                                      probes: map<Token, Probe>)
    requires UploadsOk(u)
    ensures AllServed(DeliverReplies(u, live, localName, requests, probes), LiveOf(live, requests),
                      DeliverUploads(u, live, localName, requests, probes), localName, probes)
    decreases |requests|
  {
    if requests != [] {
      var r, rest := requests[0], requests[1..];
      if r.conn in live {
        var probe := ProbeOf(probes, r.token);
        var v := BeginUpload(u, localName, r.wanted, probe);
        BeginsOne(u, localName, r.wanted, probe, r.token);
        BeginsAll(v, live, localName, rest, probes);
        ListServed(v, live, localName, rest, probes);
        ServesOne(u, localName, r.wanted, probes, r.token);
        ServedLater(DeliverAnswer(u, r.wanted, probe), v, DeliverUploads(v, live, localName, rest, probes), localName,
                    r.wanted == Zlib, probes, r.token);
        ServedFirst(DeliverAnswer(u, r.wanted, probe), DeliverReplies(v, live, localName, rest, probes), r,
                    LiveOf(live, rest), DeliverUploads(v, live, localName, rest, probes), localName, probes);
      } else {
        ListServed(u, live, localName, rest, probes);
        assert [] + LiveOf(live, rest) == LiveOf(live, rest);
      }
    }
  }

  lemma ServedFirst(a: Answer, more: seq<Reply>, r: Request, l: seq<Request>, v: Uploads, localName: string,
                    probes: map<Token, Probe>)
    requires AllServed(more, l, v, localName, probes) && Served(a, v, localName, r.wanted == Zlib, probes, r.token)
    ensures AllServed([Reply(r.token, a)] + more, [r] + l, v, localName, probes)
  {
    var b := [Reply(r.token, a)] + more;
    assert forall i :: 1 <= i < |b| ==> b[i] == more[i - 1] && ([r] + l)[i] == l[i - 1];
  }

  lemma {:induction false} ListDenied(live: set<ConnId>, requests: seq<Request>)
    ensures AllDenied(DenyAll(live, requests), LiveOf(live, requests))
  {
    if requests != [] {
      ListDenied(live, requests[1..]);
      var a, b := DenyAll(live, requests[1..]), DenyAll(live, requests);
      if requests[0].conn in live {
        assert forall i :: 1 <= i < |b| ==> b[i] == a[i - 1] && LiveOf(live, requests)[i] == LiveOf(live, requests[1..])[i - 1];
      } else {
        assert b == a && LiveOf(live, requests) == LiveOf(live, requests[1..]);
      }
    }
  }

  lemma {:induction false} LiveHas(live: set<ConnId>, requests: seq<Request>, i: nat) returns (k: nat)
    requires i < |requests| && requests[i].conn in live
    ensures k < |LiveOf(live, requests)| && LiveOf(live, requests)[k] == requests[i]
    decreases i
  {
    if i == 0 {
      k := 0;
    } else {
      k := LiveHas(live, requests[1..], i - 1);
      k := if requests[0].conn in live then k + 1 else k;
    }
  }

  // The requests of the list of id, if there is one.
  function ListOf(s: State, id: ReqId): seq<Request> {
    if id in s.backup then s.backup[id].requests else []
  }

  // t has answered the live requesters of the list of id, and nobody else, as they are served.
  ghost predicate ListGetsFile(s: State, id: ReqId, localName: string, probes: map<Token, Probe>, t: State) {
    && id !in t.backup && s.sent <= t.sent
    && AllServed(t.sent[|s.sent|..], LiveOf(s.live, ListOf(s, id)), t.uploads, localName, probes)
  }

  ghost predicate ListIsDenied(s: State, id: ReqId, t: State) {
    id !in t.backup && s.sent <= t.sent && AllDenied(t.sent[|s.sent|..], LiveOf(s.live, ListOf(s, id)))
  }

  lemma DeliveryServes(s: State, id: ReqId, localName: string, probes: map<Token, Probe>)
    requires UploadsOk(s.uploads)
    ensures ListGetsFile(s, id, localName, probes, DeliverEntry(s, id, localName, probes))
  {
    var requests := ListOf(s, id);
    ListServed(s.uploads, s.live, localName, requests, probes);
    assert (s.sent + DeliverReplies(s.uploads, s.live, localName, requests, probes))[|s.sent|..]
        == DeliverReplies(s.uploads, s.live, localName, requests, probes);
  }

  lemma DenialDenies(s: State, id: ReqId)
    ensures ListIsDenied(s, id, DenyEntry(s, id))
  {
    var requests := ListOf(s, id);
    ListDenied(s.live, requests);
    assert (s.sent + DenyAll(s.live, requests))[|s.sent|..] == DenyAll(s.live, requests);
  }

  // ---- From the query to its answer ----

  // A query that is not answered waits with what it asked for: its connection, and the
  // compression agreed on.
  lemma WaitsWith(s: State, c: ConnId, file: Wanted, offered: seq<Compression>, probe: Probe) returns (id: ReqId)
    requires Inv(s) && Known(s.trees, file, s.sep) && !IsCached(s, file)
    ensures var t := Ask(s, c, Sslv23, file, offered, probe);
            && WaitsAt(t.backup, |s.queries|, id, 0) && t.backup[id].file == file && t.backup[id].requests[0].conn == c
            && (t.backup[id].requests[0].wanted == Zlib <==> Zlib in offered)
  {
    NegotiatedIs(offered);
    id := WaitsOtherwise(s, c, Sslv23, file, offered, probe);
  }

  // A waiter waits where it has waited before, with the request it had.
  lemma StepKeepsPlace(s: State, e: Step, token: Token, id: ReqId, i: nat) returns (j: nat)
    requires Enabled(s, e) && WaitsAt(Next(s, e).backup, token, id, i) && token < |s.queries|
    ensures WaitsAt(s.backup, token, id, j) && s.backup[id].requests[j] == Next(s, e).backup[id].requests[i]
  {
    j := i;
    match e
    case Asks(c, version, file, offered, probe) => j := AskKeepsPlace(s, c, version, file, offered, probe, token, id, i);
    case Works(probes) => WorkEmpties(s, probes);
    case Accepts(jd, size, offered) =>
    case EntryExpires(jd) =>
    case Denies(jd) =>
    case _ => QuietBackup(s, e);
  }

  lemma QuietBackup(s: State, e: Step)
    requires Enabled(s, e) && !e.Asks? && !e.Works? && !e.Accepts? && !e.EntryExpires? && !e.Denies?
    ensures Next(s, e).backup == s.backup
  {
    match e
    case Receives(jd, done) => assert Next(s, e) == Receive(s, jd, done);
    case _ =>
  }

  lemma WorkEmpties(s: State, probes: map<Token, Probe>)
    requires !s.worker.Free?
    ensures Work(s, probes).backup in {s.backup, s.backup - {s.worker.id}}
  {
  }

  lemma AskKeepsPlace(s: State, c: ConnId, version: SslVersion, file: Wanted, offered: seq<Compression>, probe: Probe,
                      token: Token, id: ReqId, i: nat) returns (j: nat)
    requires WaitsAt(Ask(s, c, version, file, offered, probe).backup, token, id, i) && token < |s.queries|
    ensures WaitsAt(s.backup, token, id, j)
    ensures s.backup[id].requests[j] == Ask(s, c, version, file, offered, probe).backup[id].requests[i]
  {
    j := i;
    var after := Ask(s, c, version, file, offered, probe).backup;
    if id in s.backup && after[id] != s.backup[id] {
      j := i - 1;
    }
  }

  lemma {:induction false} RunKeepsPlace(s: State, run: seq<Step>, t: State, token: Token, id: ReqId, i: nat) returns (j: nat)
    requires Run(s, run, t) && token < |s.queries| && WaitsAt(t.backup, token, id, i)
    ensures WaitsAt(s.backup, token, id, j) && s.backup[id].requests[j] == t.backup[id].requests[i]
    decreases |run|
  {
    if run == [] {
      j := i;
    } else {
      StepGrows(s, run[0]);
      j := RunKeepsPlace(Next(s, run[0]), run[1..], t, token, id, i);
      j := StepKeepsPlace(s, run[0], token, id, j);
    }
  }
}
