/** A file on its way from its owner: what an approval sets up, and what arrives. */
module RendezvousTransfers {
  import Delivery
  import Reception
  import opened Rendezvous
  import opened RendezvousRuns
  import opened RendezvousAnswers
  import opened RendezvousFiles

  // ---- The approval ----

  // An approval of a request that is backed up is carried out with the announced size, in the
  // first of the server's compressions that the owner offers; the request's timer is stopped.
  lemma ApprovalAccepted(s: State, id: ReqId, size: nat, offered: seq<Compression>)
    requires id in s.backup && (Zlib in offered || Gzip !in offered)
    ensures Enabled(s, Accepts(id, size, offered))
    ensures var t := Next(s, Accepts(id, size, offered));
            && t.accepted == s.accepted + multiset{Accepted(id, s.backup[id].file, size,
                                                            if Zlib in offered then Zlib else NoCompression)}
            && t.backup == s.backup[id := s.backup[id].(timerArmed := false)]
  {
    NegotiatedIs(offered);
  }

  // When its transaction is started the owner, if it is there, is told its ID and its mode; when
  // it is not, nobody is told.
  lemma BeginTells(s: State, a: Accepted, created: bool)
    ensures Begin(s, a, created).notices
         == if created && a.file.owner in s.trees then s.notices + [Notice(a.file.owner, a.id, a.mode)] else s.notices
  {
  }

  // ---- The completions of one receiver in a run ----

  // The transaction is stored all along.
  ghost predicate Stored(s: State, run: seq<Step>, id: ReqId)
    decreases |run|
  {
    id in s.downloads && (run != [] ==> Enabled(s, run[0]) && Stored(Next(s, run[0]), run[1..], id))
  }

  // Nothing is lost between its sender and the disk.
  ghost predicate NothingLost(s: State, run: seq<Step>, id: ReqId)
    decreases |run|
  {
    run != [] ==>
      && Enabled(s, run[0]) && NothingLost(Next(s, run[0]), run[1..], id)
      && (run[0].Receives? && run[0].id == id ==>
            Reception.Lossless(Config(s, id), s.downloads[id].input, s.downloads[id].receiver, run[0].done))
  }

  ghost predicate SameKind(d: Download, e: Download) {
    e.file == d.file && e.size == d.size && e.mode == d.mode
  }

  // The download goes on as it was, but for its handle.
  ghost predicate Untouched(d: Download, e: Download) {
    SameKind(d, e) && e.input == d.input && e.receiver == d.receiver
  }

  lemma BeginOther(s: State, a: Accepted, created: bool, id: ReqId)
    requires id in s.downloads
    ensures id in Begin(s, a, created).downloads && Untouched(s.downloads[id], Begin(s, a, created).downloads[id])
  {
  }

  lemma GreetOther(s: State, jd: ReqId, input: string, id: ReqId)
    requires Enabled(s, Greets(jd, input)) && id in s.downloads && jd != id
    ensures var t := Next(s, Greets(jd, input)); id in t.downloads && Untouched(s.downloads[id], t.downloads[id])
  {
  }

  lemma ReceiveOther(s: State, jd: ReqId, done: Reception.Completion, id: ReqId)
    requires Enabled(s, Receives(jd, done)) && id in s.downloads && jd != id
    ensures id in Receive(s, jd, done).downloads && Untouched(s.downloads[id], Receive(s, jd, done).downloads[id])
  {
  }

  lemma WorkOther(s: State, probes: map<Token, Probe>, id: ReqId)
    requires id in s.downloads && id in Work(s, probes).downloads
    ensures Untouched(s.downloads[id], Work(s, probes).downloads[id])
  {
  }

  lemma OtherStep(s: State, e: Step, t: State, id: ReqId)
    requires Enabled(s, e) && t == Next(s, e) && id in s.downloads && id in t.downloads
    requires !(e.Receives? && e.id == id) && !(e.Greets? && e.id == id)
    ensures Untouched(s.downloads[id], t.downloads[id])
  {
    match e
    case Begins(a, created) => BeginOther(s, a, created, id);
    case Greets(jd, input) => GreetOther(s, jd, input, id);
    case Receives(jd, done) => ReceiveOther(s, jd, done, id);
    case Works(probes) => WorkOther(s, probes, id);
    case _ => QuietDownloads(s, e);
  }

  lemma QuietDownloads(s: State, e: Step)
    requires Enabled(s, e) && !e.Begins? && !e.Greets? && !e.Receives? && !e.Works?
    ensures Next(s, e).downloads == s.downloads
  {
    match e
    case Asks(c, version, file, offered, probe) => assert Next(s, e) == Ask(s, c, version, file, offered, probe);
    case _ =>
  }

  lemma {:induction false} LosslessSnoc(cfg: Reception.Config, input: string, s: Reception.Receiver,
                                        run: seq<Reception.Completion>, t: Reception.Receiver, c: Reception.Completion)
    requires Reception.LosslessRun(cfg, input, s, run, t)
    requires Reception.Possible(cfg, input, t, c) && Reception.Lossless(cfg, input, t, c)
    ensures Reception.LosslessRun(cfg, input, s, run + [c], Reception.Next(cfg, input, t, c))
    decreases |run|
  {
    if run == [] {
      assert [] + [c] == [c];
    } else {
      LosslessSnoc(cfg, input, Reception.Next(cfg, input, s, run[0]), run[1..], t, c);
      assert (run + [c])[0] == run[0] && (run + [c])[1..] == run[1..] + [c];
    }
  }

  // How a receiver has come to where it is.
  ghost predicate CameBy(s: State, id: ReqId, done: seq<Reception.Completion>)
    requires id in s.downloads
  {
    var cfg, d := Config(s, id), s.downloads[id];
    Reception.LosslessRun(cfg, d.input, Reception.Start(cfg), done, d.receiver)
  }

  lemma ReceiveCame(s: State, id: ReqId, c: Reception.Completion, done: seq<Reception.Completion>)
    requires Enabled(s, Receives(id, c)) && CameBy(s, id, done)
    requires Reception.Lossless(Config(s, id), s.downloads[id].input, s.downloads[id].receiver, c)
    ensures var t := Receive(s, id, c);
            id in t.downloads && SameKind(s.downloads[id], t.downloads[id]) && CameBy(t, id, done + [c])
  {
    var cfg, d := Config(s, id), s.downloads[id];
    LosslessSnoc(cfg, d.input, Reception.Start(cfg), done, d.receiver, c);
  }

  lemma GreetCame(s: State, id: ReqId, input: string)
    requires AgentsOk(s) && Enabled(s, Greets(id, input)) && id in s.downloads
    ensures var t := Next(s, Greets(id, input));
            id in t.downloads && SameKind(s.downloads[id], t.downloads[id]) && CameBy(t, id, [])
  {
    assert ReceiverOk(s.wire, s.downloads[id], id in s.greeted);
  }

  lemma {:induction false} RunCame(s: State, run: seq<Step>, t: State, id: ReqId, done: seq<Reception.Completion>)
    returns (all: seq<Reception.Completion>)
    requires Inv(s) && Run(s, run, t) && Stored(s, run, id) && NothingLost(s, run, id) && CameBy(s, id, done)
    ensures id in t.downloads && SameKind(s.downloads[id], t.downloads[id]) && t.wire == s.wire && CameBy(t, id, all)
    decreases |run|
  {
    if run == [] {
      all := done;
    } else {
      var e, u := run[0], Next(s, run[0]);
      NextKeeps(s, e);
      NextNotices(s, e);
      var now := done;
      if e.Receives? && e.id == id {
        ReceiveCame(s, id, e.done, done);
        now := done + [e.done];
      } else if e.Greets? && e.id == id {
        GreetCame(s, id, e.input);
        now := [];
      } else {
        OtherStep(s, e, u, id);
      }
      all := RunCame(u, run[1..], t, id, now);
    }
  }

  // ---- What arrives ----

  // An approval's transaction is started, and its sender sends a file of the announced size
  // without an error: compressed if the approved mode is zlib, as it is if there is none. If
  // nothing is lost on the way, then, whatever else goes on, the receiver's verdict is success,
  // and the local file, unless it was unlinked, holds exactly that file.
  lemma ApprovedFileArrives(sep: char, wire: Wire, before: seq<Step>, s: State, a: Accepted, between: seq<Step>, t: State,
                            file: string, sending: seq<Delivery.Completion>, sender: Delivery.Sender)
    requires wire.Valid() && Run(Start(sep, wire), before, s)
    requires Enabled(s, Begins(a, true)) && a.id !in s.downloads && a.mode in {NoCompression, Zlib}
    requires Run(Begin(s, a, true), between, t) && t.worker.Reported? && t.worker.id == a.id
    requires Stored(Begin(s, a, true), between, a.id) && NothingLost(Begin(s, a, true), between, a.id)
    requires var mode := if a.mode == Zlib then Delivery.Compressed(wire.codec, wire.width) else Delivery.Stream;
             && Delivery.CleanRun(mode, file, Delivery.START, sending, sender) && sender.pending.CleanedUp?
             && |file| == a.size && (a.mode == Zlib ==> Reception.Faithful(wire.codec))
             && forall i :: 0 <= i < |sender.chunks| ==>
                  Reception.Fits(Reception.Config(mode, wire.capacity, a.size), sender.chunks[i])
    requires a.id in t.downloads && t.downloads[a.id].input == sender.sent
    ensures t.worker.ok && t.worker.file == a.file && t.downloads[a.id].receiver.disk == file
    ensures a.file.owner + a.file.path in t.localFiles ==> t.localFiles[a.file.owner + a.file.path] == file
  {
    StartOk(sep, wire);
    RunFiles(Start(sep, wire), before, s);
    RunWire(Start(sep, wire), before, s);
    var all := TransferReached(s, a, between, t);
    CleanTransferArrives(t, a.id, all, file, sending, sender);
  }

  // Where a transfer in which nothing was lost has come to.
  lemma TransferReached(s: State, a: Accepted, between: seq<Step>, t: State) returns (all: seq<Reception.Completion>)
    requires Inv(s) && FilesOk(s) && Enabled(s, Begins(a, true)) && a.id !in s.downloads
    requires Run(Begin(s, a, true), between, t)
    requires Stored(Begin(s, a, true), between, a.id) && NothingLost(Begin(s, a, true), between, a.id)
    ensures Inv(t) && FilesOk(t) && t.wire == s.wire && a.id in t.downloads && CameBy(t, a.id, all)
    ensures var d := t.downloads[a.id]; d.file == a.file && d.size == a.size && d.mode == a.mode
  {
    var u := Begin(s, a, true);
    NextFiles(s, Begins(a, true));
    NextKeeps(s, Begins(a, true));
    RunFiles(u, between, t);
    all := RunCame(u, between, t, a.id, []);
  }

  lemma CleanTransferArrives(t: State, id: ReqId, all: seq<Reception.Completion>, file: string,
                             sending: seq<Delivery.Completion>, sender: Delivery.Sender)
    requires Inv(t) && FilesOk(t) && id in t.downloads && CameBy(t, id, all) && t.worker.Reported? && t.worker.id == id
    requires var d := t.downloads[id];
             var mode := if d.mode == Zlib then Delivery.Compressed(t.wire.codec, t.wire.width) else Delivery.Stream;
             && d.input == sender.sent && |file| == d.size && (d.mode == Zlib ==> Reception.Faithful(t.wire.codec))
             && Delivery.CleanRun(mode, file, Delivery.START, sending, sender) && sender.pending.CleanedUp?
             && forall i :: 0 <= i < |sender.chunks| ==>
                  Reception.Fits(Reception.Config(mode, t.wire.capacity, d.size), sender.chunks[i])
    ensures var d, name := t.downloads[id], t.downloads[id].file.owner + t.downloads[id].file.path;
            && t.worker.ok && t.worker.file == d.file && d.receiver.disk == file
            && (name in t.localFiles ==> t.localFiles[name] == file)
  {
    assert Holds(t.localFiles, t.downloads[id]);
    Reception.TransferRoundTrip(Config(t, id), file, sending, sender, all, t.downloads[id].receiver);
  }

  lemma {:induction false} RunWire(s: State, run: seq<Step>, t: State)
    requires Inv(s) && Run(s, run, t)
    ensures t.wire == s.wire
    decreases |run|
  {
    if run != [] {
      NextKeeps(s, run[0]);
      NextNotices(s, run[0]);
      RunWire(Next(s, run[0]), run[1..], t);
    }
  }
}
