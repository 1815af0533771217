/** Waiting comes to an end: the server can always finish on its own, and whatever way the
    steps of a waiting list's agent turn out, each brings its end closer. */
module RendezvousProgress {
  import Reception
  import opened Rendezvous
  import opened RendezvousRuns
  import opened RendezvousTheorems

  // ---- The server on its own ----

  // What the server does without any client's help: its own threads and timers go on, a file
  // cannot be created, nothing more comes from a sender, and the disk takes nothing.
  predicate Unaided(e: Step) {
    || e.Works? || e.EntryExpires? || e.Denies? || (e.Begins? && !e.created) || e.TransactionExpires?
    || (e.Receives? && BringsNothing(e.done))
  }

  predicate BringsNothing(done: Reception.Completion) {
    match done
    case GotHeader(bytes) => bytes == 0
    case Got(bytes, failed) => bytes == 0
    case Stored(ok) => !ok
  }

  predicate AllUnaided(run: seq<Step>) {
    forall i :: 0 <= i < |run| ==> Unaided(run[i])
  }

  lemma WorkDrains(s: State, probes: map<Token, Probe>)
    requires WorkerOk(s) && !s.worker.Free?
    ensures var t := Work(s, probes);
            && WorkerOk(t) && Rank(t.worker) < Rank(s.worker) && t.armed == s.armed && t.live == s.live
            && t.wire == s.wire && t.denying == s.denying && t.accepted == s.accepted
            && (t.worker.Free? || t.worker.id == s.worker.id) && t.backup - {s.worker.id} == s.backup - {s.worker.id}
            && (t.worker.Free? ==> s.worker.id !in t.backup && s.worker.id !in t.downloads)
            && (t.worker.Finished? ==> s.worker.id !in t.backup)
            && t.downloads - {s.worker.id} == s.downloads - {s.worker.id}
  {
  }

  lemma WithoutSame<V>(a: map<ReqId, V>, b: map<ReqId, V>, x: ReqId, id: ReqId)
    requires a - {x} == b - {x} && id != x
    ensures (id in a <==> id in b) && (id in a ==> a[id] == b[id])
  {
    assert id in a - {x} <==> id in a;
    assert id in b - {x} <==> id in b;
  }

  // The download thread comes to its end, and empties the waiting list it was after.
  lemma {:induction false} Drains(s: State) returns (run: seq<Step>, t: State)
    requires WorkerOk(s)
    ensures Run(s, run, t) && AllUnaided(run) && |run| <= Rank(s.worker) && t.worker == Free
    ensures t.backup == if s.worker.Free? then s.backup else s.backup - {s.worker.id}
    ensures t.armed == s.armed && t.live == s.live && (s.worker.Free? || s.worker.id !in t.downloads)
    ensures forall id :: id in s.downloads && (s.worker.Free? || id != s.worker.id) ==>
              id in t.downloads && t.downloads[id] == s.downloads[id]
    decreases Rank(s.worker)
  {
    if s.worker.Free? {
      return [], s;
    }
    WorkDrains(s, map[]);
    var next := Work(s, map[]);
    forall id | id in s.downloads && id != s.worker.id ensures id in next.downloads && next.downloads[id] == s.downloads[id] {
      WithoutSame(s.downloads, next.downloads, s.worker.id, id);
    }
    assert Enabled(s, Works(map[])) && Next(s, Works(map[])) == next;
    var rest;
    rest, t := Drains(next);
    run := [Works(map[])] + rest;
    assert run[1..] == rest;
  }

  // Nobody joins or leaves another waiting list.
  ghost predicate ListsKept(a: map<ReqId, DownloadInfo>, b: map<ReqId, DownloadInfo>) {
    forall id {:trigger b[id]} :: id in b ==> id in a && b[id].requests == a[id].requests
  }

  lemma ExpiryResolves(s: State, id: ReqId) returns (run: seq<Step>, t: State)
    requires id in s.backup && s.backup[id].timerArmed
    ensures Run(s, run, t) && AllUnaided(run) && |run| <= 2
    ensures id !in t.backup && t.live == s.live && ListsKept(s.backup, t.backup)
  {
    run, t := [EntryExpires(id), Denies(id)], Next(Next(s, EntryExpires(id)), Denies(id));
    TwoSteps(s, EntryExpires(id), Denies(id));
  }

  lemma RefusalResolves(s: State, a: Accepted) returns (run: seq<Step>, t: State)
    requires a in s.accepted
    ensures Run(s, run, t) && AllUnaided(run) && |run| <= 2
    ensures a.id !in t.backup && t.live == s.live && ListsKept(s.backup, t.backup)
  {
    run, t := [Begins(a, false), Denies(a.id)], Next(Next(s, Begins(a, false)), Denies(a.id));
    TwoSteps(s, Begins(a, false), Denies(a.id));
  }

  lemma DenialResolves(s: State, id: ReqId) returns (run: seq<Step>, t: State)
    requires id in s.denying
    ensures Run(s, run, t) && AllUnaided(run) && |run| <= 2
    ensures id !in t.backup && t.live == s.live && ListsKept(s.backup, t.backup)
  {
    run, t := [Denies(id)], Next(s, Denies(id));
    StepOf(s, Denies(id));
  }

  // The completion that ends a receiver's pending operation with nothing.
  function Nothing(r: Reception.Receiver): Reception.Completion {
    match r.pending
    case AwaitHeader => Reception.GotHeader(0)
    case AwaitBytes(want) => Reception.Got(0, want > 0)
    case _ => Reception.Stored(false)
  }

  lemma NothingReports(cfg: Reception.Config, input: string, r: Reception.Receiver)
    requires cfg.Valid() && Reception.Inv(cfg, input, r) && !r.pending.Reported?
    ensures Reception.Possible(cfg, input, r, Nothing(r)) && BringsNothing(Nothing(r))
    ensures var u := Reception.Next(cfg, input, r, Nothing(r));
            u.pending.Reported? || (r.pending.AwaitBytes? && u.pending.Storing?)
  {
  }

  lemma ConfigValid(s: State, id: ReqId)
    requires s.wire.Valid() && id in s.downloads
    ensures Config(s, id).Valid()
  {
  }

  // A receiver that gets nothing more reports within two steps.
  lemma BreaksOff(s: State, id: ReqId) returns (run: seq<Step>, t: State)
    requires Inv(s) && Running(s, id)
    ensures Run(s, run, t) && AllUnaided(run) && |run| <= 2 && !t.worker.Free? && !t.worker.Finished? && t.worker.id == id
    ensures Inv(t) && t.backup == s.backup && t.live == s.live
  {
    var d := s.downloads[id];
    ConfigValid(s, id);
    NothingReports(Config(s, id), d.input, d.receiver);
    var e := Receives(id, Nothing(d.receiver));
    run, t := [e], Next(s, e);
    NextKeeps(s, e);
    StepOf(s, e);
    if t.worker.Free? {
      var f := Receives(id, Reception.Stored(false));
      var u := Next(t, f);
      NextKeeps(t, f);
      TwoSteps(s, e, f);
      run, t := [e, f], u;
    }
  }

  lemma TimesOut(s: State, id: ReqId) returns (run: seq<Step>, t: State)
    requires Inv(s) && Enabled(s, TransactionExpires(id))
    ensures Run(s, run, t) && AllUnaided(run) && |run| <= 2 && !t.worker.Free? && !t.worker.Finished? && t.worker.id == id
    ensures Inv(t) && t.backup == s.backup && t.live == s.live
  {
    run, t := [TransactionExpires(id)], Next(s, TransactionExpires(id));
    NextKeeps(s, TransactionExpires(id));
    StepOf(s, TransactionExpires(id));
  }

  lemma ThreadResolves(s: State, id: ReqId) returns (run: seq<Step>, t: State)
    requires Inv(s) && s.worker.Free? && id in s.downloads && (id in s.armed || s.downloads[id].running)
    ensures Run(s, run, t) && AllUnaided(run) && |run| <= 6
    ensures id !in t.backup && t.live == s.live && ListsKept(s.backup, t.backup)
  {
    var first, u;
    if s.downloads[id].running {
      first, u := BreaksOff(s, id);
    } else {
      first, u := TimesOut(s, id);
    }
    var rest;
    rest, t := Drains(u);
    run := first + rest;
    RunConcat(s, first, u, rest, t);
  }

  lemma DrainedResolves(s: State, id: ReqId) returns (run: seq<Step>, t: State)
    requires Inv(s) && id in s.backup
    requires (id in s.downloads && (id in s.armed || s.downloads[id].running)) || (!s.worker.Free? && s.worker.id == id)
    ensures Run(s, run, t) && AllUnaided(run) && |run| <= 10
    ensures id !in t.backup && t.live == s.live && ListsKept(s.backup, t.backup)
  {
    var first, u := Drains(s);
    if id !in u.backup {
      return first, u;
    }
    RunKeeps(s, first, u);
    var last;
    last, t := ThreadResolves(u, id);
    run := first + last;
    RunConcat(s, first, u, last, t);
  }

  // Whatever state the server is in, a timer that runs out, a file that cannot be created or
  // a sender's connection that breaks lets its own threads empty the list within ten steps.
  lemma Resolves(s: State, id: ReqId) returns (run: seq<Step>, t: State)
    requires Inv(s) && id in s.backup
    ensures Run(s, run, t) && AllUnaided(run) && |run| <= 10
    ensures id !in t.backup && t.live == s.live && ListsKept(s.backup, t.backup)
  {
    assert Tended(s, id);
    if s.backup[id].timerArmed {
      run, t := ExpiryResolves(s, id);
    } else if Approving(s.accepted, id) {
      var a :| a in s.accepted && a.id == id;
      run, t := RefusalResolves(s, a);
    } else if id in s.denying {
      run, t := DenialResolves(s, id);
    } else {
      run, t := DrainedResolves(s, id);
    }
  }

  // Nobody waits for ever: from every reachable state the server can, on its own, go on to
  // where the waiter has its answer.
  lemma WaiterCanBeAnswered(sep: char, wire: Wire, run: seq<Step>, s: State, token: Token, id: ReqId, i: nat)
    returns (more: seq<Step>, t: State)
    requires wire.Valid() && Run(Start(sep, wire), run, s) && WaitsAt(s.backup, token, id, i) && token < |s.queries|
    requires s.queries[token].conn in s.live
    ensures Run(s, more, t) && AllUnaided(more) && |more| <= 10
    ensures exists k :: AnsweredAt(t.sent, token, k)
  {
    StartOk(sep, wire);
    RunKeeps(Start(sep, wire), run, s);
    more, t := Resolves(s, id);
    RunConcat(Start(sep, wire), run, s, more, t);
    AnswersStay(s, more, t);
    AnsweredExactlyOnce(sep, wire, run, s, token);
    AnsweredExactlyOnce(sep, wire, run + more, t, token);
    forall jd, j | WaitsAt(t.backup, token, jd, j) ensures false {
      assert WaitsAt(s.backup, token, jd, j);
    }
  }

  // ---- Every outcome brings the end closer ----

  // How far a waiting list is from its end, by the agent that is nearest to emptying it.
  ghost function Distance(s: State, id: ReqId): (nat, int) {
    if id in s.denying then (0, 0)
    else if Busy(s.worker, id) then (1, Rank(s.worker))
    else if id in s.downloads && s.downloads[id].running then
      (2, Reception.Remaining(Config(s, id), s.downloads[id].input, s.downloads[id].receiver))
    else if id in s.downloads && id in s.armed then (3, 0)
    else if Approving(s.accepted, id) then (4, 0)
    else (5, 0)
  }

  // The download thread is on its way to the list of id.
  predicate Busy(w: Worker, id: ReqId) {
    !w.Free? && !w.Finished? && w.id == id
  }

  predicate Closer(a: (nat, int), b: (nat, int)) {
    a.0 < b.0 || (a.0 == b.0 && a.1 < b.1)
  }

  // The list of id is emptied, or its end is closer.
  ghost predicate Nearer(s: State, t: State, id: ReqId) {
    id !in t.backup || Closer(Distance(t, id), Distance(s, id))
  }

  // A step, with any outcome, of the agent that is nearest to emptying the list of id.
  ghost predicate Advances(s: State, id: ReqId, e: Step) {
    match Distance(s, id).0
    case 0 => e == Denies(id)
    case 1 => e.Works?
    case 2 => e.Receives? && e.id == id
    case 3 => (e.TransactionExpires? || e.Greets?) && e.id == id
    case 4 => e.Begins? && e.a.id == id
    case _ => e == EntryExpires(id)
  }

  lemma ReceiveCloses(s: State, id: ReqId, done: Reception.Completion)
    requires Inv(s) && Enabled(s, Receives(id, done)) && id in s.backup && Distance(s, id).0 == 2
    ensures Nearer(s, Receive(s, id, done), id)
  {
    var d := s.downloads[id];
    ConfigValid(s, id);
    Reception.StepRemains(Config(s, id), d.input, d.receiver, done);
  }

  lemma WorkCloses(s: State, id: ReqId, probes: map<Token, Probe>)
    requires WorkerOk(s) && Distance(s, id).0 == 1
    ensures Nearer(s, Work(s, probes), id)
  {
    WorkDrains(s, probes);
  }

  lemma BeginCloses(s: State, a: Accepted, created: bool)
    requires Enabled(s, Begins(a, created)) && Distance(s, a.id).0 == 4
    ensures Nearer(s, Begin(s, a, created), a.id)
  {
    var t := Begin(s, a, created);
    assert created ==> a.id in t.downloads && a.id in t.armed;
  }

  lemma TransactionExpiryCloses(s: State, id: ReqId)
    requires Enabled(s, TransactionExpires(id)) && Distance(s, id).0 == 3
    ensures Nearer(s, Next(s, TransactionExpires(id)), id)
  {
  }

  lemma ExpiryCloses(s: State, id: ReqId)
    requires Enabled(s, EntryExpires(id)) && Distance(s, id).0 == 5
    ensures Nearer(s, Next(s, EntryExpires(id)), id)
  {
  }

  lemma GreetCloses(s: State, id: ReqId, input: string)
    requires Enabled(s, Greets(id, input)) && Distance(s, id).0 == 3
    ensures Nearer(s, Next(s, Greets(id, input)), id)
  {
  }

  lemma DistantCloses(s: State, id: ReqId, e: Step)
    requires Enabled(s, e) && Advances(s, id, e) && Distance(s, id).0 >= 3
    ensures Nearer(s, Next(s, e), id)
  {
    var stage := Distance(s, id).0;
    if stage == 4 {
      BeginCloses(s, e.a, e.created);
    } else if stage == 5 {
      ExpiryCloses(s, id);
    } else if e.Greets? {
      GreetCloses(s, id, e.input);
    } else {
      TransactionExpiryCloses(s, id);
    }
  }

  // Every outcome of a step of the nearest agent empties the list or brings its end closer.
  lemma AdvancesCloses(s: State, id: ReqId, e: Step)
    requires Inv(s) && Enabled(s, e) && id in s.backup && Advances(s, id, e)
    ensures Nearer(s, Next(s, e), id)
  {
    var stage := Distance(s, id).0;
    if stage == 0 {
      assert e == Denies(id);
    } else if stage == 1 {
      WorkCloses(s, id, e.probes);
    } else if stage == 2 {
      ReceiveCloses(s, id, e.done);
    } else {
      DistantCloses(s, id, e);
    }
  }

  // What Distance looks at.
  ghost predicate SameSigns(s: State, t: State, id: ReqId) {
    && t.wire == s.wire && (id in t.denying <==> id in s.denying)
    && (t.worker == s.worker || (!Busy(t.worker, id) && !Busy(s.worker, id)))
    && (id in t.downloads <==> id in s.downloads) && (id in s.downloads ==> t.downloads[id] == s.downloads[id])
    && (id in t.armed <==> id in s.armed) && (Approving(t.accepted, id) <==> Approving(s.accepted, id))
  }

  lemma SameDistance(s: State, t: State, id: ReqId)
    requires SameSigns(s, t, id)
    ensures Distance(t, id) == Distance(s, id)
  {
  }

  lemma AcceptNotFarther(s: State, id: ReqId, jd: ReqId, size: nat, offered: seq<Compression>)
    ensures !Closer(Distance(s, id), Distance(Accept(s, jd, size, offered), id))
  {
    var t := Accept(s, jd, size, offered);
    assert s.accepted <= t.accepted;
    if Approving(s.accepted, id) {
      var a :| a in s.accepted && a.id == id;
      assert a in t.accepted;
    }
  }

  lemma BeginNotFarther(s: State, id: ReqId, a: Accepted, created: bool)
    requires AgentsOk(s) && Enabled(s, Begins(a, created)) && !(Distance(s, id).0 == 4 && a.id == id)
    ensures !Closer(Distance(s, id), Distance(Begin(s, a, created), id))
  {
    var t := Begin(s, a, created);
    if a.id != id {
      if Approving(s.accepted, id) { OthersApprove(s.accepted, a, id); }
      SameDistance(s, t, id);
    }
  }

  lemma OthersApprove(accepted: multiset<Accepted>, a: Accepted, id: ReqId)
    requires Approving(accepted, id) && a.id != id
    ensures Approving(accepted - multiset{a}, id)
  {
    var b :| b in accepted && b.id == id;
    assert b in accepted - multiset{a};
  }

  lemma ReceiveNotFarther(s: State, id: ReqId, jd: ReqId, done: Reception.Completion)
    requires Inv(s) && Enabled(s, Receives(jd, done)) && id in s.backup && !(Distance(s, id).0 == 2 && jd == id)
    ensures !Closer(Distance(s, id), Distance(Receive(s, jd, done), id))
  {
  }

  lemma WorkNotFarther(s: State, id: ReqId, probes: map<Token, Probe>)
    requires Inv(s) && !s.worker.Free? && id in s.backup && id in Work(s, probes).backup && Distance(s, id).0 != 1
    ensures !Closer(Distance(s, id), Distance(Work(s, probes), id))
  {
    WorkDrains(s, probes);
    if id !in s.denying {
      WithoutSame(s.downloads, Work(s, probes).downloads, s.worker.id, id);
      SameDistance(s, Work(s, probes), id);
    }
  }

  lemma ExpiryNotFarther(s: State, id: ReqId, jd: ReqId)
    requires Enabled(s, EntryExpires(jd))
    ensures !Closer(Distance(s, id), Distance(Next(s, EntryExpires(jd)), id))
  {
  }

  lemma DenyNotFarther(s: State, id: ReqId, jd: ReqId)
    requires Enabled(s, Denies(jd)) && jd != id
    ensures !Closer(Distance(s, id), Distance(Next(s, Denies(jd)), id))
  {
    SameDistance(s, Next(s, Denies(jd)), id);
  }

  lemma GreetNotFarther(s: State, id: ReqId, jd: ReqId, input: string)
    requires AgentsOk(s) && Enabled(s, Greets(jd, input))
    ensures !Closer(Distance(s, id), Distance(Next(s, Greets(jd, input)), id))
  {
  }

  lemma TransactionExpiryNotFarther(s: State, id: ReqId, jd: ReqId)
    requires AgentsOk(s) && Enabled(s, TransactionExpires(jd))
    ensures !Closer(Distance(s, id), Distance(Next(s, TransactionExpires(jd)), id))
  {
  }

  // No step at all, of whomever, takes it farther.
  lemma NeverFarther(s: State, id: ReqId, e: Step)
    requires Inv(s) && Enabled(s, e) && id in s.backup && id in Next(s, e).backup
    ensures !Closer(Distance(s, id), Distance(Next(s, e), id))
  {
    if Advances(s, id, e) {
      AdvancesCloses(s, id, e);
    } else {
      OthersNotFarther(s, id, e);
    }
  }

  ghost predicate NotNearest(s: State, id: ReqId, e: Step) {
    match e
    case Begins(a, created) => !(Distance(s, id).0 == 4 && a.id == id)
    case Denies(jd) => jd != id
    case Receives(jd, done) => !(Distance(s, id).0 == 2 && jd == id)
    case Works(probes) => Distance(s, id).0 != 1
    case _ => true
  }

  // A step that another agent, or nobody's agent, takes.
  lemma OthersNotFarther(s: State, id: ReqId, e: Step)
    requires Inv(s) && Enabled(s, e) && id in s.backup && id in Next(s, e).backup && NotNearest(s, id, e)
    ensures !Closer(Distance(s, id), Distance(Next(s, e), id))
  {
    if e.Begins? {
      BeginNotFarther(s, id, e.a, e.created);
    } else if e.Denies? {
      DenyNotFarther(s, id, e.id);
    } else if e.Receives? {
      ReceiveNotFarther(s, id, e.id, e.done);
    } else if e.Works? {
      WorkNotFarther(s, id, e.probes);
    } else {
      RestNotFarther(s, id, e);
    }
  }

  lemma RestNotFarther(s: State, id: ReqId, e: Step)
    requires AgentsOk(s) && EntriesOk(s.backup, s.asked, s.lastId) && Enabled(s, e)
    requires !e.Begins? && !e.Denies? && !e.Receives? && !e.Works?
    ensures !Closer(Distance(s, id), Distance(Next(s, e), id))
  {
    if e.Asks? {
      AsksMore(s, e.c, e.version, e.file, e.offered, e.probe);
      SameDistance(s, Next(s, e), id);
    } else if e.Accepts? {
      AcceptNotFarther(s, id, e.id, e.size, e.offered);
    } else if e.EntryExpires? {
      ExpiryNotFarther(s, id, e.id);
    } else if e.Greets? {
      GreetNotFarther(s, id, e.id, e.input);
    } else if e.TransactionExpires? {
      TransactionExpiryNotFarther(s, id, e.id);
    } else {
      SameDistance(s, Next(s, e), id);
    }
  }

  // The nearest agent can always take its step, unless it needs the download thread and that
  // is still at work on another transaction, which it always finishes.
  lemma AgentReady(s: State, id: ReqId) returns (e: Step)
    requires Inv(s) && id in s.backup && (s.worker.Free? || Distance(s, id).0 !in {2, 3})
    ensures Enabled(s, e) && Advances(s, id, e)
  {
    assert Tended(s, id);
    match Distance(s, id).0
    case 0 => e := Denies(id);
    case 1 => e := Works(map[]);
    case 2 =>
      var d := s.downloads[id];
      ConfigValid(s, id);
      NothingReports(Config(s, id), d.input, d.receiver);
      e := Receives(id, Nothing(d.receiver));
    case 3 => e := TransactionExpires(id);
    case 4 =>
      var a :| a in s.accepted && a.id == id;
      e := Begins(a, false);
    case _ => e := EntryExpires(id);
  }

  // ---- Over a run ----

  // The run holds a step of the agent that is nearest when the step is taken.
  ghost predicate AdvancesIn(s: State, run: seq<Step>, id: ReqId)
    decreases |run|
  {
    run != [] && Enabled(s, run[0]) && (Advances(s, id, run[0]) || AdvancesIn(Next(s, run[0]), run[1..], id))
  }

  lemma {:induction false} StaysGone(s: State, run: seq<Step>, t: State, id: ReqId)
    requires Inv(s) && Run(s, run, t) && id !in s.backup && id in s.asked
    ensures id !in t.backup
    decreases |run|
  {
    if run != [] {
      NextKeeps(s, run[0]);
      StepStaysGone(s, run[0], id);
      StaysGone(Next(s, run[0]), run[1..], t, id);
    }
  }

  // IDs are only ever asked for once.
  lemma StepStaysGone(s: State, e: Step, id: ReqId)
    requires EntriesOk(s.backup, s.asked, s.lastId) && Enabled(s, e) && id in s.asked
    ensures id in Next(s, e).asked && (id !in s.backup ==> id !in Next(s, e).backup)
  {
    match e
    case Asks(c, version, file, offered, probe) => AsksMore(s, c, version, file, offered, probe);
    case _ =>
  }

  // The measure cannot shrink for ever.
  lemma DistanceBounded(s: State, id: ReqId)
    requires Inv(s) && id in s.backup
    ensures 0 <= Distance(s, id).0 <= 5 && 0 <= Distance(s, id).1
  {
  }

  // As long as a list is there, no run takes it farther from its end, and every run in which
  // its nearest agent takes a step brings it strictly closer, by a measure that is bounded below.
  lemma {:induction false} RunBringsCloser(s: State, run: seq<Step>, t: State, id: ReqId)
    requires Inv(s) && Run(s, run, t) && id in s.backup && id in t.backup
    ensures 0 <= Distance(t, id).1 && !Closer(Distance(s, id), Distance(t, id))
    ensures AdvancesIn(s, run, id) ==> Closer(Distance(t, id), Distance(s, id))
    decreases |run|
  {
    if run == [] {
      DistanceBounded(s, id);
    } else {
      var u := Next(s, run[0]);
      NextKeeps(s, run[0]);
      if id !in u.backup {
        StepStaysGone(s, run[0], id);
        StaysGone(u, run[1..], t, id);
      } else {
        NeverFarther(s, id, run[0]);
        if Advances(s, id, run[0]) { AdvancesCloses(s, id, run[0]); }
        RunBringsCloser(u, run[1..], t, id);
      }
    }
  }
}
