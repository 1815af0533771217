/** The end of a transaction finds it, unless a second approval has started its timer again. */
module RendezvousTimers {
  import opened Paths
  import opened PathTree
  import Reception
  import opened Rendezvous
  import opened RendezvousRuns
  import opened RendezvousProgress

  // Armed timers belong to stored transactions, and the one being completed has no timer.
  ghost predicate TimersOk(downloads: map<ReqId, Download>, armed: set<ReqId>, worker: Worker) {
    && armed <= downloads.Keys
    && (forall id {:trigger downloads[id]} :: id in downloads && !downloads[id].handleOpen ==>
          !worker.Free? && worker.id == id)
    && (!worker.Free? ==> worker.id in downloads && worker.id !in armed)
  }

  // A second approval whose file could be created again although its transaction is still stored.
  predicate Restarts(s: State, e: Step) {
    e.Begins? && e.created && e.a.id in s.downloads
  }

  // Such an approval is the one step that leaves the end of a transaction without it.
  lemma TimersOkUnlessRestarted(s: State, e: Step)
    requires Inv(s) && TimersOk(s.downloads, s.armed, s.worker) && Enabled(s, e)
    ensures var t := Next(s, e); TimersOk(t.downloads, t.armed, t.worker) <==> !Restarts(s, e)
  {
    match e
    case Begins(a, created) => RestartedTimers(s, a, created);
    case Works(probes) => WorkTimers(s, probes);
    case Asks(c, version, file, offered, probe) => AsksMore(s, c, version, file, offered, probe);
    case Receives(id, done) => ReceivedTimers(s, id, done);
    case Greets(id, input) => GreetedTimers(s, id, input);
    case _ =>
  }

  lemma ReceivedTimers(s: State, id: ReqId, done: Reception.Completion)
    requires AgentsOk(s) && TimersOk(s.downloads, s.armed, s.worker) && Enabled(s, Receives(id, done))
    ensures var t := Receive(s, id, done); TimersOk(t.downloads, t.armed, t.worker)
  {
  }

  lemma GreetedTimers(s: State, id: ReqId, input: string)
    requires TimersOk(s.downloads, s.armed, s.worker) && Enabled(s, Greets(id, input))
    ensures var t := Next(s, Greets(id, input)); TimersOk(t.downloads, t.armed, t.worker)
  {
  }

  lemma RestartedTimers(s: State, a: Accepted, created: bool)
    requires AgentsOk(s) && TimersOk(s.downloads, s.armed, s.worker) && Enabled(s, Begins(a, created))
    ensures var t := Begin(s, a, created);
            TimersOk(t.downloads, t.armed, t.worker) <==> !(created && a.id in s.downloads)
  {
  }

  lemma WorkTimers(s: State, probes: map<Token, Probe>)
    requires TimersOk(s.downloads, s.armed, s.worker)
    ensures var t := Work(s, probes); TimersOk(t.downloads, t.armed, t.worker)
  {
    var t := Work(s, probes);
    if s.worker.Free? {
      return;
    }
    ClosingTimers(s.downloads, s.armed, s.worker, t.worker);
  }

  lemma ClosingTimers(downloads: map<ReqId, Download>, armed: set<ReqId>, worker: Worker, next: Worker)
    requires TimersOk(downloads, armed, worker) && !worker.Free?
    ensures next.Free? ==> TimersOk(downloads - {worker.id}, armed, next)
    ensures !next.Free? && next.id == worker.id ==>
              TimersOk(downloads, armed, next) && TimersOk(CloseDownload(downloads, worker.id), armed, next)
  {
  }

  // After it the thread is at work on that very transaction, and its timer runs.
  lemma RestartArms(s: State, e: Step)
    requires Inv(s) && TimersOk(s.downloads, s.armed, s.worker) && Enabled(s, e) && Restarts(s, e)
    ensures var t := Next(s, e); !t.worker.Free? && t.worker.id == e.a.id && t.worker.id in t.armed
  {
    assert s.downloads[e.a.id].file == e.a.file && !s.downloads[e.a.id].handleOpen;
  }

  lemma ExpiryEnds(s: State, id: ReqId) returns (run: seq<Step>, t: State)
    requires s.worker.Free? && id in s.armed && id !in s.downloads
    ensures Run(s, run, t) && AllUnaided(run) && t.worker == Finished(id) && id !in t.downloads
  {
    var e, f := TransactionExpires(id), Works(map[]);
    t := Next(Next(s, e), f);
    TwoSteps(s, e, f);
    run := [e, f];
  }

  // The timer then outlives its transaction, and the assertion that ends it fails.
  lemma RestartFails(s: State) returns (run: seq<Step>, t: State)
    requires Inv(s) && !s.worker.Free? && s.worker.id in s.armed
    ensures Run(s, run, t) && AllUnaided(run) && t.worker == Finished(s.worker.id) && s.worker.id !in t.downloads
  {
    var id := s.worker.id;
    var first, u := Drains(s);
    var last;
    last, t := ExpiryEnds(u, id);
    run := first + last;
    RunConcat(s, first, u, last, t);
  }

  ghost predicate NoRestart(s: State, run: seq<Step>)
    decreases |run|
  {
    run == [] || (Enabled(s, run[0]) && !Restarts(s, run[0]) && NoRestart(Next(s, run[0]), run[1..]))
  }

  lemma {:induction false} TimersKept(s: State, run: seq<Step>, t: State)
    requires Inv(s) && TimersOk(s.downloads, s.armed, s.worker) && Run(s, run, t) && NoRestart(s, run)
    ensures Inv(t) && TimersOk(t.downloads, t.armed, t.worker)
    decreases |run|
  {
    if run != [] {
      TimersOkUnlessRestarted(s, run[0]);
      NextKeeps(s, run[0]);
      TimersKept(Next(s, run[0]), run[1..], t);
    }
  }

  // In every run without a restart, the end of a transaction finds it.
  lemma EndFindsTransaction(sep: char, wire: Wire, run: seq<Step>, t: State)
    requires wire.Valid() && Run(Start(sep, wire), run, t) && NoRestart(Start(sep, wire), run)
    ensures t.worker.Finished? ==> t.worker.id in t.downloads
    ensures t.armed <= t.downloads.Keys
  {
    StartOk(sep, wire);
    TimersKept(Start(sep, wire), run, t);
  }

  // The first restart of any run lets the server go on, on its own, to where the end of that
  // transaction does not find it. So all continuations of a run are safe only without one.
  lemma RestartIsFatal(sep: char, wire: Wire, run: seq<Step>, s: State, e: Step)
    returns (more: seq<Step>, t: State)
    requires wire.Valid() && Run(Start(sep, wire), run, s) && NoRestart(Start(sep, wire), run)
    requires Enabled(s, e) && Restarts(s, e)
    ensures Run(Start(sep, wire), run + [e] + more, t) && AllUnaided(more)
    ensures t.worker == Finished(e.a.id) && e.a.id !in t.downloads
  {
    StartOk(sep, wire);
    TimersKept(Start(sep, wire), run, s);
    RestartArms(s, e);
    NextKeeps(s, e);
    StepOf(s, e);
    RunConcat(Start(sep, wire), run, s, [e], Next(s, e));
    more, t := RestartFails(Next(s, e));
    RunConcat(Start(sep, wire), run + [e], Next(s, e), more, t);
  }

  // ---- A run with a restart ----

  lemma RunSnoc(s: State, run: seq<Step>, t: State, e: Step)
    requires Run(s, run, t) && Enabled(t, e)
    ensures Run(s, run + [e], Next(t, e))
  {
    StepOf(t, e);
    RunConcat(s, run, t, [e], Next(t, e));
  }

  // Two approvals of an announced size, of which the first starts a transaction.
  lemma ApprovedTwice(s: State, id: ReqId, size: nat) returns (run: seq<Step>, t: State)
    requires id in s.backup && id !in s.downloads && !HeldOpen(s.downloads, s.backup[id].file)
    ensures Run(s, run, t) && t.wire == s.wire && t.worker == s.worker && t.greeted == s.greeted && t.trees == s.trees
    ensures var a := Accepted(id, s.backup[id].file, size, NoCompression);
            && a in t.accepted && t.downloads == s.downloads[id := Fresh(s.wire, a)]
            && t.localFiles == s.localFiles[a.file.LocalName() := ""] && t.sep == s.sep
  {
    var a := Accepted(id, s.backup[id].file, size, NoCompression);
    var accept, begin := Accepts(id, size, []), Begins(a, true);
    var s1 := Next(s, accept);
    assert a in s1.accepted;
    TwoSteps(s, accept, begin);
    var s2 := Next(s1, begin);
    RunSnoc(s, [accept, begin], s2, accept);
    run, t := [accept, begin] + [accept], Next(s2, accept);
  }

  // The sender comes, sends nothing, and the transaction is closed but not ended.
  lemma ArrivesEmpty(s: State, id: ReqId, a: Accepted) returns (run: seq<Step>, t: State)
    requires s.wire.Valid() && s.worker.Free? && id !in s.greeted && id in s.downloads
    requires s.downloads[id] == Fresh(s.wire, a) && a.size == 0 && a.mode == NoCompression
    ensures Run(s, run, t) && !t.worker.Free? && t.worker.id == id
    ensures t.accepted == s.accepted && t.downloads.Keys == s.downloads.Keys
    ensures !t.downloads[id].handleOpen && forall jd :: jd in s.downloads && jd != id ==> t.downloads[jd] == s.downloads[jd]
  {
    var greet, receive := Greets(id, ""), Receives(id, Reception.Got(0, true));
    var s1 := Next(s, greet);
    TwoSteps(s, greet, receive);
    var s2 := Next(s1, receive);
    RunSnoc(s, [greet, receive], s2, Works(map[]));
    run, t := [greet, receive] + [Works(map[])], Next(s2, Works(map[]));
  }

  // Wherever a request waits for a file nobody writes to, a second approval can find the
  // transaction closed but not ended: a restart.
  lemma RestartPossible(s: State, id: ReqId) returns (run: seq<Step>, t: State, e: Step)
    requires s.wire.Valid() && s.worker.Free? && id in s.backup && id !in s.downloads && id !in s.greeted
    requires !HeldOpen(s.downloads, s.backup[id].file)
    ensures Run(s, run, t) && Enabled(t, e) && Restarts(t, e) && !t.worker.Free? && t.worker.id == e.a.id
  {
    var a := Accepted(id, s.backup[id].file, 0, NoCompression);
    var first, u := ApprovedTwice(s, id, 0);
    var rest;
    rest, t := ArrivesEmpty(u, id, a);
    RunConcat(s, first, u, rest, t);
    run, e := first + rest, Begins(a, true);
    assert !HeldOpen(t.downloads, a.file) by {
      assert forall jd :: jd in s.downloads && s.downloads[jd].handleOpen ==>
        s.downloads[jd].file.LocalName() != a.file.LocalName();
    }
  }

  // A user connects, another has a file, and it is asked for.
  lemma FileAsked(wire: Wire) returns (run: seq<Step>, s: State)
    requires wire.Valid()
    ensures Run(Start('/', wire), run, s)
    ensures s.wire == wire && s.worker.Free? && 2 in s.backup && s.downloads == map[] && s.greeted == {} && s.sep == '/'
    ensures s.backup[2].file == Wanted("u", "/f") && Known(s.trees, s.backup[2].file, '/')
  {
    var file, k := Wanted("u", "/f"), ["f"];
    assert Canonical(k, '/') == "/f" by { assert Canonical(k[1..], '/') == []; }
    ComponentsOfCanonical(k, '/');
    var files: Files := map[k := false];
    var s0, arrive, ask := Start('/', wire), Arrives("u", files), Asks(0, Sslv23, file, [], Probe(0, false, 0, false, false));
    var s1 := Next(s0, Connects);
    TwoSteps(s0, Connects, arrive);
    var s2 := Next(s1, arrive);
    assert Known(s2.trees, file, '/') && !s2.trees["u"][Components("/f", '/')];
    RunSnoc(s0, [Connects, arrive], s2, ask);
    run, s := [Connects, arrive] + [ask], Next(s2, ask);
  }

  // So the assertion does fail in runs from the start: the end of a transaction finds none.
  lemma EndMissesTransaction(wire: Wire) returns (run: seq<Step>, t: State)
    requires wire.Valid()
    ensures Run(Start('/', wire), run, t) && t.worker.Finished? && t.worker.id !in t.downloads
  {
    var s0 := Start('/', wire);
    var first, s := FileAsked(wire);
    var second, u, e := RestartPossible(s, 2);
    RunConcat(s0, first, s, second, u);
    RunSnoc(s0, first + second, u, e);
    StartOk('/', wire);
    RunKeeps(s0, first + second + [e], Next(u, e));
    var rest;
    rest, t := RestartFails(Next(u, e));
    RunConcat(s0, first + second + [e], Next(u, e), rest, t);
    run := first + second + [e] + rest;
  }
}
