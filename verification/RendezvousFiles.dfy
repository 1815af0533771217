/** The local file of a download, from its creation to the moment its node is marked cached:
    what it holds then, and whether there still is a node to mark. */
module RendezvousFiles {
  import opened Paths
  import opened PathTree
  import opened Notifications
  import Reception
  import opened Rendezvous
  import opened RendezvousRuns
  import opened RendezvousTheorems
  import opened RendezvousTimers

  // ---- What a file holds while it is written ----

  // A file held open holds what its receiver wrote, unless it was unlinked; no two
  // transactions hold one file open; a receiver's verdict finds its file open.
  ghost predicate FilesOk(s: State) {
    && (forall id {:trigger s.downloads[id]} :: id in s.downloads && s.downloads[id].handleOpen ==>
          Holds(s.localFiles, s.downloads[id]))
    && (forall id, jd {:trigger s.downloads[id], s.downloads[jd]} ::
          id in s.downloads && jd in s.downloads && s.downloads[id].handleOpen && s.downloads[jd].handleOpen && id != jd ==>
          s.downloads[id].file.LocalName() != s.downloads[jd].file.LocalName())
    && (s.worker.Reported? ==> s.worker.id in s.downloads && s.downloads[s.worker.id].handleOpen)
  }

  ghost predicate Holds(files: map<string, string>, d: Download) {
    d.file.LocalName() in files ==> files[d.file.LocalName()] == d.receiver.disk
  }

  lemma BeginFiles(s: State, a: Accepted, created: bool)
    requires AgentsOk(s) && FilesOk(s) && Enabled(s, Begins(a, created))
    ensures FilesOk(Begin(s, a, created))
  {
  }

  lemma ReceiveFiles(s: State, id: ReqId, done: Reception.Completion)
    requires FilesOk(s) && Enabled(s, Receives(id, done)) && s.downloads[id].handleOpen
    ensures FilesOk(Receive(s, id, done))
  {
    assert Holds(s.localFiles, s.downloads[id]);
  }

  lemma WorkFiles(s: State, probes: map<Token, Probe>)
    requires FilesOk(s) && WorkerOk(s)
    ensures FilesOk(Work(s, probes))
  {
  }

  lemma NextFiles(s: State, e: Step)
    requires Inv(s) && FilesOk(s) && Enabled(s, e)
    ensures FilesOk(Next(s, e))
  {
    match e
    case Begins(a, created) => BeginFiles(s, a, created);
    case Receives(id, done) =>
      assert ReceiverOk(s.wire, s.downloads[id], id in s.greeted);
      ReceiveFiles(s, id, done);
    case Works(probes) => WorkFiles(s, probes);
    case Changes(nick, op) => FewerFiles(s, Next(s, e));
    case Leaves(nick, cleaned) => FewerFiles(s, Next(s, e));
    case Greets(id, input) => GreetFiles(s, id, input);
    case _ => QuietFiles(s, e);
  }

  lemma QuietFiles(s: State, e: Step)
    requires FilesOk(s) && Enabled(s, e) && !e.Begins? && !e.Receives? && !e.Works? && !e.Changes? && !e.Leaves? && !e.Greets?
    ensures FilesOk(Next(s, e))
  {
    assert Next(s, e).downloads == s.downloads && Next(s, e).localFiles == s.localFiles;
  }

  lemma GreetFiles(s: State, id: ReqId, input: string)
    requires FilesOk(s) && Enabled(s, Greets(id, input))
    ensures FilesOk(Next(s, Greets(id, input)))
  {
  }

  // Unlinking files.
  lemma FewerFiles(s: State, t: State)
    requires FilesOk(s) && t.downloads == s.downloads && t.worker == s.worker
    requires forall name :: name in t.localFiles ==> name in s.localFiles && t.localFiles[name] == s.localFiles[name]
    ensures FilesOk(t)
  {
  }

  lemma {:induction false} RunFiles(s: State, run: seq<Step>, t: State)
    requires Inv(s) && FilesOk(s) && Run(s, run, t)
    ensures Inv(t) && FilesOk(t)
    decreases |run|
  {
    if run != [] {
      NextFiles(s, run[0]);
      NextKeeps(s, run[0]);
      RunFiles(Next(s, run[0]), run[1..], t);
    }
  }

  // In every run, a file that a transaction holds open, and nobody unlinked, holds exactly
  // what the transaction's receiver wrote.
  lemma OpenFileHolds(sep: char, wire: Wire, run: seq<Step>, t: State, id: ReqId)
    requires wire.Valid() && Run(Start(sep, wire), run, t) && id in t.downloads && t.downloads[id].handleOpen
    requires t.downloads[id].file.LocalName() in t.localFiles
    ensures t.localFiles[t.downloads[id].file.LocalName()] == t.downloads[id].receiver.disk
  {
    StartOk(sep, wire);
    RunFiles(Start(sep, wire), run, t);
  }

  // ---- From the closing of a file to the marking ----

  // The step creates the file of that name anew, or unlinks it.
  ghost predicate Touches(s: State, e: Step, name: string) {
    match e
    case Begins(a, created) => created && a.file.LocalName() == name
    case Changes(nick, op) => nick in s.trees && name in Unlinked(s, nick, op)
    case Leaves(nick, cleaned) => name in LeftBehind(s, nick, cleaned)
    case _ => false
  }

  ghost predicate Touched(s: State, run: seq<Step>, name: string)
    decreases |run|
  {
    run != [] && Enabled(s, run[0]) && (Touches(s, run[0], name) || Touched(Next(s, run[0]), run[1..], name))
  }

  predicate NoWork(run: seq<Step>) {
    forall i :: 0 <= i < |run| ==> !run[i].Works?
  }

  predicate SameFile(a: map<string, string>, b: map<string, string>, name: string) {
    (name in a <==> name in b) && (name in a ==> a[name] == b[name])
  }

  predicate Blank(files: map<string, string>, name: string) {
    name in files ==> files[name] == ""
  }

  // While the download thread is busy, nothing is written: a file stays as it is until it is
  // unlinked or created anew, empty.
  lemma BusyStep(s: State, e: Step, name: string)
    requires Enabled(s, e) && !s.worker.Free? && !e.Works?
    ensures Next(s, e).worker == s.worker
    ensures if Touches(s, e, name) then Blank(Next(s, e).localFiles, name)
            else SameFile(s.localFiles, Next(s, e).localFiles, name)
  {
  }

  // What a file was announced and received as.
  ghost predicate SameTransfer(s: State, t: State, id: ReqId) {
    && id in s.downloads && id in t.downloads && t.downloads[id].receiver == s.downloads[id].receiver
    && t.downloads[id].size == s.downloads[id].size && t.downloads[id].file == s.downloads[id].file
  }

  lemma BusyDownload(s: State, e: Step, id: ReqId)
    requires Enabled(s, e) && !s.worker.Free? && !e.Works? && id in s.downloads
    ensures SameTransfer(s, Next(s, e), id)
  {
    match e
    case Begins(a, created) =>
    case Works(probes) =>
    case _ => assert Next(s, e).downloads == s.downloads;
  }

  lemma {:induction false} BusyRun(s: State, run: seq<Step>, t: State, name: string, id: ReqId)
    requires Run(s, run, t) && !s.worker.Free? && NoWork(run) && id in s.downloads
    ensures t.worker == s.worker && SameTransfer(s, t, id)
    ensures !Touched(s, run, name) ==> SameFile(s.localFiles, t.localFiles, name)
    ensures Touched(s, run, name) || Blank(s.localFiles, name) ==> Blank(t.localFiles, name)
    decreases |run|
  {
    if run != [] {
      assert !run[0].Works? && NoWork(run[1..]);
      BusyStep(s, run[0], name);
      BusyDownload(s, run[0], id);
      BusyRun(Next(s, run[0]), run[1..], t, name, id);
    }
  }

  // r: a receiver has reported success; s: its file has been closed, and its node is about to be
  // marked. The file is there then and holds what was received, of the announced size, if and
  // only if nobody unlinked it before it was closed, and nobody unlinked it or created it anew
  // since; or if nothing was announced and the file is there at all.
  lemma MarkedFileExactly(sep: char, wire: Wire, before: seq<Step>, r: State, between: seq<Step>, s: State)
    requires wire.Valid() && Run(Start(sep, wire), before, r) && r.worker.Reported? && r.worker.ok
    requires Run(Next(r, Works(map[])), between, s) && NoWork(between)
    ensures var id, file := r.worker.id, r.worker.file;
            var name := file.LocalName();
            && s.worker == Shut(id, true, file) && id in s.downloads && s.downloads[id].file == file
            && |s.downloads[id].receiver.disk| == s.downloads[id].size
            && (name in s.localFiles && s.localFiles[name] == s.downloads[id].receiver.disk
                <==> || (name in r.localFiles && !Touched(Next(r, Works(map[])), between, name))
                     || (name in s.localFiles && s.downloads[id].size == 0))
  {
    StartOk(sep, wire);
    RunFiles(Start(sep, wire), before, r);
    var id, name := r.worker.id, r.worker.file.LocalName();
    var u := Next(r, Works(map[]));
    assert Holds(r.localFiles, r.downloads[id]);
    assert ReceiverOk(r.wire, r.downloads[id], true);
    BusyRun(u, between, s, name, id);
  }

  // ---- The node that is marked ----

  // The change takes the path away, as it does everything below.
  predicate Takes(op: Op, k: Path, sep: char) {
    match op
    case AddOp(p) => false
    case RemoveOp(p) => Components(p, sep) <= k
    case RenameOp(p, n) =>
      Components(p, sep) != [] && Components(p, sep) <= k && Last(Components(p, sep)) != Last(Tokens(n, sep))
  }

  lemma TakesExactly(m: Files, op: Op, sep: char, k: Path)
    requires Closed(m.Keys) && OpSucceeds(m, op, sep) && OpOk(m, op, sep) && k in m
    ensures k !in TreeApply(m, op, sep) <==> Takes(op, k, sep)
  {
    match op
    case AddOp(p) =>
    case RemoveOp(p) =>
    case RenameOp(p, n) =>
      var x, name := Components(p, sep), Last(Tokens(n, sep));
      var q := Renamed(x, name);
      if q == x {
        assert Last(x) == name && Rekey(k, x, q) == k;
      } else {
        NothingBelow(m.Keys, q, k);
        RenameRekeys(m, x, name);
      }
  }

  // A step takes a known path from its owner's tree in two ways.
  ghost predicate Loses(s: State, e: Step, file: Wanted) {
    match e
    case Leaves(nick, cleaned) => nick == file.owner
    case Changes(nick, op) => nick == file.owner && Takes(op, Components(file.path, s.sep), s.sep)
    case _ => false
  }

  lemma ChangeLoses(s: State, nick: Nick, op: Op, file: Wanted)
    requires TreesOk(s.trees) && Enabled(s, Changes(nick, op)) && Known(s.trees, file, s.sep)
    ensures Known(s.trees[nick := TreeApply(s.trees[nick], op, s.sep)], file, s.sep) <==> !Loses(s, Changes(nick, op), file)
  {
    if nick == file.owner {
      TakesExactly(s.trees[nick], op, s.sep, Components(file.path, s.sep));
    }
  }

  lemma LosesExactly(s: State, e: Step, file: Wanted)
    requires TreesOk(s.trees) && Enabled(s, e) && Known(s.trees, file, s.sep)
    ensures Known(Next(s, e).trees, file, s.sep) <==> !Loses(s, e, file)
    ensures Next(s, e).sep == s.sep
  {
    match e
    case Changes(nick, op) => ChangeLoses(s, nick, op, file);
    case Works(probes) => if s.worker.Shut? { MarkedKnown(s.trees, s.worker.file, file, s.sep); }
    case Arrives(nick, files) =>
    case Leaves(nick, cleaned) =>
    case _ => QuietTrees(s, e);
  }

  lemma QuietTrees(s: State, e: Step)
    requires Enabled(s, e) && !e.Arrives? && !e.Leaves? && !e.Changes? && !e.Works?
    ensures Next(s, e).trees == s.trees && Next(s, e).sep == s.sep
  {
    match e
    case Asks(c, version, file, offered, probe) => assert Next(s, e) == Ask(s, c, version, file, offered, probe);
    case Receives(id, done) => assert Next(s, e) == Receive(s, id, done);
    case _ =>
  }

  lemma MarkedKnown(trees: map<Nick, Files>, marked: Wanted, file: Wanted, sep: char)
    ensures Known(MarkCached(trees, marked, sep), file, sep) <==> Known(trees, file, sep)
  {
  }

  ghost predicate LostIn(s: State, run: seq<Step>, file: Wanted)
    decreases |run|
  {
    run != [] && Enabled(s, run[0]) && (Loses(s, run[0], file) || LostIn(Next(s, run[0]), run[1..], file))
  }

  lemma {:induction false} KnownUnlessLost(s: State, run: seq<Step>, t: State, file: Wanted)
    requires TreesOk(s.trees) && Run(s, run, t) && Known(s.trees, file, s.sep) && !LostIn(s, run, file)
    ensures Known(t.trees, file, t.sep) && t.sep == s.sep
    decreases |run|
  {
    if run != [] {
      LosesExactly(s, run[0], file);
      NextTrees(s, run[0]);
      KnownUnlessLost(Next(s, run[0]), run[1..], t, file);
    }
  }

  lemma MarkedFlag(trees: map<Nick, Files>, file: Wanted, sep: char)
    requires Known(trees, file, sep)
    ensures var marked := MarkCached(trees, file, sep);
            Known(marked, file, sep) && marked[file.owner][Components(file.path, sep)]
  {
  }

  // From any moment at which the path was known, as it is when its query is accepted, to the
  // marking: the path is found there unless somebody lost it on the way, and gets its flag.
  lemma MarkFindsUnlessLost(sep: char, wire: Wire, before: seq<Step>, s: State, between: seq<Step>, t: State)
    requires wire.Valid() && Run(Start(sep, wire), before, s) && Run(s, between, t) && t.worker.Shut? && t.worker.ok
    requires Known(s.trees, t.worker.file, s.sep) && !LostIn(s, between, t.worker.file)
    ensures MarkFinds(t.trees, t.worker.file, t.sep) && IsCached(Work(t, map[]), t.worker.file)
  {
    StartOk(sep, wire);
    RunKeeps(Start(sep, wire), before, s);
    KnownUnlessLost(s, between, t, t.worker.file);
    MarkedFlag(t.trees, t.worker.file, t.sep);
  }

  // Just before the marking, exactly a change that takes the path away, by its owner who
  // stays, makes the assertion fail; if the owner leaves there is nothing to assert.
  lemma LastChanceToLose(s: State, e: Step)
    requires TreesOk(s.trees) && Enabled(s, e) && !e.Works? && s.worker.Shut? && s.worker.ok
    requires Known(s.trees, s.worker.file, s.sep)
    ensures Next(s, e).worker == s.worker
    ensures MarkFinds(Next(s, e).trees, s.worker.file, s.sep) <==> !(e.Changes? && Loses(s, e, s.worker.file))
  {
    LosesExactly(s, e, s.worker.file);
  }

  // ---- Runs in which it goes wrong ----

  // A transaction whose receiver is to store the one byte it was sent.
  function GotOne(wire: Wire, a: Accepted): Download {
    Fresh(wire, a).(running := true, input := "x", receiver := Reception.Receiver(1, Reception.Storing("x"), "", 0, []))
  }

  lemma OneByteComes(s: State, id: ReqId, a: Accepted) returns (run: seq<Step>, t: State)
    requires s.wire.Valid() && s.worker.Free? && id !in s.greeted && id in s.downloads
    requires s.downloads[id] == Fresh(s.wire, a) && a.mode == NoCompression
    ensures Run(s, run, t)
    ensures t == s.(armed := s.armed - {id}, greeted := s.greeted + {id}, downloads := s.downloads[id := GotOne(s.wire, a)])
  {
    var greet, receive := Greets(id, "x"), Receives(id, Reception.Got(1, true));
    assert Next(s, greet).downloads[id] == Fresh(s.wire, a).(running := true, input := "x");
    TwoSteps(s, greet, receive);
    run, t := [greet, receive], Next(Next(s, greet), receive);
    assert "x"[0..1] == "x" && t.downloads[id] == GotOne(s.wire, a);
  }

  lemma OneByteStays(s: State, id: ReqId, a: Accepted) returns (run: seq<Step>, t: State)
    requires s.wire.Valid() && s.worker.Free? && id in s.downloads
    requires s.downloads[id] == GotOne(s.wire, a) && a.mode == NoCompression && a.size == 1
    ensures Run(s, run, t)
    ensures t == s.(localFiles := t.localFiles, downloads := t.downloads, worker := Reported(id, true, a.file))
    ensures t.downloads.Keys == s.downloads.Keys && t.downloads[id].size == 1
    ensures forall jd :: jd in s.downloads && jd != id ==> t.downloads[jd] == s.downloads[jd]
  {
    var store, finish := Receives(id, Reception.Stored(true)), Receives(id, Reception.Got(0, true));
    var u := Next(s, store);
    assert u.downloads[id].receiver == Reception.Receiver(1, Reception.AwaitBytes(s.wire.capacity), "x", 1, []) by {
      assert "" + "x" == "x";
    }
    TwoSteps(s, store, finish);
    run, t := [store, finish], Next(u, finish);
  }

  // The sender of one byte comes, and its file is closed.
  lemma ArrivesWhole(s: State, id: ReqId, a: Accepted) returns (run: seq<Step>, t: State)
    requires s.wire.Valid() && s.worker.Free? && id !in s.greeted && id in s.downloads
    requires s.downloads[id] == Fresh(s.wire, a) && a.size == 1 && a.mode == NoCompression
    ensures Run(s, run, t) && t.worker == Shut(id, true, a.file) && t.trees == s.trees && t.sep == s.sep
    ensures t.accepted == s.accepted && t.downloads.Keys == s.downloads.Keys && !t.downloads[id].handleOpen
    ensures t.downloads[id].size == 1 && forall jd :: jd in s.downloads && jd != id ==> t.downloads[jd] == s.downloads[jd]
  {
    var first, u := OneByteComes(s, id, a);
    var second, v := OneByteStays(u, id, a);
    RunConcat(s, first, u, second, v);
    RunSnoc(s, first + second, v, Works(map[]));
    run, t := first + second + [Works(map[])], Next(v, Works(map[]));
  }

  // A file is asked for, approved twice, and arrives.
  lemma ArrivedOnce(wire: Wire) returns (run: seq<Step>, s: State)
    requires wire.Valid()
    ensures Run(Start('/', wire), run, s)
    ensures var file := Wanted("u", "/f");
            && s.worker == Shut(2, true, file) && 2 in s.downloads && s.downloads[2].size == 1 && s.sep == '/'
            && Accepted(2, file, 1, NoCompression) in s.accepted && !HeldOpen(s.downloads, file) && Known(s.trees, file, '/')
  {
    var file := Wanted("u", "/f");
    var first, u := FileAsked(wire);
    var second, v := ApprovedTwice(u, 2, 1);
    var third;
    third, s := ArrivesWhole(v, 2, Accepted(2, file, 1, NoCompression));
    RunConcat(Start('/', wire), first, u, second, v);
    RunConcat(Start('/', wire), first + second, v, third, s);
    run := first + second + third;
  }

  // So a node can be marked whose file is empty, though one byte was announced and received:
  // its second approval created the file anew.
  lemma EmptyFileCached(wire: Wire) returns (run: seq<Step>, s: State)
    requires wire.Valid()
    ensures Run(Start('/', wire), run, s) && s.worker.Shut? && s.worker.ok && Known(s.trees, s.worker.file, s.sep)
    ensures s.worker.id in s.downloads && s.downloads[s.worker.id].size == 1
    ensures s.worker.file.LocalName() in s.localFiles && s.localFiles[s.worker.file.LocalName()] == ""
  {
    var first, u := ArrivedOnce(wire);
    var e := Begins(Accepted(2, Wanted("u", "/f"), 1, NoCompression), true);
    RunSnoc(Start('/', wire), first, u, e);
    run, s := first + [e], Next(u, e);
  }

  // And the node can be gone when it is to be marked: the assertion fails.
  lemma MarkMisses(wire: Wire) returns (run: seq<Step>, s: State)
    requires wire.Valid()
    ensures Run(Start('/', wire), run, s) && s.worker.Shut? && s.worker.ok && !MarkFinds(s.trees, s.worker.file, s.sep)
  {
    var first, u := ArrivedOnce(wire);
    var e := Changes("u", RemoveOp("/f"));
    RunSnoc(Start('/', wire), first, u, e);
    run, s := first + [e], Next(u, e);
  }
}
