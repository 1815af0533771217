/** Beginning uploads on several threads. The counter is read three times: for the clean-up
    handler and for the answer without the lock, and under it for the key the transaction is
    stored by. Threads may store in between. */
module UploadRace {
  import Rendezvous

  type UpId = Rendezvous.UpId
  type Thread = nat

  // What a thread means to deliver to whom.
  datatype Job = Job(token: Rendezvous.Token, upload: Rendezvous.Upload)

  // What it has read of the counter: first for its clean-up handler, then for the answer.
  datatype Held = Opened(job: Job, cleanUp: UpId) | Ready(job: Job, cleanUp: UpId, id: UpId)

  // The approval of a job: the ID its requester is told, and the one its clean-up will erase.
  datatype Approval = Approval(job: Job, cleanUp: UpId, id: UpId)

  // By approval, in the order of their stores: stored and begun map the key of a transaction,
  // stored or ever stored, to it; running: the keys whose deliverers have been started.
  datatype State = State(counter: UpId, stored: map<UpId, nat>, begun: map<UpId, nat>, running: set<UpId>,
                         holding: map<Thread, Held>, sent: seq<Approval>)

  datatype Step =
    | Opens(thread: Thread, job: Job)
    | Reads(thread: Thread)
    | Stores(thread: Thread)
    | Greets(id: UpId)
    | Ends(key: UpId)

  predicate Enabled(s: State, e: Step) {
    match e
    case Opens(t, job) => t !in s.holding
    case Reads(t) => t in s.holding && s.holding[t].Opened?
    case Stores(t) => t in s.holding && s.holding[t].Ready?
    case Greets(id) => true
    case Ends(key) => key in s.running && key in s.stored && s.stored[key] < |s.sent|
  }

  // What the deliverer stored under the key erases when it is done.
  function CleanUp(s: State, key: UpId): UpId
    requires Enabled(s, Ends(key))
  {
    s.sent[s.stored[key]].cleanUp
  }

  // A key that is taken is not stored under again. What is erased is destroyed, running or not.
  function Next(s: State, e: Step): State
    requires Enabled(s, e)
  {
    match e
    case Opens(t, job) => s.(holding := s.holding[t := Opened(job, s.counter)])
    case Reads(t) => s.(holding := s.holding[t := Ready(s.holding[t].job, s.holding[t].cleanUp, s.counter)])
    case Stores(t) =>
      var h, i := s.holding[t], |s.sent|;
      State(s.counter + 1, if s.counter in s.stored then s.stored else s.stored[s.counter := i],
            s.begun[s.counter := i], s.running, s.holding - {t}, s.sent + [Approval(h.job, h.cleanUp, h.id)])
    case Greets(id) => if id in s.stored then s.(running := s.running + {id}) else s
    case Ends(key) => s.(stored := s.stored - {CleanUp(s, key)}, running := s.running - {key, CleanUp(s, key)})
  }

  ghost predicate Run(s: State, run: seq<Step>, t: State)
    decreases |run|
  {
    if run == [] then s == t else Enabled(s, run[0]) && Run(Next(s, run[0]), run[1..], t)
  }

  const START := State(1, map[], map[], {}, map[], [])

  // ---- Keys ----

  // The i-th transaction has the key i + 1, whatever threads have read, so no key is ever taken.
  ghost predicate KeysOk(s: State) {
    && s.counter == |s.sent| + 1
    && (forall key :: key in s.begun <==> 1 <= key < s.counter)
    && (forall key {:trigger s.begun[key]} :: key in s.begun ==> s.begun[key] == key - 1)
    && (forall key {:trigger s.stored[key]} :: key in s.stored ==> key in s.begun && s.stored[key] == s.begun[key])
    && s.running <= s.stored.Keys
  }

  // What was read for an approval or is still held was read before the counter went on.
  ghost predicate ReadsOk(s: State) {
    && (forall i {:trigger s.sent[i]} :: 0 <= i < |s.sent| ==> 1 <= s.sent[i].cleanUp <= s.sent[i].id <= i + 1)
    && (forall t {:trigger s.holding[t]} :: t in s.holding ==>
          && 1 <= s.holding[t].cleanUp <= s.counter
          && (s.holding[t].Ready? ==> s.holding[t].cleanUp <= s.holding[t].id <= s.counter))
  }

  ghost predicate Inv(s: State) {
    KeysOk(s) && ReadsOk(s)
  }

  lemma StepKeeps(s: State, e: Step)
    requires Inv(s) && Enabled(s, e)
    ensures Inv(Next(s, e)) && s.sent <= Next(s, e).sent
  {
  }

  lemma {:induction false} RunKeeps(s: State, run: seq<Step>, t: State)
    requires Inv(s) && Run(s, run, t)
    ensures Inv(t) && s.sent <= t.sent
    decreases |run|
  {
    if run != [] {
      StepKeeps(s, run[0]);
      RunKeeps(Next(s, run[0]), run[1..], t);
    }
  }

  // However the reads and stores of any number of threads interleave, every transaction gets
  // a key that no other had before it: none is lost, and none replaces another.
  lemma KeysNeverCollide(run: seq<Step>, s: State, thread: Thread)
    requires Run(START, run, s) && Enabled(s, Stores(thread))
    ensures s.counter !in s.begun && s.counter !in s.stored
    ensures var t := Next(s, Stores(thread));
            t.stored == s.stored[s.counter := |s.sent|] && forall key :: key in s.begun ==> t.begun[key] == s.begun[key]
  {
    RunKeeps(START, run, s);
  }

  // ---- Whose transaction an approval names ----

  // The requester of the i-th approval was told the key of its own transaction.
  predicate Own(s: State, i: nat) {
    i < |s.sent| && s.sent[i].id in s.begun && s.begun[s.sent[i].id] == i
  }

  predicate StepOfThread(e: Step, thread: Thread) {
    (e.Opens? || e.Reads? || e.Stores?) && e.thread == thread
  }

  predicate NothingStored(run: seq<Step>) {
    forall i :: 0 <= i < |run| ==> !run[i].Stores?
  }

  predicate Elsewhere(run: seq<Step>, thread: Thread) {
    forall i :: 0 <= i < |run| ==> !StepOfThread(run[i], thread)
  }

  // What a thread holds stays until its own next step; the counter stays until the next store.
  lemma {:induction false} HeldMeanwhile(s: State, run: seq<Step>, t: State, thread: Thread)
    requires Inv(s) && Run(s, run, t) && Elsewhere(run, thread) && thread in s.holding
    ensures thread in t.holding && t.holding[thread] == s.holding[thread]
    ensures s.counter <= t.counter && (t.counter == s.counter <==> NothingStored(run))
    decreases |run|
  {
    if run != [] {
      StepKeeps(s, run[0]);
      assert !StepOfThread(run[0], thread);
      assert forall i :: 0 <= i < |run| - 1 ==> run[1..][i] == run[i + 1];
      HeldMeanwhile(Next(s, run[0]), run[1..], t, thread);
      if run[0].Stores? {
        assert !NothingStored(run);
      } else {
        assert NothingStored(run[1..]) ==> NothingStored(run) by {
          forall i | NothingStored(run[1..]) && 0 < i < |run| ensures !run[i].Stores? {
            assert run[i] == run[1..][i - 1];
          }
        }
      }
    }
  }

  // From the read of its ID to its store, at s and t, a thread runs beside others. Its approval
  // names the transaction of the first thread that stores after that read: its own if and only
  // if nobody stores in between.
  lemma OwnUnlessOvertaken(before: seq<Step>, s: State, thread: Thread, between: seq<Step>, t: State)
    requires Run(START, before, s) && Enabled(s, Reads(thread))
    requires Run(Next(s, Reads(thread)), between, t) && Elsewhere(between, thread)
    ensures Enabled(t, Stores(thread))
    ensures var u, i := Next(t, Stores(thread)), |t.sent|;
            && u.sent[i].job == s.holding[thread].job && u.sent[i].id in u.begun && u.begun[u.sent[i].id] == |s.sent|
            && (Own(u, i) <==> NothingStored(between))
  {
    RunKeeps(START, before, s);
    StepKeeps(s, Reads(thread));
    RunKeeps(Next(s, Reads(thread)), between, t);
    HeldMeanwhile(Next(s, Reads(thread)), between, t, thread);
    StepKeeps(t, Stores(thread));
  }

  // In every run, every approval names a transaction that was begun, its own or an earlier
  // one, and its own exactly if the ID is one more than the approvals before it.
  lemma ApprovalsName(run: seq<Step>, t: State, i: nat)
    requires Run(START, run, t) && i < |t.sent|
    ensures t.sent[i].id in t.begun && t.begun[t.sent[i].id] <= i
    ensures Own(t, i) <==> t.sent[i].id == i + 1
  {
    RunKeeps(START, run, t);
  }

  // In every run, all approvals name their own transactions if and only if no two of them
  // announce the same ID.
  lemma AllOwnExactly(run: seq<Step>, t: State)
    requires Run(START, run, t)
    ensures (forall i :: 0 <= i < |t.sent| ==> Own(t, i))
       <==> forall i, j :: 0 <= i < j < |t.sent| ==> t.sent[i].id != t.sent[j].id
  {
    RunKeeps(START, run, t);
    if forall i, j :: 0 <= i < j < |t.sent| ==> t.sent[i].id != t.sent[j].id {
      forall i | 0 <= i < |t.sent| ensures Own(t, i) {
        DistinctOwn(t, i);
      }
    } else {
      var i, j :| 0 <= i < j < |t.sent| && t.sent[i].id == t.sent[j].id;
      assert !Own(t, i) || !Own(t, j);
    }
  }

  lemma {:induction false} DistinctOwn(t: State, i: nat)
    requires Inv(t) && i < |t.sent|
    requires forall i, j :: 0 <= i < j < |t.sent| ==> t.sent[i].id != t.sent[j].id
    ensures t.sent[i].id == i + 1
    decreases i
  {
    var j := t.sent[i].id - 1;
    assert 0 <= j <= i;
    if j < i {
      DistinctOwn(t, j);
      assert false;
    }
  }

  // A thread that is not interrupted does what the one-step model of an upload does.
  lemma UninterruptedIsOneStep(s: State, thread: Thread, token: Rendezvous.Token, u: Rendezvous.Uploads,
                               localName: string, wanted: Rendezvous.Compression, probe: Rendezvous.Probe)
    requires Inv(s) && thread !in s.holding && u.counter == s.counter
    requires probe.size != 0 && probe.readable && probe.opens && probe.sized
    ensures var v, answer := Rendezvous.BeginUpload(u, localName, wanted, probe), Rendezvous.DeliverAnswer(u, wanted, probe);
            answer.Approved? && v.counter == u.counter + 1 && u.counter in v.begun &&
            var job := Job(token, v.begun[u.counter]);
            var t := Next(Next(Next(s, Opens(thread, job)), Reads(thread)), Stores(thread));
            && t.counter == v.counter && Own(t, |s.sent|)
            && t.sent == s.sent + [Approval(job, answer.upload, answer.upload)]
  {
  }

  // ---- The clean-up ----

  // From the read for its clean-up handler to its store, at s and t, a thread may take its
  // second read. Its clean-up will erase its own transaction if and only if nobody stores in between.
  lemma CleansUpOwnUnlessOvertaken(before: seq<Step>, s: State, thread: Thread, job: Job, first: seq<Step>, m: State,
                                   between: seq<Step>, t: State)
    requires Run(START, before, s) && Enabled(s, Opens(thread, job))
    requires Run(Next(s, Opens(thread, job)), first, m) && Elsewhere(first, thread) && Enabled(m, Reads(thread))
    requires Run(Next(m, Reads(thread)), between, t) && Elsewhere(between, thread)
    ensures Enabled(t, Stores(thread))
    ensures var u, i := Next(t, Stores(thread)), |t.sent|;
            && u.stored[t.counter] == i && u.sent[i].cleanUp == s.counter
            && (u.sent[i].cleanUp == t.counter <==> NothingStored(first) && NothingStored(between))
  {
    RunKeeps(START, before, s);
    StepKeeps(s, Opens(thread, job));
    RunKeeps(Next(s, Opens(thread, job)), first, m);
    HeldMeanwhile(Next(s, Opens(thread, job)), first, m, thread);
    StepKeeps(m, Reads(thread));
    RunKeeps(Next(m, Reads(thread)), between, t);
    HeldMeanwhile(Next(m, Reads(thread)), between, t, thread);
  }

  // When a deliverer is done, its clean-up erases its own transaction if it read that key; else
  // an earlier thread's, if that is still stored, while its own stays; and finds nothing, so
  // that the assertion around it fails, if and only if that earlier one is gone already.
  lemma CleanUpExactly(run: seq<Step>, s: State, key: UpId)
    requires Run(START, run, s) && Enabled(s, Ends(key))
    ensures var c, t := CleanUp(s, key), Next(s, Ends(key));
            && c <= key && c in s.begun && t.stored == s.stored - {c}
            && (key in t.stored <==> c != key)
            && (c !in s.stored <==> c < key && c in s.begun.Keys - s.stored.Keys)
            && (c in s.stored ==> s.stored[c] == c - 1 && s.stored[key] == key - 1)
  {
    RunKeeps(START, run, s);
  }

  // As long as every thread's clean-up read the key it stored under, the assertion holds.
  lemma CleanUpFinds(run: seq<Step>, s: State, key: UpId)
    requires Run(START, run, s) && Enabled(s, Ends(key))
    requires forall i :: 0 <= i < |s.sent| ==> s.sent[i].cleanUp == i + 1
    ensures CleanUp(s, key) == key && key in s.stored
  {
    RunKeeps(START, run, s);
  }

  // ---- Three threads ----

  lemma {:induction false} RunConcat(s: State, a: seq<Step>, t: State, b: seq<Step>, u: State)
    requires Run(s, a, t) && Run(t, b, u)
    ensures Run(s, a + b, u)
    decreases |a|
  {
    if a == [] {
      assert a + b == b;
    } else {
      RunConcat(Next(s, a[0]), a[1..], t, b, u);
      assert (a + b)[0] == a[0] && (a + b)[1..] == a[1..] + b;
    }
  }

  // Both reads, with nobody in between.
  lemma ReadsTwice(s: State, thread: Thread, job: Job)
    requires thread !in s.holding
    ensures Run(s, [Opens(thread, job), Reads(thread)], s.(holding := s.holding[thread := Ready(job, s.counter, s.counter)]))
  {
    var t := Next(s, Opens(thread, job));
    assert Run(t, [Reads(thread)], Next(t, Reads(thread)));
  }

  lemma StoresAtEnd(s: State, run: seq<Step>, t: State, thread: Thread) returns (more: seq<Step>)
    requires Run(s, run, t) && Enabled(t, Stores(thread))
    ensures Run(s, more, Next(t, Stores(thread)))
  {
    assert Run(t, [Stores(thread)], Next(t, Stores(thread)));
    RunConcat(s, run, t, [Stores(thread)], Next(t, Stores(thread)));
    more := run + [Stores(thread)];
  }

  lemma ReadsAtEnd(s: State, run: seq<Step>, t: State, thread: Thread, job: Job) returns (more: seq<Step>, u: State)
    requires Run(s, run, t) && thread !in t.holding
    ensures Run(s, more, u) && u == t.(holding := t.holding[thread := Ready(job, t.counter, t.counter)])
  {
    u := t.(holding := t.holding[thread := Ready(job, t.counter, t.counter)]);
    ReadsTwice(t, thread, job);
    RunConcat(s, run, t, [Opens(thread, job), Reads(thread)], u);
    more := run + [Opens(thread, job), Reads(thread)];
  }

  // Two threads read, the first stores.
  lemma BothRead(s: State, a: Thread, x: Job, b: Thread, y: Job) returns (run: seq<Step>, t: State)
    requires Inv(s) && a != b && a !in s.holding && b !in s.holding
    ensures Run(s, run, t) && t.holding == s.holding[b := Ready(y, s.counter, s.counter)]
    ensures var i, k := |s.sent|, s.counter;
            t == State(k + 1, s.stored[k := i], s.begun[k := i], s.running, t.holding, s.sent + [Approval(x, k, k)])
  {
    var s1, s2;
    run, s1 := ReadsAtEnd(s, [], s, a, x);
    run, s2 := ReadsAtEnd(s, run, s1, b, y);
    run := StoresAtEnd(s, run, s2, a);
    t := Next(s2, Stores(a));
  }

  // A thread reads, then another stores what it has read long before, and then the first.
  lemma StoreBetween(s: State, b: Thread, y: Job, c: Thread, z: Job) returns (run: seq<Step>, t: State)
    requires Inv(s) && b != c && c !in s.holding && b in s.holding && s.holding[b].Ready? && s.holding[b].job == y
    ensures Run(s, run, t)
    ensures var i, k, h := |s.sent|, s.counter, s.holding[b];
            t == State(k + 2, s.stored[k := i][k + 1 := i + 1], s.begun[k := i][k + 1 := i + 1], s.running, s.holding - {b},
                       s.sent + [Approval(y, h.cleanUp, h.id), Approval(z, k, k)])
  {
    var s1;
    run, s1 := ReadsAtEnd(s, [], s, c, z);
    run := StoresAtEnd(s, run, s1, b);
    var s2 := Next(s1, Stores(b));
    run := StoresAtEnd(s, run, s2, c);
    t := Next(s2, Stores(c));
    assert t.holding == s.holding - {b};
  }

  // Two threads that both read before either stores announce the same ID. Both transactions
  // are stored, but both requesters are led to the first one's; and a third who reads between
  // the two stores announces an ID nobody announced before, and leads its requester to the second's.
  lemma InterleavedReadsCollide(s: State, a: Thread, x: Job, b: Thread, y: Job, c: Thread, z: Job)
    returns (run: seq<Step>, t: State)
    requires Inv(s) && a != b && b != c && a != c && a !in s.holding && b !in s.holding && c !in s.holding
    ensures Run(s, run, t) && s.running == t.running
    ensures var i, k := |s.sent|, s.counter;
            && t.sent == s.sent + [Approval(x, k, k), Approval(y, k, k), Approval(z, k + 1, k + 1)]
            && t.stored == s.stored[k := i][k + 1 := i + 1][k + 2 := i + 2]
            && Own(t, i) && !Own(t, i + 1) && !Own(t, i + 2) && k + 1 in t.begun && t.begun[k] == i && t.begun[k + 1] == i + 1
            && forall j :: 0 <= j < i + 2 ==> t.sent[j].id != t.sent[i + 2].id
  {
    var first, second, u;
    first, u := BothRead(s, a, x, b, y);
    RunKeeps(s, first, u);
    second, t := StoreBetween(u, b, y, c, z);
    RunConcat(s, first, u, second, t);
    run := first + second;
    assert forall j :: 0 <= j < |s.sent| ==> t.sent[j] == s.sent[j];
  }

  // Such a third requester starts the second thread's deliverer, whose clean-up erases the
  // first one's transaction, running or not.
  lemma CleanUpHitsAnother(x: Job, y: Job, z: Job) returns (run: seq<Step>, s: State)
    ensures Run(START, run, s) && Enabled(s, Ends(2)) && CleanUp(s, 2) == 1 && 1 in s.running
    ensures Enabled(s, Ends(1)) && CleanUp(s, 1) == 1 && s.stored[2] != s.stored[1]
  {
    var first, t := InterleavedReadsCollide(START, 0, x, 1, y, 2, z);
    var u := Next(t, Greets(1));
    s := Next(u, Greets(2));
    assert Run(u, [Greets(2)], s);
    RunConcat(t, [Greets(1)], u, [Greets(2)], s);
    RunConcat(START, first, t, [Greets(1)] + [Greets(2)], s);
    run := first + ([Greets(1)] + [Greets(2)]);
  }

  // And once the first has ended, the clean-up of the second finds nothing: the assertion fails.
  lemma CleanUpMisses(x: Job, y: Job, z: Job) returns (run: seq<Step>, s: State)
    ensures Run(START, run, s) && Enabled(s, Ends(2)) && CleanUp(s, 2) !in s.stored
  {
    var first, t := CleanUpHitsAnother(x, y, z);
    s := Next(t, Ends(1));
    assert Run(t, [Ends(1)], s);
    RunConcat(START, first, t, [Ends(1)], s);
    run := first + [Ends(1)];
  }
}
