/** Behaviours that never end: if the agents of the waiting lists go on, every list is
    emptied, and every query of a requester that stays is answered. */
module RendezvousLiveness {
  import opened Rendezvous
  import opened RendezvousRuns
  import opened RendezvousTheorems
  import opened RendezvousProgress
  import opened RendezvousAnswers

  // states(0), steps(0), states(1), and so on.
  ghost predicate Behaves(states: nat -> State, steps: nat -> Step) {
    forall n: nat {:trigger steps(n)} :: Enabled(states(n), steps(n)) && states(n + 1) == Next(states(n), steps(n))
  }

  // The list of id is gone, or its nearest agent takes a step.
  ghost predicate Moves(states: nat -> State, steps: nat -> Step, id: ReqId, n: nat) {
    id !in states(n).backup || Advances(states(n), id, steps(n))
  }

  ghost predicate Later(states: nat -> State, steps: nat -> Step, id: ReqId, n: nat) {
    exists m: nat :: n <= m && Moves(states, steps, id, m)
  }

  // The agent that is nearest to the list of id is never held up for ever.
  ghost predicate Fair(states: nat -> State, steps: nat -> Step, id: ReqId) {
    forall n: nat {:trigger Later(states, steps, id, n)} :: id in states(n).backup ==> Later(states, steps, id, n)
  }

  lemma {:induction false} RunTo(states: nat -> State, steps: nat -> Step, n: nat) returns (run: seq<Step>)
    requires Behaves(states, steps)
    ensures Run(states(0), run, states(n))
    decreases n
  {
    if n == 0 {
      run := [];
    } else {
      var first := RunTo(states, steps, n - 1);
      var e := steps(n - 1);
      assert Enabled(states(n - 1), e) && states(n) == Next(states(n - 1), e);
      StepOf(states(n - 1), e);
      RunConcat(states(0), first, states(n - 1), [e], states(n));
      run := first + [e];
    }
  }

  lemma InvAt(states: nat -> State, steps: nat -> Step, n: nat)
    requires Behaves(states, steps) && Inv(states(0))
    ensures Inv(states(n))
  {
    var run := RunTo(states, steps, n);
    RunKeeps(states(0), run, states(n));
  }

  // From n to m, the list of id goes, or gets no farther from its end.
  lemma {:induction false} Stretch(states: nat -> State, steps: nat -> Step, id: ReqId, n: nat, m: nat) returns (k: nat)
    requires Behaves(states, steps) && Inv(states(0)) && n <= m && id in states(n).backup
    ensures n <= k <= m
    ensures id !in states(k).backup || (k == m && !Closer(Distance(states(n), id), Distance(states(m), id)))
    decreases m - n
  {
    if n == m {
      return m;
    }
    InvAt(states, steps, n);
    assert Enabled(states(n), steps(n)) && states(n + 1) == Next(states(n), steps(n));
    if id !in states(n + 1).backup {
      return n + 1;
    }
    NeverFarther(states(n), id, steps(n));
    k := Stretch(states, steps, id, n + 1, m);
  }

  // Some day the list of id goes, or its end is strictly closer.
  lemma Round(states: nat -> State, steps: nat -> Step, id: ReqId, n: nat) returns (m: nat)
    requires Behaves(states, steps) && Inv(states(0)) && Fair(states, steps, id) && id in states(n).backup
    ensures n <= m && Nearer(states(n), states(m), id)
  {
    assert Later(states, steps, id, n);
    var j: nat :| n <= j && Moves(states, steps, id, j);
    m := Stretch(states, steps, id, n, j);
    if id in states(m).backup {
      MoveAt(states, steps, id, m);
      NearerYet(states(n), states(m), states(m + 1), id);
      m := m + 1;
    }
  }

  lemma MoveAt(states: nat -> State, steps: nat -> Step, id: ReqId, n: nat)
    requires Behaves(states, steps) && Inv(states(0)) && id in states(n).backup && Moves(states, steps, id, n)
    ensures Nearer(states(n), states(n + 1), id)
  {
    InvAt(states, steps, n);
    assert Enabled(states(n), steps(n)) && states(n + 1) == Next(states(n), steps(n));
    AdvancesCloses(states(n), id, steps(n));
  }

  lemma NearerYet(s: State, t: State, u: State, id: ReqId)
    requires !Closer(Distance(s, id), Distance(t, id)) && Nearer(t, u, id)
    ensures Nearer(s, u, id)
  {
  }

  // If its nearest agent is never held up for ever, a list is emptied: every step of it brings
  // the end closer, no other step takes it farther, and it cannot come closer for ever.
  lemma {:induction false} Emptied(states: nat -> State, steps: nat -> Step, id: ReqId, n: nat, d: (nat, int)) returns (m: nat)
    requires Behaves(states, steps) && Inv(states(0)) && Fair(states, steps, id)
    requires id in states(n).backup && d == Distance(states(n), id)
    ensures n <= m && id !in states(m).backup
    decreases d.0, d.1
  {
    InvAt(states, steps, n);
    DistanceBounded(states(n), id);
    m := Round(states, steps, id, n);
    if id in states(m).backup {
      m := Emptied(states, steps, id, m, Distance(states(m), id));
    }
  }

  // ---- Every query is answered ----

  lemma {:induction false} KeepsPlace(states: nat -> State, steps: nat -> Step, n: nat, m: nat, token: Token, id: ReqId, i: nat)
    returns (j: nat)
    requires Behaves(states, steps) && n <= m && token < |states(n).queries| && WaitsAt(states(m).backup, token, id, i)
    ensures WaitsAt(states(n).backup, token, id, j)
    decreases m - n
  {
    j := i;
    if n < m {
      assert Enabled(states(m - 1), steps(m - 1)) && states(m - 1 + 1) == Next(states(m - 1), steps(m - 1));
      QueriesStay(states, steps, n, m - 1);
      j := StepKeepsPlace(states(m - 1), steps(m - 1), token, id, i);
      j := KeepsPlace(states, steps, n, m - 1, token, id, j);
    }
  }

  lemma {:induction false} QueriesStay(states: nat -> State, steps: nat -> Step, n: nat, m: nat)
    requires Behaves(states, steps) && n <= m
    ensures states(n).queries <= states(m).queries
    decreases m - n
  {
    if n < m {
      assert Enabled(states(n), steps(n)) && states(n + 1) == Next(states(n), steps(n));
      StepGrows(states(n), steps(n));
      QueriesStay(states, steps, n + 1, m);
    }
  }

  // In every behaviour from the start in which no agent is held up for ever, every query of a
  // requester that stays is answered.
  lemma EveryQueryAnswered(sep: char, wire: Wire, states: nat -> State, steps: nat -> Step, n: nat, token: Token)
    returns (m: nat, k: nat)
    requires wire.Valid() && states(0) == Start(sep, wire) && Behaves(states, steps)
    requires forall id :: Fair(states, steps, id)
    requires token < |states(n).queries|
    requires forall j: nat {:trigger states(j)} :: n <= j ==> states(n).queries[token].conn in states(j).live
    ensures n <= m && AnsweredAt(states(m).sent, token, k)
  {
    StartOk(sep, wire);
    var before := RunTo(states, steps, n);
    AnsweredExactlyOnce(sep, wire, before, states(n), token);
    if exists i :: AnsweredAt(states(n).sent, token, i) {
      k :| AnsweredAt(states(n).sent, token, k);
      return n, k;
    }
    var id, i :| WaitsAt(states(n).backup, token, id, i);
    m := Emptied(states, steps, id, n, Distance(states(n), id));
    var run := RunTo(states, steps, m);
    QueriesStay(states, steps, n, m);
    AnsweredExactlyOnce(sep, wire, run, states(m), token);
    forall jd, j | WaitsAt(states(m).backup, token, jd, j) ensures false {
      var h := KeepsPlace(states, steps, n, m, token, jd, j);
    }
    k :| AnsweredAt(states(m).sent, token, k);
  }
}
