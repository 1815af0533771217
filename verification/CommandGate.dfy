/** The gate every command passes before it is handled, by the state of its client, and the
    steps of the broadcast protocol it opens. */
module CommandGate {
  import opened Notifications
  import opened PathTree
  import opened Broadcast
  import opened BroadcastRuns

  datatype Command = Signin | Signup | PushFiles | DeleteAccount | Logout | Querry | ReplyToQuerry | Unknown

  datatype Verdict = Accepted | InvalidWhileConnected | InvalidWhileLogged | InvalidWhileProcessing

  function Validate(command: Command, state: ClientState): Verdict {
    match state
    case Connected => if command != Signin && command != Signup then InvalidWhileConnected else Accepted
    case Logged =>
      if command != PushFiles && command != DeleteAccount && command != Logout then InvalidWhileLogged else Accepted
    case Processing =>
      if command != DeleteAccount && command != Logout && command != Querry && command != ReplyToQuerry
      then InvalidWhileProcessing else Accepted
  }

  // The step a handled command of connection c begins with.
  predicate BeginsWith(command: Command, c: ConnId, e: Step) {
    match e
    case SignsIn(d, nick) => d == c && command in {Signin, Signup}
    case Pushes(d, paths) => d == c && command == PushFiles
    case Changes(d, op) => d == c && command == Querry
    case _ => false
  }

  // What the command's content must fulfil: the state of its client is not among it.
  ghost predicate ContentOk(s: State, c: ConnId, e: Step)
    requires c in s.clients
  {
    match e
    case SignsIn(d, nick) => forall x :: x in s.clients ==> s.clients[x].nick != nick
    case Pushes(d, paths) => AllAddsOk(s.clients[c].files, Split(paths, s.sep))
    case Changes(d, op) =>
      OpSucceeds(s.clients[c].files, op, s.sep) && OpOk(s.clients[c].files, op, s.sep)
    case _ => false
  }

  // The gate lets a command through exactly when the state of its client allows its step.
  lemma GateOpensStep(s: State, command: Command, c: ConnId, e: Step)
    requires BeginsWith(command, c, e) && c in s.clients && s.clients[c].busy == Idle && ContentOk(s, c, e)
    ensures Validate(command, s.clients[c].state) == Accepted <==> Enabled(s, e)
  {
  }

  // A command that ends a session, or the account behind it, passes exactly for a client that
  // has signed in; its disconnection can follow at once.
  lemma GateEndsSession(s: State, command: Command, c: ConnId)
    requires Inv(s) && command in {Logout, DeleteAccount} && c in s.clients && s.clients[c].busy == Idle
    ensures Validate(command, s.clients[c].state) == Accepted <==> s.clients[c].nick != ""
    ensures Enabled(s, Disconnects(c))
  {
    assert s.clients[c].nick == "" <==> s.clients[c].state == Connected;
  }

  // A reply to the server's own query passes exactly from a client that is processing.
  lemma GateTakesReplies(s: State, c: ConnId)
    requires c in s.clients
    ensures Validate(ReplyToQuerry, s.clients[c].state) == Accepted <==> c in InProcessing(s.clients)
  {
  }

  // No state lets an unknown command through, and a refusal names the state.
  lemma GateRefuses(command: Command, state: ClientState)
    ensures Validate(Unknown, state) != Accepted
    ensures Validate(command, state) == InvalidWhileConnected ==> state == Connected
    ensures Validate(command, state) == InvalidWhileLogged ==> state == Logged
    ensures Validate(command, state) == InvalidWhileProcessing ==> state == Processing
  {
  }

  // A client whose tree can have been looked up: its files are pushed, or being registered.
  predicate Sharing(c: Client) {
    c.state == Processing || c.busy == Registering
  }

  lemma StepKeepsSharing(s: State, e: Step, c: ConnId)
    requires Inv(s) && Enabled(s, e) && c in s.clients && Sharing(s.clients[c]) && c in Next(s, e).clients
    ensures Sharing(Next(s, e).clients[c])
  {
    assert ClientOk(s.clients[c], s.sep);
  }

  lemma {:induction false} GoneStaysGone(s: State, run: seq<Step>, t: State, c: ConnId)
    requires Inv(s) && Run(s, run, t) && c < s.nextConn && c !in s.clients
    ensures c !in t.clients
    decreases |run|
  {
    if run != [] {
      NextKeeps(s, run[0]);
      GoneStaysGone(Next(s, run[0]), run[1..], t, c);
    }
  }

  // An owner that was asked for a file, as long as it is connected, can always have its reply
  // let through, unless its registration is just going on.
  lemma {:induction false} SharingStays(s: State, run: seq<Step>, t: State, c: ConnId)
    requires Inv(s) && Run(s, run, t) && c in s.clients && Sharing(s.clients[c]) && c in t.clients
    ensures Sharing(t.clients[c])
    ensures t.clients[c].busy != Registering ==> Validate(ReplyToQuerry, t.clients[c].state) == Accepted
    decreases |run|
  {
    if run != [] {
      var u := Next(s, run[0]);
      NextKeeps(s, run[0]);
      if c in u.clients {
        StepKeepsSharing(s, run[0], c);
        SharingStays(u, run[1..], t, c);
      } else {
        GoneStaysGone(u, run[1..], t, c);
      }
    }
  }

  // In every run, whoever announces a change passed the gate in the processing state and is
  // in it still: the countdown of the announcement fits the writes it starts.
  lemma AnnouncerIsProcessing(sep: char, run: seq<Step>, s: State, c: ConnId, m: Msg)
    requires Run(Start(sep), run, s) && Enabled(s, Announces(c))
    ensures s.clients[c].state == Processing && Validate(Querry, s.clients[c].state) == Accepted
    ensures s.processing >= 1
    ensures s.processing > 1 ==>
              var t := Announce(s, s.clients[c].nick, m);
              s.lastBuffer + 1 in t.storage && t.storage[s.lastBuffer + 1].counter == |Others(s.clients, s.clients[c].nick)|
  {
    StartOk(sep);
    RunKeeps(Start(sep), run, s);
    assert ClientOk(s.clients[c], s.sep);
    assert c in InProcessing(s.clients);
    assert InProcessing(s.clients) != {};
    if s.processing > 1 {
      CountdownFitsExactly(s, s.clients[c].nick, m);
    }
  }
}
