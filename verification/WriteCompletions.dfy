/** The end of a shared write, at the connection it goes to and at the connection manager. */
module WriteCompletions {
  import opened Broadcast
  import opened ConnectionManagers
  import W = SharedWrites

  method Complete(manager: ConnectionManager, c: ConnId, b: BufId)
    requires manager.Linked() && (c, b) in manager.writes
    modifies manager`sharedStorage, manager`writes
    ensures manager.Model() == Next(old(manager.Model()), WriteDone(c, b)) && manager.Linked()
  {
    manager.NotifySharedWriteDone(b);
    manager.writes := manager.writes - {(c, b)};
  }

  method Lose(manager: ConnectionManager, c: ConnId, b: BufId)
    requires manager.Linked() && (c, b) in manager.writes && c !in manager.connections
    modifies manager`writes, manager`lost
    ensures manager.Model() == Next(old(manager.Model()), WriteLost(c, b)) && manager.Linked()
  {
    manager.writes, manager.lost := manager.writes - {(c, b)}, manager.lost + {(c, b)};
  }

  // The connection that failed stops, and the write with it.
  method StopAndLose(manager: ConnectionManager, c: ConnId, b: BufId)
    requires manager.Linked() && (c, b) in manager.writes && c in manager.connections && manager.connections[c].busy == Idle
    modifies manager
    ensures StoppedAndLost(old(manager.Model()), c, b, manager.Model()) && manager.Linked()
  {
    ghost var s := manager.Model();
    StillOutstanding(s, c, b);
    manager.Stop(c);
    assert manager.Model() == Next(s, Disconnects(c));
    Lose(manager, c, b);
  }

  ghost predicate StoppedAndLost(s: State, c: ConnId, b: BufId, t: State) {
    && Enabled(s, Disconnects(c)) && Enabled(Next(s, Disconnects(c)), WriteLost(c, b))
    && t == Next(Next(s, Disconnects(c)), WriteLost(c, b))
  }

  lemma StillOutstanding(s: State, c: ConnId, b: BufId)
    requires c in s.clients && (c, b) in s.writes
    ensures (c, b) in Disconnect(s, c).writes && c !in Disconnect(s, c).clients
  {
  }

  // A piece of buffer b was taken from the write to client c, or not: the completion is gone if
  // the client is. What the manager's protocol sees of it is nothing while more is to be sent,
  // the completed write, the lost one, or the disconnection after which it is lost.
  method HandleSharedSent(manager: ConnectionManager, write: W.SharedWrite, c: ConnId, b: BufId, done: W.Completion)
    returns (next: string)
    requires manager.Linked() && (c, b) in manager.writes && W.Possible(write.bufferView, write.Model(), done)
    requires done.Gone? <==> c !in manager.connections
    requires done.Failed? ==> manager.connections[c].busy == Idle
    modifies write, manager
    ensures manager.Linked() && write.Model() == W.OnSent(write.bufferView, old(write.Model()), done)
    ensures match write.outcome
            case Sending => next == write.bufferView[write.offset..] != "" && manager.Model() == old(manager.Model())
            case Completed => next == "" && manager.Model() == Next(old(manager.Model()), WriteDone(c, b))
            case Lost => next == "" && manager.Model() == Next(old(manager.Model()), WriteLost(c, b))
            case Stopped => next == "" && StoppedAndLost(old(manager.Model()), c, b, manager.Model())
  {
    next := write.HandleSent(done);
    match done
    case Sent(bytes) => if next == "" { Complete(manager, c, b); }
    case Gone => Lose(manager, c, b);
    case Failed => StopAndLose(manager, c, b);
  }
}
