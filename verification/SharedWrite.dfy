/** A shared buffer on its way to one client: the socket takes it in pieces, and each piece is
    followed by the write of what is left. */
module SharedWrites {

  // The write of a piece: bytes of it were taken, it failed, or the connection is gone.
  datatype Completion = Sent(bytes: nat) | Failed | Gone

  // What became of the write; Completed is when the connection manager is notified.
  datatype Outcome = Sending | Completed | Stopped | Lost

  datatype State = State(offset: nat, pieces: seq<string>, outcome: Outcome, notified: nat, stops: nat)

  function OnSent(buffer: string, s: State, c: Completion): State
    requires s.offset <= |buffer| && (c.Sent? ==> s.offset + c.bytes <= |buffer|)
  {
    match c
    case Sent(bytes) =>
      var t := s.(offset := s.offset + bytes, pieces := s.pieces + [buffer[s.offset..s.offset + bytes]]);
      if t.offset != |buffer| then t else t.(outcome := Completed, notified := s.notified + 1)
    case Failed => s.(outcome := Stopped, stops := s.stops + 1)
    case Gone => s.(outcome := Lost)
  }

  const START := State(0, [], Sending, 0, 0)

  // A send that succeeds takes at least one byte of what it was given.
  predicate Possible(buffer: string, s: State, c: Completion) {
    s.outcome.Sending? && s.offset < |buffer| && (c.Sent? ==> 0 < c.bytes <= |buffer| - s.offset)
  }

  ghost predicate Run(buffer: string, s: State, run: seq<Completion>, t: State)
    decreases |run|
  {
    if run == [] then s == t
    else Possible(buffer, s, run[0]) && Run(buffer, OnSent(buffer, s, run[0]), run[1..], t)
  }

  function Joined(pieces: seq<string>): string {
    if pieces == [] then "" else Joined(pieces[..|pieces| - 1]) + pieces[|pieces| - 1]
  }

  ghost predicate Inv(buffer: string, s: State) {
    && s.offset <= |buffer| && Joined(s.pieces) == buffer[..s.offset]
    && (s.outcome.Completed? <==> s.offset == |buffer|)
    && s.notified == (if s.outcome.Completed? then 1 else 0)
    && s.stops == (if s.outcome.Stopped? then 1 else 0)
  }

  lemma StepKeeps(buffer: string, s: State, c: Completion)
    requires Inv(buffer, s) && Possible(buffer, s, c)
    ensures Inv(buffer, OnSent(buffer, s, c))
  {
  }

  lemma {:induction false} RunKeeps(buffer: string, s: State, run: seq<Completion>, t: State)
    requires Inv(buffer, s) && Run(buffer, s, run, t)
    ensures Inv(buffer, t) && |run| <= |buffer| - s.offset + 1
    ensures t.outcome.Sending? ==> |run| <= |buffer| - s.offset
    decreases |run|
  {
    if run != [] {
      StepKeeps(buffer, s, run[0]);
      RunKeeps(buffer, OnSent(buffer, s, run[0]), run[1..], t);
    }
  }

  // For every way the socket takes a buffer: there is something left whenever a send is
  // started, the pieces make up the part before the offset, and the manager is notified once
  // when they make up the whole buffer, never after a failure.
  lemma BufferArrives(buffer: string, run: seq<Completion>, t: State)
    requires buffer != "" && Run(buffer, START, run, t)
    ensures t.outcome.Sending? ==> t.offset < |buffer|
    ensures t.offset <= |buffer| && Joined(t.pieces) == buffer[..t.offset] && |run| <= |buffer| + 1
    ensures t.notified == (if Joined(t.pieces) == buffer then 1 else 0)
    ensures t.outcome.Completed? <==> Joined(t.pieces) == buffer
    ensures t.stops == 1 ==> t.notified == 0
    ensures !t.outcome.Sending? ==> forall c :: !Possible(buffer, t, c)
  {
    assert buffer[..0] == "";
    RunKeeps(buffer, START, run, t);
    assert Joined(t.pieces) == buffer ==> |Joined(t.pieces)| == |buffer|;
  }

  class SharedWrite {
    const bufferView: string
    var offset: nat
    ghost var pieces: seq<string>
    ghost var outcome: Outcome
    ghost var notified: nat
    ghost var stops: nat

    ghost function Model(): State
      reads this
    {
      State(offset, pieces, outcome, notified, stops)
    }

    constructor (bufferView: string)
      requires bufferView != ""
      ensures Model() == START && this.bufferView == bufferView
    {
      this.bufferView, offset := bufferView, 0;
      pieces, outcome, notified, stops := [], Sending, 0, 0;
    }

    // Starts a send of what is left; the completion is the argument of the next call of OnSent.
    method AsyncSharedWrite() returns (data: string)
      requires offset < |bufferView|
      ensures data == bufferView[offset..] && data != ""
    {
      data := bufferView[offset..];
    }

    // Continues with what is left, if anything is.
    method HandleSent(c: Completion) returns (next: string)
      requires Possible(bufferView, Model(), c)
      modifies this
      ensures Model() == OnSent(bufferView, old(Model()), c)
      ensures next == if outcome.Sending? then bufferView[offset..] else ""
      ensures outcome.Sending? ==> offset < |bufferView|
    {
      next := "";
      match c
      case Sent(bytes) =>
        pieces := pieces + [bufferView[offset..offset + bytes]];
        offset := offset + bytes;
        if offset != |bufferView| {
          next := AsyncSharedWrite();
        } else {
          outcome, notified := Completed, notified + 1;
        }
      case Failed =>
        outcome, stops := Stopped, stops + 1;
      case Gone =>
        outcome := Lost;
    }
  }
}
