/** Sending a local file to a socket, in stream or compressed mode, as a machine driven by
    the completions of its reads and writes. */
module Delivery {
  import opened ChunkHeader

  datatype Option<T> = None | Some(value: T)

  // decompress fails by an exception in the original: None here.
  datatype Codec = Codec(compress: string -> string, decompress: string -> Option<string>)

  datatype Mode = Stream | Compressed(codec: Codec, width: nat)

  const KB500: nat := 512000

  function Header(mode: Mode, data: string): string {
    if mode.Stream? then "" else Padded(|mode.codec.compress(data)|, mode.width)
  }

  function Body(mode: Mode, data: string): string {
    if mode.Stream? then data else mode.codec.compress(data)
  }

  function Concat(chunks: seq<string>): string {
    if chunks == [] then "" else chunks[0] + Concat(chunks[1..])
  }

  function Frame(mode: Mode, data: string): string {
    Header(mode, data) + Body(mode, data)
  }

  // What the chunks look like on the wire.
  function Frames(mode: Mode, chunks: seq<string>): string {
    if chunks == [] then "" else Frame(mode, chunks[0]) + Frames(mode, chunks[1..])
  }

  datatype Outcome = Fine | EndOfFile | Broken

  // The operation under way.
  datatype Pending = Reading | Writing(body: string) | CleanedUp

  // chunks: what was read so far, read by read.
  datatype Sender = Sender(offset: nat, done: bool, pending: Pending, sent: string, cleanUps: nat, chunks: seq<string>)

  // bytes of the file, or of the body, were transferred; headerBytes of the header before it.
  datatype Completion = Read(bytes: nat, outcome: Outcome, headerBytes: nat) | Written(bytes: nat, ok: bool)

  function CleanUp(s: Sender): Sender {
    s.(pending := CleanedUp, cleanUps := s.cleanUps + 1)
  }

  function OnRead(mode: Mode, s: Sender, data: string, outcome: Outcome, headerBytes: nat): Sender {
    if outcome.Broken? || (outcome.EndOfFile? && data == "") then CleanUp(s)
    else
      var h := Header(mode, data);
      var t := s.(offset := s.offset + |data|, chunks := s.chunks + [data], done := s.done || outcome.EndOfFile?);
      if headerBytes < |h| then CleanUp(t.(sent := s.sent + h[..headerBytes]))
      else t.(sent := s.sent + h, pending := Writing(Body(mode, data)))
  }

  function OnWritten(s: Sender, bytes: nat, ok: bool): Sender
    requires s.pending.Writing? && bytes <= |s.pending.body|
  {
    if !ok then CleanUp(s.(sent := s.sent + s.pending.body[..bytes]))
    else
      var t := s.(sent := s.sent + s.pending.body);
      if s.done then CleanUp(t) else t.(pending := Reading)
  }

  // A read yields the next bytes of the file: at least one when fine, the last ones, of which
  // there may be none, at its end.
  predicate Possible(file: string, s: Sender, c: Completion) {
    match c
    case Read(bytes, outcome, headerBytes) =>
      && s.pending.Reading? && bytes <= KB500 && s.offset + bytes <= |file|
      && (outcome.Fine? ==> bytes > 0) && (outcome.EndOfFile? ==> s.offset + bytes == |file|)
    case Written(bytes, ok) => s.pending.Writing? && bytes <= |s.pending.body|
  }

  function Next(mode: Mode, file: string, s: Sender, c: Completion): Sender
    requires Possible(file, s, c)
  {
    match c
    case Read(bytes, outcome, headerBytes) =>
      OnRead(mode, s, file[s.offset..s.offset + bytes], outcome, headerBytes)
    case Written(bytes, ok) => OnWritten(s, bytes, ok)
  }

  const START := Sender(0, false, Reading, "", 0, [])

  ghost predicate Run(mode: Mode, file: string, s: Sender, run: seq<Completion>, t: Sender)
    decreases |run|
  {
    if run == [] then s == t
    else Possible(file, s, run[0]) && Run(mode, file, Next(mode, file, s, run[0]), run[1..], t)
  }

  // No read fails and nothing is lost on the way to the socket.
  ghost predicate Clean(mode: Mode, file: string, s: Sender, c: Completion)
    requires Possible(file, s, c)
  {
    match c
    case Read(bytes, outcome, headerBytes) =>
      !outcome.Broken? && headerBytes >= |Header(mode, file[s.offset..s.offset + bytes])|
    case Written(bytes, ok) => ok
  }

  ghost predicate CleanRun(mode: Mode, file: string, s: Sender, run: seq<Completion>, t: Sender)
    decreases |run|
  {
    if run == [] then s == t
    else
      && Possible(file, s, run[0]) && Clean(mode, file, s, run[0])
      && CleanRun(mode, file, Next(mode, file, s, run[0]), run[1..], t)
  }

  // ---- What every run keeps ----

  ghost predicate Inv(mode: Mode, file: string, s: Sender) {
    && s.offset <= |file| && Concat(s.chunks) == file[..s.offset]
    && (s.done ==> s.offset == |file|)
    && s.cleanUps == (if s.pending.CleanedUp? then 1 else 0)
    && SentOk(s.sent, s.pending, Frames(mode, s.chunks))
  }

  // What was sent of the frames so far.
  ghost predicate SentOk(sent: string, pending: Pending, frames: string) {
    match pending
    case Reading => sent == frames
    case Writing(body) => sent + body == frames
    case CleanedUp => sent <= frames
  }

  lemma Assoc(a: string, b: string, c: string)
    ensures a + b + c == a + (b + c)
  {
  }

  lemma {:induction false} FramesSnoc(mode: Mode, chunks: seq<string>, data: string)
    ensures Frames(mode, chunks + [data]) == Frames(mode, chunks) + Frame(mode, data)
    decreases |chunks|
  {
    if chunks == [] {
      assert ([] + [data])[1..] == [];
    } else {
      FramesSnoc(mode, chunks[1..], data);
      assert (chunks + [data])[1..] == chunks[1..] + [data];
      Assoc(Frame(mode, chunks[0]), Frames(mode, chunks[1..]), Frame(mode, data));
    }
  }

  lemma {:induction false} ConcatSnoc(chunks: seq<string>, data: string)
    ensures Concat(chunks + [data]) == Concat(chunks) + data
    decreases |chunks|
  {
    if chunks == [] {
      assert ([] + [data])[1..] == [];
    } else {
      ConcatSnoc(chunks[1..], data);
      assert (chunks + [data])[1..] == chunks[1..] + [data];
      Assoc(chunks[0], Concat(chunks[1..]), data);
    }
  }

  // A read that is acted upon takes the data over and sends the header, or a part of it.
  lemma ReadSends(mode: Mode, s: Sender, data: string, outcome: Outcome, headerBytes: nat, frames: string)
    requires s.pending.Reading? && s.cleanUps == 0 && !outcome.Broken? && (outcome.EndOfFile? ==> data != "")
    requires s.sent == frames
    ensures var t := OnRead(mode, s, data, outcome, headerBytes);
            && t.chunks == s.chunks + [data] && t.offset == s.offset + |data|
            && t.done == (s.done || outcome.EndOfFile?) && t.cleanUps == (if t.pending.CleanedUp? then 1 else 0)
            && SentOk(t.sent, t.pending, frames + Frame(mode, data))
  {
  }

  lemma FileRead(file: string, chunks: seq<string>, a: nat, b: nat)
    requires a <= b <= |file| && Concat(chunks) == file[..a]
    ensures Concat(chunks + [file[a..b]]) == file[..b]
  {
    ConcatSnoc(chunks, file[a..b]);
    assert file[..a] + file[a..b] == file[..b];
  }

  lemma GrownOk(mode: Mode, file: string, s: Sender, t: Sender, data: string)
    requires Inv(mode, file, s) && t.chunks == s.chunks + [data] && t.offset == s.offset + |data| <= |file|
    requires data == file[s.offset..t.offset] && (t.done ==> t.offset == |file|)
    requires t.cleanUps == (if t.pending.CleanedUp? then 1 else 0)
    requires SentOk(t.sent, t.pending, Frames(mode, s.chunks) + Frame(mode, data))
    ensures Inv(mode, file, t)
  {
    FramesSnoc(mode, s.chunks, data);
    FileRead(file, s.chunks, s.offset, t.offset);
  }

  lemma ReadKeeps(mode: Mode, file: string, s: Sender, bytes: nat, outcome: Outcome, headerBytes: nat)
    requires Inv(mode, file, s) && Possible(file, s, Read(bytes, outcome, headerBytes))
    ensures Inv(mode, file, OnRead(mode, s, file[s.offset..s.offset + bytes], outcome, headerBytes))
  {
    var data := file[s.offset..s.offset + bytes];
    if outcome.Broken? || (outcome.EndOfFile? && data == "") {
      assert OnRead(mode, s, data, outcome, headerBytes) == CleanUp(s);
    } else {
      ReadSends(mode, s, data, outcome, headerBytes, Frames(mode, s.chunks));
      GrownOk(mode, file, s, OnRead(mode, s, data, outcome, headerBytes), data);
    }
  }

  lemma NextKeeps(mode: Mode, file: string, s: Sender, c: Completion)
    requires Inv(mode, file, s) && Possible(file, s, c)
    ensures Inv(mode, file, Next(mode, file, s, c))
  {
    match c
    case Read(bytes, outcome, headerBytes) => ReadKeeps(mode, file, s, bytes, outcome, headerBytes);
    case Written(bytes, ok) =>
      assert s.sent + s.pending.body[..bytes] <= s.sent + s.pending.body;
  }

  lemma {:induction false} RunKeeps(mode: Mode, file: string, s: Sender, run: seq<Completion>, t: Sender)
    requires Inv(mode, file, s) && Run(mode, file, s, run, t)
    ensures Inv(mode, file, t)
    decreases |run|
  {
    if run != [] {
      NextKeeps(mode, file, s, run[0]);
      RunKeeps(mode, file, Next(mode, file, s, run[0]), run[1..], t);
    }
  }

  lemma StartOk(mode: Mode, file: string)
    ensures Inv(mode, file, START)
  {
  }

  // On every run, with errors or without, the clean-up handler has been called once when
  // nothing more is under way and not at all before; only frames of the file's beginning
  // were sent, in order.
  lemma CleansUpOnce(mode: Mode, file: string, run: seq<Completion>, t: Sender)
    requires Run(mode, file, START, run, t)
    ensures t.cleanUps == if t.pending.CleanedUp? then 1 else 0
    ensures t.pending.CleanedUp? <==> forall c :: !Possible(file, t, c)
    ensures t.sent <= Frames(mode, t.chunks) && Concat(t.chunks) <= file
  {
    StartOk(mode, file);
    RunKeeps(mode, file, START, run, t);
    match t.pending
    case Reading => assert Possible(file, t, Read(0, Broken, 0));
    case Writing(body) =>
      assert Possible(file, t, Written(0, false));
      assert t.sent <= t.sent + body;
    case CleanedUp =>
  }

  // What ends a deliverer: a failed read, a read of nothing at the end of the file, a header
  // that was not sent whole, a failed write, or the write of the last bytes; nothing else does.
  lemma CleansUpExactly(mode: Mode, file: string, s: Sender, c: Completion)
    requires Possible(file, s, c)
    ensures Next(mode, file, s, c).pending.CleanedUp? <==>
              match c
              case Read(bytes, outcome, headerBytes) =>
                || outcome.Broken? || (outcome.EndOfFile? && bytes == 0)
                || headerBytes < |Header(mode, file[s.offset..s.offset + bytes])|
              case Written(bytes, ok) => !ok || s.done
    ensures var t := Next(mode, file, s, c);
            t.done <==> s.done || (c.Read? && c.outcome.EndOfFile? && c.bytes > 0)
  {
  }

  // Every read is followed by the write of what it read, and there is an end to it.
  function Remaining(file: string, s: Sender): int {
    match s.pending
    case Reading => 3 * (|file| - s.offset) + 1
    case Writing(body) => 3 * (|file| - s.offset) + 2
    case CleanedUp => 0
  }

  lemma {:induction false} Ends(mode: Mode, file: string, s: Sender, run: seq<Completion>, t: Sender)
    requires Inv(mode, file, s) && Run(mode, file, s, run, t)
    ensures |run| <= Remaining(file, s)
    decreases |run|
  {
    if run != [] {
      NextKeeps(mode, file, s, run[0]);
      Ends(mode, file, Next(mode, file, s, run[0]), run[1..], t);
    }
  }

  // Without an error the whole file is sent before the clean-up, whatever its length and
  // however it is read: also when it ends with a read of nothing.
  lemma {:induction false} CleanRunCompletes(mode: Mode, file: string, s: Sender, run: seq<Completion>, t: Sender)
    requires Inv(mode, file, s) && CleanRun(mode, file, s, run, t)
    requires s.pending.CleanedUp? ==> s.sent == Frames(mode, s.chunks) && s.offset == |file|
    ensures Run(mode, file, s, run, t) && Inv(mode, file, t)
    ensures t.pending.CleanedUp? ==> t.sent == Frames(mode, t.chunks) && Concat(t.chunks) == file
    decreases |run|
  {
    if run == [] {
      assert file[..|file|] == file;
    } else {
      NextKeeps(mode, file, s, run[0]);
      CleanRunCompletes(mode, file, Next(mode, file, s, run[0]), run[1..], t);
    }
  }

  lemma {:induction false} StreamFrames(chunks: seq<string>)
    ensures Frames(Stream, chunks) == Concat(chunks)
  {
    if chunks != [] {
      StreamFrames(chunks[1..]);
    }
  }

  // In stream mode that is the file itself, and on a run with errors a part of its beginning.
  lemma StreamDelivers(file: string, run: seq<Completion>, t: Sender)
    requires Run(Stream, file, START, run, t)
    ensures t.sent <= file
    ensures CleanRun(Stream, file, START, run, t) && t.pending.CleanedUp? ==> t.sent == file
  {
    CleansUpOnce(Stream, file, run, t);
    StreamFrames(t.chunks);
    if CleanRun(Stream, file, START, run, t) {
      StartOk(Stream, file);
      CleanRunCompletes(Stream, file, START, run, t);
    }
  }
}
