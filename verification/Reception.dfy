/** Receiving a file from a socket, in stream or compressed mode, as a machine driven by the
    completions of its reads and writes, and the two ends of a transfer together. */
module Reception {
  import opened ChunkHeader
  import opened Delivery

  // A receiver: its mode, the capacity of its buffer, and the announced size of the file.
  datatype Config = Config(mode: Mode, capacity: nat, size: nat) {
    // The buffer also holds the zero behind a header.
    predicate Valid() {
      capacity > 0 && (mode.Compressed? ==> 0 < mode.width < capacity)
    }
  }

  // The operation under way.
  datatype Pending = AwaitHeader | AwaitBytes(want: nat) | Storing(data: string) | Reported

  datatype Receiver = Receiver(taken: nat, pending: Pending, disk: string, written: nat, verdicts: seq<bool>)

  datatype Completion = GotHeader(bytes: nat) | Got(bytes: nat, failed: bool) | Stored(ok: bool)

  // A length is cut to the buffer's capacity; so is a negative one, read as a huge unsigned number.
  function Clamped(length: int, capacity: nat): nat {
    if 0 <= length <= capacity then length else capacity
  }

  // As the length of a read: a negative number turns into one with 2 to the 64th added.
  lemma ClampedIs(length: int, capacity: nat)
    requires -0x8000000000000000 <= length < 0x8000000000000000 && capacity < 0x8000000000000000
    ensures var size := if length < 0 then length + 0x10000000000000000 else length;
            Clamped(length, capacity) == if size < capacity then size else capacity
  {
  }

  function Report(s: Receiver, ok: bool): Receiver {
    s.(pending := Reported, verdicts := s.verdicts + [ok])
  }

  // The size check that decides success.
  function CheckSize(cfg: Config, s: Receiver): Receiver {
    Report(s, s.written == cfg.size)
  }

  function NextFrame(cfg: Config): Pending {
    if cfg.mode.Stream? then AwaitBytes(cfg.capacity) else AwaitHeader
  }

  function Start(cfg: Config): Receiver {
    Receiver(0, NextFrame(cfg), "", 0, [])
  }

  function OnHeader(cfg: Config, s: Receiver, header: string): Receiver
    requires cfg.mode.Compressed?
  {
    var t := s.(taken := s.taken + |header|);
    if |header| < cfg.mode.width then CheckSize(cfg, t)
    else t.(pending := AwaitBytes(Clamped(Atoll(header), cfg.capacity)))
  }

  // A failed read that brought something is acted upon like one that did not fail.
  function OnBytes(cfg: Config, s: Receiver, data: string, failed: bool): Receiver {
    var t := s.(taken := s.taken + |data|);
    if failed && data == "" then CheckSize(cfg, t)
    else
      match cfg.mode
      case Stream => t.(pending := Storing(data))
      case Compressed(codec, width) =>
        match codec.decompress(data)
        case None => CheckSize(cfg, t)
        case Some(x) => t.(pending := Storing(x))
  }

  function OnStored(cfg: Config, s: Receiver, ok: bool): Receiver
    requires s.pending.Storing?
  {
    if ok then
      s.(disk := s.disk + s.pending.data, written := s.written + |s.pending.data|, pending := NextFrame(cfg))
    else if cfg.mode.Stream? then Report(s, false)
    else CheckSize(cfg, s)
  }

  // A read gets all it waits for, or fails with less.
  predicate Possible(cfg: Config, input: string, s: Receiver, c: Completion) {
    match c
    case GotHeader(bytes) =>
      s.pending.AwaitHeader? && cfg.mode.Compressed? && bytes <= cfg.mode.width && s.taken + bytes <= |input|
    case Got(bytes, failed) =>
      && s.pending.AwaitBytes? && s.taken + bytes <= |input|
      && (if failed then bytes < s.pending.want else bytes == s.pending.want)
    case Stored(ok) => s.pending.Storing?
  }

  function Next(cfg: Config, input: string, s: Receiver, c: Completion): Receiver
    requires Possible(cfg, input, s, c)
  {
    match c
    case GotHeader(bytes) => OnHeader(cfg, s, input[s.taken..s.taken + bytes])
    case Got(bytes, failed) => OnBytes(cfg, s, input[s.taken..s.taken + bytes], failed)
    case Stored(ok) => OnStored(cfg, s, ok)
  }

  ghost predicate Run(cfg: Config, input: string, s: Receiver, run: seq<Completion>, t: Receiver)
    decreases |run|
  {
    if run == [] then s == t
    else Possible(cfg, input, s, run[0]) && Run(cfg, input, Next(cfg, input, s, run[0]), run[1..], t)
  }

  // ---- One verdict ----

  ghost predicate Inv(cfg: Config, input: string, s: Receiver) {
    && s.taken <= |input| && s.written == |s.disk|
    && (if s.pending.Reported? then |s.verdicts| == 1 else s.verdicts == [])
    && (true in s.verdicts ==> s.written == cfg.size)
    && (s.pending.AwaitHeader? ==> cfg.mode.Compressed?)
    && (s.pending.AwaitBytes? && cfg.mode.Stream? ==> s.pending.want == cfg.capacity)
  }

  lemma NextKeeps(cfg: Config, input: string, s: Receiver, c: Completion)
    requires Inv(cfg, input, s) && Possible(cfg, input, s, c)
    ensures Inv(cfg, input, Next(cfg, input, s, c))
  {
  }

  lemma {:induction false} RunKeeps(cfg: Config, input: string, s: Receiver, run: seq<Completion>, t: Receiver)
    requires Inv(cfg, input, s) && Run(cfg, input, s, run, t)
    ensures Inv(cfg, input, t)
    decreases |run|
  {
    if run != [] {
      NextKeeps(cfg, input, s, run[0]);
      RunKeeps(cfg, input, Next(cfg, input, s, run[0]), run[1..], t);
    }
  }

  // Whatever arrives and whatever fails, one verdict is reported, when nothing more is under
  // way; success means that exactly the announced number of bytes is on the disk.
  lemma OneVerdict(cfg: Config, input: string, run: seq<Completion>, t: Receiver)
    requires cfg.Valid() && Run(cfg, input, Start(cfg), run, t)
    ensures |t.verdicts| == if t.pending.Reported? then 1 else 0
    ensures t.pending.Reported? <==> forall c :: !Possible(cfg, input, t, c)
    ensures t.verdicts == [true] ==> t.written == cfg.size == |t.disk|
  {
    RunKeeps(cfg, input, Start(cfg), run, t);
    match t.pending
    case AwaitHeader => assert Possible(cfg, input, t, GotHeader(0));
    case AwaitBytes(want) => assert Possible(cfg, input, t, Got(0, want > 0));
    case Storing(data) => assert Possible(cfg, input, t, Stored(true));
    case Reported =>
  }

  // What ends a receiver: a header cut short, a read that brought nothing, a chunk that cannot
  // be decompressed, or a failed write; nothing else does.
  lemma ReportsExactly(cfg: Config, input: string, s: Receiver, c: Completion)
    requires Possible(cfg, input, s, c)
    ensures Next(cfg, input, s, c).pending.Reported? <==>
              match c
              case GotHeader(bytes) => bytes < cfg.mode.width
              case Got(bytes, failed) =>
                || (failed && bytes == 0)
                || (cfg.mode.Compressed? && cfg.mode.codec.decompress(input[s.taken..s.taken + bytes]).None?)
              case Stored(ok) => !ok
  {
  }

  // The verdict of every run, whatever failed: success exactly if the announced size was
  // written, except that a failed write in stream mode never is one.
  lemma {:induction false} EveryVerdict(cfg: Config, input: string, s: Receiver, run: seq<Completion>, t: Receiver)
    requires Inv(cfg, input, s) && !s.pending.Reported? && Run(cfg, input, s, run, t) && t.pending.Reported?
    ensures run != []
    ensures t.verdicts == [t.written == cfg.size && !(cfg.mode.Stream? && run[|run| - 1] == Stored(false))]
    ensures t.written == |t.disk|
    decreases |run|
  {
    var u := Next(cfg, input, s, run[0]);
    NextKeeps(cfg, input, s, run[0]);
    if u.pending.Reported? {
      assert run[1..] == [];
    } else {
      EveryVerdict(cfg, input, u, run[1..], t);
      assert run[1..][|run| - 2] == run[|run| - 1];
    }
  }

  function Remaining(cfg: Config, input: string, s: Receiver): int {
    3 * (|input| - s.taken) + match s.pending
                              case AwaitHeader => 1
                              case AwaitBytes(want) => if cfg.mode.Stream? then 1 else 3
                              case Storing(data) => 2
                              case Reported => 0
  }

  lemma StepRemains(cfg: Config, input: string, s: Receiver, c: Completion)
    requires cfg.Valid() && Inv(cfg, input, s) && Possible(cfg, input, s, c)
    ensures 0 <= Remaining(cfg, input, Next(cfg, input, s, c)) < Remaining(cfg, input, s)
  {
  }

  // A finite input is read to its end.
  lemma {:induction false} Ends(cfg: Config, input: string, s: Receiver, run: seq<Completion>, t: Receiver)
    requires cfg.Valid() && Inv(cfg, input, s) && Run(cfg, input, s, run, t)
    ensures |run| <= Remaining(cfg, input, s)
    decreases |run|
  {
    if run != [] {
      NextKeeps(cfg, input, s, run[0]);
      StepRemains(cfg, input, s, run[0]);
      Ends(cfg, input, Next(cfg, input, s, run[0]), run[1..], t);
    }
  }

  // ---- What is written ----

  // What an input decodes to, frame by frame, as far as it does.
  function Decoded(cfg: Config, input: string): string
    requires cfg.Valid()
    decreases |input|, 0
  {
    match cfg.mode
    case Stream => input
    case Compressed(codec, width) =>
      if |input| < width then ""
      else DecodedBody(cfg, Clamped(Atoll(input[..width]), cfg.capacity), input[width..])
  }

  // want: the length of the body that begins the input.
  function DecodedBody(cfg: Config, want: nat, input: string): string
    requires cfg.Valid() && cfg.mode.Compressed?
    decreases |input|, 1
  {
    if input == "" && want > 0 then ""
    else
      var n := if want <= |input| then want else |input|;
      match cfg.mode.codec.decompress(input[..n])
      case None => ""
      case Some(x) => x + Decoded(cfg, input[n..])
  }

  // A completion that loses nothing: a read that falls short took all there was, and the
  // disk took what it was given.
  predicate Lossless(cfg: Config, input: string, s: Receiver, c: Completion)
    requires Possible(cfg, input, s, c)
  {
    match c
    case GotHeader(bytes) => cfg.mode.Compressed? && bytes < cfg.mode.width ==> s.taken + bytes == |input|
    case Got(bytes, failed) => failed ==> s.taken + bytes == |input|
    case Stored(ok) => ok
  }

  ghost predicate LosslessRun(cfg: Config, input: string, s: Receiver, run: seq<Completion>, t: Receiver)
    decreases |run|
  {
    if run == [] then s == t
    else
      && Possible(cfg, input, s, run[0]) && Lossless(cfg, input, s, run[0])
      && LosslessRun(cfg, input, Next(cfg, input, s, run[0]), run[1..], t)
  }

  // What is still to be written.
  function Rest(cfg: Config, input: string, s: Receiver): string
    requires cfg.Valid() && s.taken <= |input|
  {
    match s.pending
    case AwaitHeader => Decoded(cfg, input[s.taken..])
    case AwaitBytes(want) =>
      if cfg.mode.Stream? then input[s.taken..] else DecodedBody(cfg, want, input[s.taken..])
    case Storing(data) => data + Decoded(cfg, input[s.taken..])
    case Reported => ""
  }

  lemma Slices(input: string, taken: nat, n: nat)
    requires taken + n <= |input|
    ensures input[taken..][..n] == input[taken..taken + n] && input[taken..][n..] == input[taken + n..]
    ensures input[taken..] == input[taken..taken + n] + input[taken + n..]
  {
  }

  lemma BytesConserve(cfg: Config, input: string, s: Receiver, bytes: nat, failed: bool)
    requires cfg.Valid() && Inv(cfg, input, s) && Possible(cfg, input, s, Got(bytes, failed))
    requires Lossless(cfg, input, s, Got(bytes, failed))
    ensures Rest(cfg, input, Next(cfg, input, s, Got(bytes, failed))) == Rest(cfg, input, s)
  {
    Slices(input, s.taken, bytes);
    var rest := input[s.taken..];
    if cfg.mode.Stream? {
      assert failed && bytes == 0 ==> rest == "";
    } else {
      var want := s.pending.want;
      assert bytes == if want <= |rest| then want else |rest|;
      assert DecodedBody(cfg, want, rest) == Rest(cfg, input, s);
    }
  }

  // What is on the disk and what is still to be written never change together.
  lemma StepConserves(cfg: Config, input: string, s: Receiver, c: Completion)
    requires cfg.Valid() && Inv(cfg, input, s) && Possible(cfg, input, s, c) && Lossless(cfg, input, s, c)
    ensures var t := Next(cfg, input, s, c);
            t.taken <= |input| && t.disk + Rest(cfg, input, t) == s.disk + Rest(cfg, input, s)
  {
    match c
    case GotHeader(bytes) =>
      Slices(input, s.taken, bytes);
    case Got(bytes, failed) =>
      BytesConserve(cfg, input, s, bytes, failed);
    case Stored(ok) =>
      Assoc(s.disk, s.pending.data, Decoded(cfg, input[s.taken..]));
  }

  lemma {:induction false} RunConserves(cfg: Config, input: string, s: Receiver, run: seq<Completion>, t: Receiver)
    requires cfg.Valid() && Inv(cfg, input, s) && LosslessRun(cfg, input, s, run, t)
    ensures Inv(cfg, input, t) && t.disk + Rest(cfg, input, t) == s.disk + Rest(cfg, input, s)
    ensures Run(cfg, input, s, run, t)
    decreases |run|
  {
    if run != [] {
      NextKeeps(cfg, input, s, run[0]);
      StepConserves(cfg, input, s, run[0]);
      RunConserves(cfg, input, Next(cfg, input, s, run[0]), run[1..], t);
    }
  }

  lemma {:induction false} VerdictIsSize(cfg: Config, input: string, s: Receiver, run: seq<Completion>, t: Receiver)
    requires cfg.Valid() && Inv(cfg, input, s) && LosslessRun(cfg, input, s, run, t) && !s.pending.Reported?
    ensures t.pending.Reported? ==> t.verdicts == [t.written == cfg.size]
    decreases |run|
  {
    if run != [] {
      NextKeeps(cfg, input, s, run[0]);
      var u := Next(cfg, input, s, run[0]);
      if u.pending.Reported? {
        assert run[1..] == [];
      } else {
        VerdictIsSize(cfg, input, u, run[1..], t);
      }
    }
  }

  // Without disk errors, and when all that was sent arrives, what is written is what the
  // input decodes to, and the verdict is success if and only if that has the announced size.
  lemma VerdictExact(cfg: Config, input: string, run: seq<Completion>, t: Receiver)
    requires cfg.Valid() && LosslessRun(cfg, input, Start(cfg), run, t) && t.pending.Reported?
    ensures t.disk == Decoded(cfg, input)
    ensures t.verdicts == [|Decoded(cfg, input)| == cfg.size]
  {
    RunConserves(cfg, input, Start(cfg), run, t);
    VerdictIsSize(cfg, input, Start(cfg), run, t);
    assert input[0..] == input && t.disk + "" == t.disk;
    assert "" + Decoded(cfg, input) == Decoded(cfg, input);
  }

  // ---- Both ends ----

  // The codec gives back what it was given.
  ghost predicate Faithful(codec: Codec) {
    forall x :: codec.decompress(codec.compress(x)) == Some(x)
  }

  // The compressed chunk's length fits the header and the receiver's buffer.
  predicate Fits(cfg: Config, data: string) {
    cfg.mode.Compressed? ==> |Body(cfg.mode, data)| < Pow10(cfg.mode.width) && |Body(cfg.mode, data)| <= cfg.capacity
  }

  lemma FrameDecodes(cfg: Config, data: string, rest: string)
    requires cfg.Valid() && cfg.mode.Compressed? && Faithful(cfg.mode.codec) && Fits(cfg, data)
    ensures Decoded(cfg, Frame(cfg.mode, data) + rest) == data + Decoded(cfg, rest)
  {
    var h, b, w := Header(cfg.mode, data), Body(cfg.mode, data), cfg.mode.width;
    var input := h + b + rest;
    HeaderRoundTrip(|b|, w);
    assert input[..w] == h && input[w..] == b + rest;
    assert h == h[..w];
    assert (b + rest)[..|b|] == b && (b + rest)[|b|..] == rest;
    assert b + rest == "" ==> |b| == 0;
    assert DecodedBody(cfg, |b|, b + rest) == data + Decoded(cfg, rest);
  }

  lemma {:induction false} FramesDecode(cfg: Config, chunks: seq<string>)
    requires cfg.Valid() && (cfg.mode.Compressed? ==> Faithful(cfg.mode.codec))
    requires forall i :: 0 <= i < |chunks| ==> Fits(cfg, chunks[i])
    ensures Decoded(cfg, Frames(cfg.mode, chunks)) == Concat(chunks)
    decreases |chunks|
  {
    if cfg.mode.Stream? {
      StreamFrames(chunks);
    } else if chunks != [] {
      FramesDecode(cfg, chunks[1..]);
      FrameDecodes(cfg, chunks[0], Frames(cfg.mode, chunks[1..]));
    }
  }

  // A file that is sent and received without an error, in whatever pieces it is read, is
  // written byte for byte, and its receiver reports success.
  lemma TransferRoundTrip(cfg: Config, file: string, sending: seq<Delivery.Completion>, sender: Sender,
                          receiving: seq<Completion>, receiver: Receiver)
    requires cfg.Valid() && cfg.size == |file| && (cfg.mode.Compressed? ==> Faithful(cfg.mode.codec))
    requires CleanRun(cfg.mode, file, START, sending, sender) && sender.pending.CleanedUp?
    requires forall i :: 0 <= i < |sender.chunks| ==> Fits(cfg, sender.chunks[i])
    requires LosslessRun(cfg, sender.sent, Start(cfg), receiving, receiver) && receiver.pending.Reported?
    ensures receiver.disk == file && receiver.verdicts == [true]
  {
    StartOk(cfg.mode, file);
    CleanRunCompletes(cfg.mode, file, START, sending, sender);
    FramesDecode(cfg, sender.chunks);
    VerdictExact(cfg, sender.sent, receiving, receiver);
  }
}
