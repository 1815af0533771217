/** The handlers of the two file deliverers. The system calls them with the completions of the
    reads and writes they started; a read has filled the buffer by then. */
module FileDelivers {
  import opened ChunkHeader
  import opened Delivery

  class StreamModeFileDeliver {
    const buffer: array<char>
    var doneFlag: bool
    ghost var offset: nat
    ghost var pending: Pending
    ghost var sent: string
    ghost var cleanUps: nat
    ghost var chunks: seq<string>

    ghost function Model(): Sender
      reads this
    {
      Sender(offset, doneFlag, pending, sent, cleanUps, chunks)
    }

    constructor ()
      ensures Model() == START && fresh(buffer) && buffer.Length == KB500
    {
      buffer := new char[KB500];
      doneFlag := false;
      offset, pending, sent, cleanUps, chunks := 0, Reading, "", 0, [];
    }

    method CallCleanUpHandler()
      modifies this`pending, this`cleanUps
      ensures Model() == CleanUp(old(Model()))
    {
      pending, cleanUps := CleanedUp, cleanUps + 1;
    }

    method HandleRead(outcome: Outcome, bytes: nat)
      requires pending.Reading? && bytes <= buffer.Length
      modifies this
      ensures Model() == OnRead(Stream, old(Model()), buffer[..bytes], outcome, 0)
    {
      if outcome.Fine? || (outcome.EndOfFile? && bytes > 0) {
        if outcome.EndOfFile? {
          doneFlag := true;
        }
        offset, chunks := offset + bytes, chunks + [buffer[..bytes]];
        pending := Writing(buffer[..bytes]);
        assert sent + "" == sent;
      } else {
        CallCleanUpHandler();
      }
    }

    method HandleWrite(ok: bool, bytes: nat)
      requires pending.Writing? && bytes <= |pending.body|
      modifies this
      ensures Model() == OnWritten(old(Model()), bytes, ok)
    {
      if ok {
        sent := sent + pending.body;
        if doneFlag {
          CallCleanUpHandler();
          return;
        }
        pending := Reading;
      } else {
        sent := sent + pending.body[..bytes];
        CallCleanUpHandler();
      }
    }
  }

  class CompressedModeFileDeliver {
    const buffer: array<char>
    const codec: Codec
    const headerLength: nat
    var compressedChunk: string
    var doneFlag: bool
    ghost var offset: nat
    ghost var pending: Pending
    ghost var sent: string
    ghost var cleanUps: nat
    ghost var chunks: seq<string>

    ghost function Model(): Sender
      reads this
    {
      Sender(offset, doneFlag, pending, sent, cleanUps, chunks)
    }

    ghost function TheMode(): Mode {
      Compressed(codec, headerLength)
    }

    constructor (codec: Codec, headerLength: nat)
      ensures Model() == START && fresh(buffer) && buffer.Length == KB500
      ensures TheMode() == Compressed(codec, headerLength)
    {
      buffer := new char[KB500];
      this.codec, this.headerLength := codec, headerLength;
      compressedChunk, doneFlag := "", false;
      offset, pending, sent, cleanUps, chunks := 0, Reading, "", 0, [];
    }

    method CallCleanUpHandler()
      modifies this`pending, this`cleanUps
      ensures Model() == CleanUp(old(Model()))
    {
      pending, cleanUps := CleanedUp, cleanUps + 1;
    }

    // headerBytes: how much of the header the socket takes before the write of it returns.
    method HandleRead(outcome: Outcome, bytes: nat, headerBytes: nat)
      requires pending.Reading? && bytes <= buffer.Length
      modifies this
      ensures Model() == OnRead(TheMode(), old(Model()), buffer[..bytes], outcome, headerBytes)
      ensures pending.Writing? ==> pending.body == compressedChunk
    {
      if outcome.Fine? || (outcome.EndOfFile? && bytes > 0) {
        if outcome.EndOfFile? {
          doneFlag := true;
        }
        offset, chunks := offset + bytes, chunks + [buffer[..bytes]];
        compressedChunk := codec.compress(buffer[..bytes]);
        var comprLen := Padded(|compressedChunk|, headerLength);
        if headerBytes < |comprLen| {
          sent := sent + comprLen[..headerBytes];
          CallCleanUpHandler();
          return;
        }
        sent := sent + comprLen;
        pending := Writing(compressedChunk);
      } else {
        CallCleanUpHandler();
      }
    }

    method HandleWrite(ok: bool, bytes: nat)
      requires pending.Writing? && bytes <= |pending.body|
      modifies this
      ensures Model() == OnWritten(old(Model()), bytes, ok)
    {
      if ok {
        sent := sent + pending.body;
        if doneFlag {
          CallCleanUpHandler();
          return;
        }
        pending := Reading;
      } else {
        sent := sent + pending.body[..bytes];
        CallCleanUpHandler();
      }
    }
  }
}
