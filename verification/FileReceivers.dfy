/** The handlers of the two file receivers. The system calls them with the completions of the
    reads and writes they started; a read has filled the buffer by then. */
module FileReceivers {
  import opened ChunkHeader
  import opened Delivery
  import opened Reception

  class StreamModeFileReceiver {
    const buffer: array<char>
    const fileSize: nat
    var bytesWrottedToDisck: nat
    ghost var taken: nat
    ghost var pending: Reception.Pending
    ghost var disk: string
    ghost var verdicts: seq<bool>

    ghost function Model(): Receiver
      reads this
    {
      Receiver(taken, pending, disk, bytesWrottedToDisck, verdicts)
    }

    ghost function TheConfig(): Config {
      Config(Stream, buffer.Length, fileSize)
    }

    constructor (fileSize: nat, capacity: nat)
      ensures fresh(buffer) && TheConfig() == Config(Stream, capacity, fileSize) && Model() == Start(TheConfig())
    {
      buffer := new char[capacity];
      this.fileSize, bytesWrottedToDisck := fileSize, 0;
      taken, pending, disk, verdicts := 0, AwaitBytes(capacity), "", [];
    }

    // The completion handler is told whether the file arrived.
    method Verdict(ok: bool)
      modifies this`pending, this`verdicts
      ensures Model() == Report(old(Model()), ok)
    {
      pending, verdicts := Reported, verdicts + [ok];
    }

    method HandleRead(failed: bool, bytes: nat)
      requires pending.AwaitBytes? && bytes <= buffer.Length
      modifies this
      ensures Model() == OnBytes(TheConfig(), old(Model()), buffer[..bytes], failed)
    {
      taken := taken + bytes;
      if !failed || bytes > 0 {
        pending := Storing(buffer[..bytes]);
      } else {
        Verdict(bytesWrottedToDisck == fileSize);
      }
    }

    method HandleWrite(ok: bool, bytes: nat)
      requires pending.Storing? && (ok ==> bytes == |pending.data|)
      modifies this
      ensures Model() == OnStored(TheConfig(), old(Model()), ok)
    {
      if ok {
        disk := disk + pending.data;
        bytesWrottedToDisck := bytesWrottedToDisck + bytes;
        pending := AwaitBytes(buffer.Length);
      } else {
        Verdict(false);
      }
    }
  }

  class CompressedModeFileReceiver {
    const buffer: array<char>
    const fileSize: nat
    const codec: Codec
    const headerLength: nat
    var decompressedChunk: string
    var bytesWrottedToDisck: nat
    ghost var taken: nat
    ghost var pending: Reception.Pending
    ghost var disk: string
    ghost var verdicts: seq<bool>

    ghost function Model(): Receiver
      reads this
    {
      Receiver(taken, pending, disk, bytesWrottedToDisck, verdicts)
    }

    ghost function TheConfig(): Config {
      Config(Compressed(codec, headerLength), buffer.Length, fileSize)
    }

    constructor (fileSize: nat, capacity: nat, codec: Codec, headerLength: nat)
      ensures fresh(buffer) && TheConfig() == Config(Compressed(codec, headerLength), capacity, fileSize)
      ensures Model() == Reception.Start(TheConfig())
    {
      buffer := new char[capacity];
      this.fileSize, bytesWrottedToDisck, this.codec, this.headerLength := fileSize, 0, codec, headerLength;
      decompressedChunk := "";
      taken, pending, disk, verdicts := 0, AwaitHeader, "", [];
    }

    method CheckFileDownloadSuccess()
      modifies this`pending, this`verdicts
      ensures Model() == CheckSize(TheConfig(), old(Model()))
    {
      if bytesWrottedToDisck == fileSize {
        pending, verdicts := Reported, verdicts + [true];
      } else {
        pending, verdicts := Reported, verdicts + [false];
      }
    }

    // The header is read into the buffer, over what an earlier frame left there, and closed
    // with a zero; the number in front of that is the length of the body to read.
    method ReadHeader(header: string)
      requires TheConfig().Valid() && |header| <= headerLength
      modifies this, buffer
      ensures Model() == OnHeader(TheConfig(), old(Model()), header)
    {
      taken := taken + |header|;
      for i := 0 to |header|
        invariant buffer[..i] == header[..i]
        modifies buffer
      {
        buffer[i] := header[i];
      }
      if |header| < headerLength {
        CheckFileDownloadSuccess();
        return;
      }
      buffer[headerLength] := '\0';
      assert buffer[..] == header + ['\0'] + buffer[headerLength + 1..];
      AtollStops(header, buffer[headerLength + 1..]);
      var length := ReadNumber(buffer);
      pending := AwaitBytes(Clamped(length, buffer.Length));
    }

    method HandleRead(failed: bool, bytes: nat)
      requires pending.AwaitBytes? && bytes <= buffer.Length
      modifies this
      ensures Model() == OnBytes(TheConfig(), old(Model()), buffer[..bytes], failed)
      ensures pending.Storing? ==> pending.data == decompressedChunk
    {
      taken := taken + bytes;
      if !failed || bytes > 0 {
        var chunk := codec.decompress(buffer[..bytes]);
        match chunk
        case Some(x) =>
          decompressedChunk := x;
          pending := Storing(decompressedChunk);
        case None =>
          CheckFileDownloadSuccess();
      } else {
        CheckFileDownloadSuccess();
      }
    }

    // header: what the read of the next header brings, if it comes to that.
    method HandleWrite(ok: bool, bytes: nat, header: string)
      requires TheConfig().Valid() && |header| <= headerLength && pending.Storing? && (ok ==> bytes == |pending.data|)
      modifies this, buffer
      ensures Model() == if ok then OnHeader(TheConfig(), OnStored(TheConfig(), old(Model()), true), header)
                         else OnStored(TheConfig(), old(Model()), false)
    {
      if ok {
        disk := disk + pending.data;
        bytesWrottedToDisck := bytesWrottedToDisck + bytes;
        pending := AwaitHeader;
        ReadHeader(header);
      } else {
        CheckFileDownloadSuccess();
      }
    }
  }
}
