/** The managers of waiting requests and of transactions, and the connection manager's part
    in downloads, each proved to do what the step functions of the Rendezvous module say. */
module DownloadManagers {
  import opened Rendezvous

  ghost predicate OneEntryPerFile(backup: map<ReqId, DownloadInfo>) {
    forall id, jd :: id in backup && jd in backup && backup[id].file == backup[jd].file ==> id == jd
  }

  class RequestsBackupManager {
    var backedupRequests: map<ReqId, DownloadInfo>

    constructor ()
      ensures backedupRequests == map[]
    {
      backedupRequests := map[];
    }

    method BackupAndStartTimer(id: ReqId, info: DownloadInfo)
      requires id !in backedupRequests
      modifies this
      ensures backedupRequests == old(backedupRequests)[id := info.(timerArmed := true)]
    {
      backedupRequests := backedupRequests[id := info.(timerArmed := false)];
      backedupRequests := backedupRequests[id := backedupRequests[id].(timerArmed := true)];
    }

    // The list of a request that is not backed up is an empty one, created and erased.
    method Take(id: ReqId) returns (requests: seq<Request>)
      modifies this
      ensures requests == Waiting(old(backedupRequests), id)
      ensures backedupRequests == old(backedupRequests) - {id}
    {
      if id !in backedupRequests {
        backedupRequests := backedupRequests[id := DownloadInfo(Wanted("", ""), [], false)];
      }
      requests := backedupRequests[id].requests;
      backedupRequests := backedupRequests - {id};
    }

    method IsRequestIDValid(id: ReqId) returns (valid: bool, file: Wanted)
      modifies this
      ensures valid <==> id in old(backedupRequests)
      ensures valid ==> file == old(backedupRequests)[id].file &&
                        backedupRequests == old(backedupRequests)[id := old(backedupRequests)[id].(timerArmed := false)]
      ensures !valid ==> backedupRequests == old(backedupRequests)
    {
      file := Wanted("", "");
      valid := id in backedupRequests;
      if valid {
        backedupRequests := backedupRequests[id := backedupRequests[id].(timerArmed := false)];
        file := backedupRequests[id].file;
      }
    }

    // A request for a file somebody waits for already joins the list, at its front.
    method IsDownloadPending(file: Wanted, r: Request) returns (pending: bool)
      requires OneEntryPerFile(backedupRequests)
      modifies this
      ensures pending <==> Pending(old(backedupRequests), file)
      ensures backedupRequests == if pending then JoinEntry(old(backedupRequests), file, r) else old(backedupRequests)
    {
      var todo := backedupRequests.Keys;
      while todo != {}
        invariant todo <= backedupRequests.Keys && backedupRequests == old(backedupRequests)
        invariant forall id :: id in backedupRequests && backedupRequests[id].file == file ==> id in todo
      {
        var id :| id in todo;
        if backedupRequests[id].file == file {
          backedupRequests := backedupRequests[id := backedupRequests[id].(requests := [r] + backedupRequests[id].requests)];
          return true;
        }
        todo := todo - {id};
      }
      pending := false;
    }
  }

  class DownloadManager {
    const wire: Wire
    var downloadTransactions: map<ReqId, Download>
    var armedTimers: set<ReqId>
    var uploadTransactions: map<UpId, Upload>
    var uploadTransactionsIDCounter: UpId
    var localFiles: map<string, string>
    ghost var greeted: set<ReqId>
    ghost var begun: map<UpId, Upload>

    ghost function Ups(): Uploads
      reads this
    {
      Uploads(uploadTransactions, begun, uploadTransactionsIDCounter)
    }

    constructor (wire: Wire)
      ensures this.wire == wire && downloadTransactions == map[] && armedTimers == {} && greeted == {}
      ensures localFiles == map[]
      ensures Ups() == Uploads(map[], map[], 1)
    {
      this.wire := wire;
      downloadTransactions, armedTimers := map[], {};
      uploadTransactions, uploadTransactionsIDCounter := map[], 1;
      localFiles, greeted, begun := map[], {}, map[];
    }

    method BeginDownloadTransaction(a: Accepted, created: bool) returns (ok: bool)
      modifies this`downloadTransactions, this`armedTimers, this`localFiles
      ensures ok == created
      ensures localFiles == if ok then old(localFiles)[a.file.LocalName() := ""] else old(localFiles)
      ensures armedTimers == if ok then old(armedTimers) + {a.id} else old(armedTimers)
      ensures downloadTransactions == if ok && a.id !in old(downloadTransactions)
                then old(downloadTransactions)[a.id := Fresh(wire, a)]
                else old(downloadTransactions)
    {
      if !created {
        return false;
      }
      localFiles := localFiles[a.file.LocalName() := ""];
      if a.id !in downloadTransactions {
        downloadTransactions := downloadTransactions[a.id := Fresh(wire, a)];
      }
      armedTimers := armedTimers + {a.id};
      ok := true;
    }

    method CloseDownloadTransaction(id: ReqId)
      modifies this`downloadTransactions
      ensures downloadTransactions == CloseDownload(old(downloadTransactions), id)
    {
      if id in downloadTransactions {
        downloadTransactions := downloadTransactions[id := downloadTransactions[id].(handleOpen := false)];
      }
    }

    method EndDownloadTransaction(id: ReqId) returns (erased: nat)
      modifies this`downloadTransactions
      ensures downloadTransactions == old(downloadTransactions) - {id}
      ensures erased == if id in old(downloadTransactions) then 1 else 0
    {
      erased := if id in downloadTransactions then 1 else 0;
      downloadTransactions := downloadTransactions - {id};
    }

    // input: what the connected sender will send.
    method TryStartDownloadTransaction(id: ReqId, input: string)
      modifies this`downloadTransactions, this`armedTimers, this`greeted
      ensures id in old(downloadTransactions) ==>
                downloadTransactions == old(downloadTransactions)[id := old(downloadTransactions)[id].(running := true, input := input)] &&
                armedTimers == old(armedTimers) - {id} && greeted == old(greeted) + {id}
      ensures id !in old(downloadTransactions) ==>
                downloadTransactions == old(downloadTransactions) && armedTimers == old(armedTimers) && greeted == old(greeted)
    {
      if id in downloadTransactions {
        armedTimers := armedTimers - {id};
        downloadTransactions := downloadTransactions[id := downloadTransactions[id].(running := true, input := input)];
        greeted := greeted + {id};
      }
    }

    // An empty, missing or locked file is refused; a large one keeps an offered zlib.
    method BeginUploadTransaction(localName: string, wanted: Compression, probe: Probe)
      returns (ok: bool, mode: Compression, transactionID: UpId)
      modifies this`uploadTransactions, this`uploadTransactionsIDCounter, this`begun
      ensures Ups() == BeginUpload(old(Ups()), localName, wanted, probe)
      ensures ok <==> probe.size != 0 && probe.readable && probe.opens
      ensures ok ==> transactionID == old(uploadTransactionsIDCounter) && transactionID in uploadTransactions &&
                     uploadTransactions[transactionID] == Upload(localName, mode)
      ensures ok && mode == Zlib <==> ok && wanted == Zlib && probe.size > 100 * 1024 * 1024
      ensures ok ==> mode in {NoCompression, Zlib}
    {
      mode, transactionID := wanted, 0;
      if probe.size == 0 || !probe.readable {
        return false, mode, transactionID;
      }
      if !probe.opens {
        return false, mode, transactionID;
      }
      if probe.size > LARGE_FILE {
        mode := if mode == Zlib then mode else NoCompression;
      } else {
        mode := NoCompression;
      }
      transactionID := uploadTransactionsIDCounter;
      uploadTransactions := uploadTransactions[transactionID := Upload(localName, mode)];
      begun := begun[transactionID := Upload(localName, mode)];
      uploadTransactionsIDCounter := uploadTransactionsIDCounter + 1;
      ok := true;
    }

    method EndUploadTransaction(up: UpId) returns (erased: nat)
      modifies this`uploadTransactions
      ensures Ups() == old(Ups()).(running := old(uploadTransactions) - {up})
      ensures erased == if up in old(uploadTransactions) then 1 else 0
    {
      erased := if up in uploadTransactions then 1 else 0;
      uploadTransactions := uploadTransactions - {up};
    }
  }

  // The server's list is searched in its order, the user's for each of its elements.
  method GetCompression(offered: seq<Compression>) returns (c: Compression)
    ensures c == Negotiated(offered)
  {
    if offered == [] {
      return NoCompression;
    }
    var supported := [Zlib, Gzip];
    for i := 0 to |supported|
      invariant forall k :: 0 <= k < i ==> supported[k] !in offered
    {
      for j := 0 to |offered|
        invariant supported[i] !in offered[..j]
      {
        if supported[i] == offered[j] {
          assert i == 1 ==> supported[0] !in offered;
          return supported[i];
        }
      }
      assert offered[..|offered|] == offered;
    }
    assert supported[0] !in offered && supported[1] !in offered;
    c := NoCompression;
  }
}
