# Verification of the FSP server

FSP is a file-sharing rendezvous server. Every signed-in user keeps on the server a tree of the
paths it shares; the server tells all users about each other's trees, and arranges for one user
to download another user's file. This project models the parts of the server in which something
can go wrong silently, and proves what they promise.

Run `dafny verify dfyconfig.toml` in this directory to check everything.

| part | files | main results |
|---|---|---|
| Virtual file system | `Paths`, `PathTree`, `TreeNode`, `TreeFacts`, `VirtualFileSystem` | a heap tree with parent pointers, renamed, cut and listed in place, refines a prefix-closed map from component sequences to the cached flag |
| Notifications and broadcast | `Notifications`, `Broadcast`, `BroadcastRuns`, `CommandGate`, `ConnectionManager`, `ServerSideHandler`, `SharedWrite`, `WriteCompletions` | over every run, the view of every user converges to exactly what has been announced to it of the others' trees; the handlers, on the users' heap trees, take exactly the runs' steps; every shared buffer's countdown equals its outstanding and lost writes |
| Download rendezvous | `Rendezvous`, `RendezvousRuns`, `RendezvousTheorems`, `RendezvousAnswers`, `RendezvousProgress`, `RendezvousLiveness`, `RendezvousTimers`, `RendezvousFiles`, `RendezvousTransfers`, `DownloadManagers`, `DownloadResolver`, `UploadRace` | over every interleaving of queries, replies, timers, greetings and completions, a query of a requester that stays is answered exactly once or waits in exactly one list; if the agents of the lists are never held up for ever, every such query is answered, and approved exactly if the file is good then; a file sent without an error for an approval is received and stored byte for byte, in the approved mode |
| Between the two | `SharedTrees` | what notifications and handlers do to the trees is a run of the download protocol on the same trees, and a finished download is marked in its owner's heap tree |
| Transfer | `ChunkHeader`, `Delivery`, `FileDelivers`, `Reception`, `FileReceivers` | a file sent and received without an error is written byte for byte, in stream and in compressed mode; one clean-up and one verdict on every run |
| Scheduler | `PriorityScheduler` | posted is queued plus taken, with the priorities it was posted with, and a waiting item goes before any item posted with a lower one |

## How the model is built

Code that changes objects in place is modelled by classes with the same fields, and each method is
proved against a function of the old state. A protocol that several threads take part in is a
state machine whose steps are the original's critical sections; a run is any sequence of enabled
steps, and the main results hold of every run from the start. The classes' methods are proved to
take exactly those steps: the connection manager holds the users' heap trees, each method keeps
its record of every user equal to what that user's tree holds (`Linked`), and a handler changes
the tree and announces the change as the two steps of a run; listings are taken from the trees. A
download in the protocol holds the receiver of `Reception`, its steps are the receiver's
completions, and the local files are part of its state. `SharedTrees` joins the two protocols.

Assumptions, all of them about code that is not part of this model or about races the repository
rules out in its own comments:

* A connection has at most one command in flight, is not stopped between a command's acceptance
  and its announcement, and receives its messages in order. Signing in checks the nickname and
  takes it in one step, so nicknames of signed-in clients are distinct.
* Write completions are handled one at a time, as the warning in `connection_manager.h` demands.
* Bodies of `assert(...)` with effects are carried out. Where such an assertion can fail the
  model goes on, and lemmas say when it can: at the end of a download
  (`RendezvousTimers.EndFindsTransaction`), at the marking of its node
  (`RendezvousFiles.MarkFindsUnlessLost`) and at the end of an upload (`UploadRace.CleanUpExactly`).
* A timer that runs survives the erasure of its transaction, as the pointer to itself in its
  handler suggests; the timer's own code is not part of this model.
* `do_add` reads its current component by value: the reference it keeps dangles after `pop_front`.
* The root's name is the separator.
* Listing a tree is one step, although the original takes the lock once for each top-level child.
* Resolving one download query is one step. Handlers of the download manager's own thread do not
  overlap with each other; everything else interleaves with them.
* A local file that is open for writing cannot be created a second time, which is what its share
  mode says; unlinked while open, it is written to in vain. A failed write leaves nothing there,
  local names differ if their strings do, and nobody but the server touches the local files.
* A sender greets a transaction at most once. An owner does not choose gzip, for which no
  receiver is built.
* A read of the disk or the network yields the next bytes; a composed read or write falls short
  only when it fails.
* Other users' programs are not in the repository: a client's view is taken to insert, erase and
  rename paths as the notification it receives says.

## What was found on the way

* Adding a path that is already a node hangs a second node below it, named like its last
  component. The notified users do not see it: their view follows the tree if and only if the
  added path was new (`PathTree.AddMatchesInsert`, `BroadcastRuns.HidesExactly`). From then on
  a view is exactly the tree without the paths that no announcement has shown it
  (`BroadcastRuns.ViewsConverge`). Adding the path twice more gives two siblings of one name
  (`VirtualFileSystem.VirtualFileSystemTree.Add`).
* Renaming a node onto a sibling's name gives two siblings of one name; it does so exactly when
  that name is taken (`VirtualFileSystem.VirtualFileSystemTree.Rename`).
* The countdown of an announcement fits the writes it starts if and only if the announcer is a
  processing client at that moment (`BroadcastRuns.CountdownFitsExactly`).
* A second approval of a request whose transaction is just being closed starts the stored
  transaction's timer again; the timer then outlives the transaction, and the assertion that ends
  it fails. This happens in runs from the start (`RendezvousTimers.EndMissesTransaction`). A run
  without such a restart never fails there (`RendezvousTimers.EndFindsTransaction`), and the first
  restart of any run lets it go on to the failure (`RendezvousTimers.RestartIsFatal`).
* The same second approval creates the local file anew. A node can therefore be marked cached
  whose file is empty (`RendezvousFiles.EmptyFileCached`); the file is what was received exactly if
  nobody unlinked it, and nobody created it anew, before the marking, or if nothing was announced
  (`RendezvousFiles.MarkedFileExactly`).
* A user can remove a path while its download is being completed. The assertion around the
  marking then fails (`RendezvousFiles.MarkMisses`); it holds if nobody took the path away since
  the query, or if the owner is gone (`RendezvousFiles.MarkFindsUnlessLost`, `LastChanceToLose`).
* The upload counter is read without the lock for the clean-up handler and for the answer, and
  again under it for the key. Keys never collide (`UploadRace.KeysNeverCollide`), but an approval
  names the transaction of the first thread that stores after its read: its own if and only if
  nobody stores in between (`UploadRace.OwnUnlessOvertaken`). An ID that nobody announced before
  can be another's all the same (`UploadRace.InterleavedReadsCollide`); all approvals of a run are
  right if and only if no two announce one ID (`UploadRace.AllOwnExactly`). A clean-up that was
  overtaken erases another thread's transaction, or finds none (`UploadRace.CleanUpExactly`,
  `CleanUpHitsAnother`, `CleanUpMisses`).
* The local file a download uses and the one a removal unlinks are the same if and only if the
  path was given in canonical form (`RendezvousTheorems.DownloadedIsUnlinked`).

## Model

| member | source | states |
|---|---|---|
| Paths.TokensJoin | FSPServer/VirtualFileSystemTree.h:239-243 | the tokens of a path are separator-free and, joined by the separator, give the path back |
| Paths.JoinTokens | FSPServer/VirtualFileSystemTree.h:239-243 | separator-free tokens joined by the separator are split back into themselves, so the splitting is the only one |
| Paths.ComponentsValid | FSPServer/VirtualFileSystemTree.h:239-243 | every component of any path string is non-empty and free of separators, the invariant of all node names |
| Paths.ComponentsConcat | FSPServer/VirtualFileSystemTree.h:239-243 | two strings with a separator between them are split into the components of the first followed by those of the second |
| Paths.ComponentsOfName | FSPServer/VirtualFileSystemTree.h:239-243 | a string without a separator is split into itself, or into nothing if it is empty; with the row above this fixes the components of every string |
| Paths.ComponentsOfCanonical | FSPServer/VirtualFileSystemTree.h:239-243 | a listed path string is split back into the component sequence of its node |
| Paths.CanonicalIff | FSPServer/VirtualFileSystemTree.h:239-243 | a path string equals the canonical string of its own components if and only if it starts with a separator, does not end with one and doubles none |
| Paths.Filename | FSPServer/VirtualFileSystemTree.h:245-253 | the backward scan finds what follows the last separator, the whole string if there is none: the last token, which holds no separator |
| PathTree.AddClosed | FSPServer/VirtualFileSystemTree.h:262-297 | adding any path, present or not, keeps the map closed under prefixes |
| PathTree.AddMatchesInsert | FSPServer/VirtualFileSystemTree.h:270-284 | the tree after an addition has exactly the missing prefixes more if and only if the path was not a node (or its phantom child was there already) |
| PathTree.AddKeepsFlags | FSPServer/VirtualFileSystemTree.h:262-297 | an addition removes no path, and every path in the tree afterwards is cached exactly if it was before |
| PathTree.RenameRekeys | FSPServer/VirtualFileSystemTree.h:188-218 | renaming moves exactly the subtree of the renamed node, one to one, and keeps every flag |
| PathTree.RenameBack | FSPServer/VirtualFileSystemTree.h:188-218 | renaming a node back restores the whole map, flags included |
| PathTree.RemoveUndoesAdd | FSPServer/VirtualFileSystemTree.h:144-186 | removing a path just added below an existing parent restores the map |
| PathTree.ListingRebuilds | FSPServer/VirtualFileSystemTree.h:154-162 | adding all leaves of a path set to an empty tree, in any order, rebuilds the set, every node uncached |
| TreeNode.Node.constructor | FSPServer/VirtualFileSystemTree.h:51-59 | a new node is uncached and childless and is the first child of its parent, in front of those it had |
| TreeNode.Node.GetChildren | FSPServer/VirtualFileSystemTree.h:83-89 | returns a child of that name, and null only if there is none |
| TreeNode.Node.LocalPathToMe | FSPServer/VirtualFileSystemTree.h:112-128 | the backwards-gathered, reversed path is the owner followed by every component with a separator in front |
| TreeNode.Node.Delete | FSPServer/VirtualFileSystemTree.h:63-79 | destroying a node takes it out of its parent's child list, terminates, and unlinks the local paths of the cached nodes of its subtree in the order of the walk |
| TreeNode.WalkExact | FSPServer/VirtualFileSystemTree.h:76-78 | the recursive walk over a subtree meets each of its nodes exactly once |
| TreeFacts.WalkStrings | FSPServer/VirtualFileSystemTree.h:322-341 | the path strings of a walk are those of the picked nodes at or below a path, each once |
| TreeFacts.LeafIffNoChildren | FSPServer/VirtualFileSystemTree.h:90 | a node has no children if and only if no longer path extends its path |
| TreeFacts.ListingsPartition | FSPServer/VirtualFileSystemTree.h:332-338 | the FILE and DIRECTORY listings are disjoint and together are the GENERIC listing |
| TreeFacts.MovedTree | FSPServer/VirtualFileSystemTree.h:188-218 | after the name of one node changed, the same nodes form a valid tree for the moved paths, and stand for the renamed map |
| VirtualFileSystem.VirtualFileSystemTree.constructor | FSPServer/VirtualFileSystemTree.h:131-135 | a new tree is well formed and stands for the empty map |
| VirtualFileSystem.VirtualFileSystemTree.NoTwins | FSPServer/VirtualFileSystemTree.h:262-297 | in a well-formed tree no node has two children of one name |
| VirtualFileSystem.VirtualFileSystemTree.DoFindPath | FSPServer/VirtualFileSystemTree.h:343-357 | the descent finds the node whose key is the start's key followed by the components, if and only if there is one |
| VirtualFileSystem.VirtualFileSystemTree.Find | FSPServer/VirtualFileSystemTree.h:164-174 | finds a path if and only if its components are a key of the map, and reads that key's flag |
| VirtualFileSystem.VirtualFileSystemTree.SetCached | FSPServer/VirtualFileSystemTree.h:220-230 | changes the flag of that one key, nothing else, and succeeds if and only if the key is there |
| VirtualFileSystem.VirtualFileSystemTree.Empty | FSPServer/VirtualFileSystemTree.h:232-237 | is true if and only if the map is empty |
| VirtualFileSystem.VirtualFileSystemTree.DoGetPaths | FSPServer/VirtualFileSystemTree.h:322-341 | each recursion gives the current path back as it got it, and puts the strings of its subtree's picked nodes in front of those gathered before |
| VirtualFileSystem.VirtualFileSystemTree.Get | FSPServer/VirtualFileSystemTree.h:154-162 | the listing holds, each once, the canonical strings of exactly the leaves, the inner nodes or all nodes |
| VirtualFileSystem.VirtualFileSystemTree.DoAdd | FSPServer/VirtualFileSystemTree.h:262-297 | the recursion with its loop over the children and its by-value flag reaches the goal map from any node on the way, or hangs a twin |
| VirtualFileSystem.VirtualFileSystemTree.Add | FSPServer/VirtualFileSystemTree.h:144-152 | the tree stays well formed and stands for the map with the path's missing prefixes added (a phantom child if none was missing); if the phantom child was there it gets a twin |
| VirtualFileSystem.VirtualFileSystemTree.Remove | FSPServer/VirtualFileSystemTree.h:176-186 | cuts off exactly the subtree, succeeds if and only if there is one, and unlinks exactly the local files of its cached nodes, each once |
| VirtualFileSystem.VirtualFileSystemTree.Rename | FSPServer/VirtualFileSystemTree.h:188-218 | rekeys exactly the subtree; fails if and only if there is no node or no new name; gives two siblings of one name if and only if the name was taken by another sibling |
| VirtualFileSystem.VirtualFileSystemTree.DestroyAll | FSPServer/VirtualFileSystemTree.h:137-140 | destroying the tree unlinks exactly the local files of all cached nodes, each once |
| Notifications.ViewFollowsTree | FSPServer/server_side_handler.cpp:277-337 | a view that held the tree's paths holds them again after the announcement if and only if no existing path was added |
| Notifications.ViewApplyTwice | FSPServer/connection_manager.cpp:169-201 | hearing of a change that the snapshot already contained changes nothing |
| Notifications.ViewStaysWithin | FSPServer/server_side_handler.cpp:277-337 | whatever is announced, a view that shows none but the tree's paths shows none but its paths afterwards |
| Notifications.TreeAbsorbs | FSPServer/connection_manager.cpp:169-201 | a snapshot that already holds a change is not altered by that change's announcement, the addition of an existing path included |
| Notifications.ViewShowsAllButUnseen | FSPServer/server_side_handler.cpp:277-337 | a view that shows exactly the tree without some unseen paths does so after every announcement, the unseen paths being moved, erased, shown and added to by the change |
| Notifications.ListingRoundTrip | FSPServer/connection_manager.cpp:129-147 | the paths of a listing, added to an empty tree in the order they come, give the listed tree's path set, every node uncached and no sibling twice |
| Notifications.OpKeeps | FSPServer/server_side_handler.cpp:277-337 | every change a handler makes keeps the map prefix-closed and its names valid |
| BroadcastRuns.NextKeeps | FSPServer/connection_manager.cpp:42-298 | every critical section, command and completion keeps the whole protocol invariant |
| BroadcastRuns.ViewsConverge | FSPServer/connection_manager.cpp:115-207 | in every reachable state a processing client's view with its undelivered notifications applied shows exactly the other processing users and, up to the one announcement a user still owes, exactly their paths but for those that no announcement has shown to this client |
| BroadcastRuns.QuietViewsExact | FSPServer/connection_manager.cpp:276-298 | with nothing undelivered and nothing owed, a view is exactly the other users' trees without the paths never announced to it |
| BroadcastRuns.HidesExactly | FSPServer/server_side_handler.cpp:277-293 | a change hides something from a client that has been shown the whole tree if and only if it adds a path that is a node already |
| BroadcastRuns.BuffersConserved | FSPServer/connection_manager.h:73-78 | the processing counter is the number of processing clients; every outstanding write has its buffer; every stored countdown is its outstanding plus its lost writes and at least one |
| BroadcastRuns.LastCompletionFrees | FSPServer/connection_manager.cpp:209-216 | a completion finds its buffer and erases it if and only if no other write of it is outstanding or lost, touching no other buffer |
| BroadcastRuns.AnnouncementReaches | FSPServer/connection_manager.cpp:276-298 | an announcement starts exactly one write of a new buffer to every processing client but its subject, and counts them |
| BroadcastRuns.RegistrationReaches | FSPServer/connection_manager.cpp:163-204 | a registration is written once to everyone processing before, makes one more processing client, and counts the writes |
| BroadcastRuns.DisconnectionReaches | FSPServer/connection_manager.cpp:65-85 | a processing client's disconnection is written once to everyone still processing, and the counter follows |
| BroadcastRuns.DisconnectionErases | FSPServer/connection_manager.cpp:62-73 | any disconnection takes exactly that connection out, and that of a client that is not processing tells nobody |
| BroadcastRuns.CountdownFitsExactly | FSPServer/connection_manager.cpp:279-289 | the stored countdown is the number of recipients if and only if the announcer's nickname is that of a processing client |
| CommandGate.GateOpensStep | FSPServer/transition_validator.cpp:15-42 | with its content in order, a command's step is enabled if and only if the gate accepts the command in the client's state |
| CommandGate.GateEndsSession | FSPServer/transition_validator.cpp:17-39 | a logout or an account deletion passes if and only if its client has signed in, and its disconnection is possible then |
| CommandGate.GateTakesReplies | FSPServer/transition_validator.cpp:31-39 | a reply to a query of the server passes if and only if its client is processing |
| CommandGate.GateRefuses | FSPServer/transition_validator.cpp:15-42 | an unknown command passes in no state, and a refusal names the state |
| CommandGate.SharingStays | FSPServer/transition_validator.cpp:31-39 | in every run a client that has pushed its files can have its reply let through from then on, as long as it is connected and its registration is not just going on |
| CommandGate.AnnouncerIsProcessing | FSPServer/transition_validator.cpp:31-39 | in every run whoever announces is a processing client, so the countdown of each announcement is the number of its recipients |
| ConnectionManagers.ConnectionManager.Start | FSPServer/connection_manager.cpp:33-39 | a new connection enters with an empty tree of its own; the others keep theirs |
| ConnectionManagers.ConnectionManager.IsLogged | FSPServer/connection_manager.cpp:104-112 | is true if and only if some connection bears the nickname |
| ConnectionManagers.ConnectionManager.FindByNickname | FSPServer/connection_manager.cpp:387-393 | finds a connection that bears the nickname if and only if there is one |
| ConnectionManagers.ConnectionManager.DoNotify | FSPServer/connection_manager.cpp:276-298 | the loop over the connections sends to exactly the processing clients under another nickname, or nothing is stored when there is nobody else |
| ConnectionManagers.ConnectionManager.NotifyFileAdd | FSPServer/connection_manager.cpp:218-235 | makes the addition that the notifier owes known under its nickname, as one step of a run, and leaves every tree and its record alone |
| ConnectionManagers.ConnectionManager.NotifyPathRemoved | FSPServer/connection_manager.cpp:237-254 | makes the removal that the notifier owes known under its nickname, as one step of a run |
| ConnectionManagers.ConnectionManager.NotifyPathRenamed | FSPServer/connection_manager.cpp:256-274 | makes the old path and the new name that the notifier owes known under its nickname, as one step of a run |
| ConnectionManagers.ConnectionManager.TreeChanged | FSPServer/connection_manager.cpp:218-274 | once a client's heap tree holds a change, recording and announcing it are the two steps of a run |
| ConnectionManagers.ConnectionManager.NotifyDisconnection | FSPServer/connection_manager.cpp:42-86 | takes exactly the protocol's disconnection step, in all three cases |
| ConnectionManagers.ConnectionManager.Stop | FSPServer/connection_manager.cpp:59-86 | a leaving client takes its tree with it, and every other record still is that of its tree |
| ConnectionManagers.ConnectionManager.ListTrees | FSPServer/connection_manager.cpp:132-136 | the listings of the registering client and of everyone processing are those of their heap trees |
| ConnectionManagers.ConnectionManager.NotifyFilesRegistration | FSPServer/connection_manager.cpp:115-206 | takes exactly an enabled registration step: the listing sent and every listing of the snapshot come from the clients' own trees |
| ConnectionManagers.ConnectionManager.SendAndCollect | FSPServer/connection_manager.cpp:183-191 | the loop writes the buffer to every processing client and collects exactly their listings, each under its nickname |
| ConnectionManagers.ConnectionManager.NotifySharedWriteDone | FSPServer/connection_manager.cpp:209-216 | counts one write of one buffer down and erases it at zero |
| ConnectionManagers.ConnectionManager.StopAll | FSPServer/connection_manager.cpp:94-101 | leaves no connection, no tree and a zero counter |
| ServerSideHandler.DoSignin | FSPServer/server_side_handler.cpp:161-196 | a client signs in if and only if its password is right and nobody bears the nickname; that is the sign-in step of a run, and its tree is then owned by that nickname; else nothing changes |
| ServerSideHandler.DoPushFiles | FSPServer/server_side_handler.cpp:257-275 | the loop adds every pushed path to the client's heap tree, in order, and the registration follows: together the push and registration steps of a run |
| ServerSideHandler.DoAddFile | FSPServer/server_side_handler.cpp:277-293 | the heap tree gets the path and exactly that is announced: together the change and announcement steps of a run; if the path is a node with a child named like itself, it has two such children afterwards, and the announcement is made all the same |
| ServerSideHandler.DoRemovePath | FSPServer/server_side_handler.cpp:295-315 | a removal that succeeds takes the change and announcement steps of a run and unlinks the cached files; it fails if and only if that change is not enabled, and then nothing changes and nobody is told |
| ServerSideHandler.DoRenamePath | FSPServer/server_side_handler.cpp:317-337 | it fails, telling nobody, if and only if there is no such node or no such name; else it is announced, and unless a sibling has the name these are the change and announcement steps of a run; if one has, there are two siblings of that name |
| ServerSideHandler.Mirror | FSPServer/server_side_handler.cpp:263-266 | listing one heap tree and pushing the listing into an empty one gives a tree of the same paths, none cached, and leaves the first as it was |
| SharedWrites.BufferArrives | FSPServer/connection.cpp:53-87 | for every sequence of partial sends the offset is inside the buffer whenever a send starts, the pieces make up the part before it, and completion is notified once exactly when they make up the buffer, never after a failure |
| SharedWrites.SharedWrite.AsyncSharedWrite | FSPServer/connection.cpp:53-58 | what is sent is the rest of the buffer, and it is not empty |
| SharedWrites.SharedWrite.HandleSent | FSPServer/connection.cpp:60-86 | continues with the rest, completes, stops or gives up as the completion demands |
| WriteCompletions.HandleSharedSent | FSPServer/connection.cpp:60-86 | a completion of a shared write is no step of the manager while more is to be sent, the completed write at the end, the lost write of a client that is gone, or the disconnection of a client whose socket failed followed by the lost write |
| RendezvousRuns.EmptiedAnswers | FSPServer/backup_requests_manager.h:78-84 | emptying one list answers each of its live requesters once and leaves every other query's account as it was |
| RendezvousRuns.AskBooks | FSPServer/connection_manager.cpp:371-444 | on each of its five ways a query is either answered or put into one list, and all earlier accounts stay right |
| RendezvousRuns.NextKeeps | FSPServer/connection_manager.cpp:371-540 | every step of queries, replies, timers, greetings and completions keeps the whole protocol invariant |
| RendezvousRuns.ChangeNeverCaches | FSPServer/VirtualFileSystemTree.h:144-218 | adding, removing or renaming never changes the flag of a path that stays |
| RendezvousTheorems.AnsweredExactlyOnce | FSPServer/connection_manager.cpp:371-540 | in every reachable state a query has at most one answer, waits in at most one place, never both, and one of the two while its requester is there |
| RendezvousTheorems.AnswersStay | FSPServer/connection_manager.cpp:325-334 | answers are only ever added |
| RendezvousTheorems.UploadStays | FSPServer/download_manager.cpp:369-381 | in every run a stored upload stays stored until it ends, and is gone from then on |
| RendezvousTheorems.LiveUntilItDies | FSPServer/backup_requests_manager.h:63-84 | in every run a requester is there until its connection dies, and not any more then |
| RendezvousTheorems.AnsweredAtOnceExactly | FSPServer/connection_manager.cpp:371-407 | a query is answered at once, once and alone, if and only if the versions differ, the file is unknown or it is cached; it is told of the version if and only if that differs, and approved only for a cached file |
| RendezvousTheorems.WaitsOtherwise | FSPServer/connection_manager.cpp:408-443 | else it goes to the front of the one list for its file, behind which those waiting already stay; the list is new, with a new ID, a running timer and the owner asked, if and only if nobody waited for the file |
| RendezvousAnswers.NegotiatedIs | FSPServer/connection_manager.cpp:300-313 | the agreed compression is zlib if it is offered, else gzip if that is, else none |
| RendezvousAnswers.CachedAnswer | FSPServer/connection_manager.cpp:336-407 | a query for a cached file is answered at once: approved if and only if the local file is there, readable, not empty and not locked, with its size and a new stored transaction on that file, compressed if and only if zlib is offered and it is larger than 100 MB; denied otherwise |
| RendezvousAnswers.WaitsWith | FSPServer/connection_manager.cpp:408-443 | a query that waits does so with its own connection and the compression agreed on with it |
| RendezvousAnswers.RunKeepsPlace | FSPServer/backup_requests_manager.h:63-84 | in every run a waiter waits in the list it has waited in, with the request it had |
| RendezvousTheorems.NoticesAreOwn | FSPServer/connection_manager.cpp:457-480 | in every run an owner is told to send only under an ID under which it was asked for a file of its own |
| RendezvousTransfers.ApprovalAccepted | FSPServer/connection_manager.cpp:490-504 | an approval of a request still backed up can always be carried out, with the announced size and the first of the server's compressions that the owner offers; the request's timer is stopped |
| RendezvousTransfers.BeginTells | FSPServer/connection_manager.cpp:528-539 | the owner, if it is there, is told the ID and the mode of a transaction that was started, and nobody is told of one that was not |
| RendezvousTransfers.ApprovedFileArrives | FSPServer/download_manager.cpp:230-291 | in every run, a file of the announced size that is sent without an error for an approval, compressed if and only if the approved mode is zlib, and of which nothing is lost, is received with success, and its local file holds exactly that file |
| RendezvousTheorems.NoWaiterOrphaned | FSPServer/backup_requests_manager.h:63-84 | every list has its own armed timer, an approval or refusal under way, a transaction of its ID with an armed timer or a running receiver, or the download thread; it is the only list for its file |
| RendezvousProgress.Resolves | FSPServer/download_manager.cpp:250-284 | from every state of the invariant the server's own threads can empty any list within ten steps, whatever the clients do not do |
| RendezvousProgress.WaiterCanBeAnswered | FSPServer/backup_requests_manager.h:63-84 | from every reachable state a waiting live requester can be brought to its answer by the server alone |
| RendezvousProgress.AdvancesCloses | FSPServer/download_manager.cpp:250-284 | every outcome of a step of the agent nearest to a waiting list empties the list or brings its end strictly closer |
| RendezvousProgress.NeverFarther | FSPServer/connection_manager.cpp:371-540 | no step of anybody takes a waiting list farther from its end |
| RendezvousProgress.AgentReady | FSPServer/backup_requests_manager.h:63-84 | the agent nearest to a list has a step to take, unless it waits for the download thread |
| RendezvousProgress.RunBringsCloser | FSPServer/connection_manager.cpp:371-540 | no run takes a list that stays farther from its end, and one in which its nearest agent steps brings it strictly closer, by a measure bounded below |
| RendezvousLiveness.Emptied | FSPServer/backup_requests_manager.h:63-84 | in every infinite behaviour in which the agent nearest to a list is never held up for ever, the list is emptied |
| RendezvousLiveness.EveryQueryAnswered | FSPServer/connection_manager.cpp:371-540 | in every infinite behaviour from the start in which no such agent is held up for ever, every query of a requester that stays is answered |
| RendezvousTheorems.ApprovalsNameTheirTransactions | FSPServer/download_manager.cpp:342-374 | with uploads begun in one step, every approval names its own transaction, begun on the file its query asked for, in the announced mode; the next ID is unused |
| RendezvousTheorems.CachedOnlyAfterArrival | FSPServer/connection_manager.cpp:503-514 | in every run a node becomes cached only in the completion of the receiver for that owner and path whose one verdict was success, which has written exactly the announced number of bytes and whose handle is closed |
| RendezvousFiles.OpenFileHolds | FSPServer/stream_mode_file_receiver.cpp:15-41 | in every run a file that a transaction holds open, and nobody unlinked, holds exactly what its receiver wrote |
| RendezvousFiles.MarkedFileExactly | FSPServer/download_manager.cpp:233-255 | when a node is about to be marked its file is there and holds what was received, of the announced size, if and only if it was there when closed and nobody unlinked it or created it anew since, or it is there and nothing was announced |
| RendezvousFiles.EmptyFileCached | FSPServer/download_manager.cpp:235-243 | a run from the start comes to where a node is to be marked whose file is empty although one byte was announced and received |
| RendezvousFiles.TakesExactly | FSPServer/VirtualFileSystemTree.h:176-218 | a change takes a path out of a tree if and only if it removes the path or one above it, or gives one of these another name |
| RendezvousFiles.MarkFindsUnlessLost | FSPServer/connection_manager.cpp:446-455 | in every run, from any moment at which the path was known, the marking finds it and sets its flag unless somebody lost it on the way |
| RendezvousFiles.LastChanceToLose | FSPServer/connection_manager.cpp:449-453 | just before the marking, a step makes the assertion fail if and only if it is a change by the owner that takes the path away |
| RendezvousFiles.MarkMisses | FSPServer/connection_manager.cpp:452 | a run from the start comes to where the owner is there, the path is gone, and the assertion fails |
| RendezvousTheorems.DownloadedIsUnlinked | FSPServer/connection_manager.cpp:405-406 | the concatenated owner and path is the node's local path if and only if the path is canonical |
| RendezvousTimers.TimersOkUnlessRestarted | FSPServer/download_manager.cpp:272-290 | after every step an armed timer belongs to a stored transaction that is not being ended, unless the step was a second start for a transaction still stored, and then not |
| RendezvousTimers.RestartFails | FSPServer/download_manager.cpp:275-279 | with the timer of the transaction being ended armed, the server on its own comes to where the assertion fails |
| RendezvousTimers.EndFindsTransaction | FSPServer/download_manager.cpp:250-284 | in every run without a second start for a stored transaction, the end of a transaction finds it and no timer outlives one |
| RendezvousTimers.RestartIsFatal | FSPServer/download_manager.cpp:272-290 | after the first such start of any run the server can go on, by itself, to where the assertion that ends the transaction fails |
| RendezvousTimers.RestartPossible | FSPServer/download_manager.cpp:286-289 | wherever a request waits for a file nobody writes to, with no approval yet and the download thread idle, a run leads to such a start |
| RendezvousTimers.EndMissesTransaction | FSPServer/download_manager.cpp:275-279 | a run from the start, with any receiver set-up, ends where the transaction to be ended is not there |
| DownloadManagers.RequestsBackupManager.BackupAndStartTimer | FSPServer/backup_requests_manager.h:62-76 | stores the entry under its new ID with its timer running, and no other |
| DownloadManagers.RequestsBackupManager.Take | FSPServer/backup_requests_manager.h:78-84 | gives the waiting list and erases the entry; an ID without one gives an empty list and leaves nothing behind |
| DownloadManagers.RequestsBackupManager.IsRequestIDValid | FSPServer/backup_requests_manager.cpp:14-25 | is true if and only if the entry is there; then its timer is stopped and its file returned |
| DownloadManagers.RequestsBackupManager.IsDownloadPending | FSPServer/backup_requests_manager.cpp:36-48 | is true if and only if some entry is for that owner and path; then the request is at the front of that entry's list |
| DownloadManagers.DownloadManager.BeginDownloadTransaction | FSPServer/download_manager.cpp:230-291 | does nothing when the file cannot be created; else the file is empty, the timer of the ID starts, and a transaction is stored unless one is |
| DownloadManagers.DownloadManager.CloseDownloadTransaction | FSPServer/download_manager.cpp:293-301 | closes the file of that transaction if it is stored |
| DownloadManagers.DownloadManager.EndDownloadTransaction | FSPServer/download_manager.cpp:303-308 | erases that transaction and says whether there was one |
| DownloadManagers.DownloadManager.TryStartDownloadTransaction | FSPServer/download_manager.cpp:310-322 | a known transaction's timer stops and its receiver runs on what the sender sends; an unknown ID changes nothing |
| DownloadManagers.DownloadManager.BeginUploadTransaction | FSPServer/download_manager.cpp:324-374 | refuses an empty, unreadable or locked file; else stores a deliverer under the returned ID in the returned mode, which is zlib if and only if that was wanted and the file is larger than 100 MB |
| DownloadManagers.DownloadManager.EndUploadTransaction | FSPServer/download_manager.cpp:376-381 | erases that transaction and says whether there was one |
| DownloadManagers.GetCompression | FSPServer/connection_manager.cpp:300-313 | finds the first of the server's compressions that the user offers, in the server's order, and none if there is none |
| DownloadResolvers.DownloadResolver.DeliverFileFromLocalStorage | FSPServer/connection_manager.cpp:336-369 | sends one answer, an approval with the stored transaction's ID and mode or a denial |
| DownloadResolvers.DownloadResolver.ResolveDownloadFileQuerry | FSPServer/connection_manager.cpp:371-444 | takes exactly the protocol's query step on every branch |
| DownloadResolvers.DownloadResolver.ResolveDownloadReply | FSPServer/connection_manager.cpp:482-540 | only an approval of a request still backed up acts: it starts the transfer and tells the owner under which ID to send, or denies everybody when that fails |
| DownloadResolvers.DownloadResolver.DenyWaiting | FSPServer/connection_manager.cpp:325-334 | the loop denies each live requester of the list once, in order, and erases the list |
| DownloadResolvers.DownloadResolver.DeliverWaiting | FSPServer/connection_manager.cpp:510-513 | the loop begins one transaction and sends one answer for each live requester, in order, and erases the list |
| DownloadResolvers.DownloadResolver.SetFileToCached | FSPServer/connection_manager.cpp:446-455 | sets that flag in the owner's tree if the owner is there, and says whether the asserted path was found |
| DownloadResolvers.DownloadResolver.OnDownloadCompleted | FSPServer/connection_manager.cpp:504-520 | success marks the file and serves the list, failure denies it |
| DownloadResolvers.DownloadResolver.CompleteDownload | FSPServer/download_manager.cpp:250-255 | is the download thread's steps from the verdict to the end of the transaction, in that order |
| DownloadResolvers.DownloadResolver.ExpireDownload | FSPServer/download_manager.cpp:273-284 | is the download thread's steps from the expiry to the end of the transaction |
| DownloadResolvers.DownloadResolver.ReceiverCompletes | FSPServer/download_manager.cpp:250-269 | a completion of the receiver is that step of the protocol, and its verdict sets the download thread to work |
| DownloadResolvers.DownloadResolver.NotifyFileDownload | FSPServer/connection_manager.cpp:457-480 | tells the owner the ID and the mode if it is there, and nobody else |
| DownloadResolvers.ApproveIsRun | FSPServer/connection_manager.cpp:482-540 | what the handling of an approval does is a run of the protocol: the acceptance, the start, and the denial if that fails |
| DownloadResolvers.CompletedIsRun | FSPServer/download_manager.cpp:250-284 | what the download thread does until it is done is a run of the protocol |
| DownloadResolvers.QueriesResolvable | FSPServer/backup_requests_manager.cpp:36-48 | in every state of a run there is one list for each file at most and the next request ID is free, which is what resolving a query counts on |
| DownloadResolvers.CompletedServes | FSPServer/connection_manager.cpp:504-514 | after a transfer that succeeded every live waiter, once and in order, is approved if and only if the file is good when it is served, and denied otherwise |
| DownloadResolvers.CompletedRefuses | FSPServer/connection_manager.cpp:515-526 | after one that failed or expired every live waiter is denied, once and in order |
| DownloadResolvers.QueryServedInTheEnd | FSPServer/connection_manager.cpp:371-514 | from a query through any run to the success of the transfer it waits for: its requester, if still there, is approved if and only if the file is good then, with a transaction on the file it asked for, compressed if and only if it offered zlib and the file is large |
| SharedTrees.StepFollows | FSPServer/connection_manager.cpp:388-390 | every step of the notifications, a marking apart, is a run of the download protocol that changes the trees alike and nothing else but local files |
| SharedTrees.RunFollows | FSPServer/connection_manager.cpp:388-390 | every run of the notifications without a marking is matched by a run of the downloads with the same trees |
| SharedTrees.ChangeFollows | FSPServer/VirtualFileSystemTree.h:63-79 | a change of a tree is the download protocol's change, and if it removes a path exactly the local files of the cached nodes below it go |
| SharedTrees.DisconnectFollows | FSPServer/connection_manager.cpp:62-91 | a user that leaves takes the local files of its cached nodes along, and those in its directory if that is cleaned up, and no other |
| SharedTrees.AskedOwnerCanReply | FSPServer/transition_validator.cpp:31-39 | in every run an owner whose file was known when it was asked for has its approval let through the gate, while it is connected and not just being registered |
| SharedTrees.MarkFollows | FSPServer/connection_manager.cpp:446-455 | marking a file in the trees that downloads see is the caching step of its owner in the notifications |
| SharedTrees.FindShared | FSPServer/connection_manager.cpp:387-393 | a query's look-up in the owner's heap tree finds the path, and its flag, if and only if the download protocol knows it |
| SharedTrees.SetFileToCached | FSPServer/connection_manager.cpp:446-455 | the owner's heap tree is marked exactly as the download protocol marks it, the record of every user stays that of its tree, and what is asserted holds exactly when the protocol says so |
| UploadRace.OwnUnlessOvertaken | FSPServer/download_manager.cpp:367-373 | in every run an approval names the transaction of the first thread that stores after its ID was read: its own if and only if nobody stores between that read and its store |
| UploadRace.KeysNeverCollide | FSPServer/download_manager.cpp:369-373 | however threads interleave, every transaction is stored under a key that no other had before it |
| UploadRace.ApprovalsName | FSPServer/download_manager.cpp:367-373 | in every run every approval names a transaction that was begun, its own or an earlier one |
| UploadRace.AllOwnExactly | FSPServer/download_manager.cpp:367-373 | in every run all approvals name their own transactions if and only if no two announce the same ID |
| UploadRace.CleansUpOwnUnlessOvertaken | FSPServer/download_manager.cpp:348-371 | a thread's clean-up will erase its own transaction if and only if nobody stores between the read for its handler and its store |
| UploadRace.CleanUpExactly | FSPServer/download_manager.cpp:348 | in every run a clean-up erases its own transaction if it read its key, else an earlier thread's while its own stays, and finds none if and only if that earlier one is gone already |
| UploadRace.CleanUpFinds | FSPServer/download_manager.cpp:348 | as long as every clean-up handler has read the key its transaction was stored by, every clean-up finds its own transaction and the assertion holds |
| UploadRace.CleanUpHitsAnother | FSPServer/download_manager.cpp:348 | a run from the start in which the clean-up of one deliverer is about to destroy another that is running |
| UploadRace.CleanUpMisses | FSPServer/download_manager.cpp:348 | a run from the start in which a clean-up finds nothing, so that the assertion fails |
| UploadRace.UninterruptedIsOneStep | FSPServer/download_manager.cpp:342-374 | a thread that is not interrupted stores and announces what the one-step model of an upload does, and names its own transaction |
| UploadRace.InterleavedReadsCollide | FSPServer/download_manager.cpp:367-373 | two threads that both read before either stores announce one ID, that of the first; a third that reads between their stores announces an ID never announced before, that of the second; all three transactions are stored |
| ChunkHeader.HeaderRoundTrip | FSPServer/compressed_mode_file_deliver.cpp:32-34 | the padded length fills the header exactly, and reading the header gives the length, if and only if the length is below ten to the width |
| ChunkHeader.AtollStops | FSPServer/compressed_mode_file_receiver.cpp:25-26 | what an earlier chunk left behind the terminating zero does not change the number read |
| ChunkHeader.DecimalSteps | FSPServer/compressed_mode_file_deliver.cpp:32-34 | numbers are written in decimal, digit by digit, the last for the units |
| ChunkHeader.AtollSteps | FSPServer/compressed_mode_file_receiver.cpp:26 | a C number: each further digit counts for its place, a sign is heeded, spaces in front are skipped, and what is no digit ends it |
| ChunkHeader.ReadNumber | FSPServer/compressed_mode_file_receiver.cpp:26 | the scan over the buffer computes the C number at its start: spaces, a sign, digits |
| Delivery.CleansUpOnce | FSPServer/stream_file_deliver.cpp:13-45 | on every run the clean-up handler has been called once exactly when nothing is under way; what was sent is a beginning of the frames of what was read |
| Delivery.Ends | FSPServer/compressed_mode_file_deliver.cpp:22-65 | a deliverer's run is no longer than three steps a byte |
| Delivery.CleansUpExactly | FSPServer/compressed_mode_file_deliver.cpp:22-65 | a deliverer ends with a failed read, a read of nothing at the end of the file, a header or body not sent whole, or the write of the last bytes, and with nothing else |
| Delivery.CleanRunCompletes | FSPServer/compressed_mode_file_deliver.cpp:22-65 | without an error the frames sent before the clean-up carry the whole file, whatever its length and the sizes of its reads, a final read of nothing included |
| Delivery.StreamDelivers | FSPServer/stream_file_deliver.cpp:13-45 | in stream mode what was sent is always a beginning of the file, and without an error the file |
| FileDelivers.StreamModeFileDeliver.HandleRead | FSPServer/stream_file_deliver.cpp:13-27 | is the machine's read step: write the bytes, remember the end, or clean up |
| FileDelivers.StreamModeFileDeliver.HandleWrite | FSPServer/stream_file_deliver.cpp:29-45 | is the machine's write step: read on, or clean up when done or failed |
| FileDelivers.CompressedModeFileDeliver.HandleRead | FSPServer/compressed_mode_file_deliver.cpp:22-47 | is the machine's read step: header, then the compressed chunk kept for the write, or clean up |
| FileDelivers.CompressedModeFileDeliver.HandleWrite | FSPServer/compressed_mode_file_deliver.cpp:49-65 | is the machine's write step |
| Reception.OneVerdict | FSPServer/abstract_file_receiver.h:40-45 | on every run, whatever arrives or fails, one verdict is reported exactly when nothing is under way, and success means the announced number of bytes is on the disk |
| Reception.ReportsExactly | FSPServer/compressed_mode_file_receiver.cpp:29-69 | a receiver ends with a header cut short, a read that brought nothing, a chunk that cannot be decompressed or a failed write, and with nothing else |
| Reception.EveryVerdict | FSPServer/stream_mode_file_receiver.cpp:15-41 | on every run, whatever failed, the verdict is success if and only if the announced size was written, except that a failed write in stream mode never is one |
| Reception.ClampedIs | FSPServer/compressed_mode_file_receiver.cpp:26 | a body's length is what was read as an unsigned 64-bit number, cut to the buffer |
| Reception.Ends | FSPServer/compressed_mode_file_receiver.cpp:29-69 | a receiver's run on a finite input is no longer than three steps a byte and one |
| Reception.StepConserves | FSPServer/compressed_mode_file_receiver.cpp:29-63 | what is on the disk followed by what the rest of the input decodes to never changes |
| Reception.VerdictExact | FSPServer/stream_mode_file_receiver.cpp:15-41 | without disk errors the disk holds what the input decodes to, and success is reported if and only if that has the announced size |
| Reception.FramesDecode | FSPServer/compressed_mode_file_receiver.cpp:14-63 | parsing and decompressing the frames of fitting chunks gives the chunks |
| Reception.TransferRoundTrip | FSPServer/compressed_mode_file_deliver.cpp:22-65 | a file sent and received without an error is written byte for byte and reported as a success, in both modes and for any chunking |
| FileReceivers.StreamModeFileReceiver.HandleRead | FSPServer/stream_mode_file_receiver.cpp:15-28 | is the machine's read step: store what came even with an error, else compare sizes |
| FileReceivers.StreamModeFileReceiver.HandleWrite | FSPServer/stream_mode_file_receiver.cpp:30-41 | is the machine's write step: count and read on, or report failure |
| FileReceivers.CompressedModeFileReceiver.ReadHeader | FSPServer/compressed_mode_file_receiver.cpp:21-26 | the header read over old buffer contents and closed with a zero gives the length of the next body, cut to the buffer |
| FileReceivers.CompressedModeFileReceiver.HandleRead | FSPServer/compressed_mode_file_receiver.cpp:29-49 | is the machine's read step: decompress and store, or compare sizes on an error or an exception |
| FileReceivers.CompressedModeFileReceiver.HandleWrite | FSPServer/compressed_mode_file_receiver.cpp:51-69 | is the machine's write step followed by its header step, or the size comparison |
| PriorityScheduler.PostedIsQueuedPlusTaken | FSPServer/priority_scheduler.h:85-106 | for any number of workers, posted items are the queued and the taken ones, none taken twice, and none taken after the stop |
| PriorityScheduler.ItemsAsPosted | FSPServer/priority_scheduler.h:50-57 | in every run as many items were posted as there are posting steps, each, waiting or taken, has the priority of its own, and the scheduler is stopped if and only if somebody stopped it |
| PriorityScheduler.HigherFirst | FSPServer/priority_scheduler.h:132-140 | in every run, of an item that waits and one posted with a strictly lower priority that is taken later, the first is taken first |
| PriorityScheduler.Scheduler.Post | FSPServer/priority_scheduler.h:50-57 | puts the item, with its priority, into the queue, also after the stop |
| PriorityScheduler.Scheduler.RunOnce | FSPServer/priority_scheduler.h:85-99 | quits if and only if stopped, waits if and only if there is nothing, and else takes an item of the highest priority |
| PriorityScheduler.Scheduler.Stop | FSPServer/priority_scheduler.h:101-106 | stops the workers and leaves the queue as it is |

## Left out

- Sockets, TLS, acceptors, signals, overlapped file handles and the SQLite users' database: their results are parameters or free choices of a run.
- The message parser and builders, the timer and the compressors live in a directory that is not part of this model; a compressor is a pair of functions with `decompress(compress(x)) == x`.
- Connections are records in the manager's map, not heap objects, so their lifetime (`delete this`, weak pointers that expire late) is only there as "live" or not.
- Counters are unbounded integers, and `atoll` is without overflow.
- VirtualFileSystem.VirtualFileSystemTree.Rename: does not model the renaming of the local file of a cached node, because the original appends the new name to the old file's path instead of its directory; only the tree is renamed, and the local file stays where it is.
- `PathToMe` and `MyPath`, which nothing calls.
- The expiry of uploads, whose timer is never started. Whether a leaving user's directory is cleaned up, which the last one to leave skips, is a choice of the run.
- BroadcastRuns.ViewsConverge: does not model what users do after a change that gives some node two children of one name, because such a tree stands for no map any more; when that happens is exact in `VirtualFileSystem.VirtualFileSystemTree.Add` and `Rename`.
- BroadcastRuns.QuietViewsExact: the same changes are no steps of its runs.
- ServerSideHandler.DoPushFiles: does not model a push that gives some node two children of one name, for the same reason.
- RendezvousTheorems.ApprovalsNameTheirTransactions: takes the beginning of an upload for one step; what interleaved reads of the counter do to approvals is exact in `UploadRace`.
- DownloadManagers.DownloadManager.BeginUploadTransaction: is one step for the same reason.
- RendezvousProgress.WaiterCanBeAnswered: is about what the server can do; that it is done if its threads and timers go on is `RendezvousLiveness.EveryQueryAnswered`.
- SharedTrees.RunFollows: leaves out runs with markings, whose single steps `SharedTrees.MarkFollows` matches, because a marking belongs to a download that the notifications do not know.
- Account deletion and sign-up in the users' database, heartbeat and the other validators: single branches. A nickname whose account is deleted could be signed up again while its bearer is still connected; that is ruled out by the assumption on nicknames.
- PriorityScheduler.Scheduler.RunOnce: is one turn of a worker's endless loop, without the condition variable.
